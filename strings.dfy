/** The few pieces of Go's `strings` and `path/filepath` packages that the provider
    relies on, over strings modelled as sequences of Unicode code points. */
module Strings {

  /** Go's `unicode.IsSpace`: the Latin-1 spaces plus the other code points with
      the Unicode White_Space property. */
  predicate IsSpace(c: char) {
    || c == ' ' || c == '\t' || c == '\n' || c == '\r' || c == '\U{000B}' || c == '\U{000C}'
    || c == '\U{0085}' || c == '\U{00A0}' || c == '\U{1680}'
    || ('\U{2000}' <= c <= '\U{200A}')
    || c == '\U{2028}' || c == '\U{2029}' || c == '\U{202F}' || c == '\U{205F}' || c == '\U{3000}'
  }

  predicate AllSpace(s: string) {
    forall i :: 0 <= i < |s| ==> IsSpace(s[i])
  }

  /** Neither the first nor the last character is white space. */
  predicate IsTrimmed(s: string) {
    s == [] || (!IsSpace(s[0]) && !IsSpace(s[|s| - 1]))
  }

  /** Drops the white space at the front; what is left does not start with
      white space. */
  function TrimLeft(s: string): (r: string)
    ensures |r| <= |s|
    ensures r == [] || !IsSpace(r[0])
  {
    if s != [] && IsSpace(s[0]) then TrimLeft(s[1..]) else s
  }

  /** Drops the white space at the back; what is left does not end with white
      space, and starts where `s` does. */
  function TrimRight(s: string): (r: string)
    ensures |r| <= |s|
    ensures r == [] || !IsSpace(r[|r| - 1])
    ensures r != [] ==> r[0] == s[0]
  {
    if s != [] && IsSpace(s[|s| - 1]) then TrimRight(s[..|s| - 1]) else s
  }

  /** `TrimLeft` keeps a suffix of `s` and drops only white space. */
  lemma {:induction false} TrimLeftSuffix(s: string)
    ensures TrimLeft(s) == s[|s| - |TrimLeft(s)|..]
    ensures AllSpace(s[..|s| - |TrimLeft(s)|])
    decreases |s|
  {
    if s != [] && IsSpace(s[0]) {
      var t := s[1..];
      TrimLeftSuffix(t);
      var n := |s| - |TrimLeft(t)|;
      assert s[n..] == t[n - 1..];
      assert s[..n][1..] == t[..n - 1];
      AllSpaceCons(s[..n]);
    }
  }

  /** `TrimRight` keeps a prefix of `s` and drops only white space. */
  lemma {:induction false} TrimRightPrefix(s: string)
    ensures TrimRight(s) == s[..|TrimRight(s)|]
    ensures AllSpace(s[|TrimRight(s)|..])
    decreases |s|
  {
    if s != [] && IsSpace(s[|s| - 1]) {
      var t := s[..|s| - 1];
      TrimRightPrefix(t);
      var n := |TrimRight(t)|;
      assert s[..n] == t[..n];
      assert s[n..][..|s| - 1 - n] == t[n..];
      AllSpaceSnoc(s[n..]);
    }
  }

  /** The number of white-space characters `TrimSpace` drops at the front. */
  function LeadingSpace(s: string): nat {
    |s| - |TrimLeft(s)|
  }

  /** Go's `strings.TrimSpace`: what is left after dropping the white space at
      both ends; it neither starts nor ends with white space. */
  function TrimSpace(s: string): (r: string)
    ensures IsTrimmed(r)
  {
    TrimRight(TrimLeft(s))
  }

  /** The trimmed string is the infix of `s` between its leading and its
      trailing white space. */
  lemma TrimSpaceInfix(s: string)
    ensures LeadingSpace(s) + |TrimSpace(s)| <= |s|
    ensures TrimSpace(s) == s[LeadingSpace(s)..LeadingSpace(s) + |TrimSpace(s)|]
    ensures AllSpace(s[..LeadingSpace(s)]) && AllSpace(s[LeadingSpace(s) + |TrimSpace(s)|..])
  {
    var left := TrimLeft(s);
    var r := TrimRight(left);
    TrimLeftSuffix(s);
    TrimRightPrefix(left);
    assert s[LeadingSpace(s) + |r|..] == left[|r|..];
  }

  /** A trimmed string is its own trim. */
  lemma TrimmedIsFixpoint(s: string)
    requires IsTrimmed(s)
    ensures TrimSpace(s) == s
  {
    assert TrimLeft(s) == s;
    assert TrimRight(s) == s;
  }

  lemma TrimSpaceIdempotent(s: string)
    ensures TrimSpace(TrimSpace(s)) == TrimSpace(s)
  {
    TrimmedIsFixpoint(TrimSpace(s));
  }

  lemma AllSpaceCons(s: string)
    requires s != []
    ensures AllSpace(s) <==> IsSpace(s[0]) && AllSpace(s[1..])
  {
    assert forall i :: 1 <= i < |s| ==> s[i] == s[1..][i - 1];
  }

  lemma AllSpaceSnoc(s: string)
    requires s != []
    ensures AllSpace(s) <==> AllSpace(s[..|s| - 1]) && IsSpace(s[|s| - 1])
  {
    assert forall i :: 0 <= i < |s| - 1 ==> s[i] == s[..|s| - 1][i];
  }

  /** Only an all-white-space string loses everything to `TrimLeft`. */
  lemma {:induction false} TrimLeftEmptyIff(s: string)
    ensures TrimLeft(s) == [] <==> AllSpace(s)
    decreases |s|
  {
    if s != [] {
      TrimLeftEmptyIff(s[1..]);
      AllSpaceCons(s);
    }
  }

  /** Likewise for `TrimRight`. */
  lemma {:induction false} TrimRightEmptyIff(s: string)
    ensures TrimRight(s) == [] <==> AllSpace(s)
    decreases |s|
  {
    if s != [] {
      TrimRightEmptyIff(s[..|s| - 1]);
      AllSpaceSnoc(s);
    }
  }

  /** A string trims to the empty string exactly when it is all white space. */
  lemma TrimSpaceEmptyIff(s: string)
    ensures TrimSpace(s) == [] <==> AllSpace(s)
  {
    TrimLeftEmptyIff(s);
    TrimRightEmptyIff(TrimLeft(s));
  }

  /** ASCII lower-casing of one character. */
  function Lower(c: char): (d: char)
    ensures !('A' <= d <= 'Z')
    ensures 'a' <= d <= 'z' ==> d == c || d as int == c as int + 32
  {
    if 'A' <= c <= 'Z' then (c as int + 32) as char else c
  }

  predicate HasPrefix(s: string, prefix: string) {
    |prefix| <= |s| && s[..|prefix|] == prefix
  }

  /** Go's `strings.LastIndex` for a one-character separator: -1 when `c` does
      not occur. */
  function LastIndexOf(s: string, c: char): (r: int)
    ensures -1 <= r < |s|
    ensures r >= 0 ==> s[r] == c
  {
    if s == [] then -1
    else if s[|s| - 1] == c then |s| - 1
    else LastIndexOf(s[..|s| - 1], c)
  }

  /** No `c` follows the one `LastIndexOf` finds; -1 means there is none. */
  lemma {:induction false} LastIndexOfIsLast(s: string, c: char)
    ensures forall j :: LastIndexOf(s, c) < j < |s| ==> s[j] != c
    decreases |s|
  {
    if s != [] && s[|s| - 1] != c {
      var t := s[..|s| - 1];
      LastIndexOfIsLast(t, c);
      assert forall j :: 0 <= j < |t| ==> s[j] == t[j];
    }
  }

  /** In `a + [c] + b` with no `c` in `b`, the last `c` is the one after `a`. */
  lemma {:induction false} LastIndexAfter(a: string, c: char, b: string)
    requires c !in b
    ensures LastIndexOf(a + [c] + b, c) == |a|
    decreases |b|
  {
    var s := a + [c] + b;
    if b != [] {
      var front := b[..|b| - 1];
      assert b[|b| - 1] in b;
      assert s[..|s| - 1] == a + [c] + front;
      assert forall x :: x in front ==> x in b;
      LastIndexAfter(a, c, front);
    }
  }

  /** When no `c` follows position `i`, none is left after cutting there, and
      with `i` at -1 there is none at all. */
  lemma NoneAfter(s: string, c: char, i: int)
    requires -1 <= i < |s|
    requires forall j :: i < j < |s| ==> s[j] != c
    ensures c !in s[i + 1..]
    ensures i < 0 ==> c !in s
  {
    var rest := s[i + 1..];
    forall k | 0 <= k < |rest| ensures rest[k] != c {
      assert rest[k] == s[i + 1 + k];
    }
    if i < 0 {
      assert rest == s;
    }
  }

  /** Go's `strings.Index` for a one-character separator. */
  function IndexOf(s: string, c: char): (r: int)
    ensures -1 <= r < |s|
    ensures r >= 0 ==> s[r] == c
  {
    if s == [] then -1
    else if s[0] == c then 0
    else var k := IndexOf(s[1..], c); if k < 0 then -1 else k + 1
  }

  /** No `c` precedes the one `IndexOf` finds; -1 means there is none. */
  lemma {:induction false} IndexOfIsFirst(s: string, c: char)
    ensures forall j :: 0 <= j < |s| && (IndexOf(s, c) < 0 || j < IndexOf(s, c)) ==> s[j] != c
    decreases |s|
  {
    if s != [] && s[0] != c {
      var t := s[1..];
      IndexOfIsFirst(t, c);
      assert forall j :: 1 <= j < |s| ==> s[j] == t[j - 1];
    }
  }

  /** Appending to a string that already holds `c` does not move its first `c`. */
  lemma {:induction false} IndexOfKeptByAppend(a: string, x: string, c: char)
    requires IndexOf(a, c) >= 0
    ensures IndexOf(a + x, c) == IndexOf(a, c)
    decreases |a|
  {
    if a[0] != c {
      assert (a + x)[1..] == a[1..] + x;
      IndexOfKeptByAppend(a[1..], x, c);
    }
  }

  /** In `a + [c] + b` with no `c` in `a`, the first `c` is the one after `a`. */
  lemma IndexAfterPrefix(a: string, c: char, b: string)
    requires c !in a
    ensures IndexOf(a + [c] + b, c) == |a|
  {
    var s := a + [c] + b;
    IndexOfIsFirst(s, c);
    assert s[|a|] == c;
    assert forall j :: 0 <= j < |a| ==> s[j] == a[j];
  }

  /** A separator that cannot occur in the first part splits a joined pair
      uniquely. */
  lemma SeparatedPairInjective(a1: string, b1: string, a2: string, b2: string, c: char)
    requires c !in a1 && c !in a2
    requires a1 + [c] + b1 == a2 + [c] + b2
    ensures a1 == a2 && b1 == b2
  {
    IndexAfterPrefix(a1, c, b1);
    IndexAfterPrefix(a2, c, b2);
    var s := a1 + [c] + b1;
    assert a1 == s[..|a1|] && b1 == s[|a1| + 1..];
  }

  /** Go's `strings.Split` for a one-character separator: the pieces between
      consecutive occurrences of `sep`; a string without `sep` is one piece. */
  function Split(s: string, sep: char): (parts: seq<string>)
    ensures |parts| >= 1
    decreases |s|
  {
    var i := IndexOf(s, sep);
    if i < 0 then [s] else [s[..i]] + Split(s[i + 1..], sep)
  }

  /** No piece of a split holds the separator. */
  lemma {:induction false} SplitPiecesFree(s: string, sep: char)
    ensures forall i :: 0 <= i < |Split(s, sep)| ==> sep !in Split(s, sep)[i]
    decreases |s|
  {
    var i := IndexOf(s, sep);
    IndexOfIsFirst(s, sep);
    if i >= 0 {
      SplitPiecesFree(s[i + 1..], sep);
      assert sep !in s[..i] by {
        forall j | 0 <= j < i ensures s[..i][j] != sep {
          assert s[..i][j] == s[j];
        }
      }
    } else {
      assert sep !in s by {
        forall j | 0 <= j < |s| ensures s[j] != sep {
        }
      }
    }
  }

  /** Go's `strings.Join`. */
  function JoinWith(parts: seq<string>, sep: string): string {
    if |parts| == 0 then ""
    else if |parts| == 1 then parts[0]
    else parts[0] + sep + JoinWith(parts[1..], sep)
  }

  /** Joining the pieces of a split with the separator rebuilds the string. */
  lemma {:induction false} JoinSplit(s: string, sep: char)
    ensures JoinWith(Split(s, sep), [sep]) == s
    decreases |s|
  {
    var i := IndexOf(s, sep);
    if i >= 0 {
      JoinSplit(s[i + 1..], sep);
      assert s == s[..i] + [sep] + s[i + 1..];
    }
  }

  /** Joining one more piece appends the separator and that piece. */
  lemma {:induction false} JoinSnoc(parts: seq<string>, x: string, sep: string)
    requires |parts| >= 1
    ensures JoinWith(parts + [x], sep) == JoinWith(parts, sep) + sep + x
  {
    if |parts| > 1 {
      JoinSnoc(parts[1..], x, sep);
      assert (parts + [x])[1..] == parts[1..] + [x];
    }
  }

  /** `sub` occurs somewhere in `s`. */
  predicate Occurs(sub: string, s: string) {
    exists i :: 0 <= i <= |s| && HasPrefix(s[i..], sub)
  }

  /** Joining two non-empty lists joins their joins with the separator. */
  lemma {:induction false} JoinAppend(x: seq<string>, y: seq<string>, sep: string)
    requires |x| >= 1 && |y| >= 1
    ensures JoinWith(x + y, sep) == JoinWith(x, sep) + sep + JoinWith(y, sep)
    decreases |x|
  {
    assert (x + y)[0] == x[0] && (x + y)[1..] == x[1..] + y;
    if |x| > 1 {
      JoinAppend(x[1..], y, sep);
    }
  }

  /** Two neighbouring pieces appear in the joined text with the separator
      between them. */
  lemma JoinShowsPair(parts: seq<string>, p: nat, sep: string)
    requires p + 1 < |parts|
    ensures Occurs(parts[p] + sep + parts[p + 1], JoinWith(parts, sep))
  {
    var w := parts[p] + sep + parts[p + 1];
    var back := parts[p..];
    assert back[1..][0] == parts[p + 1];
    assert HasPrefix(JoinWith(back, sep), w) by {
      if |back| == 2 {
        assert JoinWith(back, sep) == w;
      } else {
        assert back[1..] == [parts[p + 1]] + back[2..];
        JoinAppend([parts[p + 1]], back[2..], sep);
      }
    }
    if p == 0 {
      assert parts == back && JoinWith(parts, sep)[0..] == JoinWith(back, sep);
    } else {
      var front := JoinWith(parts[..p], sep) + sep;
      assert parts == parts[..p] + back;
      JoinAppend(parts[..p], back, sep);
      assert JoinWith(parts, sep) == front + JoinWith(back, sep);
      assert JoinWith(parts, sep)[|front|..] == JoinWith(back, sep);
    }
  }

  function NonEmpty(elems: seq<string>): (r: seq<string>)
    ensures forall i :: 0 <= i < |r| ==> r[i] != []
    ensures |r| <= |elems|
  {
    if elems == [] then []
    else if elems[0] == [] then NonEmpty(elems[1..])
    else [elems[0]] + NonEmpty(elems[1..])
  }

  /** `filepath.Join` on a slash-separated file system: empty elements are
      ignored and the rest are joined with '/'. Lexical cleaning of the result
      is not modelled. */
  function PathJoin(elems: seq<string>): string {
    JoinWith(NonEmpty(elems), "/")
  }
}
