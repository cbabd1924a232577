/** How Go's `encoding/json` writes a string value (with HTML escaping on, as
    `json.Marshal` does), and a decoder for JSON string bodies as section 7 of
    RFC 8259 defines them, so that the encoding can be checked to lose
    nothing. */
module JsonString {
  import opened Results

  /** A lower-case hexadecimal digit. */
  function HexDigit(n: nat): (d: char)
    requires n < 16
    ensures ('0' <= d <= '9') || ('a' <= d <= 'f')
  {
    if n < 10 then ('0' as int + n) as char else ('a' as int + n - 10) as char
  }

  /** The value of a hexadecimal digit of either case. */
  function HexValue(d: char): (r: Option<nat>)
    ensures r.Some? ==> r.value < 16
  {
    if '0' <= d <= '9' then Some(d as int - '0' as int)
    else if 'a' <= d <= 'f' then Some(d as int - 'a' as int + 10)
    else if 'A' <= d <= 'F' then Some(d as int - 'A' as int + 10)
    else None
  }

  lemma HexDigitValue(n: nat)
    requires n < 16
    ensures HexValue(HexDigit(n)) == Some(n)
  {
  }

  /** Code points that `json.Marshal` writes as `\u` escapes: the control
      characters without a short escape, the HTML-sensitive `<`, `>` and `&`, and
      the line and paragraph separators. */
  predicate NeedsUnicodeEscape(c: char) {
    (c < ' ' && c != '\U{0008}' && c != '\U{000C}' && c != '\n' && c != '\r' && c != '\t')
    || c == '<' || c == '>' || c == '&' || c == '\U{2028}' || c == '\U{2029}'
  }

  /** How one code point is written inside the quotes. */
  function EscapeChar(c: char): (e: string)
    ensures |e| == 1 || |e| == 2 || |e| == 6
    ensures |e| == 1 <==> e == [c]
    ensures |e| > 1 ==> e[0] == '\\'
  {
    if c == '"' then "\\\""
    else if c == '\\' then "\\\\"
    else if c == '\U{0008}' then "\\b"
    else if c == '\U{000C}' then "\\f"
    else if c == '\n' then "\\n"
    else if c == '\r' then "\\r"
    else if c == '\t' then "\\t"
    else if NeedsUnicodeEscape(c) then
      var v := c as int;
      if v < 256 then "\\u00" + [HexDigit(v / 16), HexDigit(v % 16)]
      else "\\u202" + [HexDigit(v % 16)]
    else [c]
  }

  /** The body of the JSON string `json.Marshal` writes for `s` (without the
      surrounding quotes). */
  function Escape(s: string): string {
    if s == [] then [] else EscapeChar(s[0]) + Escape(s[1..])
  }

  function Prepend(c: char, rest: Option<string>): Option<string> {
    match rest
    case None => None
    case Some(t) => Some([c] + t)
  }

  /** The value of four hexadecimal digits. */
  function Hex4(t: string): (r: Option<nat>)
    requires |t| == 4
    ensures r.Some? ==> r.value < 0x10000
  {
    match (HexValue(t[0]), HexValue(t[1]), HexValue(t[2]), HexValue(t[3]))
    case (Some(a), Some(b), Some(c), Some(d)) => Some(((a * 16 + b) * 16 + c) * 16 + d)
    case _ => None
  }

  /** One escape sequence, `t` being what follows the backslash: the character
      it stands for and how many characters of `t` it uses. Escapes of
      surrogate halves are refused rather than paired. */
  function EscapeSequence(t: string): (r: Option<(char, nat)>)
    requires t != []
    ensures r.Some? ==> 1 <= r.value.1 <= |t|
  {
    match t[0]
    case '"' => Some(('"', 1))
    case '\\' => Some(('\\', 1))
    case '/' => Some(('/', 1))
    case 'b' => Some(('\U{0008}', 1))
    case 'f' => Some(('\U{000C}', 1))
    case 'n' => Some(('\n', 1))
    case 'r' => Some(('\r', 1))
    case 't' => Some(('\t', 1))
    case 'u' =>
      if |t| < 5 then None
      else (match Hex4(t[1..5])
        case None => None
        case Some(v) => if 0xD800 <= v < 0xE000 then None else Some((v as char, 5)))
    case _ => None
  }

  /** Decodes the body of a JSON string: None when it holds a bare quote, a
      bare control character or a bad escape. */
  function Unescape(t: string): Option<string>
    decreases |t|
  {
    if t == [] then Some([])
    else if t[0] == '\\' then
      if |t| < 2 then None
      else match EscapeSequence(t[1..])
        case None => None
        case Some((c, width)) => Prepend(c, Unescape(t[1 + width..]))
    else if t[0] == '"' || t[0] < ' ' then None
    else Prepend(t[0], Unescape(t[1..]))
  }

  /** A code point written as itself. */
  lemma UnescapePlain(c: char, t: string)
    requires |EscapeChar(c)| == 1
    ensures Unescape(EscapeChar(c) + t) == Prepend(c, Unescape(t))
  {
    var u := EscapeChar(c) + t;
    assert u[0] == c && u[1..] == t;
  }

  /** A code point written as a two-character escape. */
  lemma UnescapeShort(c: char, t: string)
    requires |EscapeChar(c)| == 2
    ensures Unescape(EscapeChar(c) + t) == Prepend(c, Unescape(t))
  {
    var e := EscapeChar(c);
    var rest := [e[1]] + t;
    assert e + t == ['\\'] + rest;
    assert rest[1..] == t;
  }

  /** A code point written as a `\u` escape. */
  lemma UnescapeUnicode(c: char, t: string)
    requires |EscapeChar(c)| == 6
    ensures Unescape(EscapeChar(c) + t) == Prepend(c, Unescape(t))
  {
    var e := EscapeChar(c);
    var v := c as int;
    var four := e[2..6];
    if v < 256 {
      HexDigitValue(v / 16);
      HexDigitValue(v % 16);
      assert four == ['0', '0', HexDigit(v / 16), HexDigit(v % 16)];
    } else {
      HexDigitValue(v % 16);
      assert four == ['2', '0', '2', HexDigit(v % 16)];
    }
    assert Hex4(four) == Some(v);
    var rest := ['u'] + four + t;
    assert e + t == ['\\'] + rest;
    assert rest[1..5] == four;
    assert rest[5..] == t;
    assert EscapeSequence(rest) == Some((c, 5));
  }

  /** Decoding the escape of one code point gives back that code point. */
  lemma UnescapeChar(c: char, t: string)
    ensures Unescape(EscapeChar(c) + t) == Prepend(c, Unescape(t))
  {
    var n := |EscapeChar(c)|;
    if n == 1 {
      UnescapePlain(c, t);
    } else if n == 2 {
      UnescapeShort(c, t);
    } else {
      UnescapeUnicode(c, t);
    }
  }

  /** Nothing is lost: decoding what `json.Marshal` writes gives back the
      string. */
  lemma {:induction false} UnescapeEscape(s: string)
    ensures Unescape(Escape(s)) == Some(s)
  {
    if s != [] {
      UnescapeEscape(s[1..]);
      UnescapeChar(s[0], Escape(s[1..]));
      assert [s[0]] + s[1..] == s;
    }
  }

  /** The written body is safe to embed in HTML and in a single line: it holds
      no control character, no `<`, `>` or `&`, and no line or paragraph
      separator. */
  lemma {:induction false} EscapeIsSafe(s: string)
    ensures forall i :: 0 <= i < |Escape(s)| ==> !(Escape(s)[i] < ' ') && !NeedsUnicodeEscape(Escape(s)[i])
  {
    if s != [] {
      EscapeIsSafe(s[1..]);
      var e := EscapeChar(s[0]);
      assert forall i :: 0 <= i < |e| ==> !(e[i] < ' ') && !NeedsUnicodeEscape(e[i]);
      assert forall i :: |e| <= i < |Escape(s)| ==> Escape(s)[i] == Escape(s[1..])[i - |e|];
    }
  }
}
