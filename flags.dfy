/** Optional command-line flags appended in a fixed order. Both the Helm
    connection flags and the install/upgrade flags are built the same way: a
    table lists every flag the code may append, in the order of its `if`
    statements, together with what each one carries; only the entries that are
    set become words on the command line. */
module Flags {

  /** What one `if` of the source appends: nothing, the flag alone, or the flag
      followed by its value. */
  datatype Setting = Unset | Bare | Valued(value: string)

  datatype Entry = Entry(name: string, setting: Setting)

  /** A flag that carries a string and is appended only when the string is not
      empty. */
  function IfNonEmpty(name: string, value: string): (e: Entry)
    ensures e.name == name
    ensures e.setting.Unset? <==> value == ""
    ensures !e.setting.Bare?
    ensures e.setting.Valued? ==> e.setting.value == value
  {
    Entry(name, if value == "" then Unset else Valued(value))
  }

  /** A switch that is appended alone when `on` holds. */
  function IfTrue(name: string, on: bool): (e: Entry)
    ensures e.name == name
    ensures e.setting.Unset? <==> !on
    ensures !e.setting.Valued?
  {
    Entry(name, if on then Bare else Unset)
  }

  /** The words one entry contributes. */
  function Words(e: Entry): (w: seq<string>)
    ensures w == [] <==> e.setting.Unset?
    ensures w != [] ==> w[0] == e.name
    ensures e.setting.Bare? ==> w == [e.name]
    ensures e.setting.Valued? ==> w == [e.name, e.setting.value]
  {
    match e.setting
    case Unset => []
    case Bare => [e.name]
    case Valued(v) => [e.name, v]
  }

  /** The words of the whole table, entry after entry. */
  function Render(table: seq<Entry>): seq<string> {
    if table == [] then [] else Render(table[..|table| - 1]) + Words(table[|table| - 1])
  }

  /** The names of the table, set or not. */
  function Names(table: seq<Entry>): (names: seq<string>)
    ensures |names| == |table|
    ensures forall i :: 0 <= i < |table| ==> names[i] == table[i].name
  {
    if table == [] then [] else Names(table[..|table| - 1]) + [table[|table| - 1].name]
  }

  /** The entries that are set, in table order: the flags that appear on the
      command line. */
  function Emitted(table: seq<Entry>): (flags: seq<Entry>)
    ensures |flags| <= |table|
    ensures forall k :: 0 <= k < |flags| ==> !flags[k].setting.Unset?
  {
    if table == [] then []
    else
      var last := table[|table| - 1];
      Emitted(table[..|table| - 1]) + (if last.setting.Unset? then [] else [last])
  }

  /** No two entries of the table share a name. */
  predicate DistinctNames(table: seq<Entry>) {
    forall i, j :: 0 <= i < j < |table| ==> table[i].name != table[j].name
  }

  /** Appending one entry appends its words; this is how each `if` of the
      source extends the argument list. */
  lemma RenderSnoc(table: seq<Entry>, e: Entry)
    ensures Render(table + [e]) == Render(table) + Words(e)
  {
    assert (table + [e])[..|table|] == table;
  }

  /** A table with nothing set adds no words. */
  lemma {:induction false} RenderNothingSet(table: seq<Entry>)
    requires forall i :: 0 <= i < |table| ==> table[i].setting.Unset?
    ensures Render(table) == []
    decreases |table|
  {
    if table != [] {
      RenderNothingSet(table[..|table| - 1]);
    }
  }

  /** Rendering distributes over concatenation of tables. */
  lemma {:induction false} RenderAppend(a: seq<Entry>, b: seq<Entry>)
    ensures Render(a + b) == Render(a) + Render(b)
    decreases |b|
  {
    if b == [] {
      assert a + b == a;
    } else {
      var b' := b[..|b| - 1];
      assert a + b == (a + b') + [b[|b| - 1]];
      assert b == b' + [b[|b| - 1]];
      RenderSnoc(a + b', b[|b| - 1]);
      RenderAppend(a, b');
      RenderSnoc(b', b[|b| - 1]);
    }
  }

  /** The words of an entry sit between the words of the entries before it and
      those after it; so a valued flag is immediately followed by its value. */
  lemma RenderAround(init: seq<Entry>, e: Entry, back: seq<Entry>)
    ensures Render(init + [e] + back) == Render(init) + Words(e) + Render(back)
  {
    RenderAppend(init + [e], back);
    RenderSnoc(init, e);
  }

  /** Dropping the unset entries changes no word: the command line is exactly
      the words of the emitted flags, one after the other. */
  lemma {:induction false} RenderEmitted(table: seq<Entry>)
    ensures Render(table) == Render(Emitted(table))
    decreases |table|
  {
    if table != [] {
      var init, last := table[..|table| - 1], table[|table| - 1];
      RenderEmitted(init);
      assert Render(table) == Render(init) + Words(last);
      if last.setting.Unset? {
        assert Emitted(table) == Emitted(init) + [] == Emitted(init);
        assert Render(table) == Render(init) + [] == Render(init);
      } else {
        RenderSnoc(Emitted(init), last);
      }
    }
  }

  /** Where each emitted flag comes from: the indices of the set entries, in
      increasing order, so emitted flags keep the order of the table. */
  function SetIndices(table: seq<Entry>): (idx: seq<nat>)
    ensures |idx| == |Emitted(table)|
    ensures forall k :: 0 <= k < |idx| ==> idx[k] < |table| && Emitted(table)[k] == table[idx[k]]
    ensures forall k, l :: 0 <= k < l < |idx| ==> idx[k] < idx[l]
  {
    if table == [] then []
    else
      var init := table[..|table| - 1];
      var last := table[|table| - 1];
      var rest := SetIndices(init);
      var tail: seq<nat> := if last.setting.Unset? then [] else [|table| - 1];
      assert forall k :: 0 <= k < |rest| ==> table[rest[k]] == init[rest[k]];
      rest + tail
  }

  /** An entry is emitted exactly when it is one of the table's set entries. */
  lemma {:induction false} EmittedMembership(table: seq<Entry>, e: Entry)
    ensures e in Emitted(table) <==> exists i :: 0 <= i < |table| && table[i] == e && !e.setting.Unset?
    decreases |table|
  {
    if table != [] {
      var init, last := table[..|table| - 1], table[|table| - 1];
      var tail := if last.setting.Unset? then [] else [last];
      assert Emitted(table) == Emitted(init) + tail;
      EmittedMembership(init, e);
      if e in Emitted(init) {
        var i :| 0 <= i < |init| && init[i] == e && !e.setting.Unset?;
        assert table[i] == e;
      } else if e in tail {
        assert table[|table| - 1] == e;
      } else {
        forall i | 0 <= i < |table| && !e.setting.Unset?
          ensures table[i] != e
        {
          if i < |init| {
            assert table[i] == init[i];
          }
        }
      }
    }
  }

  /** With distinct names, the flag of entry `i` is emitted exactly when that
      entry is set, and then it is emitted with the entry's own value. */
  lemma FlagEmittedIff(table: seq<Entry>, i: nat)
    requires DistinctNames(table) && i < |table|
    ensures table[i].name in Names(Emitted(table)) <==> !table[i].setting.Unset?
    ensures !table[i].setting.Unset? ==> table[i] in Emitted(table)
  {
    if table[i].name in Names(Emitted(table)) {
      var j := EmittedNameOrigin(table, table[i].name);
    }
    if !table[i].setting.Unset? {
      SetEntryEmitted(table, i);
    }
  }

  /** An emitted flag name is the name of a set entry. */
  lemma EmittedNameOrigin(table: seq<Entry>, n: string) returns (j: nat)
    requires n in Names(Emitted(table))
    ensures j < |table| && table[j].name == n && !table[j].setting.Unset?
  {
    var flags := Emitted(table);
    var k :| 0 <= k < |flags| && Names(flags)[k] == n;
    var idx := SetIndices(table);
    j := idx[k];
  }

  /** A set entry is emitted, under its own name. */
  lemma SetEntryEmitted(table: seq<Entry>, i: nat)
    requires i < |table| && !table[i].setting.Unset?
    ensures table[i] in Emitted(table) && table[i].name in Names(Emitted(table))
  {
    var flags := Emitted(table);
    EmittedMembership(table, table[i]);
    var k :| 0 <= k < |flags| && flags[k] == table[i];
    assert Names(flags)[k] == table[i].name;
  }

  /** Two emitted flags come from two entries of the table in the same
      order. */
  lemma EmittedOrigins(table: seq<Entry>, k: nat, l: nat) returns (i: nat, j: nat)
    requires k < l < |Emitted(table)|
    ensures i < j < |table| && Emitted(table)[k] == table[i] && Emitted(table)[l] == table[j]
  {
    var idx := SetIndices(table);
    i, j := idx[k], idx[l];
  }

  /** A sequence is its part before `k`, its `k`-th element and its part
      after. */
  lemma SplitAt<T>(s: seq<T>, k: nat)
    requires k < |s|
    ensures s == s[..k] + [s[k]] + s[k + 1..]
  {
  }

  /** The words of the `k`-th emitted flag start right after the words of the
      flags before it. */
  lemma RenderAt(flags: seq<Entry>, k: nat)
    requires k < |flags|
    ensures Render(flags) == Render(flags[..k]) + Words(flags[k]) + Render(flags[k + 1..])
  {
    SplitAt(flags, k);
    RenderAround(flags[..k], flags[k], flags[k + 1..]);
  }

  /** Where a set flag sits on the rendered command line: its name at position
      `|Render(flags[..k])|`, and its value, if it carries one, right after. */
  lemma FlagPosition(flags: seq<Entry>, k: nat)
    requires k < |flags| && !flags[k].setting.Unset?
    ensures var p := |Render(flags[..k])|;
      && p < |Render(flags)|
      && Render(flags)[p] == flags[k].name
      && (flags[k].setting.Valued? ==> p + 1 < |Render(flags)| && Render(flags)[p + 1] == flags[k].setting.value)
  {
    RenderAt(flags, k);
  }

  /** A set flag that comes earlier in the table comes earlier on the command
      line. */
  lemma PositionsIncrease(flags: seq<Entry>, k: nat, l: nat)
    requires k < l <= |flags| && !flags[k].setting.Unset?
    ensures |Render(flags[..k])| < |Render(flags[..l])|
  {
    SplitAt(flags[..l], k);
    assert flags[..l][..k] == flags[..k] && flags[..l][k + 1..] == flags[k + 1..l];
    RenderAround(flags[..k], flags[k], flags[k + 1..l]);
  }

  /** In a command line made of some leading words, the words of the emitted
      flags and some trailing words, two set flags appear by name in table
      order. */
  lemma FlagsInLine(head: seq<string>, flags: seq<Entry>, tail: seq<string>, k: nat, l: nat)
    requires k < l < |flags| && !flags[k].setting.Unset? && !flags[l].setting.Unset?
    ensures var line := head + Render(flags) + tail;
      var p, q := |head| + |Render(flags[..k])|, |head| + |Render(flags[..l])|;
      p < q < |line| && line[p] == flags[k].name && line[q] == flags[l].name
  {
    FlagPosition(flags, k);
    FlagPosition(flags, l);
    PositionsIncrease(flags, k, l);
  }
}
