// What a settings file means, line by line, however it is written.
module StateReading {
  import opened StateFile
  import opened Strings
  import opened Wrappers

  // ---------- files as lines ----------

  /** Some lines, each but the last ended by a line break. */
  function FileOf(lines: seq<string>): string
    requires lines != []
  {
    if |lines| == 1 then lines[0] else lines[0] + ['\n'] + FileOf(lines[1..])
  }

  predicate OneLine(line: string) {
    '\n' !in line
  }

  lemma {:induction false} FileSplits(lines: seq<string>)
    requires lines != [] && forall l :: l in lines ==> OneLine(l)
    ensures Split(FileOf(lines), '\n') == lines
  {
    assert lines[0] in lines;
    if |lines| == 1 {
      SplitNone(lines[0], '\n');
      assert lines == [lines[0]];
    } else {
      SplitAfter(lines[0], '\n', FileOf(lines[1..]));
      FileSplits(lines[1..]);
    }
  }

  lemma {:induction false} LinesInTurn(fields: seq<Field>, s: State, a: seq<string>, b: seq<string>)
    requires |s| == |fields|
    ensures ApplyLines(fields, s, a + b) == ApplyLines(fields, ApplyLines(fields, s, a), b)
    decreases |a|
  {
    hide ApplyLine;
    if a == [] {
      assert a + b == b;
    } else {
      assert (a + b)[0] == a[0] && (a + b)[1..] == a[1..] + b;
      LinesInTurn(fields, ApplyLine(fields, s, a[0]), a[1..], b);
    }
  }

  // ---------- lines that set nothing ----------

  /** A blank line, a remark, a line without an equals sign, or one whose key is no setting's. */
  predicate Idle(fields: seq<Field>, line: string) {
    var t := Trim(line);
    || t == [] || t[0] == '#' || '=' !in t
    || (exists i | 0 <= i < |t| :: t[i] == '=' && '=' !in t[..i] && forall f :: f in fields ==> f.name != Trim(t[..i]))
  }

  lemma {:induction false} NoSeparator(s: string, at: char)
    requires at !in s
    ensures SplitOnce(s, at) == None
  {
    if s != [] {
      assert s[0] in s && at !in s[1..];
      NoSeparator(s[1..], at);
    }
  }

  lemma {:induction false} NotLookedUp(fields: seq<Field>, name: string)
    requires forall f :: f in fields ==> f.name != name
    ensures Lookup(fields, name) == None
  {
    if fields != [] {
      assert fields[0] in fields;
      NotLookedUp(fields[1..], name);
    }
  }

  lemma SplitsAtFirst(t: string, i: nat)
    requires i < |t| && t[i] == '=' && '=' !in t[..i]
    ensures SplitOnce(t, '=') == Some((t[..i], t[i + 1..]))
  {
    assert t == t[..i] + ['='] + t[i + 1..];
    SplitOnceAt(t[..i], '=', t[i + 1..]);
  }

  /** What comes of a trimmed line that is not blank and no remark. */
  lemma UnknownKey(fields: seq<Field>, t: string)
    requires '=' !in t || exists i | 0 <= i < |t| :: t[i] == '=' && '=' !in t[..i] && forall f :: f in fields ==> f.name != Trim(t[..i])
    ensures SplitOnce(t, '=').Some? ==> Lookup(fields, Trim(SplitOnce(t, '=').value.0)) == None
  {
    hide Trim, SplitOnce, Lookup;
    if '=' !in t {
      NoSeparator(t, '=');
    } else {
      var i :| 0 <= i < |t| && t[i] == '=' && '=' !in t[..i] && forall f :: f in fields ==> f.name != Trim(t[..i]);
      SplitsAtFirst(t, i);
      NotLookedUp(fields, Trim(t[..i]));
    }
  }

  lemma IdleChangesNothing(fields: seq<Field>, s: State, line: string)
    requires |s| == |fields| && Idle(fields, line)
    ensures ApplyLine(fields, s, line) == s
  {
    hide Trim, SplitOnce, Lookup, Read;
    var t := Trim(line);
    if t != [] && t[0] != '#' {
      UnknownKey(fields, t);
    }
  }

  /** A line that sets nothing may stand anywhere in a file. */
  lemma IdleLinesDoNotCount(fields: seq<Field>, a: seq<string>, line: string, b: seq<string>)
    requires a + b != [] && OneLine(line) && Idle(fields, line)
    requires forall l :: l in a + b ==> OneLine(l)
    ensures Parse(fields, FileOf(a + [line] + b)) == Parse(fields, FileOf(a + b))
  {
    hide ApplyLine, SettleValue, Idle, Split;
    var s := Initial(fields);
    assert forall l :: l in a + [line] + b ==> l in a + b || l == line;
    FileSplits(a + [line] + b);
    FileSplits(a + b);
    LinesInTurn(fields, s, a, b);
    assert a + [line] + b == a + ([line] + b);
    LinesInTurn(fields, s, a, [line] + b);
    IdleChangesNothing(fields, ApplyLines(fields, s, a), line);
    assert ([line] + b)[0] == line && ([line] + b)[1..] == b;
  }

  // ---------- lines that set something ----------

  predicate Blank(s: string) {
    forall c :: c in s ==> IsWhite(c)
  }

  lemma {:induction false} TrimStartAround(p: string, core: string)
    requires Blank(p) && core != [] && !IsWhite(core[0])
    ensures TrimStart(p + core) == core
  {
    if p == [] {
      assert p + core == core;
    } else {
      assert p[0] in p && (p + core)[1..] == p[1..] + core;
      TrimStartAround(p[1..], core);
    }
  }

  lemma {:induction false} TrimEndAround(core: string, e: string)
    requires Blank(e) && core != [] && !IsWhite(core[|core| - 1])
    ensures TrimEnd(core + e) == core
  {
    if e == [] {
      assert core + e == core;
    } else {
      assert e[|e| - 1] in e && (core + e)[..|core + e| - 1] == core + e[..|e| - 1];
      TrimEndAround(core, e[..|e| - 1]);
    }
  }

  lemma TrimAround(p: string, core: string, e: string)
    requires Blank(p) && Blank(e) && core != [] && Trimmed(core)
    ensures Trim(p + core + e) == core
  {
    assert p + core + e == p + (core + e);
    TrimStartAround(p, core + e);
    TrimEndAround(core, e);
  }

  /** A setting with any white space around its key and its value. */
  function Assignment(p: string, name: string, q: string, r: string, value: string, e: string): string {
    p + (name + q + ['='] + (r + value)) + e
  }

  lemma AssignmentSets(fields: seq<Field>, s: State, i: nat, p: string, q: string, r: string, value: string, e: string)
    requires WellFormed(fields) && |s| == |fields| && i < |fields|
    requires Blank(p) && Blank(q) && Blank(r) && Blank(e) && value != [] && Trimmed(value)
    ensures ApplyLine(fields, s, Assignment(p, fields[i].name, q, r, value, e)) == s[i := Read(fields[i], s[i], value)]
  {
    var name := fields[i].name;
    PlainIs(name);
    var core := name + q + ['='] + (r + value);
    assert core[0] == name[0] && core[|core| - 1] == value[|value| - 1];
    TrimAround(p, core, e);
    KeyIsSplit(name + q, r + value);
    assert '=' !in name + q by { assert forall c :: c in q ==> IsWhite(c); }
    SplitOnceAt(name + q, '=', r + value);
    assert [] + name + q == name + q && r + value + [] == r + value;
    TrimAround([], name, q);
    TrimAround(r, value, []);
    LookupAt(fields, i);
    hide Trim, SplitOnce, Lookup, Read, WellFormed, Blank, Trimmed, IsPlain;
  }

  lemma KeyIsSplit(key: string, value: string)
    ensures key + ['='] + value == key + (['='] + value)
  {
  }

  /** What a setting becomes when a file says `v`, having been `was`. */
  predicate ReadsAs(kind: Kind, was: int, v: int, r: int) {
    match kind
    case Any => r == v
    case Words => true
    case Charging => if v == 8 then r == 90 else r == if v in {-1, 0, 25, 33, 65, 85, 90} then v else 0
    case Flag => r == if v == 1 then 1 else 0
    case Threshold => r == if v in {0, 20, 40, 80, 90} then v else was
    case Touch => r == if v in {1, 2, 3} then v else -1
    case Colour => r == if v in {-1, 0, 1, 2} then v else -1
    case Temperature => r == if v in {-1, 1, 2, 3} then v else -1
    case Toggle => r == if v in {-1, 0, 1} then v else -1
    case Manual => r == if v in {-1, 1} then v else 0
    case Mask => 0 <= r <= 255 && (r - v) % 256 == 1 - v % 2
    case ThermalMode => r == if 0 <= v <= 2048 then v else -1
  }

  lemma MaskReads(v: int)
    ensures (WithFirst(v) % 0x100 - v) % 256 == 1 - v % 2
  {
    var w := WithFirst(v);
    var q := w / 0x100;
    assert w % 0x100 - v == (1 - v % 2) - q * 256;
    ModuloShift(1 - v % 2, q);
  }

  lemma ModuloShift(x: int, q: int)
    requires 0 <= x < 256
    ensures (x - q * 256) % 256 == x
  {
  }

  lemma ReadsAsTold(kind: Kind, was: int, v: int)
    requires kind.Threshold? ==> Settle(kind, was) == was
    ensures ReadsAs(kind, was, v, Settle(kind, Accept(kind, was, v)))
  {
    if kind.Mask? { MaskReads(v); }
    hide WithFirst;
  }

  lemma {:induction false} NoLines(fields: seq<Field>, s: State, line: string)
    requires |s| == |fields|
    ensures ApplyLines(fields, s, [line]) == ApplyLine(fields, s, line)
  {
    hide ApplyLine;
    assert [line][1..] == [];
    assert ApplyLines(fields, ApplyLine(fields, s, line), []) == ApplyLine(fields, s, line);
  }

  /**
   * The last line of a file sets its own setting, from a number as the kind of the setting tells or
   * from words as they are, and leaves every other as the lines before it did.
   */
  lemma LastLineSets(fields: seq<Field>, lines: seq<string>, i: nat, p: string, q: string, r: string, value: string, e: string)
    requires WellFormed(fields) && i < |fields| && lines != [] && forall l :: l in lines ==> OneLine(l)
    requires Blank(p) && Blank(q) && Blank(r) && Blank(e) && value != [] && Trimmed(value)
    requires OneLine(Assignment(p, fields[i].name, q, r, value, e))
    ensures var before := Parse(fields, FileOf(lines));
      var after := Parse(fields, FileOf(lines + [Assignment(p, fields[i].name, q, r, value, e)]));
      && |before| == |after| == |fields|
      && (forall j :: 0 <= j < |fields| && j != i ==> after[j] == before[j])
      && (fields[i].kind.Words? ==> after[i] == Text(value))
      && (!fields[i].kind.Words? && ParseI32(value).None? ==> after[i] == before[i])
      && (!fields[i].kind.Words? && ParseI32(value).Some? ==>
            && after[i].Number? && before[i].Number?
            && ReadsAs(fields[i].kind, before[i].number, ParseI32(value).value, after[i].number))
  {
    hide ApplyLine, Split, Lookup, Trimmed, Blank, ParseI32, Assignment, Accept, Settle;
    var line := Assignment(p, fields[i].name, q, r, value, e);
    var s := Initial(fields);
    FileSplits(lines);
    assert forall l :: l in lines + [line] ==> l in lines || l == line;
    FileSplits(lines + [line]);
    LinesInTurn(fields, s, lines, [line]);
    var t := ApplyLines(fields, s, lines);
    NoLines(fields, t, line);
    AssignmentSets(fields, t, i, p, q, r, value, e);
    hide ApplyLines;
    LinesHold(fields, lines);
    ValueReads(fields[i], t[i], value);
  }

  lemma LinesHold(fields: seq<Field>, lines: seq<string>)
    requires WellFormed(fields) && forall l :: l in lines ==> OneLine(l)
    ensures AllHeld(fields, ApplyLines(fields, Initial(fields), lines))
  {
    LinesAreHeld(fields, Initial(fields), lines);
  }

  lemma ValueReads(f: Field, was: Value, value: string)
    requires Held(f, was)
    ensures var before, after := SettleValue(f, was), SettleValue(f, Read(f, was, value));
      && (f.kind.Words? ==> after == Text(value))
      && (!f.kind.Words? && ParseI32(value).None? ==> after == before)
      && (!f.kind.Words? && ParseI32(value).Some? ==>
            && after.Number? && before.Number? && ReadsAs(f.kind, before.number, ParseI32(value).value, after.number))
  {
    hide ParseI32, Accept;
    if !f.kind.Words? && ParseI32(value).Some? { ReadsAsTold(f.kind, was.number, ParseI32(value).value); }
  }
}
