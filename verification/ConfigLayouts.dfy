/**
 Configuration files as people write them: indentation, blanks around '=', comments, empty lines and both kinds
 of line ends; and which settings of a saved object reach the file.
 */
module ConfigLayouts {

  import opened Wrappers
  import opened ConfigText

  // Lines.

  /** A setting on a line of its own; `indent` may hold empty lines. */
  datatype Layout = Layout(indent: string, key: string, before: string, after: string, value: string,
                           comment: string, end: string)

  function Text(l: Layout): string {
    l.indent + l.key + l.before + "=" + l.after + l.value + l.comment + l.end
  }

  predicate Blank(s: string) { forall i :: 0 <= i < |s| ==> s[i] == ' ' || s[i] == '\t' }

  predicate White(s: string) { forall i :: 0 <= i < |s| ==> s[i] in {' ', '\t', '\r', '\n'} }

  /** The value may end in blanks, and is no list. */
  predicate WellWritten(l: Layout) {
    && White(l.indent) && Blank(l.before) && Blank(l.after) && LegalKey(l.key)
    && l.value != [] && NotWhitespace(l.value[0]) && l.value[0] != '[' && '#' !in l.value && OneLine(l.value)
    && (l.comment == [] || l.comment[0] == '#') && OneLine(l.comment)
  }

  /** Where the parts of a line are. */
  function KeyEnd(l: Layout): nat { |l.indent| + |l.key| }

  function Equals(l: Layout): nat { KeyEnd(l) + |l.before| }

  function ValueAt(l: Layout): nat { Equals(l) + 1 + |l.after| }

  function ValueEnd(l: Layout): nat { ValueAt(l) + |l.value| }

  function LineEnd(l: Layout): nat { ValueEnd(l) + |l.comment| }

  predicate Holds(t: string, from: nat, part: string) {
    from + |part| <= |t| && forall i :: 0 <= i < |part| ==> t[from + i] == part[i]
  }

  predicate Sits(t: string, l: Layout) {
    && LineEnd(l) < |t| && Endline(t[LineEnd(l)]) && t[Equals(l)] == '='
    && Holds(t, 0, l.indent) && Holds(t, |l.indent|, l.key) && Holds(t, KeyEnd(l), l.before)
    && Holds(t, Equals(l) + 1, l.after) && Holds(t, ValueAt(l), l.value) && Holds(t, ValueEnd(l), l.comment)
  }

  lemma TextSits(l: Layout, rest: string)
    requires l.end != [] && Endline(l.end[0])
    ensures Sits(Text(l) + rest, l) && |Text(l)| == LineEnd(l) + |l.end|
    ensures forall i :: 0 <= i < |l.end| ==> (Text(l) + rest)[LineEnd(l) + i] == l.end[i]
  {
    var a := l.indent + l.key;
    var b := a + l.before;
    var c := b + "=" + l.after;
    var d := c + l.value;
    var e := d + l.comment;
    assert Text(l) == e + l.end;
  }

  lemma LineBounds(t: string, l: Layout)
    requires Sits(t, l) && WellWritten(l)
    ensures Find(t, 0, |t|, NotWhitespace) == |l.indent|
    ensures Find(t, |l.indent|, |t|, Endline) == LineEnd(l)
    ensures Find(t, |l.indent|, LineEnd(l), IsHash) == ValueEnd(l)
  {
    assert t[|l.indent|] == l.key[0] == t[|l.indent| + 0];
    PartChars(t, 0, l.indent);
    assert forall c :: c in l.indent ==> !NotWhitespace(c);
    FindIs(t, 0, |t|, NotWhitespace, |l.indent|);
    LineChars(t, l);
    FindIs(t, |l.indent|, |t|, Endline, LineEnd(l));
    assert l.comment != [] ==> t[ValueEnd(l) + 0] == l.comment[0];
    FindIs(t, |l.indent|, LineEnd(l), IsHash, ValueEnd(l));
  }

  lemma LineChars(t: string, l: Layout)
    requires Sits(t, l) && WellWritten(l)
    ensures forall i :: |l.indent| <= i < Equals(l) ==> KeyChar(t[i])
    ensures forall i :: |l.indent| <= i < ValueEnd(l) ==> t[i] != '#' && !Endline(t[i])
    ensures forall i :: ValueEnd(l) <= i < LineEnd(l) ==> !Endline(t[i])
    ensures forall i :: KeyEnd(l) <= i < Equals(l) ==> SpaceTab(t[i])
    ensures forall i :: Equals(l) < i < ValueAt(l) ==> SpaceTab(t[i])
  {
    KeyChars(t, l);
    BlankChars(t, KeyEnd(l), l.before);
    BlankChars(t, Equals(l) + 1, l.after);
    PartChars(t, ValueAt(l), l.value);
    PartChars(t, ValueEnd(l), l.comment);
    assert forall c :: c in l.value ==> c != '#' && !Endline(c);
    assert forall c :: c in l.comment ==> !Endline(c);
  }

  lemma KeyChars(t: string, l: Layout)
    requires Holds(t, |l.indent|, l.key) && LegalKey(l.key)
    ensures forall i :: |l.indent| <= i < KeyEnd(l) ==> KeyChar(t[i])
  {
    PartChars(t, |l.indent|, l.key);
    assert forall c :: c in l.key ==> KeyChar(c);
  }

  lemma BlankChars(t: string, from: nat, part: string)
    requires Holds(t, from, part) && Blank(part)
    ensures forall i :: from <= i < from + |part| ==> SpaceTab(t[i]) && KeyChar(t[i])
  {
    PartChars(t, from, part);
    assert forall c :: c in part ==> SpaceTab(c);
  }

  lemma PartChars(t: string, from: nat, part: string)
    requires Holds(t, from, part)
    ensures forall i :: from <= i < from + |part| ==> t[i] == part[i - from] && t[i] in part
  {
    forall i | from <= i < from + |part|
      ensures t[i] == part[i - from] && t[i] in part
    {
      assert t[from + (i - from)] == part[i - from];
    }
  }

  lemma LineNames(t: string, l: Layout)
    requires Sits(t, l) && WellWritten(l)
    ensures var endc := FindLast(t, |l.indent|, ValueEnd(l), NotWhitespace);
            && ValueAt(l) < endc <= ValueEnd(l)
            && Find(t, |l.indent|, endc, IsEquals) == Equals(l)
            && Find(t, Equals(l) + 1, endc, NotSpaceTab) == ValueAt(l)
    ensures FindLast(t, |l.indent|, Equals(l), NotSpaceTab) == KeyEnd(l)
  {
    LineChars(t, l);
    var endc := FindLast(t, |l.indent|, ValueEnd(l), NotWhitespace);
    FindLastIsLast(t, |l.indent|, ValueEnd(l), NotWhitespace);
    assert t[ValueAt(l) + 0] == l.value[0];
    FindIs(t, |l.indent|, endc, IsEquals, Equals(l));
    FindIs(t, Equals(l) + 1, endc, NotSpaceTab, ValueAt(l));
    assert t[|l.indent| + (|l.key| - 1)] == l.key[|l.key| - 1];
    FindLastIs(t, |l.indent|, Equals(l), NotSpaceTab, KeyEnd(l));
  }

  lemma PartIs(t: string, from: nat, part: string)
    requires Holds(t, from, part)
    ensures t[from..from + |part|] == part
  {
  }

  lemma {:induction false} StripComments(v: string, comment: string)
    requires '#' !in v && (comment == [] || comment[0] == '#') && OneLine(comment)
    ensures Strip(v + comment) == v
  {
    StripAppend(v, comment);
    assert v + [] == v;
    if comment != [] {
      StripCommentAt(comment[1..], |comment| - 1);
    }
  }

  /** A well written line gives its setting, whatever the blanks, the comment and what follows. */
  lemma {:induction false} LineRead(t: string, l: Layout)
    requires Sits(t, l) && WellWritten(l)
    ensures ParseOption(t) == (LineEnd(l), Some(Entry(l.key, l.value)))
  {
    LineBounds(t, l);
    LineNames(t, l);
    PartIs(t, |l.indent|, l.key);
    assert '#' !in l.key by {
      assert forall i :: 0 <= i < |l.key| ==> KeyChar(l.key[i]);
    }
    StripNothing(l.key);
    PartIs(t, ValueAt(l), l.value);
    PartIs(t, ValueEnd(l), l.comment);
    assert t[ValueAt(l)..LineEnd(l)] == l.value + l.comment;
    StripComments(l.value, l.comment);
    assert t[ValueAt(l) + 0] == l.value[0];
  }

  // Files.

  function File(lines: seq<Layout>): string {
    if lines == [] then [] else Text(lines[0]) + File(lines[1..])
  }

  function Settings(lines: seq<Layout>): seq<Entry> {
    if lines == [] then [] else [Entry(lines[0].key, lines[0].value)] + Settings(lines[1..])
  }

  /** A line in front of anything else. */
  lemma TextRead(l: Layout, t: string, rest: string)
    requires WellWritten(l) && l.end != [] && Endline(l.end[0]) && t == Text(l) + rest
    ensures |Text(l)| == LineEnd(l) + |l.end| && t[LineEnd(l)] == l.end[0]
    ensures ParseOption(t) == (LineEnd(l), Some(Entry(l.key, l.value)))
  {
    TextSits(l, rest);
    assert t[LineEnd(l) + 0] == l.end[0];
    LineRead(t, l);
  }

  /** A file at the start of a line. */
  lemma AtLine(before: string, l: Layout, rest: string)
    requires WellWritten(l) && l.end in {"\n", "\r\n"}
    ensures var file := before + (Text(l) + rest);
            && |before| < |file| && file[|before|..] == Text(l) + rest && file == (before + Text(l)) + rest
            && Advance(file, |before| + LineEnd(l)) == |before + Text(l)|
    ensures ParseOption(Text(l) + rest) == (LineEnd(l), Some(Entry(l.key, l.value)))
  {
    var t := Text(l) + rest;
    TextRead(l, t, rest);
    Behind(before, Text(l), rest, LineEnd(l));
  }

  lemma Behind(before: string, text: string, rest: string, endl: nat)
    requires endl < |text|
    ensures var file := before + (text + rest);
            && |before| < |file| && file[|before|..] == text + rest && file == (before + text) + rest
            && file[|before| + endl] == (text + rest)[endl]
  {
  }

  lemma {:induction false} ParseWritten(before: string, lines: seq<Layout>)
    requires forall i :: 0 <= i < |lines| ==> WellWritten(lines[i]) && lines[i].end in {"\n", "\r\n"}
    ensures ParseFrom(before + File(lines), |before|) == ToMap(Settings(lines))
    decreases |lines|
  {
    if lines != [] {
      AtLine(before, lines[0], File(lines[1..]));
      ParseWritten(before + Text(lines[0]), lines[1..]);
      assert Settings(lines)[1..] == Settings(lines[1..]);
    }
  }

  /** Whatever the layout and the line ends, the file is read as its settings, the first for a key counting. */
  lemma {:induction false} HandWritten(lines: seq<Layout>)
    requires forall i :: 0 <= i < |lines| ==> WellWritten(lines[i]) && lines[i].end in {"\n", "\r\n"}
    ensures Parse(File(lines)) == ToMap(Settings(lines))
  {
    ParseWritten([], lines);
    assert [] + File(lines) == File(lines);
  }

  /** Behind a carriage return parsing goes on two characters further, also if the second is no line feed. */
  lemma {:induction false} LoneReturnSkips(l: Layout, x: char, rest: string)
    requires WellWritten(l) && l.end == "\r"
    ensures var file := Text(l) + ([x] + rest);
            ParseOption(file) == (|Text(l)| - 1, Some(Entry(l.key, l.value)))
            && Advance(file, |Text(l)| - 1) == |Text(l)| + 1
  {
    var file := Text(l) + ([x] + rest);
    TextRead(l, file, [x] + rest);
  }

  /** So a setting with a key of one letter is lost behind a carriage return alone. */
  lemma {:induction false} LoneReturnExample(file: string)
    requires file == "a=1\rb=2"
    ensures Parse(file) == map["a" := "1"]
  {
    var l := Layout([], "a", [], [], "1", [], "\r");
    assert Text(l) == "a=1\r" && file == Text(l) + (['b'] + "=2");
    LoneReturnSkips(l, 'b', "=2");
    NothingNamed(file, 5);
    assert file[0..] == file;
  }

  /** The last line has no name in front of '='. */
  lemma NothingNamed(file: string, pos: nat)
    requires pos < |file| && file[pos] == '=' && forall i :: pos <= i < |file| ==> NotWhitespace(file[i])
    ensures ParseFrom(file, pos) == map[]
  {
    var t := file[pos..];
    FindIs(t, 0, |t|, NotWhitespace, 0);
    FindIs(t, 0, |t|, Endline, |t|);
    var endc := FindLast(t, 0, Find(t, 0, |t|, IsHash), NotWhitespace);
    FindIsFirst(t, 0, endc, IsEquals);
    assert t[0] == '=';
    assert ParseOption(t) == (|t|, None);
    assert ParseFrom(file, |file|) == map[];
  }

  // Saved objects.

  /** The item puts `v` under `k`: a text that is not empty, or the text of any other value but null. */
  predicate Saves(item: Item, k: string, v: string) {
    item.key == k && (item.value == Other(v) || (item.value == Json.Text(v) && |v| > 0))
  }

  /** Everything that the items save can be read back. */
  ghost predicate AllSavedLegal(items: seq<Item>) {
    forall i, k, v :: 0 <= i < |items| && Saves(items[i], k, v) ==> Legal(Entry(k, v))
  }

  lemma SavedIsLegal(items: seq<Item>, i: nat, k: string, v: string)
    requires AllSavedLegal(items) && i < |items| && Saves(items[i], k, v)
    ensures Legal(Entry(k, v)) && v != []
  {
  }

  lemma {:induction false} KeptIff(items: seq<Item>, e: Entry)
    ensures e in Kept(items) <==> exists i :: 0 <= i < |items| && Saves(items[i], e.key, e.value)
  {
    if items != [] {
      KeptIff(items[1..], e);
      if i :| 0 <= i < |items| && Saves(items[i], e.key, e.value) {
        if i > 0 {
          assert items[i] == items[1..][i - 1];
        }
      }
      if e in Kept(items[1..]) {
        var i :| 0 <= i < |items[1..]| && Saves(items[1..][i], e.key, e.value);
        assert Saves(items[i + 1], e.key, e.value);
      }
      if e in KeptOne(items[0]) {
        assert Saves(items[0], e.key, e.value);
      }
    }
  }

  lemma {:induction false} ToMapIff(entries: seq<Entry>, k: string, v: string)
    requires DistinctKeys(entries)
    ensures k in ToMap(entries) && ToMap(entries)[k] == v <==> Entry(k, v) in entries
  {
    if entries != [] {
      assert entries == [entries[0]] + entries[1..];
      ToMapIff(entries[1..], k, v);
      if Entry(k, v) in entries[1..] {
        var i :| 0 <= i < |entries[1..]| && entries[1..][i] == Entry(k, v);
        assert entries[i + 1] == Entry(k, v);
      }
    }
  }

  /** After saving an object and reading the file, a key has a value exactly if an item of the object saves it. */
  lemma {:induction false} SavedMeans(items: seq<Item>, k: string, v: string)
    requires forall i, j :: 0 <= i < j < |items| ==> items[i].key != items[j].key
    requires AllSavedLegal(items)
    ensures var read := Parse(Lines(Kept(items)));
            k in read && read[k] == v <==> exists i :: 0 <= i < |items| && Saves(items[i], k, v)
  {
    forall i | 0 <= i < |items| && items[i].value.Other?
      ensures items[i].value.dump != []
    {
      SavedIsLegal(items, i, items[i].key, items[i].value.dump);
    }
    forall i | 0 <= i < |Kept(items)|
      ensures Legal(Kept(items)[i])
    {
      var e := Kept(items)[i];
      KeptIff(items, e);
      var j :| 0 <= j < |items| && Saves(items[j], e.key, e.value);
      SavedIsLegal(items, j, e.key, e.value);
    }
    SavedSettingsReadBack(items);
    KeptDistinct(items);
    ToMapIff(Kept(items), k, v);
    KeptIff(items, Entry(k, v));
  }
}
