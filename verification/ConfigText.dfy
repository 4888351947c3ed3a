/**
 The configuration file: the parser, the printer that saves it, and when parsing returns what was saved.
 */
module ConfigText {

  import opened Wrappers

  datatype Entry = Entry(key: string, value: string)

  predicate Endline(c: char) { c == '\r' || c == '\n' }

  predicate SpaceTab(c: char) { c == ' ' || c == '\t' }

  predicate NotSpaceTab(c: char) { !SpaceTab(c) }

  predicate NotWhitespace(c: char) { !SpaceTab(c) && !Endline(c) }

  predicate IsHash(c: char) { c == '#' }

  predicate IsEquals(c: char) { c == '=' }

  // Searching.

  /** std::find_if over [from, end) */
  function Find(t: string, from: nat, end: nat, p: char -> bool): (r: nat)
    requires from <= end <= |t|
    ensures from <= r <= end
    decreases end - from
  {
    if from == end || p(t[from]) then from else Find(t, from + 1, end, p)
  }

  /** std::find_if over the reversed range, as the position after the character found. */
  function FindLast(t: string, from: nat, end: nat, p: char -> bool): (r: nat)
    requires from <= end <= |t|
    ensures from <= r <= end
    decreases end - from
  {
    if from == end || p(t[end - 1]) then end else FindLast(t, from, end - 1, p)
  }

  lemma {:induction false} FindIsFirst(t: string, from: nat, end: nat, p: char -> bool)
    requires from <= end <= |t|
    ensures var r := Find(t, from, end, p);
            (r < end ==> p(t[r])) && forall i :: from <= i < r ==> !p(t[i])
    decreases end - from
  {
    if from != end && !p(t[from]) {
      FindIsFirst(t, from + 1, end, p);
    }
  }

  lemma {:induction false} FindLastIsLast(t: string, from: nat, end: nat, p: char -> bool)
    requires from <= end <= |t|
    ensures var r := FindLast(t, from, end, p);
            (from < r ==> p(t[r - 1])) && forall i :: r <= i < end ==> !p(t[i])
    decreases end - from
  {
    if from != end && !p(t[end - 1]) {
      FindLastIsLast(t, from, end - 1, p);
    }
  }

  // Comments.

  /** The text without comments: from a '#' up to the end of its line. */
  function Strip(t: string): string
    decreases |t|, 0
  {
    if t == [] then [] else if t[0] == '#' then StripComment(t[1..]) else [t[0]] + Strip(t[1..])
  }

  function StripComment(t: string): string
    decreases |t|, 1
  {
    if t == [] then [] else if Endline(t[0]) then Strip(t) else StripComment(t[1..])
  }

  lemma {:induction false} StripAppend(a: string, b: string)
    requires '#' !in a
    ensures Strip(a + b) == a + Strip(b)
  {
    if a == [] {
      assert a + b == b;
    } else {
      StripAppend(a[1..], b);
      assert (a + b)[1..] == a[1..] + b;
      assert a == [a[0]] + a[1..];
    }
  }

  lemma StripNothing(a: string)
    requires '#' !in a
    ensures Strip(a) == a
  {
    StripAppend(a, []);
    assert a + [] == a;
  }

  lemma {:induction false} StripCommentAt(t: string, endl: nat)
    requires endl <= |t| && (forall i :: 0 <= i < endl ==> !Endline(t[i])) && (endl < |t| ==> Endline(t[endl]))
    ensures StripComment(t) == Strip(t[endl..])
  {
    if endl > 0 {
      StripCommentAt(t[1..], endl - 1);
      assert t[1..][endl - 1..] == t[endl..];
    }
  }

  lemma {:induction false} StripHasNoHash(t: string)
    ensures '#' !in Strip(t) && '#' !in StripComment(t)
    decreases |t|
  {
    if t != [] {
      StripHasNoHash(t[1..]);
    }
  }

  /** to_string */
  method ToString(t: string, begin: nat, end: nat) returns (result: string)
    requires begin <= end <= |t|
    ensures result == Strip(t[begin..end])
  {
    result := [];
    var pos := begin;
    while pos != end
      invariant begin <= pos <= end
      invariant pos == begin || pos == end || Endline(t[pos])
      invariant result + Strip(t[pos..end]) == Strip(t[begin..end])
      decreases end - pos
    {
      var comment := Find(t, pos, end, IsHash);
      var endl := Find(t, comment, end, Endline);
      FindIsFirst(t, pos, end, IsHash);
      FindIsFirst(t, comment, end, Endline);
      StripSegment(t, pos, comment, endl, end);
      result := result + t[pos..comment];
      pos := endl;
    }
  }

  lemma StripSegment(t: string, pos: nat, comment: nat, endl: nat, end: nat)
    requires pos <= comment <= endl <= end <= |t|
    requires '#' !in t[pos..comment] && (comment < end ==> t[comment] == '#')
    requires (forall i :: comment <= i < endl ==> !Endline(t[i])) && (endl < end ==> Endline(t[endl]))
    ensures Strip(t[pos..end]) == t[pos..comment] + Strip(t[endl..end])
  {
    assert t[pos..end] == t[pos..comment] + t[comment..end];
    StripAppend(t[pos..comment], t[comment..end]);
    if comment < end {
      assert t[comment..end][1..] == t[comment + 1..end];
      StripCommentAt(t[comment + 1..end], endl - comment - 1);
      assert t[comment + 1..end][endl - comment - 1..] == t[endl..end];
    }
  }

  // Lists.

  /** From `k` on with `depth` brackets open: where the last one is closed, and how many are open there. */
  function Skip(t: string, k: nat, depth: nat): (r: (nat, nat))
    requires k <= |t|
    ensures k <= r.0 <= |t| && (r.1 == 0 || r.0 == |t|)
    decreases |t| - k
  {
    if k == |t| || depth == 0 then (k, depth)
    else Skip(t, k + 1, if t[k] == '[' then depth + 1 else if t[k] == ']' then depth - 1 else depth)
  }

  /** Opening brackets less closing ones. */
  function Depth(t: string): int {
    if t == [] then 0
    else (if t[0] == '[' then 1 else if t[0] == ']' then -1 else 0) + Depth(t[1..])
  }

  /** The skipped part is the shortest that brings the depth to zero. */
  lemma {:induction false} SkipMeansBalanced(t: string, k: nat, depth: nat)
    requires k <= |t|
    ensures var (e, d) := Skip(t, k, depth);
            d == depth + Depth(t[k..e]) && forall j :: k <= j < e ==> depth + Depth(t[k..j]) > 0
    decreases |t| - k
  {
    var (e, d) := Skip(t, k, depth);
    if k < |t| && depth > 0 {
      var depth' := if t[k] == '[' then depth + 1 else if t[k] == ']' then depth - 1 else depth;
      SkipMeansBalanced(t, k + 1, depth');
      assert t[k..e][1..] == t[k + 1..e];
      forall j | k <= j < e
        ensures depth + Depth(t[k..j]) > 0
      {
        if j > k {
          assert t[k..j][1..] == t[k + 1..j];
        }
      }
    }
  }

  /** skip_list */
  method SkipList(t: string, begin: nat) returns (skipper: nat)
    requires begin <= |t|
    ensures skipper == Skip(t, begin, 1).0
  {
    skipper := begin;
    var stack: int := 1;
    while skipper != |t| && stack != 0
      invariant begin <= skipper <= |t| && stack >= 0
      invariant Skip(t, begin, 1) == Skip(t, skipper, stack)
      decreases |t| - skipper
    {
      if t[skipper] == '[' {
        stack := stack + 1;
      }
      if t[skipper] == ']' {
        stack := stack - 1;
      }
      skipper := skipper + 1;
    }
  }

  /** A list whose bracket is closed exactly by its last character. */
  predicate Closes(v: string) {
    v != [] && v[0] == '[' && Skip(v, 1, 1) == (|v|, 0)
  }

  /** In a longer text: where the list in `v` ends early, or what is still open after it. */
  lemma {:induction false} SkipPrefix(v: string, rest: string, k: nat, depth: nat)
    requires k <= |v|
    ensures Skip(v + rest, k, depth)
              == if Skip(v, k, depth).1 == 0 then Skip(v, k, depth) else Skip(v + rest, |v|, Skip(v, k, depth).1)
    decreases |v| - k
  {
    if k < |v| && depth > 0 {
      assert (v + rest)[k] == v[k];
      SkipPrefix(v, rest, k + 1, if v[k] == '[' then depth + 1 else if v[k] == ']' then depth - 1 else depth);
    }
  }

  lemma {:induction false} SkipShift(p: string, t: string, k: nat, depth: nat)
    requires k <= |t|
    ensures Skip(p + t, |p| + k, depth) == (|p| + Skip(t, k, depth).0, Skip(t, k, depth).1)
    decreases |t| - k
  {
    if k < |t| && depth > 0 {
      assert (p + t)[|p| + k] == t[k];
      SkipShift(p, t, k + 1, if t[k] == '[' then depth + 1 else if t[k] == ']' then depth - 1 else depth);
    }
  }

  // The parser.

  /** Position after the option's line, and the option. The text runs to the end of the file. */
  function ParseOption(t: string): (r: (nat, Option<Entry>))
    ensures r.0 <= |t|
  {
    var begin := Find(t, 0, |t|, NotWhitespace);
    var endl := Find(t, begin, |t|, Endline);
    var endc := FindLast(t, begin, Find(t, begin, endl, IsHash), NotWhitespace);
    var eq := Find(t, begin, endc, IsEquals);
    if eq == endc || eq == begin then (endl, None) else ParseNamed(t, begin, eq, endc, endl)
  }

  /** The name ends at the last character before '=' that is no blank; the value starts at the first after it. */
  function ParseNamed(t: string, begin: nat, eq: nat, endc: nat, endl: nat): (r: (nat, Option<Entry>))
    requires begin < eq < endc <= endl <= |t|
    ensures r.0 <= |t|
  {
    var endName := FindLast(t, begin, eq, NotSpaceTab);
    var beginVal := Find(t, eq + 1, endc, NotSpaceTab);
    if beginVal == endl then (endl, None)
    else ParseValue(t, Strip(t[begin..endName]), beginVal, endl)
  }

  /** A list may continue on later lines. */
  function ParseValue(t: string, key: string, beginVal: nat, endl: nat): (r: (nat, Option<Entry>))
    requires beginVal < endl <= |t|
    ensures beginVal <= r.0 <= |t|
  {
    if t[beginVal] == '[' then
      var close := Skip(t, beginVal + 1, 1).0;
      if close == |t| && |t| == beginVal + 1 then (close, None)
      else (close, Some(Entry(key, Strip(t[beginVal..close]))))
    else (endl, Some(Entry(key, Strip(t[beginVal..endl]))))
  }

  /** One past a line's end, or two when it is a carriage return, whatever follows it. */
  function Advance(t: string, endl: nat): nat
    requires endl <= |t|
  {
    if endl == |t| then endl else if t[endl] == '\r' then endl + 2 else endl + 1
  }

  function Prepend(entry: Option<Entry>, rest: map<string, string>): map<string, string> {
    match entry
    case None => rest
    case Some(e) => rest[e.key := e.value]
  }

  /** The entries from `pos` on; the first of several entries for a key counts. */
  function ParseFrom(file: string, pos: nat): map<string, string>
    decreases |file| - pos
  {
    if pos >= |file| then map[]
    else
      var (endl, entry) := ParseOption(file[pos..]);
      Prepend(entry, ParseFrom(file, Advance(file, pos + endl)))
  }

  function Parse(file: string): map<string, string> { ParseFrom(file, 0) }

  function Emplace(vars: map<string, string>, entry: Option<Entry>): map<string, string> {
    if entry.None? || entry.value.key in vars then vars else vars[entry.value.key := entry.value.value]
  }

  lemma FirstWins(rest: map<string, string>, vars: map<string, string>, entry: Option<Entry>)
    ensures Prepend(entry, rest) + vars == rest + Emplace(vars, entry)
  {
  }

  /** parse_config; the cursor always moves on. */
  method ParseConfig(fileContent: string) returns (vars: map<string, string>)
    ensures vars == Parse(fileContent)
  {
    vars := map[];
    var pos := 0;
    while pos < |fileContent|
      invariant pos <= |fileContent| + 1
      invariant Parse(fileContent) == ParseFrom(fileContent, pos) + vars
    {
      var option := ParseOption(fileContent[pos..]);
      var endl, entry := option.0, option.1;
      FirstWins(ParseFrom(fileContent, Advance(fileContent, pos + endl)), vars, entry);
      pos := pos + endl;
      if pos != |fileContent| {
        pos := if fileContent[pos] == '\r' then pos + 2 else pos + 1;
      }
      if entry.None? {
        continue;
      }
      vars := Emplace(vars, entry);
    }
  }

  // The printer.

  datatype Json = Null | Text(s: string) | Other(dump: string)

  datatype Item = Item(key: string, value: Json)

  function Line(e: Entry): string { e.key + " = " + e.value + "\n" }

  function Lines(entries: seq<Entry>): string {
    if entries == [] then [] else Line(entries[0]) + Lines(entries[1..])
  }

  /** Nulls and empty strings are not saved. */
  function KeptOne(item: Item): seq<Entry> {
    match item.value
    case Null => []
    case Text(s) => if s == [] then [] else [Entry(item.key, s)]
    case Other(dump) => [Entry(item.key, dump)]
  }

  function Kept(items: seq<Item>): seq<Entry> {
    if items == [] then [] else KeptOne(items[0]) + Kept(items[1..])
  }

  lemma Regroup<T>(a: seq<T>, b: seq<T>, c: seq<T>)
    ensures (a + b) + c == a + (b + c)
  {
  }

  lemma {:induction false} LinesAppend(a: seq<Entry>, b: seq<Entry>)
    ensures Lines(a + b) == Lines(a) + Lines(b)
  {
    if a == [] {
      assert a + b == b;
    } else {
      LinesAppend(a[1..], b);
      assert (a + b)[1..] == a[1..] + b;
    }
  }

  lemma {:induction false} KeptAppend(a: seq<Item>, b: seq<Item>)
    ensures Kept(a + b) == Kept(a) + Kept(b)
  {
    if a == [] {
      assert a + b == b;
    } else {
      KeptAppend(a[1..], b);
      assert (a + b)[1..] == a[1..] + b;
      Regroup(KeptOne(a[0]), Kept(a[1..]), Kept(b));
    }
  }

  /** The loop of saveConfig. */
  method SaveConfig(items: seq<Item>) returns (configStream: string)
    ensures configStream == Lines(Kept(items))
  {
    configStream := [];
    var i := 0;
    assert items[..0] == [];
    while i < |items|
      invariant 0 <= i <= |items|
      invariant configStream == Lines(Kept(items[..i]))
    {
      var item := items[i];
      assert items[..i + 1] == items[..i] + [item];
      KeptAppend(items[..i], [item]);
      LinesAppend(Kept(items[..i]), Kept([item]));
      i := i + 1;
      if item.value.Null? || (item.value.Text? && item.value.s == []) {
        assert Kept([item]) == [];
        continue;
      }
      var value := if item.value.Text? then item.value.s else item.value.dump;
      assert Kept([item]) == [Entry(item.key, value)];
      assert Lines([Entry(item.key, value)]) == Line(Entry(item.key, value));
      configStream := configStream + (item.key + " = " + value + "\n");
    }
    assert items[..i] == items;
  }

  // What the parser can return.

  predicate KeyChar(c: char) { c != '=' && c != '#' && !Endline(c) }

  predicate LegalKey(k: string) {
    && k != [] && NotWhitespace(k[0]) && NotSpaceTab(k[|k| - 1])
    && forall i :: 0 <= i < |k| ==> KeyChar(k[i])
  }

  predicate OneLine(v: string) {
    forall i :: 0 <= i < |v| ==> !Endline(v[i])
  }

  predicate LegalValue(v: string) {
    && v != [] && '#' !in v && NotWhitespace(v[0])
    && if v[0] == '[' then Closes(v) else OneLine(v)
  }

  predicate Legal(e: Entry) { LegalKey(e.key) && LegalValue(e.value) }

  lemma NameLegal(t: string, begin: nat, eq: nat)
    requires begin < eq <= |t| && NotWhitespace(t[begin]) && forall i :: begin <= i < eq ==> KeyChar(t[i])
    ensures LegalKey(Strip(t[begin..FindLast(t, begin, eq, NotSpaceTab)]))
  {
    var endName := FindLast(t, begin, eq, NotSpaceTab);
    FindLastIsLast(t, begin, eq, NotSpaceTab);
    var key := t[begin..endName];
    assert !NotSpaceTab(t[begin]) || begin < endName;
    assert forall i :: 0 <= i < |key| ==> key[i] == t[begin + i];
    assert '#' !in key;
    StripNothing(key);
  }

  lemma ParsedValueLegal(t: string, key: string, beginVal: nat, endl: nat)
    requires beginVal < endl <= |t|
    ensures var entry := ParseValue(t, key, beginVal, endl).1;
            entry.Some? ==> entry.value.key == key && '#' !in entry.value.value
  {
    StripHasNoHash(t[beginVal..endl]);
    StripHasNoHash(t[beginVal..Skip(t, beginVal + 1, 1).0]);
  }

  lemma AllKeyChars(t: string, begin: nat, eq: nat)
    requires begin <= eq <= |t|
    requires forall i :: begin <= i < eq ==> !Endline(t[i])
    requires forall i :: begin <= i < eq ==> !IsHash(t[i])
    requires forall i :: begin <= i < eq ==> !IsEquals(t[i])
    ensures forall i :: begin <= i < eq ==> KeyChar(t[i])
  {
  }

  predicate ParsedEntry(entry: Option<Entry>) {
    entry.Some? ==> LegalKey(entry.value.key) && '#' !in entry.value.value
  }

  lemma NameChars(t: string, begin: nat, endl: nat, hash: nat, endc: nat, eq: nat)
    requires begin < eq < endc <= hash <= endl <= |t|
    requires begin == Find(t, 0, |t|, NotWhitespace) && endl == Find(t, begin, |t|, Endline)
    requires hash == Find(t, begin, endl, IsHash) && eq == Find(t, begin, endc, IsEquals)
    ensures NotWhitespace(t[begin]) && forall i :: begin <= i < eq ==> KeyChar(t[i])
  {
    FindIsFirst(t, 0, |t|, NotWhitespace);
    FindIsFirst(t, begin, |t|, Endline);
    FindIsFirst(t, begin, endl, IsHash);
    FindIsFirst(t, begin, endc, IsEquals);
    AllKeyChars(t, begin, eq);
  }

  lemma ParsedNamedLegal(t: string, begin: nat, eq: nat, endc: nat, endl: nat)
    requires begin < eq < endc <= endl <= |t|
    requires NotWhitespace(t[begin]) && forall i :: begin <= i < eq ==> KeyChar(t[i])
    ensures ParsedEntry(ParseNamed(t, begin, eq, endc, endl).1)
  {
    NameLegal(t, begin, eq);
    var beginVal := Find(t, eq + 1, endc, NotSpaceTab);
    if beginVal != endl {
      ParsedValueLegal(t, Strip(t[begin..FindLast(t, begin, eq, NotSpaceTab)]), beginVal, endl);
    }
  }

  lemma ParsedOptionLegal(t: string)
    ensures ParsedEntry(ParseOption(t).1)
  {
    var begin := Find(t, 0, |t|, NotWhitespace);
    var endl := Find(t, begin, |t|, Endline);
    var hash := Find(t, begin, endl, IsHash);
    var endc := FindLast(t, begin, hash, NotWhitespace);
    var eq := Find(t, begin, endc, IsEquals);
    if eq != endc && eq != begin {
      NameChars(t, begin, endl, hash, endc, eq);
      ParsedNamedLegal(t, begin, eq, endc, endl);
    }
  }

  predicate ParsedShape(m: map<string, string>) {
    forall k :: k in m ==> LegalKey(k) && '#' !in m[k]
  }

  lemma PrependShape(entry: Option<Entry>, rest: map<string, string>)
    requires ParsedShape(rest) && ParsedEntry(entry)
    ensures ParsedShape(Prepend(entry, rest))
  {
  }

  /** Every key and value in a parsed map has this shape. */
  lemma {:induction false} ParsedLegal(file: string, pos: nat)
    ensures ParsedShape(ParseFrom(file, pos))
    decreases |file| - pos
  {
    if pos < |file| {
      var (endl, entry) := ParseOption(file[pos..]);
      ParsedOptionLegal(file[pos..]);
      var next := Advance(file, pos + endl);
      ParsedLegal(file, next);
      var rest := ParseFrom(file, next);
      var all := Prepend(entry, rest);
      PrependShape(entry, rest);
      assert ParseFrom(file, pos) == all;
    }
  }

  // Parsing one printed line.

  lemma FindIs(t: string, from: nat, end: nat, p: char -> bool, r: nat)
    requires from <= r <= end <= |t| && (r < end ==> p(t[r]))
    requires forall i :: from <= i < r ==> !p(t[i])
    ensures Find(t, from, end, p) == r
  {
    FindIsFirst(t, from, end, p);
  }

  lemma FindLastIs(t: string, from: nat, end: nat, p: char -> bool, r: nat)
    requires from <= r <= end <= |t| && (from < r ==> p(t[r - 1]))
    requires forall i :: r <= i < end ==> !p(t[i])
    ensures FindLast(t, from, end, p) == r
  {
    FindLastIsLast(t, from, end, p);
  }

  /** `t` starts with "k = v", and either ends there or goes on with a new line. */
  predicate Starts(t: string, k: string, v: string) {
    && |t| >= |k| + 3 + |v|
    && t[..|k|] == k && t[|k|] == ' ' && t[|k| + 1] == '=' && t[|k| + 2] == ' '
    && t[|k| + 3..|k| + 3 + |v|] == v && (|t| > |k| + 3 + |v| ==> t[|k| + 3 + |v|] == '\n')
  }

  /** `t` starts with the line printed for `k` and `v`. */
  predicate Laid(t: string, k: string, v: string) {
    |t| > |k| + 3 + |v| && Starts(t, k, v)
  }

  lemma StartChars(t: string, k: string, v: string)
    requires Starts(t, k, v)
    ensures forall i :: 0 <= i < |k| ==> t[i] == k[i]
    ensures forall i :: |k| + 3 <= i < |k| + 3 + |v| ==> t[i] == v[i - |k| - 3]
  {
    var from, w := |k| + 3, t[|k| + 3..|k| + 3 + |v|];
    assert forall i :: from <= i < from + |v| ==> t[i] == w[i - from];
  }

  /** The line's end is the first one in the value, if any. */
  lemma HeaderEnd(t: string, k: string, v: string) returns (endl: nat)
    requires Starts(t, k, v) && LegalKey(k) && '#' !in v
    ensures endl == Find(t, 0, |t|, Endline) == Find(t, 0, endl, IsHash)
    ensures |k| + 3 <= endl <= |k| + 3 + |v|
    ensures Find(t, 0, |t|, NotWhitespace) == 0
  {
    StartChars(t, k, v);
    endl := Find(t, 0, |t|, Endline);
    FindIsFirst(t, 0, |t|, Endline);
    assert forall i :: 0 <= i < |k| ==> KeyChar(k[i]);
    assert |t| > |k| + 3 + |v| ==> Endline(t[|k| + 3 + |v|]);
    FindIs(t, 0, |t|, NotWhitespace, 0);
    assert forall i :: 0 <= i < endl ==> t[i] != '#';
    FindIs(t, 0, endl, IsHash, endl);
  }

  lemma HeaderName(t: string, k: string, v: string, endl: nat)
    requires Starts(t, k, v) && LegalKey(k) && |k| + 3 <= endl <= |t|
    ensures var endc := FindLast(t, 0, endl, NotWhitespace);
            && |k| + 2 <= endc <= endl
            && Find(t, 0, endc, IsEquals) == |k| + 1
    ensures FindLast(t, 0, |k| + 1, NotSpaceTab) == |k| && Strip(t[0..|k|]) == k
  {
    StartChars(t, k, v);
    var n, endc := |k|, FindLast(t, 0, endl, NotWhitespace);
    FindLastIsLast(t, 0, endl, NotWhitespace);
    assert NotWhitespace(t[n + 1]);
    assert forall i :: 0 <= i < n ==> KeyChar(k[i]);
    FindIs(t, 0, endc, IsEquals, n + 1);
    KeyName(t, k);
  }

  lemma KeyName(t: string, k: string)
    requires |k| < |t| && t[..|k|] == k && t[|k|] == ' ' && LegalKey(k)
    ensures FindLast(t, 0, |k| + 1, NotSpaceTab) == |k| && Strip(t[0..|k|]) == k
  {
    assert t[|k| - 1] == k[|k| - 1];
    FindLastIs(t, 0, |k| + 1, NotSpaceTab, |k|);
    assert '#' !in k by {
      assert forall i :: 0 <= i < |k| ==> KeyChar(k[i]);
    }
    StripNothing(k);
    assert t[0..|k|] == k;
  }

  /** For a legal key the parse comes down to the value's part. */
  lemma Header(t: string, k: string, v: string)
    requires Starts(t, k, v) && LegalKey(k) && '#' !in v
    ensures var n, endl := |k|, Find(t, 0, |t|, Endline);
            && n + 3 <= endl <= n + 3 + |v|
            && var endc := FindLast(t, 0, endl, NotWhitespace);
            && n + 2 <= endc <= endl
            && var beginVal := Find(t, n + 2, endc, NotSpaceTab);
               ParseOption(t) == if beginVal == endl then (endl, None) else ParseValue(t, k, beginVal, endl)
  {
    var endl := HeaderEnd(t, k, v);
    HeaderName(t, k, v, endl);
  }

  /** A value that starts with no blank starts right after the separator. */
  lemma ValueStart(t: string, k: string, v: string, endl: nat)
    requires Starts(t, k, v) && v != [] && NotWhitespace(v[0])
    requires endl == Find(t, 0, |t|, Endline) && |k| + 3 <= endl
    ensures endl > |k| + 3
    ensures var endc := FindLast(t, 0, endl, NotWhitespace);
            |k| + 4 <= endc && Find(t, |k| + 2, endc, NotSpaceTab) == |k| + 3
  {
    var n := |k| + 3;
    assert t[n] == v[0] by {
      StartChars(t, k, v);
    }
    assert endl != n by {
      FindIsFirst(t, 0, |t|, Endline);
    }
    var endc := FindLast(t, 0, endl, NotWhitespace);
    assert n < endc by {
      FindLastIsLast(t, 0, endl, NotWhitespace);
      assert NotWhitespace(t[n]);
    }
    FindIs(t, n - 1, endc, NotSpaceTab, n);
  }

  /** Where the text's list ends: inside the value, or beyond it. */
  lemma ListInText(t: string, k: string, v: string)
    requires Laid(t, k, v) && v != []
    ensures var close, inside := Skip(t, |k| + 4, 1).0, Skip(v, 1, 1);
            if inside.1 == 0 then close == |k| + 3 + inside.0 else close > |k| + 3 + |v|
  {
    var n := |k| + 3;
    var p, rest := t[..n], t[n + |v|..];
    assert t == p + (v + rest);
    SkipShift(p, v + rest, 1, 1);
    SkipPrefix(v, rest, 1, 1);
  }

  lemma ValueAt(t: string, k: string, v: string)
    requires Starts(t, k, v) && LegalKey(k) && '#' !in v && v != [] && NotWhitespace(v[0])
    ensures var endl := Find(t, 0, |t|, Endline);
            endl > |k| + 3 && ParseOption(t) == ParseValue(t, k, |k| + 3, endl)
  {
    Header(t, k, v);
    ValueStart(t, k, v, Find(t, 0, |t|, Endline));
  }

  /** A list is read back just when its bracket closes with its last character. */
  lemma {:induction false} ListReadIff(t: string, k: string, v: string, endl: nat)
    requires Laid(t, k, v) && '#' !in v && v != [] && v[0] == '[' && |k| + 3 < endl <= |t|
    ensures var r := ParseValue(t, k, |k| + 3, endl);
            && r.1.Some? && r.1.value.key == k
            && (r.1.value.value == v <==> Closes(v))
            && (Closes(v) ==> r.0 == |k| + 3 + |v|)
  {
    var n, inside := |k| + 3, Skip(v, 1, 1);
    StartChars(t, k, v);
    ListInText(t, k, v);
    var close := Skip(t, n + 1, 1).0;
    if inside.1 == 0 {
      assert t[n..close] == v[..inside.0];
      assert '#' !in v[..inside.0];
      StripNothing(v[..inside.0]);
      assert inside.0 == |v| ==> v[..inside.0] == v;
    } else {
      assert t[n..close] == v + t[n + |v|..close];
      StripAppend(v, t[n + |v|..close]);
      assert t[n + |v|..close][0] == '\n';
      assert |Strip(t[n + |v|..close])| > 0;
    }
  }

  /**
   A list that is never closed: only a '[' that ends the file is refused, any other list takes the rest of the
   file.
   */
  lemma {:induction false} UnclosedValue(t: string, key: string, beginVal: nat, endl: nat)
    requires beginVal < endl <= |t| && t[beginVal] == '[' && Skip(t, beginVal + 1, 1).1 > 0
    ensures ParseValue(t, key, beginVal, endl)
            == (|t|, if |t| == beginVal + 1 then None else Some(Entry(key, Strip(t[beginVal..]))))
  {
    assert t[beginVal..|t|] == t[beginVal..];
  }

  /** So a file that ends in an unclosed list gives the list to its key, unless the list is the bracket alone. */
  lemma {:induction false} UnclosedListRead(k: string, v: string)
    requires LegalKey(k) && v != [] && v[0] == '[' && '#' !in v && Skip(v, 1, 1).1 > 0
    ensures var file := k + " = " + v;
            Parse(file) == if v == "[" then map[] else map[k := v]
  {
    var file := k + " = " + v;
    UnclosedLastOption(k, v);
    assert file[0..] == file;
    assert ParseFrom(file, |file|) == map[];
  }

  lemma UnclosedLastOption(k: string, v: string)
    requires LegalKey(k) && v != [] && v[0] == '[' && '#' !in v && Skip(v, 1, 1).1 > 0
    ensures var file := k + " = " + v;
            ParseOption(file) == (|file|, if v == "[" then None else Some(Entry(k, v)))
  {
    var file, n := k + " = " + v, |k| + 3;
    ValueAt(file, k, v);
    SkipShift(k + " = ", v, 1, 1);
    assert file[n..] == v;
    StripNothing(v);
    UnclosedValue(file, k, n, Find(file, 0, |file|, Endline));
  }

  lemma UnclosedListFile(v: string, file: string)
    requires v != [] && v[0] == '[' && '#' !in v && Skip(v, 1, 1).1 > 0 && file == "a = " + v
    ensures Parse(file) == if v == "[" then map[] else map["a" := v]
  {
    UnclosedListRead("a", v);
    assert "a" + " = " + v == "a = " + v;
  }

  /** The lines behind an unclosed bracket become part of the value. */
  lemma {:induction false} UnclosedListExample()
    ensures Parse("a = [b\nc = d\n") == map["a" := "[b\nc = d\n"]
  {
    UnclosedListFile("[b\nc = d\n", "a = [b\nc = d\n");
  }

  /** A last '[' gives nothing. */
  lemma {:induction false} UnclosedBracketExample()
    ensures Parse("a = [") == map[]
  {
    UnclosedListFile("[", "a = [");
  }

  /** Any other value is read back just when it is one line. */
  lemma {:induction false} ScalarReadIff(t: string, k: string, v: string, endl: nat)
    requires Laid(t, k, v) && '#' !in v && v != [] && v[0] != '[' && LegalKey(k)
    requires endl == Find(t, 0, |t|, Endline) && |k| + 3 < endl <= |k| + 3 + |v|
    ensures var r := ParseValue(t, k, |k| + 3, endl);
            && r.1.Some? && r.1.value.key == k
            && (r.1.value.value == v <==> OneLine(v))
            && (OneLine(v) ==> r.0 == |k| + 3 + |v|)
  {
    var n := |k| + 3;
    StartChars(t, k, v);
    FindIsFirst(t, 0, |t|, Endline);
    var m := endl - n;
    assert t[n..endl] == v[..m];
    assert '#' !in v[..m];
    StripNothing(v[..m]);
    if OneLine(v) {
      assert forall i :: n <= i < n + |v| ==> !Endline(t[i]);
      assert m == |v| && v[..m] == v;
    } else {
      var i :| 0 <= i < |v| && Endline(v[i]);
      assert t[n + i] == v[i];
    }
  }

  lemma StripFirst(t: string)
    requires t != [] && t[0] != '#'
    ensures Strip(t) != [] && Strip(t)[0] == t[0]
  {
  }

  /** With nothing but blanks on the line the value is those blanks and the separator's. */
  lemma AllBlank(t: string, k: string, v: string, endl: nat)
    requires Laid(t, k, v) && '#' !in v && v != []
    requires endl == Find(t, 0, |t|, Endline) && |k| + 3 <= endl <= |k| + 3 + |v|
    ensures Strip(t[|k| + 2..endl]) != v
  {
    var n, m := |k| + 3, endl - |k| - 3;
    StartChars(t, k, v);
    FindIsFirst(t, 0, |t|, Endline);
    var value := t[n - 1..endl];
    assert |value| == 1 + m && value[0] == ' ';
    assert forall i :: 0 < i < |value| ==> value[i] == t[n - 1 + i] == v[i - 1];
    assert value == " " + v[..m];
    assert '#' !in value;
    StripNothing(value);
    assert forall i :: 0 <= i < |value| ==> value[i] == t[n - 1 + i] && !Endline(value[i]);
    assert m < |v| ==> v[m] == t[endl] && Endline(v[m]);
  }

  /** A value read from inside the line starts with what is there. */
  lemma LaterStart(t: string, k: string, v: string, beginVal: nat, endl: nat)
    requires Laid(t, k, v) && '#' !in v && |k| + 3 <= beginVal < endl <= |k| + 3 + |v| && NotWhitespace(t[beginVal])
    ensures var entry := ParseValue(t, k, beginVal, endl).1;
            entry.Some? && entry.value.key == k && entry.value.value != [] && entry.value.value[0] == t[beginVal]
  {
    StartChars(t, k, v);
    var close := Skip(t, beginVal + 1, 1).0;
    assert t[beginVal] == v[beginVal - |k| - 3];
    StripFirst(t[beginVal..endl]);
    StripFirst(t[beginVal..close]);
  }

  /** A value that starts with a blank or an end of line is read as something else. */
  lemma BlankStart(t: string, k: string, v: string)
    requires Laid(t, k, v) && LegalKey(k) && '#' !in v && v != [] && !NotWhitespace(v[0])
    ensures var entry := ParseOption(t).1;
            entry.Some? && entry.value.key == k && entry.value.value != v
  {
    var n, endl := |k|, Find(t, 0, |t|, Endline);
    Header(t, k, v);
    var endc := FindLast(t, 0, endl, NotWhitespace);
    if endc == n + 2 {
      AllBlank(t, k, v, endl);
    } else {
      SomethingLater(t, n + 2, endc, endl);
      LaterStart(t, k, v, Find(t, n + 2, endc, NotSpaceTab), endl);
    }
  }

  lemma SomethingLater(t: string, from: nat, endc: nat, endl: nat)
    requires from < endc <= endl <= |t| && t[from] == ' '
    requires endl == Find(t, 0, |t|, Endline) && endc == FindLast(t, 0, endl, NotWhitespace)
    ensures var beginVal := Find(t, from, endc, NotSpaceTab);
            from < beginVal < endc && NotWhitespace(t[beginVal])
  {
    FindIsFirst(t, from, endc, NotSpaceTab);
    FindLastIsLast(t, 0, endl, NotWhitespace);
    FindIsFirst(t, 0, |t|, Endline);
    assert NotWhitespace(t[endc - 1]);
  }

  lemma LegalLine(t: string, k: string, v: string)
    requires Laid(t, k, v) && LegalKey(k) && LegalValue(v)
    ensures ParseOption(t) == (|k| + 3 + |v|, Some(Entry(k, v)))
  {
    var endl := Find(t, 0, |t|, Endline);
    ValueAt(t, k, v);
    Header(t, k, v);
    if v[0] == '[' {
      ListReadIff(t, k, v, endl);
    } else {
      ScalarReadIff(t, k, v, endl);
    }
  }

  lemma IllegalLine(t: string, k: string, v: string)
    requires Laid(t, k, v) && LegalKey(k) && '#' !in v && v != [] && !LegalValue(v)
    ensures var entry := ParseOption(t).1;
            entry.Some? && entry.value.key == k && entry.value.value != v
  {
    var endl := Find(t, 0, |t|, Endline);
    if !NotWhitespace(v[0]) {
      BlankStart(t, k, v);
    } else {
      ValueAt(t, k, v);
      Header(t, k, v);
      if v[0] == '[' {
        ListReadIff(t, k, v, endl);
      } else {
        ScalarReadIff(t, k, v, endl);
      }
    }
  }

  // Whole files.

  lemma LineIsLaid(e: Entry, rest: string)
    ensures Laid(Line(e) + rest, e.key, e.value) && |Line(e)| == |e.key| + 4 + |e.value|
  {
  }

  /** Read as a map, the first entry for a key counting. */
  function ToMap(entries: seq<Entry>): map<string, string> {
    if entries == [] then map[] else ToMap(entries[1..])[entries[0].key := entries[0].value]
  }

  predicate AllLegal(entries: seq<Entry>) {
    forall i :: 0 <= i < |entries| ==> Legal(entries[i])
  }

  /** A printed file at the start of an entry's line. */
  lemma AtEntry(before: string, entries: seq<Entry>)
    requires entries != []
    ensures var e, file := entries[0], before + Lines(entries);
            && file[|before|..] == Line(e) + Lines(entries[1..])
            && file == (before + Line(e)) + Lines(entries[1..])
            && file[|before|..|before| + |Line(e)|] == Line(e)
  {
    var line, rest := Line(entries[0]), Lines(entries[1..]);
    assert before + (line + rest) == (before + line) + rest;
  }

  lemma AfterEntry(before: string, e: Entry, rest: string)
    ensures var n := |before| + |e.key| + 3 + |e.value|;
            && n + 1 == |before + Line(e)|
            && Advance((before + Line(e)) + rest, n) == n + 1
  {
  }

  lemma {:induction false} ParseLegal(before: string, entries: seq<Entry>)
    requires AllLegal(entries)
    ensures ParseFrom(before + Lines(entries), |before|) == ToMap(entries)
    decreases |entries|
  {
    if entries != [] {
      var e, file := entries[0], before + Lines(entries);
      AtEntry(before, entries);
      AfterEntry(before, e, Lines(entries[1..]));
      LineIsLaid(e, Lines(entries[1..]));
      LegalLine(file[|before|..], e.key, e.value);
      ParseLegal(before + Line(e), entries[1..]);
    }
  }

  predicate DistinctKeys(entries: seq<Entry>) {
    forall i, j :: 0 <= i < j < |entries| ==> entries[i].key != entries[j].key
  }

  predicate Misread(m: map<string, string>, e: Entry) {
    e.key !in m || m[e.key] != e.value
  }

  /** The first entry whose value is not legal is misread, and no later line can mend that. */
  lemma {:induction false} IllegalShows(before: string, entries: seq<Entry>) returns (j: nat)
    requires !AllLegal(entries) && DistinctKeys(entries)
    requires forall i :: 0 <= i < |entries| ==>
               LegalKey(entries[i].key) && '#' !in entries[i].value && entries[i].value != []
    ensures j < |entries| && Misread(ParseFrom(before + Lines(entries), |before|), entries[j])
    decreases |entries|
  {
    var e, file, rest := entries[0], before + Lines(entries), Lines(entries[1..]);
    AtEntry(before, entries);
    AfterEntry(before, e, rest);
    LineIsLaid(e, rest);
    if Legal(e) {
      LegalLine(file[|before|..], e.key, e.value);
      assert entries == [e] + entries[1..];
      j := IllegalShows(before + Line(e), entries[1..]);
      j := j + 1;
    } else {
      IllegalLine(file[|before|..], e.key, e.value);
      j := 0;
    }
  }

  lemma {:induction false} ToMapHolds(entries: seq<Entry>, i: nat)
    requires DistinctKeys(entries) && i < |entries|
    ensures entries[i].key in ToMap(entries) && ToMap(entries)[entries[i].key] == entries[i].value
  {
    if i > 0 {
      ToMapHolds(entries[1..], i - 1);
    }
  }

  /**
   Parsing what was saved gives the same map back just when all its keys and values are legal: keys without
   '=', '#' and line ends that neither start nor end with a blank; values without '#' that do not start with
   a blank, on one line or a list that closes with its last character.
   */
  lemma {:induction false} RoundTripIff(entries: seq<Entry>)
    requires DistinctKeys(entries)
    requires forall i :: 0 <= i < |entries| ==> entries[i].value != []
    ensures Parse(Lines(entries)) == ToMap(entries) <==> AllLegal(entries)
  {
    assert [] + Lines(entries) == Lines(entries);
    if AllLegal(entries) {
      ParseLegal([], entries);
    } else if Parse(Lines(entries)) == ToMap(entries) {
      ParsedLegal(Lines(entries), 0);
      forall i | 0 <= i < |entries|
        ensures LegalKey(entries[i].key) && '#' !in entries[i].value
      {
        ToMapHolds(entries, i);
      }
      var j := IllegalShows([], entries);
      ToMapHolds(entries, j);
      assert false;
    }
  }

  /** Repeated keys do no harm: legal lines are read back, the first one for a key counting. */
  lemma {:induction false} FirstOfRepeated(entries: seq<Entry>)
    requires AllLegal(entries)
    ensures Parse(Lines(entries)) == ToMap(entries)
  {
    assert [] + Lines(entries) == Lines(entries);
    ParseLegal([], entries);
  }

  lemma {:induction false} KeptNonempty(items: seq<Item>)
    requires forall i :: 0 <= i < |items| && items[i].value.Other? ==> items[i].value.dump != []
    ensures forall e :: e in Kept(items) ==> e.value != [] && exists i :: 0 <= i < |items| && items[i].key == e.key
  {
    if items != [] {
      KeptNonempty(items[1..]);
      forall e | e in Kept(items)
        ensures e.value != [] && exists i :: 0 <= i < |items| && items[i].key == e.key
      {
        if e in Kept(items[1..]) {
          var i :| 0 <= i < |items[1..]| && items[1..][i].key == e.key;
          assert items[i + 1].key == e.key;
        } else {
          assert items[0].key == e.key;
        }
      }
    }
  }

  lemma {:induction false} KeptDistinct(items: seq<Item>)
    requires forall i, j :: 0 <= i < j < |items| ==> items[i].key != items[j].key
    requires forall i :: 0 <= i < |items| && items[i].value.Other? ==> items[i].value.dump != []
    ensures DistinctKeys(Kept(items))
  {
    if items != [] {
      var kept, rest := Kept(items), Kept(items[1..]);
      KeptDistinct(items[1..]);
      KeptNonempty(items[1..]);
      assert forall e :: e in rest ==> e.key != items[0].key;
      assert forall j :: 0 <= j < |rest| ==> rest[j] in rest;
      assert kept == rest || (|kept| == |rest| + 1 && kept[1..] == rest && kept[0].key == items[0].key);
      assert forall j :: 1 <= j < |kept| && kept != rest ==> kept[j] == rest[j - 1];
    }
  }

  /** The whole loop: a saved object's settings, less nulls and empty strings, are what the next start reads. */
  lemma {:induction false} SavedSettingsReadBack(items: seq<Item>)
    requires forall i, j :: 0 <= i < j < |items| ==> items[i].key != items[j].key
    requires forall i :: 0 <= i < |items| && items[i].value.Other? ==> items[i].value.dump != []
    ensures Parse(Lines(Kept(items))) == ToMap(Kept(items)) <==> AllLegal(Kept(items))
  {
    KeptDistinct(items);
    KeptNonempty(items);
    assert forall i :: 0 <= i < |Kept(items)| ==> Kept(items)[i] in Kept(items);
    RoundTripIff(Kept(items));
  }
}
