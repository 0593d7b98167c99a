/** Tiller's managed keys in a Codex configuration text: merged in, and taken out again. */
module CodexConfig {
  import opened Text
  import opened Dispatches
  import opened TomlEdit

  // ---------------------------------------------------------------- texts and lines

  function TrimNewlines(s: string): (t: string)
    ensures t != "" ==> t[|t| - 1] != '\n'
  {
    if s != "" && s[|s| - 1] == '\n' then TrimNewlines(s[..|s| - 1]) else s
  }

  /** A line as the splitter makes it. */
  predicate Clean(line: Line) {
    line == ReadLine(line.text) && '\n' !in line.text
  }

  predicate AllClean(lines: seq<Line>) {
    forall i | 0 <= i < |lines| :: Clean(lines[i])
  }

  lemma CleanUpTo(s: string, i: nat)
    requires i <= |s| && forall k | 0 <= k < i :: s[k] != '\n'
    ensures Clean(ReadLine(s[..i])) && (i == |s| ==> s[..i] == s)
  {
    assert forall k | 0 <= k < i :: s[..i][k] == s[k];
  }

  function Split(s: string): (lines: seq<Line>)
    ensures lines != [] && AllClean(lines)
    ensures lines[|lines| - 1].text == "" <==> s == "" || s[|s| - 1] == '\n'
  {
    var i := IndexByte(s, '\n');
    CleanUpTo(s, i);
    if i == |s| then [ReadLine(s)] else [ReadLine(s[..i])] + Split(s[i + 1..])
  }

  function SplitTomlLines(src: string): seq<Line> {
    if src == "" then [] else Split(TrimNewlines(src))
  }

  function Join(lines: seq<Line>): string {
    if lines == [] then ""
    else if |lines| == 1 then lines[0].text
    else lines[0].text + "\n" + Join(lines[1..])
  }

  function JoinLines(lines: seq<Line>): string {
    Join(lines) + "\n"
  }

  /** What splitting makes of joined lines: it loses empty lines at the end. */
  function Chomp(lines: seq<Line>): (r: seq<Line>)
    ensures |r| <= |lines|
  {
    if |lines| > 1 && lines[|lines| - 1].text == "" then Chomp(lines[..|lines| - 1]) else lines
  }

  predicate Tidy(lines: seq<Line>) {
    AllClean(lines) && (|lines| > 1 ==> lines[|lines| - 1].text != "")
  }

  lemma SplitTidy(src: string)
    ensures Tidy(SplitTomlLines(src))
  {
    if src != "" && TrimNewlines(src) == "" {
      assert IndexByte("", '\n') == 0;
    }
  }

  lemma SplitFirst(head: string, rest: string)
    requires '\n' !in head
    ensures Split(head) == [ReadLine(head)] && Split(head + "\n" + rest) == [ReadLine(head)] + Split(rest)
  {
    var whole := head + "\n" + rest;
    assert forall k | 0 <= k < |head| :: whole[k] == head[k];
    assert whole[|head|] == '\n' && whole[..|head|] == head && whole[|head| + 1..] == rest;
    assert IndexByte(whole, '\n') == |head| == IndexByte(head, '\n');
  }

  lemma {:induction false} SplitJoin(lines: seq<Line>)
    requires lines != [] && AllClean(lines)
    ensures Split(Join(lines)) == lines
  {
    var line := lines[0];
    assert Clean(line);
    if |lines| == 1 {
      SplitFirst(line.text, "");
    } else {
      SplitFirst(line.text, Join(lines[1..]));
      SplitJoin(lines[1..]);
    }
  }

  lemma {:induction false} JoinSnoc(lines: seq<Line>, line: Line)
    requires lines != []
    ensures Join(lines + [line]) == JoinLines(lines) + line.text
  {
    if |lines| == 1 {
      assert (lines + [line])[1..] == [line];
    } else {
      JoinSnoc(lines[1..], line);
      assert (lines + [line])[1..] == lines[1..] + [line];
    }
  }

  lemma {:induction false} JoinEnd(lines: seq<Line>)
    requires lines != [] && AllClean(lines) && lines[|lines| - 1].text != ""
    ensures Join(lines) != "" && Join(lines)[|Join(lines)| - 1] != '\n'
  {
    var last := lines[|lines| - 1];
    assert Clean(last) && last.text[|last.text| - 1] in last.text;
    if |lines| > 1 {
      JoinSnoc(lines[..|lines| - 1], last);
      assert lines[..|lines| - 1] + [last] == lines;
    }
  }

  lemma TrimEmpty(lines: seq<Line>)
    requires |lines| > 1 && lines[|lines| - 1].text == ""
    ensures Join(lines) == JoinLines(lines[..|lines| - 1])
  {
    var fewer := lines[..|lines| - 1];
    JoinSnoc(fewer, lines[|lines| - 1]);
    assert fewer + [lines[|lines| - 1]] == lines;
    assert JoinLines(fewer) + "" == JoinLines(fewer);
  }

  lemma {:induction false} TrimJoin(lines: seq<Line>)
    requires lines != [] && AllClean(lines)
    ensures TrimNewlines(JoinLines(lines)) == Join(Chomp(lines)) && Chomp(lines) != [] && AllClean(Chomp(lines))
  {
    var text := JoinLines(lines);
    assert text[..|text| - 1] == Join(lines);
    if lines[|lines| - 1].text != "" {
      JoinEnd(lines);
    } else if |lines| > 1 {
      TrimEmpty(lines);
      TrimJoin(lines[..|lines| - 1]);
    }
  }

  /** Writing lines out and reading them back loses exactly the empty lines at the end. */
  lemma ReadBack(lines: seq<Line>)
    requires lines != [] && AllClean(lines)
    ensures SplitTomlLines(JoinLines(lines)) == Chomp(lines)
    ensures Tidy(lines) ==> SplitTomlLines(JoinLines(lines)) == lines
  {
    TrimJoin(lines);
    SplitJoin(Chomp(lines));
  }

  // ---------------------------------------------------------------- the two editing operations

  function SetText(src: string, section: string, key: string, value: string): string {
    JoinLines(SetLines(SplitTomlLines(src), section, key, value))
  }

  function EnsureTrailingNewline(src: string): string {
    if src == "" || src[|src| - 1] == '\n' then src else src + "\n"
  }

  function RemoveText(src: string, section: string, key: string, value: string): (string, bool) {
    var (lines, changed) := RemoveLines(SplitTomlLines(src), section, key, value);
    (if changed then JoinLines(lines) else EnsureTrailingNewline(src), changed)
  }

  method SetTomlKey(src: string, section: string, key: string, value: string) returns (text: string)
    ensures text == SetText(src, section, key, value)
  {
    var lines := SetKeyLine(SplitTomlLines(src), section, key, value);
    return JoinLines(lines);
  }

  method RemoveTomlKeyValue(src: string, section: string, key: string, value: string)
    returns (text: string, changed: bool)
    ensures (text, changed) == RemoveText(src, section, key, value)
  {
    var lines;
    lines, changed := RemoveKeyLine(SplitTomlLines(src), section, key, value);
    if changed {
      text := JoinLines(lines);
    } else {
      text := EnsureTrailingNewline(src);
    }
  }

  // ---------------------------------------------------------------- setting keeps texts tidy

  lemma SetTidy(lines: seq<Line>, section: string, key: string, value: string)
    requires Tidy(lines) && PlainEdit(section, key, value)
    ensures Tidy(SetLines(lines, section, key, value)) && SetLines(lines, section, key, value) != []
  {
    var line := AssignmentLine(key, value);
    AssignmentReads(key, value);
    assert Clean(line);
    if !HasSection(lines, section) {
      AppendTidy(lines, section, line);
    } else {
      PutTidy(lines, KeyIndex(lines, section, key), line);
    }
  }

  lemma AppendTidy(lines: seq<Line>, section: string, line: Line)
    requires AllClean(lines) && '\n' !in section && Clean(line) && line.text != ""
    ensures Tidy(Appended(lines, section, line))
  {
    var header, empty := Header(section), "";
    assert forall k | 0 <= k < |section| :: header[k + 1] == section[k];
    assert Clean(ReadLine(header)) && Clean(ReadLine(empty));
  }

  lemma PutTidy(lines: seq<Line>, i: nat, line: Line)
    requires Tidy(lines) && 0 < i <= |lines| && Clean(line) && line.text != ""
    ensures Tidy(Inserted(lines, i, line))
    ensures i < |lines| ==> Tidy(lines[i := line])
  {
    var inserted := Inserted(lines, i, line);
    forall k | 0 <= k < |inserted| ensures Clean(inserted[k]) {
      assert k < i ==> inserted[k] == lines[k];
      assert k == i ==> inserted[k] == line;
      assert k > i ==> inserted[k] == lines[k - 1];
    }
  }

  /** Setting a key in a text sets it in its lines. */
  lemma SetTextLines(src: string, section: string, key: string, value: string)
    requires PlainEdit(section, key, value)
    ensures SplitTomlLines(SetText(src, section, key, value)) == SetLines(SplitTomlLines(src), section, key, value)
  {
    SplitTidy(src);
    SetTidy(SplitTomlLines(src), section, key, value);
    ReadBack(SetLines(SplitTomlLines(src), section, key, value));
  }

  // ---------------------------------------------------------------- the managed defaults

  const FEATURES := "features"
  const AGENTS := "agents"
  const MULTI_AGENT := "multi_agent"
  const MAX_THREADS := "max_threads"
  const MAX_DEPTH := "max_depth"

  function WithFeatures(src: string): string {
    SetText(src, FEATURES, MULTI_AGENT, "true")
  }

  function MergeCodexConfigText(src: string): string {
    SetText(SetText(WithFeatures(src), AGENTS, MAX_THREADS, "12"), AGENTS, MAX_DEPTH, "2")
  }

  function RemoveCodexConfigDefaultsText(src: string): (string, bool) {
    var (out, removedThreads) := RemoveText(src, AGENTS, MAX_THREADS, "12");
    var (out', removedDepth) := RemoveText(out, AGENTS, MAX_DEPTH, "2");
    (out', removedThreads || removedDepth)
  }

  /** The line a reader of the text finds for a key. */
  function Find(src: string, section: string, key: string): Option<Line> {
    Lookup(SplitTomlLines(src), section, key)
  }

  lemma SetTextFind(src: string, name: string, k: string, value: string, section: string, key: string)
    requires PlainEdit(name, k, value) && key != ""
    ensures Find(SetText(src, name, k, value), section, key)
         == if section == name && key == k then Some(AssignmentLine(k, value)) else Find(src, section, key)
  {
    SetTextLines(src, name, k, value);
    SetLookups(SplitTomlLines(src), name, k, value, section, key);
  }

  lemma ManagedPlain()
    ensures PlainEdit(FEATURES, MULTI_AGENT, "true")
    ensures PlainEdit(AGENTS, MAX_THREADS, "12")
    ensures PlainEdit(AGENTS, MAX_DEPTH, "2")
  {
  }

  /** What a lookup must find after the merge. */
  function Managed(section: string, key: string): Option<Line> {
    if section == FEATURES && key == MULTI_AGENT then Some(AssignmentLine(MULTI_AGENT, "true"))
    else if section == AGENTS && key == MAX_THREADS then Some(AssignmentLine(MAX_THREADS, "12"))
    else if section == AGENTS && key == MAX_DEPTH then Some(AssignmentLine(MAX_DEPTH, "2"))
    else None
  }

  /** After a merge the three managed keys have their values, and every other lookup is as it was. */
  lemma MergeLookups(src: string, section: string, key: string)
    requires key != ""
    ensures Find(MergeCodexConfigText(src), section, key)
         == if Managed(section, key).Some? then Managed(section, key) else Find(src, section, key)
  {
    ManagedPlain();
    var one := WithFeatures(src);
    var two := SetText(one, AGENTS, MAX_THREADS, "12");
    SetTextFind(src, FEATURES, MULTI_AGENT, "true", section, key);
    SetTextFind(one, AGENTS, MAX_THREADS, "12", section, key);
    SetTextFind(two, AGENTS, MAX_DEPTH, "2", section, key);
  }

  /** Setting a key to the value it has, in a text that is written as the editor writes it, gives the same text. */
  lemma SetTextAgain(src: string, section: string, key: string, value: string)
    requires Find(src, section, key) == Some(AssignmentLine(key, value))
    ensures SetText(src, section, key, value) == JoinLines(SplitTomlLines(src))
  {
    SetAgain(SplitTomlLines(src), section, key, value);
  }

  /** A text the editor has written is the text of its lines. */
  lemma Written(src: string, section: string, key: string, value: string)
    requires PlainEdit(section, key, value)
    ensures var text := SetText(src, section, key, value);
      JoinLines(SplitTomlLines(text)) == text && Tidy(SplitTomlLines(text)) && SplitTomlLines(text) != []
  {
    SplitTidy(src);
    SetTidy(SplitTomlLines(src), section, key, value);
    SetTextLines(src, section, key, value);
  }

  ghost predicate AllManaged(text: string) {
    && Find(text, FEATURES, MULTI_AGENT) == Some(AssignmentLine(MULTI_AGENT, "true"))
    && Find(text, AGENTS, MAX_THREADS) == Some(AssignmentLine(MAX_THREADS, "12"))
    && Find(text, AGENTS, MAX_DEPTH) == Some(AssignmentLine(MAX_DEPTH, "2"))
  }

  lemma MergedStays(text: string)
    requires JoinLines(SplitTomlLines(text)) == text
    requires AllManaged(text)
    ensures MergeCodexConfigText(text) == text
  {
    SetTextAgain(text, FEATURES, MULTI_AGENT, "true");
    SetTextAgain(text, AGENTS, MAX_THREADS, "12");
    SetTextAgain(text, AGENTS, MAX_DEPTH, "2");
  }

  lemma MergeWritten(src: string, text: string)
    requires text == MergeCodexConfigText(src)
    ensures JoinLines(SplitTomlLines(text)) == text
  {
    ManagedPlain();
    Written(SetText(WithFeatures(src), AGENTS, MAX_THREADS, "12"), AGENTS, MAX_DEPTH, "2");
  }

  lemma ManagedTable()
    ensures Managed(FEATURES, MULTI_AGENT) == Some(AssignmentLine(MULTI_AGENT, "true"))
    ensures Managed(AGENTS, MAX_THREADS) == Some(AssignmentLine(MAX_THREADS, "12"))
    ensures Managed(AGENTS, MAX_DEPTH) == Some(AssignmentLine(MAX_DEPTH, "2"))
  {
  }

  lemma ManagedFound(src: string, text: string, section: string, key: string)
    requires text == MergeCodexConfigText(src) && key != "" && Managed(section, key).Some?
    ensures Find(text, section, key) == Managed(section, key)
  {
    MergeLookups(src, section, key);
  }

  lemma MergeManages(src: string, text: string)
    requires text == MergeCodexConfigText(src)
    ensures AllManaged(text)
  {
    ManagedTable();
    ManagedFound(src, text, FEATURES, MULTI_AGENT);
    ManagedFound(src, text, AGENTS, MAX_THREADS);
    ManagedFound(src, text, AGENTS, MAX_DEPTH);
  }

  lemma MergeIdempotent(src: string)
    ensures MergeCodexConfigText(MergeCodexConfigText(src)) == MergeCodexConfigText(src)
  {
    var text := MergeCodexConfigText(src);
    MergeWritten(src, text);
    MergeManages(src, text);
    MergedStays(text);
  }

  // ---------------------------------------------------------------- taking two keys out again

  /** Two keys set one after the other, and removed again, on lines. */
  function TwoSet(lines: seq<Line>, section: string, k1: string, v1: string, k2: string, v2: string): seq<Line> {
    SetLines(SetLines(lines, section, k1, v1), section, k2, v2)
  }

  ghost predicate PlainEdits(section: string, k1: string, v1: string, k2: string, v2: string) {
    PlainEdit(section, k1, v1) && PlainEdit(section, k2, v2) && k1 != k2 && k1 != "" && k2 != ""
  }

  lemma {:induction false} ChompFrame(lines: seq<Line>, section: string, key: string)
    requires AllClean(lines) && key != ""
    ensures Lookup(Chomp(lines), section, key) == Lookup(lines, section, key)
  {
    var n := |lines|;
    if n > 1 && lines[n - 1].text == "" {
      assert Clean(lines[n - 1]) && TrimSpace("") == "";
      RemoveFrame(lines, n - 1, section, key);
      assert Without(lines, n - 1) == lines[..n - 1];
      ChompFrame(lines[..n - 1], section, key);
    }
  }

  lemma WithoutReads(lines: seq<Line>, i: nat, section: string, key: string)
    requires AllClean(lines) && 0 < i < |lines| && !Bracket(lines[i]) && lines[i].key != key && key != ""
    ensures var back := SplitTomlLines(JoinLines(Without(lines, i)));
      |back| < |lines| && Lookup(back, section, key) == Lookup(lines, section, key)
  {
    WithoutClean(lines, i);
    RemoveFrame(lines, i, section, key);
    ReadBack(Without(lines, i));
    ChompFrame(Without(lines, i), section, key);
  }

  /** Removing what a lookup finds: one line fewer at least, and no other key is touched. */
  lemma RemoveTextLines(src: string, section: string, k: string, value: string, key: string)
    requires PlainEdit(section, k, value) && Find(src, section, k) == Some(AssignmentLine(k, value)) && key != "" && key != k
    ensures var (text, changed) := RemoveText(src, section, k, value);
      && changed && |SplitTomlLines(text)| < |SplitTomlLines(src)|
      && Find(text, section, key) == Find(src, section, key)
  {
    var lines := SplitTomlLines(src);
    var i := KeyIndex(lines, section, k);
    SplitTidy(src);
    AssignmentReads(k, value);
    RemoveFound(lines, section, k, value);
    WithoutReads(lines, i, section, key);
  }

  lemma WithoutClean(lines: seq<Line>, i: nat)
    requires AllClean(lines) && 0 < i < |lines|
    ensures AllClean(Without(lines, i)) && Without(lines, i) != []
  {
    forall m | 0 <= m < |lines| - 1 ensures Clean(Without(lines, i)[m]) {
      assert Without(lines, i)[m] == lines[if m < i then m else m + 1];
    }
  }

  function TwoRemoved(src: string, section: string, k1: string, v1: string, k2: string, v2: string): string {
    RemoveText(RemoveText(src, section, k1, v1).0, section, k2, v2).0
  }

  lemma TwoRemovedShorter(src: string, section: string, k1: string, v1: string, k2: string, v2: string)
    requires PlainEdits(section, k1, v1, k2, v2)
    requires Find(src, section, k1) == Some(AssignmentLine(k1, v1)) && Find(src, section, k2) == Some(AssignmentLine(k2, v2))
    ensures |SplitTomlLines(TwoRemoved(src, section, k1, v1, k2, v2))| + 2 <= |SplitTomlLines(src)|
  {
    RemoveTextLines(src, section, k1, v1, k2);
    RemoveTextLines(RemoveText(src, section, k1, v1).0, section, k2, v2, k1);
  }

  function TwoSetText(src: string, section: string, k1: string, v1: string, k2: string, v2: string): string {
    SetText(SetText(src, section, k1, v1), section, k2, v2)
  }

  lemma TwoSetLines(src: string, section: string, k1: string, v1: string, k2: string, v2: string)
    requires PlainEdits(section, k1, v1, k2, v2)
    ensures var text := TwoSetText(src, section, k1, v1, k2, v2);
      && SplitTomlLines(text) == TwoSet(SplitTomlLines(src), section, k1, v1, k2, v2)
      && Find(text, section, k1) == Some(AssignmentLine(k1, v1)) && Find(text, section, k2) == Some(AssignmentLine(k2, v2))
  {
    var one := SetText(src, section, k1, v1);
    SetTextLines(src, section, k1, v1);
    SetTextLines(one, section, k2, v2);
    SetTextFind(src, section, k1, v1, section, k1);
    SetTextFind(one, section, k2, v2, section, k1);
    SetTextFind(one, section, k2, v2, section, k2);
  }

  /** A key that was there already is overwritten, so removing it afterwards loses its line. */
  lemma OverwrittenIsLost(src: string, section: string, k1: string, v1: string, k2: string, v2: string)
    requires PlainEdits(section, k1, v1, k2, v2) && HasSection(SplitTomlLines(src), section)
    requires Find(src, section, k1).Some? || Find(src, section, k2).Some?
    ensures |SplitTomlLines(TwoRemoved(TwoSetText(src, section, k1, v1, k2, v2), section, k1, v1, k2, v2))| < |SplitTomlLines(src)|
  {
    var lines := SplitTomlLines(src);
    TwoSetLines(src, section, k1, v1, k2, v2);
    TwoRemovedShorter(TwoSetText(src, section, k1, v1, k2, v2), section, k1, v1, k2, v2);
    SetLookups(lines, section, k1, v1, section, k1);
    SetLookups(lines, section, k1, v1, section, k2);
    SetLength(lines, section, k1, v1);
    SetLength(SetLines(lines, section, k1, v1), section, k2, v2);
  }

  /** `one` and `two` put in at position `i`, in that order. */
  function Both(lines: seq<Line>, i: nat, one: Line, two: Line): seq<Line>
    requires i <= |lines|
  {
    Inserted(Inserted(lines, i, one), i + 1, two)
  }

  lemma WithoutFirst(lines: seq<Line>, i: nat, one: Line, two: Line)
    requires i <= |lines|
    ensures Without(Both(lines, i, one, two), i) == Inserted(lines, i, two)
  {
    assert Both(lines, i, one, two) == lines[..i] + [one, two] + lines[i..];
  }

  /** A first new line at the end of a section moves the end on, for the second. */
  lemma FirstInserted(lines: seq<Line>, section: string, one: Line, key: string)
    requires HasSection(lines, section) && !Bracket(one) && one.key != key
    requires Lookup(lines, section, one.key).None? && Lookup(lines, section, key).None?
    ensures var end := SectionEnd(lines, section);
      var first := Inserted(lines, end, one);
      && HasSection(first, section) && SectionEnd(first, section) == end + 1
      && KeyIndex(first, section, one.key) == end && KeyIndex(first, section, key) == end + 1
  {
    var end := SectionEnd(lines, section);
    var first := Inserted(lines, end, one);
    InsertedAt(lines, section, one);
    InsertedIs(lines, end, one);
    InsertFrame(lines, first, end, one, section, key);
  }

  /** The second does not move the first. */
  lemma SecondInserted(first: seq<Line>, section: string, two: Line, key: string)
    requires HasSection(first, section) && !Bracket(two) && two.key != key
    requires KeyIndex(first, section, two.key) == SectionEnd(first, section) && KeyIndex(first, section, key) < SectionEnd(first, section)
    ensures var both := Inserted(first, SectionEnd(first, section), two);
      HasSection(both, section) && KeyIndex(both, section, key) == KeyIndex(first, section, key)
  {
    var end := SectionEnd(first, section);
    var both := Inserted(first, end, two);
    InsertedIs(first, end, two);
    InsertStart(first, both, end, two, section);
    InsertEnd(first, both, end, two, section);
    InsertKey(first, both, end, two, SectionStart(first, section, 0), end, key);
  }

  lemma AbsentIsInserted(lines: seq<Line>, section: string, k: string, value: string)
    ensures HasSection(lines, section) && KeyIndex(lines, section, k) == SectionEnd(lines, section) ==>
      SetLines(lines, section, k, value) == Inserted(lines, SectionEnd(lines, section), AssignmentLine(k, value))
  {
  }

  lemma TwoInserted(lines: seq<Line>, section: string, k1: string, v1: string, k2: string, v2: string)
    requires PlainEdits(section, k1, v1, k2, v2) && HasSection(lines, section)
    requires Lookup(lines, section, k1).None? && Lookup(lines, section, k2).None?
    ensures var end := SectionEnd(lines, section);
      var both := TwoSet(lines, section, k1, v1, k2, v2);
      && both == Both(lines, end, AssignmentLine(k1, v1), AssignmentLine(k2, v2))
      && HasSection(both, section) && KeyIndex(both, section, k1) == end
  {
    AssignmentReads(k1, v1);
    AssignmentReads(k2, v2);
    AbsentIsInserted(lines, section, k1, v1);
    AbsentIsInserted(SetLines(lines, section, k1, v1), section, k2, v2);
    FirstInserted(lines, section, AssignmentLine(k1, v1), k2);
    SecondInserted(SetLines(lines, section, k1, v1), section, AssignmentLine(k2, v2), k1);
  }

  lemma TwoFound(lines: seq<Line>, section: string, k1: string, v1: string, k2: string, v2: string)
    requires PlainEdits(section, k1, v1, k2, v2)
    ensures Lookup(TwoSet(lines, section, k1, v1, k2, v2), section, k1) == Some(AssignmentLine(k1, v1))
  {
    SetLookups(lines, section, k1, v1, section, k1);
    SetLookups(SetLines(lines, section, k1, v1), section, k2, v2, section, k1);
  }

  /** With the section there and both keys absent, removing one leaves the lines with only the other set. */
  lemma InsertedIsRemoved(lines: seq<Line>, section: string, k1: string, v1: string, k2: string, v2: string)
    requires PlainEdits(section, k1, v1, k2, v2) && HasSection(lines, section)
    requires Lookup(lines, section, k1).None? && Lookup(lines, section, k2).None?
    ensures RemoveLines(TwoSet(lines, section, k1, v1, k2, v2), section, k1, v1) == (SetLines(lines, section, k2, v2), true)
  {
    TwoInserted(lines, section, k1, v1, k2, v2);
    TwoFound(lines, section, k1, v1, k2, v2);
    AbsentIsInserted(lines, section, k2, v2);
    FirstTakenOut(lines, SectionEnd(lines, section), section, k1, v1, AssignmentLine(k2, v2), TwoSet(lines, section, k1, v1, k2, v2));
  }

  lemma FirstTakenOut(lines: seq<Line>, i: nat, section: string, k: string, value: string, two: Line, both: seq<Line>)
    requires PlainEdit(section, k, value) && i <= |lines| && both == Both(lines, i, AssignmentLine(k, value), two)
    requires Lookup(both, section, k) == Some(AssignmentLine(k, value)) && KeyIndex(both, section, k) == i
    ensures RemoveLines(both, section, k, value) == (Inserted(lines, i, two), true)
  {
    RemoveFound(both, section, k, value);
    WithoutFirst(lines, i, AssignmentLine(k, value), two);
  }

  // Without the section, setting the keys adds its header, which the removals leave behind.

  /** The lines of a section just added with one key, and perhaps another behind it. */
  lemma AppendedAt(lines: seq<Line>, section: string, one: Line)
    requires !HasSection(lines, section) && !Bracket(one) && one.key != ""
    ensures var first := Appended(lines, section, one);
      && HasSection(first, section) && SectionEnd(first, section) == |first| && KeyIndex(first, section, one.key) == |first| - 1
      && first[|first| - 2] == ReadLine(Header(section)) && |first| >= |lines| + 2
  {
    var first := Appended(lines, section, one);
    var n := |first|;
    HeaderReads(section, section);
    forall k | 0 <= k < n - 2 ensures !IsHeader(first[k], section) {
      assert TrimSpace("") == "";
      assert k < |lines| ==> first[k] == lines[k];
    }
    SameStart(first, section, n - 2);
    EndsAt(first, section, n);
    FoundAt(first, section, one.key, n - 1);
  }

  lemma TwoAppended(lines: seq<Line>, section: string, k1: string, v1: string, k2: string, v2: string)
    requires PlainEdits(section, k1, v1, k2, v2) && !HasSection(lines, section)
    ensures var first := SetLines(lines, section, k1, v1);
      var both := TwoSet(lines, section, k1, v1, k2, v2);
      && |first| > 0 && both == Inserted(first, |first|, AssignmentLine(k2, v2))
      && HasSection(both, section) && KeyIndex(both, section, k1) == |first| - 1
  {
    AssignmentReads(k1, v1);
    AssignmentReads(k2, v2);
    AppendedAt(lines, section, AssignmentLine(k1, v1));
    SecondInserted(SetLines(lines, section, k1, v1), section, AssignmentLine(k2, v2), k1);
  }

  lemma AppendedIsRemoved(lines: seq<Line>, section: string, k1: string, v1: string, k2: string, v2: string)
    requires PlainEdits(section, k1, v1, k2, v2) && !HasSection(lines, section)
    ensures RemoveLines(TwoSet(lines, section, k1, v1, k2, v2), section, k1, v1) == (SetLines(lines, section, k2, v2), true)
  {
    TwoAppended(lines, section, k1, v1, k2, v2);
    TwoFound(lines, section, k1, v1, k2, v2);
    RemoveFound(TwoSet(lines, section, k1, v1, k2, v2), section, k1, v1);
    WithoutSecondLast(lines, section, AssignmentLine(k1, v1), AssignmentLine(k2, v2));
  }

  lemma WithoutSecondLast(lines: seq<Line>, section: string, one: Line, two: Line)
    ensures var first := Appended(lines, section, one);
      Without(Inserted(first, |first|, two), |first| - 1) == Appended(lines, section, two)
  {
  }

  lemma HeaderLeft(lines: seq<Line>, section: string, line: Line)
    requires Tidy(lines) && !HasSection(lines, section) && '\n' !in section && !Bracket(line) && line.key != "" && Clean(line)
    requires line.text != ""
    ensures var first := Appended(lines, section, line);
      |SplitTomlLines(JoinLines(Without(first, |first| - 1)))| > |lines|
  {
    var first := Appended(lines, section, line);
    AppendedAt(lines, section, line);
    AppendTidy(lines, section, line);
    HeaderTidy(first, section);
    ReadBack(Without(first, |first| - 1));
  }

  lemma HeaderTidy(first: seq<Line>, section: string)
    requires |first| >= 2 && AllClean(first) && first[|first| - 2] == ReadLine(Header(section))
    ensures Tidy(Without(first, |first| - 1)) && Without(first, |first| - 1) != []
  {
    WithoutClean(first, |first| - 1);
    assert Without(first, |first| - 1)[|first| - 2] == first[|first| - 2];
  }

  lemma LastRemoved(lines: seq<Line>, section: string, k: string, value: string)
    requires PlainEdit(section, k, value) && k != "" && !HasSection(lines, section)
    ensures var first := SetLines(lines, section, k, value);
      |first| > 0 && RemoveLines(first, section, k, value) == (Without(first, |first| - 1), true)
  {
    AssignmentReads(k, value);
    AppendedAt(lines, section, AssignmentLine(k, value));
    SetLookups(lines, section, k, value, section, k);
    RemoveFound(SetLines(lines, section, k, value), section, k, value);
  }

  lemma HeaderStays(src: string, section: string, k: string, value: string)
    requires PlainEdit(section, k, value) && k != "" && !HasSection(SplitTomlLines(src), section)
    ensures |SplitTomlLines(RemoveText(SetText(src, section, k, value), section, k, value).0)| > |SplitTomlLines(src)|
  {
    SetTextLines(src, section, k, value);
    LastRemoved(SplitTomlLines(src), section, k, value);
    SplitTidy(src);
    AssignmentReads(k, value);
    HeaderLeft(SplitTomlLines(src), section, AssignmentLine(k, value));
  }

  /** Both keys absent: removing the first leaves the text with only the second set. */
  lemma FirstRemoved(src: string, section: string, k1: string, v1: string, k2: string, v2: string)
    requires PlainEdits(section, k1, v1, k2, v2) && Find(src, section, k1).None? && Find(src, section, k2).None?
    ensures RemoveText(TwoSetText(src, section, k1, v1, k2, v2), section, k1, v1) == (SetText(src, section, k2, v2), true)
  {
    var lines := SplitTomlLines(src);
    TwoSetLines(src, section, k1, v1, k2, v2);
    if HasSection(lines, section) {
      InsertedIsRemoved(lines, section, k1, v1, k2, v2);
    } else {
      AppendedIsRemoved(lines, section, k1, v1, k2, v2);
    }
  }

  lemma SecondRemoved(src: string, section: string, k: string, value: string)
    requires PlainEdit(section, k, value) && HasSection(SplitTomlLines(src), section) && Find(src, section, k).None?
    requires JoinLines(SplitTomlLines(src)) == src
    ensures RemoveText(SetText(src, section, k, value), section, k, value) == (src, true)
  {
    SetTextLines(src, section, k, value);
    RemoveInserted(SplitTomlLines(src), section, k, value);
  }

  /**
   * Setting two keys of one section and removing them again restores a written text exactly when the
   * section was there without either key.
   */
  lemma RestoredIff(src: string, section: string, k1: string, v1: string, k2: string, v2: string)
    requires PlainEdits(section, k1, v1, k2, v2) && JoinLines(SplitTomlLines(src)) == src
    ensures TwoRemoved(TwoSetText(src, section, k1, v1, k2, v2), section, k1, v1, k2, v2) == src
       <==> (HasSection(SplitTomlLines(src), section) && Find(src, section, k1).None? && Find(src, section, k2).None?)
  {
    if Find(src, section, k1).Some? || Find(src, section, k2).Some? {
      OverwrittenIsLost(src, section, k1, v1, k2, v2);
    } else {
      FirstRemoved(src, section, k1, v1, k2, v2);
      if HasSection(SplitTomlLines(src), section) {
        SecondRemoved(src, section, k2, v2);
      } else {
        HeaderStays(src, section, k2, v2);
      }
    }
  }

  /** Taking the managed defaults out again restores the text, but for the features setting, in exactly that case. */
  lemma DefaultsRestored(src: string)
    ensures RemoveCodexConfigDefaultsText(MergeCodexConfigText(src)).0 == WithFeatures(src)
       <==> (HasSection(SplitTomlLines(src), AGENTS) && Find(src, AGENTS, MAX_THREADS).None? && Find(src, AGENTS, MAX_DEPTH).None?)
  {
    ManagedPlain();
    var base := WithFeatures(src);
    Written(src, FEATURES, MULTI_AGENT, "true");
    SetTextFind(src, FEATURES, MULTI_AGENT, "true", AGENTS, MAX_THREADS);
    SetTextFind(src, FEATURES, MULTI_AGENT, "true", AGENTS, MAX_DEPTH);
    SetTextLines(src, FEATURES, MULTI_AGENT, "true");
    SetSections(SplitTomlLines(src), FEATURES, MULTI_AGENT, "true", AGENTS);
    RestoredIff(base, AGENTS, MAX_THREADS, "12", MAX_DEPTH, "2");
  }

  // ---------------------------------------------------------------- a file written from nothing

  lemma TightLine(text: string)
    requires Tight(text)
    ensures ReadLine(text).trimmed == text && ReadLine(text).text == text
  {
    TrimTight(text);
  }

  lemma FirstSection(header: string, assignment: string, section: string, key: string, value: string)
    requires header == "[" + section + "]" && assignment == key + " = " + value
    ensures SetLines([], section, key, value) == [ReadLine(header), ReadLine(assignment)]
  {
    SetWithoutSection([], section, key, value);
    assert [] + [] + [ReadLine(header), ReadLine(assignment)] == [ReadLine(header), ReadLine(assignment)];
  }

  lemma SecondSection(one: seq<Line>, header: string, assignment: string, section: string, key: string, value: string)
    requires header == "[" + section + "]" && assignment == key + " = " + value
    requires |one| == 2 && one[0].trimmed != header && one[1].trimmed != header && one[1].trimmed != ""
    ensures SetLines(one, section, key, value) == [one[0], one[1], ReadLine(""), ReadLine(header), ReadLine(assignment)]
  {
    SetWithoutSection(one, section, key, value);
    assert one == [one[0], one[1]];
  }

  lemma SecondKey(two: seq<Line>, header: string, assignment: string, section: string, key: string, value: string)
    requires header == "[" + section + "]" && assignment == key + " = " + value && |two| == 5
    requires two[3].trimmed == header && two[0].trimmed != header && two[1].trimmed != header && two[2].trimmed == ""
    requires two[4].trimmed != "" && two[4].trimmed[0] != '[' && two[4].key != key
    ensures SetLines(two, section, key, value) == two + [ReadLine(assignment)]
  {
    assert header != "";
    assert Spans(two, section, 3, 5) && FirstKey(two, key, 3, 5, 5);
    SetInSection(two, section, key, value, 3, 5, 5);
    assert two[..5] == two && two[5..] == [];
  }

  /** The five texts that are written, as they stand in the file. */
  predicate Texts(f: string, m: string, a: string, t: string, d: string) {
    && f == "[features]" && m == "multi_agent = true" && a == "[agents]" && t == "max_threads = 12" && d == "max_depth = 2"
  }

  lemma Literals(f: string, m: string, a: string, t: string, d: string)
    requires Texts(f, m, a, t, d)
    ensures f == "[" + FEATURES + "]" && a == "[" + AGENTS + "]" && m == MULTI_AGENT + " = " + "true"
    ensures t == MAX_THREADS + " = " + "12" && d == MAX_DEPTH + " = " + "2"
    ensures Tight(f) && Tight(m) && Tight(a) && Tight(t) && MAX_THREADS != MAX_DEPTH
    ensures f != a && m != a && t[0] != '['
  {
    assert f[1] == 'f' && a[1] == 'a' && m[0] == 'm' && MAX_THREADS[4] != MAX_DEPTH[4];
  }

  lemma MergedOne(f: string, m: string, a: string, t: string, d: string, one: string)
    requires Texts(f, m, a, t, d) && one == WithFeatures("")
    ensures SplitTomlLines(one) == [ReadLine(f), ReadLine(m)]
  {
    ManagedPlain();
    Literals(f, m, a, t, d);
    SetTextLines("", FEATURES, MULTI_AGENT, "true");
    FirstSection(f, m, FEATURES, MULTI_AGENT, "true");
  }

  lemma MergedTwo(f: string, m: string, a: string, t: string, d: string, one: string, two: string)
    requires Texts(f, m, a, t, d) && two == SetText(one, AGENTS, MAX_THREADS, "12")
    requires SplitTomlLines(one) == [ReadLine(f), ReadLine(m)]
    ensures SplitTomlLines(two) == [ReadLine(f), ReadLine(m), ReadLine(""), ReadLine(a), ReadLine(t)]
  {
    ManagedPlain();
    Literals(f, m, a, t, d);
    TightLine(f);
    TightLine(m);
    SetTextLines(one, AGENTS, MAX_THREADS, "12");
    SecondSection([ReadLine(f), ReadLine(m)], a, t, AGENTS, MAX_THREADS, "12");
  }

  lemma MergedThree(f: string, m: string, a: string, t: string, d: string, two: string, three: string)
    requires Texts(f, m, a, t, d) && three == SetText(two, AGENTS, MAX_DEPTH, "2")
    requires SplitTomlLines(two) == [ReadLine(f), ReadLine(m), ReadLine(""), ReadLine(a), ReadLine(t)]
    ensures SplitTomlLines(three) == SplitTomlLines(two) + [ReadLine(d)]
  {
    ManagedPlain();
    Literals(f, m, a, t, d);
    TightLine(f);
    TightLine(m);
    TightLine(a);
    TightLine(t);
    AssignmentReads(MAX_THREADS, "12");
    SetTextLines(two, AGENTS, MAX_DEPTH, "2");
    SecondKey(SplitTomlLines(two), a, d, AGENTS, MAX_DEPTH, "2");
  }

  /** Merging into an empty text writes exactly these lines, with a blank one between the sections. */
  lemma MergedFromNothing(f: string, m: string, a: string, t: string, d: string)
    requires f == "[features]" && m == "multi_agent = true"
    requires a == "[agents]" && t == "max_threads = 12" && d == "max_depth = 2"
    ensures SplitTomlLines(MergeCodexConfigText("")) ==
      [ReadLine(f), ReadLine(m), ReadLine(""), ReadLine(a), ReadLine(t)] + [ReadLine(d)]
  {
    var one, two := WithFeatures(""), SetText(WithFeatures(""), AGENTS, MAX_THREADS, "12");
    MergedOne(f, m, a, t, d, one);
    MergedTwo(f, m, a, t, d, one, two);
    MergedThree(f, m, a, t, d, two, MergeCodexConfigText(""));
  }
}
