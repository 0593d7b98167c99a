/** Editing single keys of a TOML-like configuration text, line by line. */
module TomlEdit {
  import opened Text
  import opened Dispatches

  // ---------------------------------------------------------------- finding sections and keys

  function Header(section: string): string {
    "[" + section + "]"
  }

  /** A line of the text, and what the editor reads in it. */
  datatype Line = Line(text: string, trimmed: string, key: string)

  /** The key a line assigns; empty for blank lines, comments and lines without `=`. */
  function LineKey(trimmed: string): string {
    if trimmed == "" || HasPrefix(trimmed, "#") then ""
    else
      var idx := IndexByte(trimmed, '=');
      if idx == |trimmed| then "" else TrimSpace(trimmed[..idx])
  }

  function ReadLine(text: string): Line {
    Line(text, TrimSpace(text), LineKey(TrimSpace(text)))
  }

  predicate IsHeader(line: Line, section: string) {
    line.trimmed == Header(section)
  }

  /** Any section header, or what passes for one. */
  predicate Bracket(line: Line) {
    line.trimmed != "" && line.trimmed[0] == '['
  }

  /** The first header of `section` from line `i` on, or the number of lines. */
  function SectionStart(lines: seq<Line>, section: string, i: nat): (j: nat)
    requires i <= |lines|
    ensures i <= j <= |lines| && (j < |lines| ==> IsHeader(lines[j], section))
    ensures forall k | i <= k < j :: !IsHeader(lines[k], section)
    decreases |lines| - i
  {
    if i == |lines| || IsHeader(lines[i], section) then i else SectionStart(lines, section, i + 1)
  }

  /** The next line from `i` on that starts with a bracket, or the number of lines. */
  function NextBracket(lines: seq<Line>, i: nat): (j: nat)
    requires i <= |lines|
    ensures i <= j <= |lines| && (j < |lines| ==> Bracket(lines[j]))
    ensures forall k | i <= k < j :: !Bracket(lines[k])
    decreases |lines| - i
  {
    if i == |lines| || Bracket(lines[i]) then i else NextBracket(lines, i + 1)
  }

  /** The first line before `hi` that assigns `key`, or `hi`. */
  function KeyLine(lines: seq<Line>, key: string, i: nat, hi: nat): (j: nat)
    requires i <= hi <= |lines|
    ensures i <= j <= hi && (j < hi ==> lines[j].key == key)
    ensures forall k | i <= k < j :: lines[k].key != key
    decreases hi - i
  {
    if i == hi || lines[i].key == key then i else KeyLine(lines, key, i + 1, hi)
  }

  predicate HasSection(lines: seq<Line>, section: string) {
    SectionStart(lines, section, 0) < |lines|
  }

  function SectionEnd(lines: seq<Line>, section: string): nat
    requires HasSection(lines, section)
  {
    NextBracket(lines, SectionStart(lines, section, 0) + 1)
  }

  /** The index of the line a lookup of `key` in `section` ends at, or the section's end. */
  function KeyIndex(lines: seq<Line>, section: string, key: string): nat
    requires HasSection(lines, section)
  {
    KeyLine(lines, key, SectionStart(lines, section, 0) + 1, SectionEnd(lines, section))
  }

  /** The line that a lookup of `key` in `section` finds. */
  function Lookup(lines: seq<Line>, section: string, key: string): Option<Line> {
    if HasSection(lines, section) && KeyIndex(lines, section, key) < SectionEnd(lines, section)
    then Some(lines[KeyIndex(lines, section, key)])
    else None
  }

  method FindTomlSection(lines: seq<Line>, section: string) returns (start: int, end: nat)
    ensures start == (if HasSection(lines, section) then SectionStart(lines, section, 0) else -1)
    ensures end == (if HasSection(lines, section) then SectionEnd(lines, section) else |lines|)
  {
    start, end := -1, |lines|;
    for i := 0 to |lines|
      invariant -1 <= start < i && end == |lines|
      invariant start < 0 ==> SectionStart(lines, section, 0) == SectionStart(lines, section, i)
      invariant start >= 0 ==> start == SectionStart(lines, section, 0)
      invariant start >= 0 ==> NextBracket(lines, start + 1) == NextBracket(lines, i)
    {
      if start < 0 {
        if IsHeader(lines[i], section) {
          start := i;
        }
      } else if Bracket(lines[i]) {
        end := i;
        break;
      }
    }
  }

  // ---------------------------------------------------------------- setting and removing

  function Assignment(key: string, value: string): string {
    key + " = " + value
  }

  function AssignmentLine(key: string, value: string): Line {
    ReadLine(Assignment(key, value))
  }

  function Inserted(lines: seq<Line>, i: nat, line: Line): seq<Line>
    requires i <= |lines|
  {
    lines[..i] + [line] + lines[i..]
  }

  /** A blank line at the end, unless the last line is blank already. */
  function Padded(lines: seq<Line>): seq<Line> {
    if lines != [] && lines[|lines| - 1].trimmed != "" then lines + [ReadLine("")] else lines
  }

  /** Lines and the new section. */
  function Appended(lines: seq<Line>, section: string, line: Line): seq<Line> {
    Padded(lines) + [ReadLine(Header(section)), line]
  }

  function SetLines(lines: seq<Line>, section: string, key: string, value: string): seq<Line> {
    if !HasSection(lines, section) then Appended(lines, section, AssignmentLine(key, value))
    else
      var i := KeyIndex(lines, section, key);
      if i < SectionEnd(lines, section) then lines[i := AssignmentLine(key, value)]
      else Inserted(lines, i, AssignmentLine(key, value))
  }

  predicate Assigns(line: Line, key: string, value: string) {
    line.key == key && line.trimmed == Assignment(key, value)
  }

  /** The first line before `hi` that is exactly this assignment, or `hi`. */
  function ExactLine(lines: seq<Line>, key: string, value: string, i: nat, hi: nat): (j: nat)
    requires i <= hi <= |lines|
    ensures i <= j <= hi && (j < hi ==> Assigns(lines[j], key, value))
    ensures forall k | i <= k < j :: !Assigns(lines[k], key, value)
    decreases hi - i
  {
    if i == hi || Assigns(lines[i], key, value) then i else ExactLine(lines, key, value, i + 1, hi)
  }

  function Without(lines: seq<Line>, i: nat): seq<Line>
    requires i < |lines|
  {
    lines[..i] + lines[i + 1..]
  }

  /** The lines without the first such assignment in the section, if there is one. */
  function RemoveLines(lines: seq<Line>, section: string, key: string, value: string): (seq<Line>, bool) {
    if !HasSection(lines, section) then (lines, false)
    else
      var i := ExactLine(lines, key, value, SectionStart(lines, section, 0) + 1, SectionEnd(lines, section));
      if i < SectionEnd(lines, section) then (Without(lines, i), true) else (lines, false)
  }

  method SetKeyLine(lines: seq<Line>, section: string, key: string, value: string) returns (edited: seq<Line>)
    ensures edited == SetLines(lines, section, key, value)
  {
    var start, end := FindTomlSection(lines, section);
    var assignment := AssignmentLine(key, value);
    if start < 0 {
      edited := AppendSection(lines, section, assignment);
      return;
    }
    var i: nat := start + 1;
    while i < end
      invariant start < i <= end
      invariant KeyLine(lines, key, start + 1, end) == KeyLine(lines, key, i, end)
    {
      if lines[i].key == key {
        return lines[i := assignment];
      }
      i := i + 1;
    }
    return lines[..end] + [assignment] + lines[end..];
  }

  method AppendSection(lines: seq<Line>, section: string, assignment: Line) returns (edited: seq<Line>)
    ensures edited == Appended(lines, section, assignment)
  {
    edited := lines;
    if |lines| > 0 && lines[|lines| - 1].trimmed != "" {
      edited := edited + [ReadLine("")];
    }
    edited := edited + [ReadLine(Header(section)), assignment];
  }

  method RemoveKeyLine(lines: seq<Line>, section: string, key: string, value: string)
    returns (edited: seq<Line>, changed: bool)
    ensures (edited, changed) == RemoveLines(lines, section, key, value)
  {
    var start, end := FindTomlSection(lines, section);
    if start < 0 {
      return lines, false;
    }
    var i: nat := start + 1;
    while i < end
      invariant start < i <= end
      invariant ExactLine(lines, key, value, start + 1, end) == ExactLine(lines, key, value, i, end)
    {
      if lines[i].key == key && lines[i].trimmed == Assignment(key, value) {
        return lines[..i] + lines[i + 1..], true;
      }
      i := i + 1;
    }
    return lines, false;
  }

  // ---------------------------------------------------------------- assignments as lines

  /** A key as it can be written: tight, without `=`, and not opening a comment or a header. */
  predicate PlainKey(key: string) {
    Tight(key) && '=' !in key && key[0] != '#' && key[0] != '[' && '\n' !in key
  }

  predicate PlainValue(value: string) {
    Tight(value) && '\n' !in value
  }

  lemma AssignmentParts(key: string, value: string)
    requires PlainKey(key) && PlainValue(value)
    ensures var a := Assignment(key, value);
      Tight(a) && a[0] == key[0] && IndexByte(a, '=') == |key| + 1 < |a| && a[..|key| + 1] == key + " "
  {
    var a := Assignment(key, value);
    assert a[|key| + 1] == '=' && a[|key|] == ' ';
    assert forall k | 0 <= k < |key| :: a[k] == key[k] && key[k] in key;
  }

  lemma AssignmentOneLine(key: string, value: string)
    requires PlainKey(key) && PlainValue(value)
    ensures '\n' !in Assignment(key, value)
  {
    assert Assignment(key, value) == key + (" = " + value);
  }

  lemma AssignmentReads(key: string, value: string)
    requires PlainKey(key) && PlainValue(value)
    ensures var a := AssignmentLine(key, value);
      a.key == key && a.trimmed == a.text == Assignment(key, value) && !Bracket(a) && a.text != "" && '\n' !in a.text
  {
    var a := Assignment(key, value);
    AssignmentParts(key, value);
    AssignmentOneLine(key, value);
    TrimTight(a);
    TrimTight(key);
    assert a[..1] == [key[0]];
  }

  lemma HeaderReads(section: string, other: string)
    ensures IsHeader(ReadLine(Header(section)), other) <==> section == other
    ensures Bracket(ReadLine(Header(section)))
  {
    TrimTight(Header(section));
    assert Header(section)[1..|section| + 1] == section;
    if Header(section) == Header(other) {
      assert Header(other)[1..|other| + 1] == other;
    }
  }

  lemma BracketHeader(line: Line, section: string)
    requires IsHeader(line, section)
    ensures Bracket(line)
  {
    assert Header(section)[0] == '[';
  }

  // ---------------------------------------------------------------- what an edit leaves alone

  /** The lines a lookup in `section` can end at: after its header, before the next bracket. */
  predicate InSection(lines: seq<Line>, section: string, i: nat) {
    HasSection(lines, section) && SectionStart(lines, section, 0) < i < SectionEnd(lines, section)
  }

  lemma SameStart(other: seq<Line>, section: string, j: nat)
    requires j <= |other| && (j < |other| ==> IsHeader(other[j], section))
    requires forall k | 0 <= k < j :: !IsHeader(other[k], section)
    ensures SectionStart(other, section, 0) == j
  {
  }

  /** The first bracket after the header ends the section. */
  lemma EndsAt(lines: seq<Line>, section: string, end: nat)
    requires HasSection(lines, section) && SectionStart(lines, section, 0) < end <= |lines|
    requires end < |lines| ==> Bracket(lines[end])
    requires forall k | SectionStart(lines, section, 0) < k < end :: !Bracket(lines[k])
    ensures SectionEnd(lines, section) == end
  {
  }

  /** The first line of the section that assigns `key` is where its lookup ends. */
  lemma FoundAt(lines: seq<Line>, section: string, key: string, i: nat)
    requires InSection(lines, section, i) && lines[i].key == key
    requires forall k | SectionStart(lines, section, 0) < k < i :: lines[k].key != key
    ensures KeyIndex(lines, section, key) == i && Lookup(lines, section, key) == Some(lines[i])
  {
  }

  /** Rewriting a line that is no header, and keeps its key, is invisible to lookups of other keys. */
  lemma ReplaceFrame(lines: seq<Line>, i: nat, line: Line, section: string, key: string)
    requires i < |lines| && !Bracket(lines[i]) && !Bracket(line)
    requires InSection(lines, section, i) ==> lines[i].key != key && line.key != key
    ensures Lookup(lines[i := line], section, key) == Lookup(lines, section, key)
  {
    var other := lines[i := line];
    var start := SectionStart(lines, section, 0);
    if start < |lines| {
      BracketHeader(lines[start], section);
    }
    forall k | 0 <= k < |lines| ensures IsHeader(other[k], section) == IsHeader(lines[k], section) {
      if IsHeader(other[k], section) { BracketHeader(other[k], section); }
      if IsHeader(lines[k], section) { BracketHeader(lines[k], section); }
    }
    assert SectionStart(other, section, 0) == start;
    if start < |lines| {
      assert SectionEnd(other, section) == SectionEnd(lines, section);
      var end := SectionEnd(lines, section);
      assert KeyIndex(other, section, key) == KeyIndex(lines, section, key);
    }
  }

  /** Where a position of the old lines is after an insertion before `i`. */
  function Shift(k: nat, i: nat): nat {
    if k < i then k else k + 1
  }

  function Unshift(k: nat, i: nat): int {
    if k < i then k else k - 1
  }

  /** `other` is `lines` with `line` inserted before position `i`. */
  ghost predicate Insertion(lines: seq<Line>, other: seq<Line>, i: nat, line: Line) {
    && i <= |lines| && |other| == |lines| + 1 && other[i] == line
    && forall k | 0 <= k < |other| && k != i :: other[k] == lines[Unshift(k, i)]
  }

  lemma InsertedIs(lines: seq<Line>, i: nat, line: Line)
    requires i <= |lines|
    ensures Insertion(lines, Inserted(lines, i, line), i, line)
  {
  }

  lemma InsertStart(lines: seq<Line>, other: seq<Line>, i: nat, line: Line, section: string)
    requires Insertion(lines, other, i, line) && !Bracket(line)
    ensures SectionStart(other, section, 0) == Shift(SectionStart(lines, section, 0), i)
  {
    var start := SectionStart(lines, section, 0);
    if IsHeader(line, section) {
      BracketHeader(line, section);
    }
    forall k | 0 <= k < Shift(start, i) ensures !IsHeader(other[k], section) {
    }
    if start < |lines| {
      assert other[Shift(start, i)] == lines[start];
    }
  }

  lemma InsertEnd(lines: seq<Line>, other: seq<Line>, i: nat, line: Line, section: string)
    requires Insertion(lines, other, i, line) && !Bracket(line) && HasSection(lines, section)
    ensures HasSection(other, section) && SectionEnd(other, section) == Shift(SectionEnd(lines, section), i)
  {
    var start, end := SectionStart(lines, section, 0), SectionEnd(lines, section);
    InsertStart(lines, other, i, line, section);
    forall k | Shift(start, i) < k < Shift(end, i) ensures !Bracket(other[k]) {
    }
    if end < |lines| {
      assert other[Shift(end, i)] == lines[end];
    }
  }

  lemma InsertKey(lines: seq<Line>, other: seq<Line>, i: nat, line: Line, start: nat, end: nat, key: string)
    requires Insertion(lines, other, i, line) && start < end <= |lines|
    requires start < i <= end ==> line.key != key
    ensures KeyLine(other, key, Shift(start, i) + 1, Shift(end, i)) == Shift(KeyLine(lines, key, start + 1, end), i)
  {
    var k := KeyLine(lines, key, start + 1, end);
    forall m | Shift(start, i) < m < Shift(k, i) ensures other[m].key != key {
      if m != i {
        assert other[m] == lines[Unshift(m, i)];
      }
    }
    if k < end {
      assert other[Shift(k, i)] == lines[k];
    }
  }

  /** A line inserted at the end of a section, or outside one, is invisible to lookups of other keys there. */
  lemma InsertFrame(lines: seq<Line>, other: seq<Line>, i: nat, line: Line, section: string, key: string)
    requires Insertion(lines, other, i, line) && !Bracket(line)
    requires HasSection(lines, section) && SectionStart(lines, section, 0) < i <= SectionEnd(lines, section) ==> line.key != key
    ensures Lookup(other, section, key) == Lookup(lines, section, key)
  {
    InsertStart(lines, other, i, line, section);
    if HasSection(lines, section) {
      InsertFound(lines, other, i, line, section, key);
    }
  }

  lemma InsertPlaces(lines: seq<Line>, other: seq<Line>, i: nat, line: Line, section: string, key: string)
    requires Insertion(lines, other, i, line) && !Bracket(line) && HasSection(lines, section)
    requires SectionStart(lines, section, 0) < i <= SectionEnd(lines, section) ==> line.key != key
    ensures HasSection(other, section) && KeyIndex(other, section, key) == Shift(KeyIndex(lines, section, key), i)
    ensures SectionEnd(other, section) == Shift(SectionEnd(lines, section), i)
  {
    InsertStart(lines, other, i, line, section);
    InsertEnd(lines, other, i, line, section);
    InsertKey(lines, other, i, line, SectionStart(lines, section, 0), SectionEnd(lines, section), key);
  }

  lemma InsertFound(lines: seq<Line>, other: seq<Line>, i: nat, line: Line, section: string, key: string)
    requires Insertion(lines, other, i, line) && !Bracket(line) && HasSection(lines, section)
    requires SectionStart(lines, section, 0) < i <= SectionEnd(lines, section) ==> line.key != key
    ensures HasSection(other, section) && KeyIndex(other, section, key) == Shift(KeyIndex(lines, section, key), i)
    ensures SectionEnd(other, section) == Shift(SectionEnd(lines, section), i)
    ensures Lookup(other, section, key) == Lookup(lines, section, key)
  {
    InsertPlaces(lines, other, i, line, section, key);
    var k, end := KeyIndex(lines, section, key), SectionEnd(lines, section);
    assert k < |lines| ==> other[Shift(k, i)] == lines[k];
    assert Shift(k, i) < Shift(end, i) <==> k < end;
  }

  /** A new header at the end changes no lookup: its section was not there, and is empty. */
  lemma AppendHeaderFrame(lines: seq<Line>, head: Line, name: string, section: string, key: string)
    requires !HasSection(lines, name) && IsHeader(head, name)
    requires IsHeader(head, section) ==> section == name
    ensures Lookup(lines + [head], section, key) == Lookup(lines, section, key)
  {
    var other := lines + [head];
    BracketHeader(head, name);
    assert other[|lines|] == head;
    var start := SectionStart(lines, section, 0);
    assert forall k | 0 <= k < |lines| :: other[k] == lines[k];
    if start < |lines| {
      var end := SectionEnd(lines, section);
      SameStart(other, section, start);
      EndsAt(other, section, end);
      SameKey(lines, other, key, start + 1, end);
    } else if section == name {
      SameStart(other, section, |lines|);
      EndsAt(other, section, |other|);
    } else {
      SameStart(other, section, |other|);
    }
  }

  lemma SameKey(lines: seq<Line>, other: seq<Line>, key: string, i: nat, hi: nat)
    requires i <= hi <= |lines| && hi <= |other| && forall k | i <= k < hi :: other[k].key == lines[k].key
    ensures KeyLine(other, key, i, hi) == KeyLine(lines, key, i, hi)
  {
    var k := KeyLine(lines, key, i, hi);
    assert forall m | i <= m < k :: other[m].key == lines[m].key;
  }

  /** The end of one section is not inside, or at the end of, another. */
  lemma SectionsApart(lines: seq<Line>, section: string, other: string)
    requires HasSection(lines, section) && HasSection(lines, other) && section != other
    ensures !(SectionStart(lines, other, 0) < SectionEnd(lines, section) <= SectionEnd(lines, other))
  {
    var start, start' := SectionStart(lines, section, 0), SectionStart(lines, other, 0);
    HeadersDiffer(lines[start], section, other);
    BracketHeader(lines[start], section);
    BracketHeader(lines[start'], other);
  }

  lemma HeadersDiffer(line: Line, section: string, other: string)
    requires IsHeader(line, section) && section != other
    ensures !IsHeader(line, other)
  {
    assert Header(section)[1..|section| + 1] == section;
    assert Header(other)[1..|other| + 1] == other;
  }

  /** A section's line is in no other section. */
  lemma LinesApart(lines: seq<Line>, section: string, other: string, i: nat)
    requires InSection(lines, section, i) && section != other
    ensures !InSection(lines, other, i)
  {
    if InSection(lines, other, i) {
      var start, start' := SectionStart(lines, section, 0), SectionStart(lines, other, 0);
      HeadersDiffer(lines[start], section, other);
      BracketHeader(lines[start], section);
      BracketHeader(lines[start'], other);
    }
  }

  ghost predicate PlainEdit(section: string, key: string, value: string) {
    PlainKey(key) && PlainValue(value) && '\n' !in section
  }

  lemma AppendLookups(lines: seq<Line>, name: string, line: Line, section: string, key: string)
    requires !HasSection(lines, name) && !Bracket(line) && key != ""
    ensures var edited := Appended(lines, name, line);
      if section == name && key == line.key then Lookup(edited, section, key) == Some(line)
      else Lookup(edited, section, key) == Lookup(lines, section, key)
  {
    var head := ReadLine(Header(name));
    var padded := Padded(lines);
    HeaderReads(name, section);
    HeaderReads(name, name);
    PaddedFrame(lines, name, section, key);
    AppendHeaderFrame(padded, head, name, section, key);
    AppendLine(padded, head, name, line, section, key);
    assert padded + [head, line] == padded + [head] + [line];
  }

  /** A new section goes behind everything there was, set off by a blank line, with its header before its key. */
  lemma NewSectionSeparated(lines: seq<Line>, section: string, key: string, value: string)
    requires !HasSection(lines, section)
    ensures var edited := SetLines(lines, section, key, value);
      && lines <= edited && |lines| + 2 <= |edited| <= |lines| + 3
      && edited[|edited| - 2] == ReadLine(Header(section)) && edited[|edited| - 1] == AssignmentLine(key, value)
      && (|edited| > 2 ==> edited[|edited| - 3].trimmed == "")
  {
    var p, two := Padded(lines), [ReadLine(Header(section)), AssignmentLine(key, value)];
    PaddedEnd(lines);
    assert (p + two)[|p|] == two[0] && (p + two)[|p| + 1] == two[1];
    assert |p| > 0 ==> (p + two)[|p| - 1] == p[|p| - 1];
    assert (p + two)[..|lines|] == p[..|lines|];
  }

  lemma PaddedEnd(lines: seq<Line>)
    ensures var p := Padded(lines);
      lines <= p && |p| <= |lines| + 1 && (p != [] ==> p[|p| - 1].trimmed == "")
  {
    assert TrimSpace("") == "";
  }

  lemma PaddedFrame(lines: seq<Line>, name: string, section: string, key: string)
    requires !HasSection(lines, name) && key != ""
    ensures Lookup(Padded(lines), section, key) == Lookup(lines, section, key) && !HasSection(Padded(lines), name)
  {
    var blank := ReadLine("");
    assert TrimSpace("") == "";
    if Padded(lines) != lines {
      assert Padded(lines) == Inserted(lines, |lines|, blank);
      InsertedIs(lines, |lines|, blank);
      InsertFrame(lines, Padded(lines), |lines|, blank, section, key);
      InsertStart(lines, Padded(lines), |lines|, blank, name);
    }
  }

  lemma SectionBefore(lines: seq<Line>, head: Line, section: string)
    requires Bracket(head) && !IsHeader(head, section) && HasSection(lines + [head], section)
    ensures SectionEnd(lines + [head], section) <= |lines|
  {
    var before := lines + [head];
    var start := SectionStart(before, section, 0);
    assert before[|lines|] == head;
    assert start != |lines|;
  }

  lemma AppendLine(lines: seq<Line>, head: Line, name: string, line: Line, section: string, key: string)
    requires !HasSection(lines, name) && IsHeader(head, name) && !Bracket(line)
    requires IsHeader(head, section) ==> section == name
    ensures var edited := lines + [head] + [line];
      if section == name && key == line.key then Lookup(edited, section, key) == Some(line)
      else Lookup(edited, section, key) == Lookup(lines + [head], section, key)
  {
    var before, edited := lines + [head], lines + [head] + [line];
    assert Insertion(before, edited, |before|, line);
    BracketHeader(head, name);
    if section == name && key == line.key {
      SameStart(edited, name, |lines|);
      EndsAt(edited, name, |edited|);
      FoundAt(edited, name, key, |lines| + 1);
    } else {
      if section != name && HasSection(before, section) {
        SectionBefore(lines, head, section);
      }
      InsertFrame(before, edited, |before|, line, section, key);
    }
  }

  /** Setting a key: its lookup finds the new assignment, and every other lookup finds what it found before. */
  lemma SetLookups(lines: seq<Line>, name: string, k: string, value: string, section: string, key: string)
    requires PlainEdit(name, k, value) && key != ""
    ensures Lookup(SetLines(lines, name, k, value), section, key)
         == if section == name && key == k then Some(AssignmentLine(k, value)) else Lookup(lines, section, key)
  {
    var line := AssignmentLine(k, value);
    AssignmentReads(k, value);
    if !HasSection(lines, name) {
      AppendLookups(lines, name, line, section, key);
    } else if KeyIndex(lines, name, k) < SectionEnd(lines, name) {
      ReplaceLookups(lines, name, line, section, key);
    } else {
      InsertLookups(lines, name, line, section, key);
    }
  }

  lemma ReplaceLookups(lines: seq<Line>, name: string, line: Line, section: string, key: string)
    requires HasSection(lines, name) && !Bracket(line) && KeyIndex(lines, name, line.key) < SectionEnd(lines, name)
    ensures var edited := lines[KeyIndex(lines, name, line.key) := line];
      Lookup(edited, section, key) == if section == name && key == line.key then Some(line) else Lookup(lines, section, key)
  {
    var i := KeyIndex(lines, name, line.key);
    var edited := lines[i := line];
    if section == name && key == line.key {
      var start := SectionStart(lines, name, 0);
      ReplaceStart(lines, i, line, name);
      FoundAt(edited, name, key, i);
    } else {
      if section != name {
        LinesApart(lines, name, section, i);
      }
      ReplaceFrame(lines, i, line, section, key);
    }
  }

  lemma ReplaceStart(lines: seq<Line>, i: nat, line: Line, section: string)
    requires i < |lines| && !Bracket(lines[i]) && !Bracket(line) && HasSection(lines, section)
    ensures var other := lines[i := line];
      && SectionStart(other, section, 0) == SectionStart(lines, section, 0)
      && SectionEnd(other, section) == SectionEnd(lines, section)
  {
    var other, start := lines[i := line], SectionStart(lines, section, 0);
    BracketHeader(lines[start], section);
    forall k | 0 <= k < start ensures !IsHeader(other[k], section) {
      if k == i && IsHeader(line, section) { BracketHeader(line, section); }
    }
    SameStart(other, section, start);
    EndsAt(other, section, SectionEnd(lines, section));
  }

  lemma InsertLookups(lines: seq<Line>, name: string, line: Line, section: string, key: string)
    requires HasSection(lines, name) && !Bracket(line) && KeyIndex(lines, name, line.key) == SectionEnd(lines, name)
    ensures var edited := Inserted(lines, SectionEnd(lines, name), line);
      Lookup(edited, section, key) == if section == name && key == line.key then Some(line) else Lookup(lines, section, key)
  {
    var i := SectionEnd(lines, name);
    var edited := Inserted(lines, i, line);
    InsertedIs(lines, i, line);
    if section == name && key == line.key {
      InsertStart(lines, edited, i, line, name);
      InsertEnd(lines, edited, i, line, name);
      InsertedKey(lines, edited, i, line, name);
    } else {
      if section != name && HasSection(lines, section) {
        SectionsApart(lines, name, section);
      }
      InsertFrame(lines, edited, i, line, section, key);
    }
  }

  lemma InsertedKey(lines: seq<Line>, edited: seq<Line>, i: nat, line: Line, name: string)
    requires Insertion(lines, edited, i, line) && HasSection(lines, name) && HasSection(edited, name)
    requires i == SectionEnd(lines, name) == KeyIndex(lines, name, line.key)
    requires SectionStart(edited, name, 0) == SectionStart(lines, name, 0) && SectionEnd(edited, name) == i + 1
    ensures Lookup(edited, name, line.key) == Some(line) && KeyIndex(edited, name, line.key) == i
  {
    var start := SectionStart(lines, name, 0);
    forall m | start < m < i ensures edited[m].key != line.key {
      assert edited[m] == lines[Unshift(m, i)];
    }
    FoundAt(edited, name, line.key, i);
  }

  /** Setting a key to what it already is changes nothing. */
  lemma SetAgain(lines: seq<Line>, name: string, k: string, value: string)
    requires Lookup(lines, name, k) == Some(AssignmentLine(k, value))
    ensures SetLines(lines, name, k, value) == lines
  {
  }

  // ---------------------------------------------------------------- removing

  /** What a lookup finds, when it is exactly the assignment, is what a removal takes out. */
  lemma RemoveFound(lines: seq<Line>, name: string, k: string, value: string)
    requires PlainEdit(name, k, value) && Lookup(lines, name, k) == Some(AssignmentLine(k, value))
    ensures var i := KeyIndex(lines, name, k);
      InSection(lines, name, i) && RemoveLines(lines, name, k, value) == (Without(lines, i), true)
  {
    AssignmentReads(k, value);
    var start, end := SectionStart(lines, name, 0), SectionEnd(lines, name);
    var i := KeyIndex(lines, name, k);
    assert forall m | start < m < i :: !Assigns(lines[m], k, value);
    assert Assigns(lines[i], k, value);
    assert ExactLine(lines, k, value, start + 1, end) == i;
  }

  /** Taking out a line that is no header changes no lookup of another key. */
  lemma RemoveFrame(lines: seq<Line>, i: nat, section: string, key: string)
    requires i < |lines| && !Bracket(lines[i]) && lines[i].key != key
    ensures Lookup(Without(lines, i), section, key) == Lookup(lines, section, key)
  {
    InsertFrame(Without(lines, i), lines, i, lines[i], section, key);
  }

  /** Taking out the line that was put in restores the lines. */
  lemma RemoveInserted(lines: seq<Line>, name: string, k: string, value: string)
    requires PlainEdit(name, k, value) && HasSection(lines, name) && Lookup(lines, name, k).None?
    ensures RemoveLines(SetLines(lines, name, k, value), name, k, value) == (lines, true)
  {
    SetLookups(lines, name, k, value, name, k);
    RemoveFound(SetLines(lines, name, k, value), name, k, value);
    AssignmentReads(k, value);
    InsertedAt(lines, name, AssignmentLine(k, value));
    TakenOut(lines, SectionEnd(lines, name), AssignmentLine(k, value));
  }

  lemma TakenOut(lines: seq<Line>, i: nat, line: Line)
    requires i <= |lines|
    ensures Without(Inserted(lines, i, line), i) == lines
  {
  }

  /** A line put in at the end of its section is found there. */
  lemma InsertedAt(lines: seq<Line>, name: string, line: Line)
    requires HasSection(lines, name) && !Bracket(line) && KeyIndex(lines, name, line.key) == SectionEnd(lines, name)
    ensures var i := SectionEnd(lines, name);
      var edited := Inserted(lines, i, line);
      HasSection(edited, name) && KeyIndex(edited, name, line.key) == i && SectionEnd(edited, name) == i + 1
  {
    var i := SectionEnd(lines, name);
    var edited := Inserted(lines, i, line);
    InsertedIs(lines, i, line);
    InsertStart(lines, edited, i, line, name);
    InsertEnd(lines, edited, i, line, name);
    InsertedKey(lines, edited, i, line, name);
  }

  /** Setting a key makes its section, and no other. */
  lemma SetSections(lines: seq<Line>, name: string, k: string, value: string, section: string)
    requires PlainEdit(name, k, value)
    ensures HasSection(SetLines(lines, name, k, value), section) <==> HasSection(lines, section) || section == name
  {
    var line, edited := AssignmentLine(k, value), SetLines(lines, name, k, value);
    AssignmentReads(k, value);
    HeaderReads(name, section);
    if !HasSection(lines, name) {
      AppendSections(lines, name, line, section);
    } else if KeyIndex(lines, name, k) < SectionEnd(lines, name) {
      SameHeaders(lines, edited, section);
    } else {
      InsertedIs(lines, SectionEnd(lines, name), line);
      InsertStart(lines, edited, SectionEnd(lines, name), line, section);
    }
  }

  lemma AppendSections(lines: seq<Line>, name: string, line: Line, section: string)
    requires !Bracket(line)
    ensures HasSection(Appended(lines, name, line), section) <==> HasSection(lines, section) || section == name
  {
    var edited := Appended(lines, name, line);
    var head := ReadLine(Header(name));
    assert edited[|edited| - 2] == head && edited[|edited| - 1] == line;
    assert TrimSpace("") == "";
    HeaderReads(name, section);
    if IsHeader(line, section) { BracketHeader(line, section); }
    SameHeaders(lines, edited, section);
  }

  lemma SameHeaders(lines: seq<Line>, other: seq<Line>, section: string)
    requires |lines| <= |other|
    requires forall k | 0 <= k < |lines| :: IsHeader(other[k], section) == IsHeader(lines[k], section)
    ensures HasSection(other, section) <==> HasSection(lines, section) || exists k | |lines| <= k < |other| :: IsHeader(other[k], section)
  {
  }

  lemma SetLength(lines: seq<Line>, name: string, k: string, value: string)
    ensures HasSection(lines, name) ==>
      |SetLines(lines, name, k, value)| == |lines| + if Lookup(lines, name, k).None? then 1 else 0
  {
  }

  // ---------------------------------------------------------------- the same, place by place

  /** A line assigns `key` exactly if it is no comment and `key` stands before its first `=`. */
  lemma LineKeyIs(text: string, key: string)
    requires key != ""
    ensures ReadLine(text).key == key <==>
      && TrimSpace(text) != "" && TrimSpace(text)[0] != '#'
      && exists before, after ::
           TrimSpace(text) == before + "=" + after && '=' !in before && TrimSpace(before) == key
  {
    var trimmed := TrimSpace(text);
    var idx := IndexByte(trimmed, '=');
    assert trimmed != "" ==> (HasPrefix(trimmed, "#") <==> trimmed[0] == '#') by {
      assert trimmed != "" ==> trimmed[..1] == [trimmed[0]];
    }
    if idx < |trimmed| {
      assert trimmed == trimmed[..idx] + "=" + trimmed[idx + 1..] && '=' !in trimmed[..idx];
    }
    if before, after :| trimmed == before + "=" + after && '=' !in before && TrimSpace(before) == key {
      assert trimmed[|before|] == '=' && forall k | 0 <= k < |before| :: trimmed[k] == before[k] && before[k] in before;
      assert idx == |before| && trimmed[..idx] == before;
    }
  }

  /** The first header of the section stands at `start`, and what belongs to it ends before `end`. */
  predicate Spans(lines: seq<Line>, section: string, start: nat, end: nat) {
    && start < end <= |lines| && lines[start].trimmed == "[" + section + "]"
    && (forall k | 0 <= k < start :: lines[k].trimmed != "[" + section + "]")
    && (forall k | start < k < end :: lines[k].trimmed == "" || lines[k].trimmed[0] != '[')
    && (end < |lines| ==> lines[end].trimmed != "" && lines[end].trimmed[0] == '[')
  }

  lemma SpansAre(lines: seq<Line>, section: string, start: nat, end: nat)
    ensures Spans(lines, section, start, end) <==>
      HasSection(lines, section) && start == SectionStart(lines, section, 0) && end == SectionEnd(lines, section)
  {
    assert Header(section) == "[" + section + "]";
    if Spans(lines, section, start, end) {
      assert IsHeader(lines[start], section);
      assert forall k | 0 <= k < start :: !IsHeader(lines[k], section);
      assert forall k | start < k < end :: !Bracket(lines[k]);
    }
  }

  /** Line `i` is the first of those between `start` and `end` that assigns the key; `i == end` if none does. */
  predicate FirstKey(lines: seq<Line>, key: string, start: nat, end: nat, i: nat) {
    start < i <= end <= |lines| && (i < end ==> lines[i].key == key) && forall k | start < k < i :: lines[k].key != key
  }

  /** Setting rewrites the first assignment of the key in the section, and goes to the section's end if there is none. */
  lemma SetInSection(lines: seq<Line>, section: string, key: string, value: string, start: nat, end: nat, i: nat)
    requires Spans(lines, section, start, end) && FirstKey(lines, key, start, end, i)
    ensures SetLines(lines, section, key, value) ==
      var line := ReadLine(key + " = " + value);
      if i < end then lines[..i] + [line] + lines[i + 1..] else lines[..end] + [line] + lines[end..]
  {
    SpansAre(lines, section, start, end);
    assert KeyIndex(lines, section, key) == i;
  }

  /** Without the section, it and the assignment go to the end, behind a blank line if the last one is not blank. */
  lemma SetWithoutSection(lines: seq<Line>, section: string, key: string, value: string)
    requires forall k | 0 <= k < |lines| :: lines[k].trimmed != "[" + section + "]"
    ensures SetLines(lines, section, key, value) ==
      lines + (if lines == [] || lines[|lines| - 1].trimmed == "" then [] else [ReadLine("")])
      + [ReadLine("[" + section + "]"), ReadLine(key + " = " + value)]
  {
    assert forall k | 0 <= k < |lines| :: !IsHeader(lines[k], section);
    assert lines + [] == lines;
  }

  /** Line `i` is the first between `start` and `end` that is this very assignment; `i == end` if none is. */
  predicate FirstExact(lines: seq<Line>, key: string, value: string, start: nat, end: nat, i: nat) {
    && start < i <= end <= |lines|
    && (i < end ==> lines[i].key == key && lines[i].trimmed == key + " = " + value)
    && forall k | start < k < i :: lines[k].key != key || lines[k].trimmed != key + " = " + value
  }

  /** Removing takes that line out, and nothing without one or without the section. */
  lemma RemoveInSection(lines: seq<Line>, section: string, key: string, value: string, start: nat, end: nat, i: nat)
    requires Spans(lines, section, start, end) && FirstExact(lines, key, value, start, end, i)
    ensures RemoveLines(lines, section, key, value) ==
      if i < end then (lines[..i] + lines[i + 1..], true) else (lines, false)
  {
    SpansAre(lines, section, start, end);
    assert ExactLine(lines, key, value, start + 1, end) == i;
  }

  lemma RemoveWithoutSection(lines: seq<Line>, section: string, key: string, value: string)
    requires forall k | 0 <= k < |lines| :: lines[k].trimmed != "[" + section + "]"
    ensures RemoveLines(lines, section, key, value) == (lines, false)
  {
    assert forall k | 0 <= k < |lines| :: !IsHeader(lines[k], section);
  }
}
