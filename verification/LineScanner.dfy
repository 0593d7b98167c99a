/** Reading a text line by line with a bounded buffer, as the standard library's line scanner does. */
module LineScanner {
  /** One more byte in front of the pieces: a newline starts a new piece, anything else joins the first. */
  function Consed(c: char, parts: seq<string>): (r: seq<string>)
    requires parts != []
    ensures r != []
  {
    if c == '\n' then [""] + parts else [[c] + parts[0]] + parts[1..]
  }

  /** The pieces between newlines; one more than there are newlines. */
  function Split(s: string): (parts: seq<string>)
    ensures parts != []
  {
    if s == [] then [""] else Consed(s[0], Split(s[1..]))
  }

  /** Without the empty piece that follows a final newline. */
  function Closed(parts: seq<string>): seq<string> {
    if parts != [] && parts[|parts| - 1] == "" then parts[..|parts| - 1] else parts
  }

  /** A line without its trailing carriage return. */
  function DropCR(line: string): string {
    if line != "" && line[|line| - 1] == '\r' then line[..|line| - 1] else line
  }

  /** The raw lines: between newlines, carriage returns included. */
  function RawLines(data: string): seq<string> {
    Closed(Split(data))
  }

  /** What a line scanner with a bounded buffer yields: it stops at the first line that does not fit. */
  function Scanned(raw: seq<string>, cap: nat): seq<string> {
    if raw == [] || |raw[0]| >= cap then [] else [DropCR(raw[0])] + Scanned(raw[1..], cap)
  }

  /** The leading lines that fit are reported: all of them exactly when every line fits the buffer. */
  lemma {:induction false} ScannedAll(raw: seq<string>, cap: nat)
    ensures |Scanned(raw, cap)| == |raw| <==> forall line | line in raw :: |line| < cap
    ensures var n := |Scanned(raw, cap)|;
      && n <= |raw| && (n < |raw| ==> |raw[n]| >= cap)
      && forall i | 0 <= i < n :: |raw[i]| < cap && Scanned(raw, cap)[i] == DropCR(raw[i])
  {
    if raw != [] {
      ScannedAll(raw[1..], cap);
      assert raw == [raw[0]] + raw[1..];
    }
  }

  /** The lines that fit, wherever they stand: what skipping the others would report. */
  function Fitting(raw: seq<string>, cap: nat): seq<string> {
    if raw == [] then [] else (if |raw[0]| < cap then [DropCR(raw[0])] else []) + Fitting(raw[1..], cap)
  }

  lemma {:induction false} NoneFits(raw: seq<string>, cap: nat)
    ensures Fitting(raw, cap) == [] <==> forall i | 0 <= i < |raw| :: |raw[i]| >= cap
  {
    if raw != [] {
      NoneFits(raw[1..], cap);
      assert forall i | 0 < i < |raw| :: raw[i] == raw[1..][i - 1];
    }
  }

  /** An overlong line is skipped, and the rest reported, exactly if no line that fits stands behind one. */
  lemma {:induction false} ScannedFitting(raw: seq<string>, cap: nat)
    ensures Scanned(raw, cap) == Fitting(raw, cap) <==>
      forall i, j | 0 <= i < j < |raw| :: |raw[i]| >= cap ==> |raw[j]| >= cap
  {
    if raw != [] {
      var rest := raw[1..];
      assert forall i | 0 < i < |raw| :: raw[i] == rest[i - 1];
      ScannedFitting(rest, cap);
      NoneFits(rest, cap);
      if |raw[0]| < cap {
        assert Scanned(raw, cap) == [DropCR(raw[0])] + Scanned(rest, cap);
        assert Scanned(raw, cap) == Fitting(raw, cap) <==> Scanned(raw, cap)[1..] == Fitting(raw, cap)[1..];
        FittingRest(raw, rest, cap);
      } else {
        FittingRest(raw, rest, cap);
      }
    }
  }

  lemma FittingRest(raw: seq<string>, rest: seq<string>, cap: nat)
    requires raw != [] && rest == raw[1..]
    ensures (forall i, j | 0 <= i < j < |raw| :: |raw[i]| >= cap ==> |raw[j]| >= cap) <==>
      && (forall i, j | 0 <= i < j < |rest| :: |rest[i]| >= cap ==> |rest[j]| >= cap)
      && (|raw[0]| >= cap ==> forall i | 0 <= i < |rest| :: |rest[i]| >= cap)
  {
    assert forall i | 0 < i < |raw| :: raw[i] == rest[i - 1];
    assert forall i | 0 <= i < |rest| :: rest[i] == raw[i + 1];
  }

  /** A short line behind an overlong one is not reported. */
  lemma OverlongStops()
    ensures Scanned(["xxxxx", "a"], 4) == [] && Fitting(["xxxxx", "a"], 4) == ["a"]
  {
    assert ["xxxxx", "a"][1..] == ["a"] && ["a"][1..] == [];
  }

  // ---------------------------------------------------------------- written line by line

  /** Every line with a newline behind it. */
  function Written(lines: seq<string>): string {
    if lines == [] then "" else lines[0] + "\n" + Written(lines[1..])
  }

  predicate Unbroken(line: string) {
    '\n' !in line
  }

  lemma {:induction false} SplitLine(head: string, rest: string)
    requires Unbroken(head)
    ensures Split(head + "\n" + rest) == [head] + Split(rest)
  {
    var s := head + "\n" + rest;
    if head == "" {
      assert s[1..] == rest;
    } else {
      SplitLine(head[1..], rest);
      assert s[1..] == head[1..] + "\n" + rest;
      assert head[0] in head && [head[0]] + head[1..] == head;
    }
  }

  /** What was written line by line has those lines. */
  lemma {:induction false} LinesWritten(lines: seq<string>)
    requires forall i | 0 <= i < |lines| :: Unbroken(lines[i])
    ensures Split(Written(lines)) == lines + [""] && RawLines(Written(lines)) == lines
  {
    if lines != [] {
      LinesWritten(lines[1..]);
      SplitLine(lines[0], Written(lines[1..]));
      assert [lines[0]] + (lines[1..] + [""]) == lines + [""];
    }
  }
}
