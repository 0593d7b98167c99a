/**
 * The quote-aware command splitter and tokeniser, and the lexer they are documented to be.
 *
 * The reference lexer looks at one byte at a time: the quoting mode before a byte, the text pending in its
 * segment, the segments finished so far, and whether the byte starts something dangerous. Bytes are
 * characters; white space is ASCII white space.
 */
module ShellLexer {
  import opened Text

  // ---------------------------------------------------------------- quoting

  datatype Mode = Unquoted | Single | Double | EscUnquoted | EscDouble

  /** The quoting automaton: single quotes hide everything, a backslash one byte outside them. */
  function After(m: Mode, c: char): Mode {
    match m
    case EscUnquoted => Unquoted
    case EscDouble => Double
    case Single => if c == '\'' then Unquoted else Single
    case Double => if c == '"' then Unquoted else if c == '\\' then EscDouble else Double
    case Unquoted =>
      if c == '\'' then Single else if c == '"' then Double else if c == '\\' then EscUnquoted else Unquoted
  }

  /** The mode before byte `p`; at the end, the mode the string is left in. */
  function ModeAt(s: string, p: nat): Mode
    requires p <= |s|
  {
    if p == 0 then Unquoted else After(ModeAt(s, p - 1), s[p - 1])
  }

  function FinalMode(s: string): Mode {
    ModeAt(s, |s|)
  }

  // ---------------------------------------------------------------- the reference splitter

  /** Byte `p` is an unquoted `c`. */
  predicate Bare(s: string, p: int, c: char) {
    0 <= p < |s| && ModeAt(s, p) == Unquoted && s[p] == c
  }

  /** The last byte of `s` is `c`. */
  predicate EndsIn(s: string, c: char) {
    s != [] && s[|s| - 1] == c
  }

  /** An unquoted `;`, newline or `|`, or an `&` that is not part of a `>&1`. */
  predicate Separates(s: string, p: nat)
    requires p < |s|
  {
    Bare(s, p, ';') || Bare(s, p, '\n') || Bare(s, p, '|') || (Bare(s, p, '&') && !Bare(s, p - 1, '>'))
  }

  /** Byte `p` belongs to a `>&1`. */
  predicate InDup(s: string, p: nat) {
    Bare(s, p, '>') || (Bare(s, p - 1, '>') && Bare(s, p, '&'))
    || (Bare(s, p - 2, '>') && Bare(s, p - 1, '&') && Bare(s, p, '1'))
  }

  /** What byte `c`, met in mode `m`, does to the pending text `t`. */
  function NextPending(t: string, c: char, m: Mode, separates: bool, redirects: bool, inDup: bool): string {
    if separates then ""
    else if redirects then (if t == [] then t else t[..|t| - 1])
    else if inDup || (c == '\\' && (m == Unquoted || m == Double)) then t
    else t + [c]
  }

  /** The text of the current segment before byte `p`: backslashes dropped, quotes kept, `2>&1` removed. */
  function Pending(s: string, p: nat): string
    requires p <= |s|
  {
    if p == 0 then ""
    else NextPending(Pending(s, p - 1), s[p - 1], ModeAt(s, p - 1),
                     Separates(s, p - 1), Bare(s, p - 1, '>'), InDup(s, p - 1))
  }

  /** The segments finished before byte `p`, untrimmed. */
  function Pieces(s: string, p: nat): seq<string>
    requires p <= |s|
  {
    if p == 0 then []
    else Pieces(s, p - 1) + (if Separates(s, p - 1) then [Pending(s, p - 1)] else [])
  }

  /** The trimmed pieces, without those that are empty. */
  function Trimmed(pieces: seq<string>): seq<string> {
    if pieces == [] then []
    else Trimmed(pieces[..|pieces| - 1])
         + (if TrimSpace(pieces[|pieces| - 1]) != "" then [TrimSpace(pieces[|pieces| - 1])] else [])
  }

  function Segments(s: string): seq<string> {
    Trimmed(Pieces(s, |s|) + [Pending(s, |s|)])
  }

  /** A backtick or `$(` outside single quotes. */
  predicate Substitutes(s: string, p: nat)
    requires p < |s|
  {
    ModeAt(s, p) in {Unquoted, Double} && (s[p] == '`' || (s[p] == '$' && p + 1 < |s| && s[p + 1] == '('))
  }

  /** An odd number of unquoted `&` stand directly before byte `p`, not counting that of a `>&`. */
  predicate OddAmps(s: string, p: nat)
    requires p <= |s|
  {
    p > 0 && Bare(s, p - 1, '&') && !Bare(s, p - 2, '>') && !OddAmps(s, p - 1)
  }

  /** An unquoted `&` that no `&&` and no `>&` accounts for. */
  predicate LoneAmp(s: string, p: nat)
    requires p < |s|
  {
    Bare(s, p, '&') && !Bare(s, p - 1, '>') && !OddAmps(s, p) && !(p + 1 < |s| && s[p + 1] == '&')
  }

  /** An unquoted `<`, or a `>` other than one consumed as `2>&1`. */
  predicate Redirects(s: string, p: nat)
    requires p < |s|
  {
    || Bare(s, p, '<')
    || (Bare(s, p, '>')
        && !(p + 2 < |s| && s[p + 1] == '&' && s[p + 2] == '1' && EndsIn(Pending(s, p), '2')))
  }

  predicate Dangerous(s: string, p: nat)
    requires p < |s|
  {
    Substitutes(s, p) || LoneAmp(s, p) || Redirects(s, p)
  }

  ghost predicate Harmless(s: string) {
    forall p: nat | p < |s| :: !Dangerous(s, p)
  }

  /** Nothing dangerous anywhere, and not left open inside a quotation. */
  ghost predicate Accepted(s: string) {
    Harmless(s) && FinalMode(s) != Single && FinalMode(s) != Double
  }

  // ---------------------------------------------------------------- the splitter

  /** Where the loop may stand: never inside a `>&1`, never between the two bytes of a `&&`. */
  predicate AtToken(s: string, i: nat)
    requires i <= |s|
  {
    !Bare(s, i - 1, '>') && !Bare(s, i - 2, '>') && !OddAmps(s, i)
  }

  function Flushed(segments: seq<string>, current: string): seq<string> {
    if TrimSpace(current) != "" then segments + [TrimSpace(current)] else segments
  }

  lemma TrimmedSnoc(pieces: seq<string>, piece: string)
    ensures Trimmed(pieces + [piece]) == Flushed(Trimmed(pieces), piece)
  {
    assert (pieces + [piece])[..|pieces|] == pieces;
  }

  /** A byte that neither separates nor redirects is kept, unless it is an escaping backslash. */
  lemma PlainByte(s: string, i: nat)
    requires i < |s| && AtToken(s, i) && !Separates(s, i) && !Bare(s, i, '>')
    ensures var m := ModeAt(s, i);
      && ModeAt(s, i + 1) == After(m, s[i])
      && Pending(s, i + 1) == Pending(s, i) + (if s[i] == '\\' && (m == Unquoted || m == Double) then [] else [s[i]])
    ensures Pieces(s, i + 1) == Pieces(s, i) && AtToken(s, i + 1)
  {
    assert Pieces(s, i + 1) == Pieces(s, i) + [];
  }

  /** A separator that is not an `&` finishes the pending piece. */
  lemma SeparatorByte(s: string, i: nat)
    requires i < |s| && AtToken(s, i) && Separates(s, i) && s[i] != '&'
    ensures ModeAt(s, i + 1) == Unquoted && AtToken(s, i + 1)
    ensures Pending(s, i + 1) == "" && Trimmed(Pieces(s, i + 1)) == Flushed(Trimmed(Pieces(s, i)), Pending(s, i))
    ensures !Dangerous(s, i)
  {
    TrimmedSnoc(Pieces(s, i), Pending(s, i));
  }

  /** A `>` that begins a `>&1` takes the pending text's last byte away … */
  lemma DupFirst(s: string, i: nat)
    requires i + 2 < |s| && Bare(s, i, '>') && s[i + 1] == '&' && s[i + 2] == '1' && EndsIn(Pending(s, i), '2')
    ensures ModeAt(s, i + 1) == Unquoted && !Dangerous(s, i)
    ensures Pending(s, i + 1) == Pending(s, i)[..|Pending(s, i)| - 1] && Pieces(s, i + 1) == Pieces(s, i)
  {
    assert Pieces(s, i + 1) == Pieces(s, i) + [];
  }

  /** … and its other two bytes change nothing. */
  lemma DupRest(s: string, i: nat)
    requires i + 2 < |s| && Bare(s, i, '>') && s[i + 1] == '&' && s[i + 2] == '1'
    ensures ModeAt(s, i + 3) == Unquoted && AtToken(s, i + 3)
    ensures Pending(s, i + 3) == Pending(s, i + 1) && Pieces(s, i + 3) == Pieces(s, i + 1)
    ensures !Dangerous(s, i + 1) && !Dangerous(s, i + 2)
  {
    assert ModeAt(s, i + 1) == Unquoted && ModeAt(s, i + 2) == Unquoted;
    assert InDup(s, i + 1) && InDup(s, i + 2) && !Separates(s, i + 1) && !Separates(s, i + 2);
    assert Pieces(s, i + 2) == Pieces(s, i + 1) + [];
    assert Pieces(s, i + 3) == Pieces(s, i + 2) + [];
  }

  /** The three bytes of a `>&1` cost the pending text its trailing `2` and change nothing else. */
  lemma DupConsumed(s: string, i: nat)
    requires i + 2 < |s| && Bare(s, i, '>') && s[i + 1] == '&' && s[i + 2] == '1' && EndsIn(Pending(s, i), '2')
    ensures ModeAt(s, i + 3) == Unquoted && AtToken(s, i + 3)
    ensures Pending(s, i + 3) == Pending(s, i)[..|Pending(s, i)| - 1] && Pieces(s, i + 3) == Pieces(s, i)
    ensures Clean(s, i, i + 3)
  {
    DupFirst(s, i);
    DupRest(s, i);
  }

  /** The second byte of `||` or `&&` only finishes an empty piece. */
  lemma PipePair(s: string, i: nat)
    requires i + 1 < |s| && AtToken(s, i) && Bare(s, i, '|') && s[i + 1] == '|'
    ensures ModeAt(s, i + 2) == Unquoted && AtToken(s, i + 2)
    ensures Pending(s, i + 2) == "" && Trimmed(Pieces(s, i + 2)) == Flushed(Trimmed(Pieces(s, i)), Pending(s, i))
    ensures Clean(s, i, i + 2)
  {
    SeparatorByte(s, i);
    SeparatorByte(s, i + 1);
  }

  lemma AmpBytes(s: string, i: nat)
    requires i + 1 < |s| && AtToken(s, i) && Bare(s, i, '&') && s[i + 1] == '&'
    ensures ModeAt(s, i + 2) == Unquoted && AtToken(s, i + 2)
    ensures Pending(s, i + 2) == "" && Pieces(s, i + 2) == (Pieces(s, i) + [Pending(s, i)]) + [""]
    ensures Clean(s, i, i + 2)
  {
    assert ModeAt(s, i + 1) == Unquoted;
    assert Separates(s, i) && Separates(s, i + 1);
    assert Pending(s, i + 1) == "";
    assert Pieces(s, i + 1) == Pieces(s, i) + [Pending(s, i)];
    assert OddAmps(s, i + 1) && !OddAmps(s, i + 2);
    assert !Dangerous(s, i) && !Dangerous(s, i + 1);
  }

  lemma TrimmedPair(pieces: seq<string>, piece: string)
    ensures Trimmed((pieces + [piece]) + [""]) == Flushed(Trimmed(pieces), piece)
  {
    TrimmedSnoc(pieces, piece);
    TrimmedSnoc(pieces + [piece], "");
  }

  lemma AmpPair(s: string, i: nat)
    requires i + 1 < |s| && AtToken(s, i) && Bare(s, i, '&') && s[i + 1] == '&'
    ensures ModeAt(s, i + 2) == Unquoted && AtToken(s, i + 2)
    ensures Pending(s, i + 2) == "" && Trimmed(Pieces(s, i + 2)) == Flushed(Trimmed(Pieces(s, i)), Pending(s, i))
    ensures Clean(s, i, i + 2)
  {
    AmpBytes(s, i);
    TrimmedPair(Pieces(s, i), Pending(s, i));
  }

  /** The loop's variables agree with the reference lexer at byte `i`. */
  predicate Scanned(s: string, i: nat, state: Mode, current: string, segments: seq<string>) {
    && i <= |s| && AtToken(s, i)
    && state == ModeAt(s, i) && current == Pending(s, i) && segments == Trimmed(Pieces(s, i))
  }

  method SplitSegments(cmd: string) returns (segments: seq<string>, ok: bool)
    ensures ok <==> Accepted(cmd)
    ensures segments == if ok then Segments(cmd) else []
  {
    var s := cmd;
    var state := Unquoted;
    var current := "";
    segments := [];
    var i := 0;
    while i < |s|
      invariant Scanned(s, i, state, current, segments)
      invariant Clean(s, 0, i)
    {
      var clean;
      if state == Unquoted {
        i, state, current, segments, clean := UnquotedByte(s, i, current, segments);
      } else {
        state, current, clean := QuotedByte(s, i, state, current, segments);
        i := i + 1;
      }
      if !clean {
        return [], false;
      }
    }
    if state == Single || state == Double {
      return [], false;
    }
    TrimmedSnoc(Pieces(s, |s|), current);
    segments := Flushed(segments, current);
    ok := true;
  }

  /** The cases of the quoted and escaped states, one byte each. */
  method QuotedByte(s: string, i: nat, state: Mode, current: string, ghost segments: seq<string>)
    returns (state': Mode, current': string, clean: bool)
    requires i < |s| && state != Unquoted && Scanned(s, i, state, current, segments)
    ensures clean ==> Scanned(s, i + 1, state', current', segments) && Clean(s, i, i + 1)
    ensures !clean ==> Dangerous(s, i)
  {
    var c := s[i];
    QuotedStep(s, i, state, current, segments);
    match state {
      case EscUnquoted =>
        return Unquoted, current + [c], true;
      case EscDouble =>
        return Double, current + [c], true;
      case Single =>
        return if c == '\'' then Unquoted else Single, current + [c], true;
      case Double =>
        if c == '`' || (c == '$' && i + 1 < |s| && s[i + 1] == '(') {
          return state, current, false;
        }
        if c == '\\' {
          return EscDouble, current, true;
        }
        return if c == '"' then Unquoted else Double, current + [c], true;
    }
  }

  lemma QuotedStep(s: string, i: nat, state: Mode, current: string, segments: seq<string>)
    requires i < |s| && state != Unquoted && Scanned(s, i, state, current, segments)
    ensures Scanned(s, i + 1, After(state, s[i]), current + (if s[i] == '\\' && state == Double then [] else [s[i]]), segments)
    ensures Dangerous(s, i) <==> state == Double && (s[i] == '`' || (s[i] == '$' && i + 1 < |s| && s[i + 1] == '('))
  {
    PlainByte(s, i);
  }

  /** The unquoted state's cases: quotes, escapes, operators, and everything else. */
  method UnquotedByte(s: string, i: nat, current: string, segments: seq<string>)
    returns (i': nat, state': Mode, current': string, segments': seq<string>, clean: bool)
    requires i < |s| && Scanned(s, i, Unquoted, current, segments)
    ensures clean ==> i < i' && Scanned(s, i', state', current', segments') && Clean(s, i, i')
    ensures !clean ==> Dangerous(s, i)
  {
    var c := s[i];
    if c == '`' || (c == '$' && i + 1 < |s| && s[i + 1] == '(') || c == '<' {
      return i, Unquoted, current, segments, false;
    }
    if c in {'>', '|', '&', ';', '\n'} {
      i', current', segments', clean := OperatorByte(s, i, current, segments);
      return i', Unquoted, current', segments', clean;
    }
    PlainByte(s, i);
    if c == '\\' {
      return i + 1, EscUnquoted, current, segments, true;
    }
    state' := if c == '\'' then Single else if c == '"' then Double else Unquoted;
    return i + 1, state', current + [c], segments, true;
  }

  /** Nothing dangerous between two positions. */
  ghost predicate Clean(s: string, i: nat, j: nat)
    requires j <= |s|
  {
    forall p: nat | i <= p < j :: !Dangerous(s, p)
  }

  method OperatorByte(s: string, i: nat, current: string, segments: seq<string>)
    returns (i': nat, current': string, segments': seq<string>, clean: bool)
    requires i < |s| && Scanned(s, i, Unquoted, current, segments)
    requires s[i] in {'>', '|', '&', ';', '\n'}
    ensures clean ==> i < i' && Scanned(s, i', Unquoted, current', segments') && Clean(s, i, i')
    ensures !clean ==> Dangerous(s, i)
  {
    var c := s[i];
    if c == '>' {
      i', current', clean := RedirectByte(s, i, current, segments);
      return i', current', segments, clean;
    }
    if c == '&' {
      if i + 1 < |s| && s[i + 1] == '&' {
        AmpPair(s, i);
        return i + 2, "", Flushed(segments, current), true;
      }
      assert LoneAmp(s, i);
      return i, current, segments, false;
    }
    if c == '|' && i + 1 < |s| && s[i + 1] == '|' {
      PipePair(s, i);
      return i + 2, "", Flushed(segments, current), true;
    }
    SeparatorByte(s, i);
    return i + 1, "", Flushed(segments, current), true;
  }

  method RedirectByte(s: string, i: nat, current: string, ghost segments: seq<string>)
    returns (i': nat, current': string, clean: bool)
    requires i < |s| && Scanned(s, i, Unquoted, current, segments) && s[i] == '>'
    ensures clean ==> i < i' && Scanned(s, i', Unquoted, current', segments) && Clean(s, i, i')
    ensures !clean ==> Dangerous(s, i)
  {
    if i + 2 < |s| && s[i + 1] == '&' && s[i + 2] == '1' && EndsIn(current, '2') {
      DupConsumed(s, i);
      return i + 3, current[..|current| - 1], true;
    }
    assert Redirects(s, i);
    return i, current, false;
  }
}
