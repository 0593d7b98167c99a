/** The command classifier over the two lexers, and how the splitter behaves on whole commands. */
module CommandClass {
  import opened ShellLexer
  import opened ShellWords
  import opened Text

  // ---------------------------------------------------------------- the classifier

  predicate IdentifierByte(c: char) {
    'A' <= c <= 'Z' || 'a' <= c <= 'z' || '0' <= c <= '9' || c == '_'
  }

  /** `NAME=value`, with an identifier before the first `=`. */
  ghost predicate IsVarAssignment(tok: string) {
    exists i | 0 < i < |tok| ::
      tok[i] == '=' && !('0' <= tok[0] <= '9') && forall j | 0 <= j < i :: IdentifierByte(tok[j])
  }

  /** Said of texts: an identifier that does not begin with a digit, `=`, and anything. */
  lemma AssignmentIs(name: string, value: string)
    requires '=' !in name
    ensures IsVarAssignment(name + "=" + value) <==>
      && name != "" && !(48 <= name[0] as int <= 57)
      && forall c | c in name :: 48 <= c as int <= 57 || 65 <= c as int <= 90 || 97 <= c as int <= 122 || c as int == 95
    ensures !IsVarAssignment(name)
  {
    var tok, n := name + "=" + value, |name|;
    assert tok[n] == '=' && forall j | 0 <= j < n :: tok[j] == name[j] && name[j] in name;
    if i :| 0 < i < |tok| && tok[i] == '=' && !('0' <= tok[0] <= '9') && forall j | 0 <= j < i :: IdentifierByte(tok[j]) {
      assert !IdentifierByte('=');
      assert i == n;
    }
  }

  method CheckVarAssignment(tok: string) returns (assigns: bool)
    ensures assigns <==> IsVarAssignment(tok)
  {
    var idx := 0;
    while idx < |tok| && tok[idx] != '='
      invariant idx <= |tok| && forall j | 0 <= j < idx :: tok[j] != '='
    {
      idx := idx + 1;
    }
    if idx == 0 || idx == |tok| || '0' <= tok[0] <= '9' {
      return false;
    }
    for k := 0 to idx
      invariant forall j | 0 <= j < k :: IdentifierByte(tok[j])
    {
      if !IdentifierByte(tok[k]) {
        return false;
      }
    }
    return true;
  }

  /** A segment that tokenises, sets no variable, and runs a command line `allowed` accepts. */
  ghost predicate SegmentReadOnly(seg: string, allowed: seq<string> -> bool) {
    && FinalMode(seg) == Unquoted
    && (Words(seg) != [] ==> !IsVarAssignment(Words(seg)[0]) && allowed(Words(seg)))
  }

  ghost predicate ReadOnly(cmd: string, allowed: seq<string> -> bool) {
    && cmd != "" && Accepted(cmd)
    && forall seg | seg in Segments(cmd) :: SegmentReadOnly(seg, allowed)
  }

  method ClassifySegment(seg: string, allowed: seq<string> -> bool) returns (readonly: bool)
    ensures readonly <==> SegmentReadOnly(seg, allowed)
  {
    var fields, ok := ShellFields(seg);
    if !ok {
      return false;
    }
    if |fields| == 0 {
      return true;
    }
    var assignment := CheckVarAssignment(fields[0]);
    return !assignment && allowed(fields);
  }

  method ClassifyCommand(cmd: string, allowed: seq<string> -> bool) returns (readonly: bool)
    ensures readonly <==> ReadOnly(cmd, allowed)
  {
    if cmd == "" {
      return false;
    }
    var segments, ok := SplitSegments(cmd);
    if !ok {
      return false;
    }
    readonly := ClassifySegments(segments, allowed);
  }

  method ClassifySegments(segments: seq<string>, allowed: seq<string> -> bool) returns (readonly: bool)
    ensures readonly <==> forall seg | seg in segments :: SegmentReadOnly(seg, allowed)
  {
    for i := 0 to |segments|
      invariant forall k | 0 <= k < i :: SegmentReadOnly(segments[k], allowed)
    {
      var harmless := ClassifySegment(segments[i], allowed);
      if !harmless {
        return false;
      }
    }
    return true;
  }

  // ---------------------------------------------------------------- sequencing

  lemma SameBare(s: string, t: string, p: nat, q: int, c: char)
    requires p <= |s| && p <= |t| && s[..p] == t[..p] && q < p
    ensures Bare(s, q, c) == Bare(t, q, c)
  {
    if 0 <= q {
      assert s[..q] == s[..p][..q] == t[..q];
      SameMode(s, t, q);
      assert s[q] == s[..p][q] == t[q];
    }
  }

  /** The reference lexer's state before a byte depends only on the bytes before it. */
  lemma {:induction false} SamePrefix(s: string, t: string, p: nat)
    requires p <= |s| && p <= |t| && s[..p] == t[..p]
    ensures Pending(s, p) == Pending(t, p) && Pieces(s, p) == Pieces(t, p) && OddAmps(s, p) == OddAmps(t, p)
  {
    if p > 0 {
      assert s[..p - 1] == s[..p][..p - 1] == t[..p - 1];
      assert s[p - 1] == s[..p][p - 1] == t[p - 1];
      SamePrefix(s, t, p - 1);
      SameMode(s, t, p - 1);
      forall q, c | q < p ensures Bare(s, q, c) == Bare(t, q, c) {
        SameBare(s, t, p, q, c);
      }
    }
  }

  /** At its end `x` leaves the lexer as at the beginning of a text, with the pieces `before` finished. */
  ghost predicate Complete(x: string, before: seq<string>) {
    && FinalMode(x) == Unquoted && Pending(x, |x|) == "" && Pieces(x, |x|) == before && !OddAmps(x, |x|)
    && !Bare(x, |x| - 1, '>') && !(Bare(x, |x| - 2, '>') && Bare(x, |x| - 1, '&'))
  }

  lemma TailBare(x: string, b: string, q: nat, c: char)
    requires FinalMode(x) == Unquoted && q < |b|
    ensures Bare(x + b, |x| + q, c) == Bare(b, q, c)
  {
    ConcatMode(x, b, q);
  }

  lemma HeadBare(x: string, b: string, q: int, c: char)
    requires q < |x|
    ensures Bare(x + b, q, c) == Bare(x, q, c)
  {
    assert (x + b)[..|x|] == x == x[..|x|];
    SameBare(x + b, x, |x|, q, c);
  }

  /** Where two texts look alike to the lexer, one byte has the same effect on its state. */
  lemma SameStep(s: string, p: nat, b: string, r: nat, before: seq<string>)
    requires p < |s| && r < |b| && s[p] == b[r] && ModeAt(s, p) == ModeAt(b, r)
    requires Separates(s, p) == Separates(b, r) && InDup(s, p) == InDup(b, r)
    requires forall c :: Bare(s, p, c) == Bare(b, r, c)
    requires Bare(s, p - 1, '>') == Bare(b, r - 1, '>')
    requires Pending(s, p) == Pending(b, r) && Pieces(s, p) == before + Pieces(b, r) && OddAmps(s, p) == OddAmps(b, r)
    ensures Pending(s, p + 1) == Pending(b, r + 1)
    ensures Pieces(s, p + 1) == before + Pieces(b, r + 1)
    ensures OddAmps(s, p + 1) == OddAmps(b, r + 1)
  {
    assert Bare(s, p, '>') == Bare(b, r, '>') && Bare(s, p, '&') == Bare(b, r, '&');
    var last := if Separates(s, p) then [Pending(s, p)] else [];
    assert before + Pieces(b, r) + last == before + (Pieces(b, r) + last);
  }

  /** What the lexer asks about a byte of `b` and its neighbours has the same answer behind `x`. */
  lemma TailContext(x: string, before: seq<string>, b: string, q: nat)
    requires Complete(x, before) && q < |b|
    ensures var s, p := x + b, |x| + q;
      && s[p] == b[q] && ModeAt(s, p) == ModeAt(b, q)
      && Separates(s, p) == Separates(b, q) && InDup(s, p) == InDup(b, q)
      && (forall c :: Bare(s, p, c) == Bare(b, q, c))
      && Bare(s, p - 1, '>') == Bare(b, q - 1, '>')
  {
    ConcatMode(x, b, q);
    forall c ensures Bare(x + b, |x| + q, c) == Bare(b, q, c) {
      TailBare(x, b, q, c);
    }
    if q >= 1 {
      TailBare(x, b, q - 1, '>');
      TailBare(x, b, q - 1, '&');
    } else {
      HeadBare(x, b, |x| - 1, '>');
      HeadBare(x, b, |x| - 1, '&');
      HeadBare(x, b, |x| - 2, '>');
    }
    if q >= 2 {
      TailBare(x, b, q - 2, '>');
    } else if q == 1 {
      HeadBare(x, b, |x| - 1, '>');
    }
  }

  lemma {:induction false} TailState(x: string, before: seq<string>, b: string, q: nat, s: string, p: nat)
    requires Complete(x, before) && q <= |b| && s == x + b && p == |x| + q
    ensures Pending(s, p) == Pending(b, q) && Pieces(s, p) == before + Pieces(b, q) && OddAmps(s, p) == OddAmps(b, q)
    decreases q
  {
    if q == 0 {
      assert s[..|x|] == x == x[..|x|];
      SamePrefix(s, x, |x|);
      assert before + Pieces(b, 0) == before;
    } else {
      TailState(x, before, b, q - 1, s, p - 1);
      TailContext(x, before, b, q - 1);
      SameStep(s, p - 1, b, q - 1, before);
    }
  }

  lemma TailDangers(x: string, before: seq<string>, b: string, q: nat)
    requires Complete(x, before) && q < |b|
    ensures Dangerous(x + b, |x| + q) <==> Dangerous(b, q)
  {
    TailState(x, before, b, q, x + b, |x| + q);
    TailContext(x, before, b, q);
  }

  lemma {:induction false} TrimmedConcat(xs: seq<string>, ys: seq<string>)
    ensures Trimmed(xs + ys) == Trimmed(xs) + Trimmed(ys)
    decreases |ys|
  {
    if ys == [] {
      assert xs + ys == xs;
    } else {
      assert (xs + ys)[..|xs + ys| - 1] == xs + ys[..|ys| - 1];
      TrimmedConcat(xs, ys[..|ys| - 1]);
    }
  }

  lemma Associative<T>(a: seq<T>, b: seq<T>, c: seq<T>)
    ensures a + b + c == a + (b + c)
  {
  }

  lemma PiecesBehind(x: string, before: seq<string>, b: string, s: string, right: seq<string>)
    requires Complete(x, before) && s == x + b && right == Pieces(b, |b|) + [Pending(b, |b|)]
    ensures Pieces(s, |s|) + [Pending(s, |s|)] == before + right
  {
    TailState(x, before, b, |b|, s, |s|);
    Associative(before, Pieces(b, |b|), [Pending(b, |b|)]);
  }

  lemma SegmentsOf(s: string, pieces: seq<string>)
    requires Pieces(s, |s|) + [Pending(s, |s|)] == pieces
    ensures Segments(s) == Trimmed(pieces)
  {
  }

  /** Behind a complete text the lexer does with `b` what it does with `b` alone. */
  lemma SegmentsBehind(x: string, before: seq<string>, b: string, s: string)
    requires Complete(x, before) && s == x + b
    ensures FinalMode(s) == FinalMode(b) && Segments(s) == Trimmed(before) + Segments(b)
  {
    var right := Pieces(b, |b|) + [Pending(b, |b|)];
    ConcatMode(x, b, |b|);
    PiecesBehind(x, before, b, s, right);
    SegmentsOf(s, before + right);
    SegmentsOf(b, right);
    TrimmedConcat(before, right);
  }

  lemma HarmlessBehind(x: string, before: seq<string>, b: string, s: string)
    requires Complete(x, before) && s == x + b
    ensures Harmless(s) <==> Clean(s, 0, |x|) && Harmless(b)
  {
    forall q: nat | q < |b| ensures Dangerous(s, |x| + q) <==> Dangerous(b, q) {
      TailDangers(x, before, b, q);
    }
    if Clean(s, 0, |x|) && Harmless(b) {
      forall p: nat | p < |s| ensures !Dangerous(s, p) {
        assert p >= |x| ==> Dangerous(s, |x| + (p - |x|)) == Dangerous(b, p - |x|);
      }
    }
  }

  /** `a`, a one-byte separator, and `b`. */
  function Sequenced(a: string, sep: char, b: string): string {
    a + [sep] + b
  }

  predicate IsSeparator(c: char) {
    c == ';' || c == '\n' || c == '|'
  }

  /** The lexer's state at the end of `a` is its state there in any longer text. */
  lemma PrefixState(a: string, s: string)
    requires |a| <= |s| && s[..|a|] == a
    ensures ModeAt(s, |a|) == FinalMode(a) && Pending(s, |a|) == Pending(a, |a|) && Pieces(s, |a|) == Pieces(a, |a|)
    ensures OddAmps(s, |a|) == OddAmps(a, |a|)
  {
    assert a == a[..|a|];
    SameMode(s, a, |a|);
    SamePrefix(s, a, |a|);
  }

  lemma PrefixBare(a: string, s: string, q: int, c: char)
    requires |a| <= |s| && s[..|a|] == a && q < |a|
    ensures Bare(s, q, c) == Bare(a, q, c)
  {
    assert a == a[..|a|];
    SameBare(s, a, |a|, q, c);
  }

  lemma SeparatorEnds(s: string, n: nat)
    requires n < |s| && ModeAt(s, n) == Unquoted && IsSeparator(s[n])
    ensures Pending(s, n + 1) == "" && Pieces(s, n + 1) == Pieces(s, n) + [Pending(s, n)] && !OddAmps(s, n + 1)
    ensures ModeAt(s, n + 1) == Unquoted && !Dangerous(s, n)
  {
    assert Separates(s, n);
  }

  lemma SeparatorCompletes(a: string, sep: char, x: string)
    requires IsSeparator(sep) && FinalMode(a) == Unquoted && x == a + [sep]
    ensures Complete(x, Pieces(a, |a|) + [Pending(a, |a|)])
  {
    assert x[..|a|] == a && x[|a|] == sep;
    PrefixState(a, x);
    SeparatorEnds(x, |a|);
  }

  /** What follows `a` is a separator: it answers what the lexer asks about the last bytes of `a` as their end does. */
  predicate Cuts(a: string, s: string) {
    && |a| < |s| && s[..|a|] == a
    && (IsSeparator(s[|a|]) || (|a| + 1 < |s| && s[|a|] == '&' && s[|a| + 1] == '&' && !OddAmps(a, |a|)))
  }

  lemma HeadSubstitutes(a: string, s: string, p: nat)
    requires Cuts(a, s) && p < |a|
    ensures Substitutes(s, p) == Substitutes(a, p) && s[p] == a[p] && (p + 1 < |a| ==> s[p + 1] == a[p + 1])
    ensures p + 2 < |a| ==> s[p + 2] == a[p + 2]
  {
    assert s[..p] == s[..|a|][..p] == a[..p];
    SameMode(s, a, p);
    assert forall q | 0 <= q < |a| :: s[q] == s[..|a|][q] == a[q];
  }

  lemma HeadLoneAmp(a: string, s: string, p: nat)
    requires Cuts(a, s) && p < |a|
    ensures LoneAmp(s, p) == LoneAmp(a, p)
  {
    HeadSubstitutes(a, s, p);
    PrefixBare(a, s, p, '&');
    PrefixBare(a, s, p - 1, '>');
    assert s[..p] == s[..|a|][..p] == a[..p];
    SamePrefix(s, a, p);
    if p + 1 == |a| && Bare(a, p, '&') && !Bare(a, p - 1, '>') && !OddAmps(a, p) {
      assert OddAmps(a, |a|);
      assert IsSeparator(s[|a|]);
    }
  }

  lemma HeadRedirects(a: string, s: string, p: nat)
    requires Cuts(a, s) && p < |a|
    ensures Redirects(s, p) == Redirects(a, p)
  {
    HeadSubstitutes(a, s, p);
    PrefixBare(a, s, p, '<');
    PrefixBare(a, s, p, '>');
    assert s[..p] == s[..|a|][..p] == a[..p];
    SamePrefix(s, a, p);
  }

  lemma HeadDangers(a: string, s: string, p: nat)
    requires Cuts(a, s) && p < |a|
    ensures Dangerous(s, p) <==> Dangerous(a, p)
  {
    HeadSubstitutes(a, s, p);
    HeadLoneAmp(a, s, p);
    HeadRedirects(a, s, p);
  }

  /** Splitting is a homomorphism: separators between complete commands separate their segments. */
  lemma SplitSequenced(a: string, sep: char, b: string)
    requires (sep == ';' || sep == '\n' || sep == '|') && FinalMode(a) == Unquoted
    ensures Accepted(Sequenced(a, sep, b)) <==> Accepted(a) && Accepted(b)
    ensures Segments(Sequenced(a, sep, b)) == Segments(a) + Segments(b)
  {
    var x, s, before := a + [sep], Sequenced(a, sep, b), Pieces(a, |a|) + [Pending(a, |a|)];
    SeparatorCompletes(a, sep, x);
    SegmentsBehind(x, before, b, s);
    HarmlessBehind(x, before, b, s);
    SequencedClean(a, sep, s);
  }

  lemma SequencedClean(a: string, sep: char, s: string)
    requires IsSeparator(sep) && FinalMode(a) == Unquoted && |a| < |s| && s[..|a|] == a && s[|a|] == sep
    ensures Clean(s, 0, |a| + 1) <==> Harmless(a)
  {
    forall p: nat | p < |a| ensures Dangerous(s, p) <==> Dangerous(a, p) {
      HeadDangers(a, s, p);
    }
    PrefixState(a, s);
    SeparatorEnds(s, |a|);
  }

  /** A harmless text does not end in the beginning of a `>&1`. */
  lemma NoOpenRedirect(a: string)
    requires Harmless(a)
    ensures !Bare(a, |a| - 1, '>') && !Bare(a, |a| - 2, '>')
  {
    if Bare(a, |a| - 1, '>') {
      assert Dangerous(a, |a| - 1);
    }
    if Bare(a, |a| - 2, '>') {
      assert Dangerous(a, |a| - 2);
    }
  }

  /** A sequence of complete commands is read-only exactly when each of them is. */
  lemma ReadOnlySequenced(a: string, sep: char, b: string, allowed: seq<string> -> bool)
    requires (sep == ';' || sep == '\n' || sep == '|') && FinalMode(a) == Unquoted && a != "" && b != ""
    ensures ReadOnly(Sequenced(a, sep, b), allowed) <==> ReadOnly(a, allowed) && ReadOnly(b, allowed)
  {
    SplitSequenced(a, sep, b);
    BothReadOnly(Segments(a), Segments(b), allowed);
  }

  lemma BothReadOnly(x: seq<string>, y: seq<string>, allowed: seq<string> -> bool)
    ensures (forall seg | seg in x + y :: SegmentReadOnly(seg, allowed)) <==>
      (forall seg | seg in x :: SegmentReadOnly(seg, allowed)) && (forall seg | seg in y :: SegmentReadOnly(seg, allowed))
  {
    assert forall seg :: seg in x + y <==> seg in x || seg in y;
  }

  // ---------------------------------------------------------------- the two-byte separators

  /** Without a lone `&` at its end, a harmless text leaves the lexer where a `&&` can be read. */
  lemma AndReached(a: string, s: string)
    requires FinalMode(a) == Unquoted && Harmless(a) && !OddAmps(a, |a|) && |a| <= |s| && s[..|a|] == a
    ensures AtToken(s, |a|) && ModeAt(s, |a|) == Unquoted
    ensures Pending(s, |a|) == Pending(a, |a|) && Pieces(s, |a|) == Pieces(a, |a|)
  {
    PrefixState(a, s);
    NoOpenRedirect(a);
    PrefixBare(a, s, |a| - 1, '>');
    PrefixBare(a, s, |a| - 2, '>');
  }

  lemma AndCompletes(a: string, x: string)
    requires FinalMode(a) == Unquoted && Harmless(a) && !OddAmps(a, |a|) && x == a + "&&"
    ensures Complete(x, Pieces(a, |a|) + [Pending(a, |a|)] + [""])
  {
    assert x[..|a|] == a && x[|a|] == '&' && x[|a| + 1] == '&';
    AndReached(a, x);
    AmpBytes(x, |a|);
  }

  lemma AndClean(a: string, s: string)
    requires FinalMode(a) == Unquoted && !OddAmps(a, |a|)
    requires |a| + 2 <= |s| && s[..|a|] == a && s[|a|] == '&' && s[|a| + 1] == '&'
    ensures Clean(s, 0, |a| + 2) <==> Harmless(a)
  {
    forall p: nat | p < |a| ensures Dangerous(s, p) <==> Dangerous(a, p) {
      HeadDangers(a, s, p);
    }
    if Harmless(a) {
      AndReached(a, s);
      AmpBytes(s, |a|);
    }
  }

  /**
   * `a && b` is split as `a` and then `b`, and refused exactly if one of them is, for a first command that ends
   * unquoted and not in a lone `&`.
   */
  lemma SplitAnd(a: string, b: string)
    requires FinalMode(a) == Unquoted && !OddAmps(a, |a|)
    ensures Accepted(a + "&&" + b) <==> Accepted(a) && Accepted(b)
    ensures Accepted(a) ==> Segments(a + "&&" + b) == Segments(a) + Segments(b)
  {
    var x, s := a + "&&", a + "&&" + b;
    assert s[..|a|] == a && s[|a|] == '&' && s[|a| + 1] == '&';
    AndClean(a, s);
    if Harmless(a) {
      AndBehind(a, b, x, s);
    }
  }

  lemma AndBehind(a: string, b: string, x: string, s: string)
    requires FinalMode(a) == Unquoted && !OddAmps(a, |a|) && Harmless(a) && x == a + "&&" && s == x + b
    ensures FinalMode(s) == FinalMode(b) && (Harmless(s) <==> Clean(s, 0, |x|) && Harmless(b))
    ensures Segments(s) == Segments(a) + Segments(b)
  {
    var pieces := Pieces(a, |a|) + [Pending(a, |a|)];
    AndCompletes(a, x);
    SegmentsBehind(x, pieces + [""], b, s);
    HarmlessBehind(x, pieces + [""], b, s);
    TrimmedSnoc(pieces, "");
  }

  lemma AmpsAccepted(x: string, y: string, m: string)
    requires Accepted(x) && FinalMode(x) == Unquoted && !OddAmps(x, |x|) && Accepted(y) && m == "" + "&&" + y
    ensures Accepted(x + "&&" + m)
  {
    NothingBefore();
    SplitAnd("", y);
    SplitAnd(x, m);
  }

  /** The condition is needed: two commands that are each refused for a lone `&` are accepted when `&&` joins them. */
  lemma LoneAmpsMeet(x: string, y: string, a: string, b: string)
    requires Accepted(x) && FinalMode(x) == Unquoted && !OddAmps(x, |x|) && Accepted(y) && (y == "" || y[0] != '&')
    requires a == x + "&" && b == "&" + y
    ensures !Accepted(a) && !Accepted(b) && Accepted(a + "&&" + b)
  {
    EndsInAmp(x, a);
    StartsWithAmp(y, b);
    var m := "" + "&&" + y;
    AmpsAccepted(x, y, m);
    assert a + "&&" + b == x + "&&" + m;
  }

  lemma EndsInAmp(x: string, s: string)
    requires FinalMode(x) == Unquoted && !OddAmps(x, |x|) && Harmless(x) && s == x + "&"
    ensures !Accepted(s)
  {
    assert s[..|x|] == x && s[|x|] == '&';
    AndReached(x, s);
    assert Dangerous(s, |x|);
  }

  lemma StartsWithAmp(y: string, s: string)
    requires s == "&" + y && (y == "" || y[0] != '&')
    ensures !Accepted(s)
  {
    assert s[0] == '&' && (|s| > 1 ==> s[1] == y[0]);
    assert Dangerous(s, 0);
  }

  lemma NothingBefore()
    ensures Accepted("") && FinalMode("") == Unquoted && !OddAmps("", 0) && Segments("") == []
  {
    assert Pieces("", 0) + [Pending("", 0)] == [""];
    TrimmedSnoc([], "");
  }

  lemma ReadOnlyAnd(a: string, b: string, allowed: seq<string> -> bool)
    requires FinalMode(a) == Unquoted && !OddAmps(a, |a|) && a != "" && b != ""
    ensures ReadOnly(a + "&&" + b, allowed) <==> ReadOnly(a, allowed) && ReadOnly(b, allowed)
  {
    SplitAnd(a, b);
    BothReadOnly(Segments(a), Segments(b), allowed);
  }

  /** `||` is two pipes with nothing between them. */
  lemma SplitOr(a: string, b: string)
    requires FinalMode(a) == Unquoted
    ensures Accepted(a + "||" + b) <==> Accepted(a) && Accepted(b)
    ensures Segments(a + "||" + b) == Segments(a) + Segments(b)
  {
    NothingBefore();
    SplitSequenced("", '|', b);
    SplitSequenced(a, '|', Sequenced("", '|', b));
    assert a + "||" + b == Sequenced(a, '|', Sequenced("", '|', b));
    assert [] + Segments(b) == Segments(b);
  }

  // ---------------------------------------------------------------- segments tokenise

  lemma FinalSnoc(t: string, c: char)
    ensures FinalMode(t + [c]) == After(FinalMode(t), c)
  {
    assert (t + [c])[..|t|] == t == t[..|t|];
    SameMode(t + [c], t, |t|);
  }

  lemma {:induction false} NoEscape(t: string, p: nat)
    requires '\\' !in t && p <= |t|
    ensures ModeAt(t, p) in {Unquoted, Single, Double}
  {
    if p > 0 {
      NoEscape(t, p - 1);
      assert t[p - 1] in t;
    }
  }

  /** Dropping a trailing byte that is no quote leaves an unquoted text unquoted. */
  lemma FinalDrop(t: string)
    requires t != [] && '\\' !in t && FinalMode(t) == Unquoted && t[|t| - 1] != '\'' && t[|t| - 1] != '"'
    ensures FinalMode(t[..|t| - 1]) == Unquoted && '\\' !in t[..|t| - 1]
  {
    NoEscape(t, |t| - 1);
    SameMode(t, t[..|t| - 1], |t| - 1);
  }

  lemma {:induction false} PendingMode(s: string, p: nat)
    requires '\\' !in s && p <= |s| && Clean(s, 0, p)
    ensures FinalMode(Pending(s, p)) == ModeAt(s, p) && '\\' !in Pending(s, p)
  {
    if p > 0 {
      PendingMode(s, p - 1);
      var t, c := Pending(s, p - 1), s[p - 1];
      assert c in s;
      assert !Dangerous(s, p - 1);
      if Bare(s, p - 1, '>') {
        FinalDrop(t);
      } else if !Separates(s, p - 1) && !InDup(s, p - 1) {
        FinalSnoc(t, c);
      }
    }
  }

  lemma {:induction false} PiecesMode(s: string, p: nat)
    requires '\\' !in s && p <= |s| && Clean(s, 0, p)
    ensures forall piece | piece in Pieces(s, p) :: FinalMode(piece) == Unquoted && '\\' !in piece
  {
    if p > 0 {
      PiecesMode(s, p - 1);
      PendingMode(s, p - 1);
    }
  }

  lemma {:induction false} TrimLeftMode(t: string)
    requires FinalMode(t) == Unquoted && '\\' !in t
    ensures FinalMode(TrimLeft(t)) == Unquoted && '\\' !in TrimLeft(t)
  {
    if t != [] && Blank(t[0]) {
      var head, rest := [t[0]], t[1..];
      assert t == head + rest;
      assert ModeAt(head, 0) == Unquoted && FinalMode(head) == After(Unquoted, t[0]);
      assert t[0] in t;
      ConcatMode(head, rest, |rest|);
      TrimLeftMode(rest);
    }
  }

  lemma {:induction false} TrimRightMode(t: string)
    requires FinalMode(t) == Unquoted && '\\' !in t
    ensures FinalMode(TrimRight(t)) == Unquoted
  {
    if t != [] && Blank(t[|t| - 1]) {
      FinalDrop(t);
      TrimRightMode(t[..|t| - 1]);
    }
  }

  lemma {:induction false} TrimmedSource(pieces: seq<string>, seg: string) returns (piece: string)
    requires seg in Trimmed(pieces)
    ensures piece in pieces && seg == TrimSpace(piece)
  {
    var init, last := pieces[..|pieces| - 1], pieces[|pieces| - 1];
    if seg in Trimmed(init) {
      piece := TrimmedSource(init, seg);
    } else {
      piece := last;
    }
  }

  /** Every segment of an accepted command without backslashes tokenises. */
  lemma SegmentsTokenise(s: string, seg: string)
    requires Accepted(s) && '\\' !in s && seg in Segments(s)
    ensures FinalMode(seg) == Unquoted
  {
    var piece := TrimmedSource(Pieces(s, |s|) + [Pending(s, |s|)], seg);
    NoEscape(s, |s|);
    PiecesMode(s, |s|);
    PendingMode(s, |s|);
    TrimLeftMode(piece);
    TrimRightMode(TrimLeft(piece));
  }

  // ---------------------------------------------------------------- open quotes

  /**
   * A command that ends inside a quotation is still split, against the documented rule, exactly when it
   * ends in a backslash inside double quotes.
   */
  lemma OpenQuoteAccepted(s: string)
    requires FinalMode(s) in {Single, Double, EscDouble}
    ensures Accepted(s) <==> Harmless(s) && EndsIn(s, '\\') && ModeAt(s, |s| - 1) == Double
  {
    assert s != "";
  }

  const OPEN_QUOTE := "\"\\\"\\"

  lemma OpenQuoteScan()
    ensures FinalMode(OPEN_QUOTE) == EscDouble && Harmless(OPEN_QUOTE)
    ensures Pending(OPEN_QUOTE, 4) == "\"\"" && Pieces(OPEN_QUOTE, 4) == []
  {
    var s := OPEN_QUOTE;
    assert ModeAt(s, 1) == Double && ModeAt(s, 2) == EscDouble && ModeAt(s, 3) == Double;
    assert Pending(s, 1) == "\"" && Pending(s, 2) == "\"" && Pending(s, 3) == "\"\"";
    assert Pieces(s, 1) == [] && Pieces(s, 2) == [] && Pieces(s, 3) == [];
  }

  lemma WholeSegment(s: string, t: string)
    requires Pieces(s, |s|) == [] && Pending(s, |s|) == t && TrimSpace(t) == t && t != ""
    ensures Segments(s) == [t]
  {
    TrimmedSnoc([], t);
    assert Pieces(s, |s|) + [t] == [] + [t];
  }

  lemma QuotesMode(t: string)
    requires t == "\"\""
    ensures FinalMode(t) == Unquoted
  {
    assert ModeAt(t, 1) == Double;
  }

  lemma NoWords()
    ensures Words("\"\"") == []
  {
    var t := "\"\"";
    assert t == ['"', '"'];
    ReadTwo(START, '"', '"');
  }

  /** And it can be called read-only: here whatever the table of allowed commands says. */
  lemma OpenQuoteReadOnly(allowed: seq<string> -> bool)
    ensures FinalMode(OPEN_QUOTE) == EscDouble && ReadOnly(OPEN_QUOTE, allowed)
  {
    var t := "\"\"";
    OpenQuoteScan();
    WholeSegment(OPEN_QUOTE, t);
    NoWords();
    QuotesMode(t);
  }

  // ---------------------------------------------------------------- plain and quoted command lines

  /** Bytes that mean something to the splitter or the tokeniser outside quotes, single quotes aside. */
  const SPECIAL := {'"', '\\', '`', '$', '<', '>', '|', '&', ';', '\n'}

  /** Nothing special outside single quotes. */
  ghost predicate Inert(s: string) {
    forall p: nat | p < |s| :: InertAt(s, p)
  }

  ghost predicate InertAt(s: string, p: nat)
    requires p < |s|
  {
    ModeAt(s, p) == Single || (ModeAt(s, p) == Unquoted && s[p] !in SPECIAL)
  }

  lemma InertByte(s: string, q: nat)
    requires Inert(s) && q < |s|
    ensures !Separates(s, q) && !InDup(s, q) && !Bare(s, q, '>') && !Bare(s, q, '\\') && ModeAt(s, q) != Double
    ensures !Dangerous(s, q)
  {
    assert InertAt(s, q);
    if q > 0 {
      assert InertAt(s, q - 1);
    }
    if q > 1 {
      assert InertAt(s, q - 2);
    }
  }

  lemma {:induction false} InertState(s: string, p: nat)
    requires Inert(s) && p <= |s|
    ensures Pending(s, p) == s[..p] && Pieces(s, p) == []
  {
    if p > 0 {
      InertState(s, p - 1);
      InertByte(s, p - 1);
      assert s[..p] == s[..p - 1] + [s[p - 1]];
    }
  }

  lemma InertConcat(a: string, b: string)
    requires Inert(a) && Inert(b) && FinalMode(a) == Unquoted
    ensures Inert(a + b) && FinalMode(a + b) == FinalMode(b)
  {
    var s := a + b;
    ConcatMode(a, b, |b|);
    forall p: nat | p < |s| ensures InertAt(s, p) {
      if p < |a| {
        SameMode(s, a, p);
        assert InertAt(a, p);
      } else {
        ConcatMode(a, b, p - |a|);
        assert InertAt(b, p - |a|);
      }
    }
  }

  /** A rendering that is inert, ends unquoted, and does not begin or end in white space. */
  ghost predicate InertWord(w: string) {
    Inert(w) && FinalMode(w) == Unquoted && Tight(w)
  }

  lemma {:induction false} JoinInert(f: string -> string, xs: seq<string>)
    requires xs != [] && forall x | x in xs :: InertWord(f(x))
    ensures InertWord(Join(f, xs))
  {
    var last := xs[|xs| - 1];
    assert InertWord(f(last));
    if |xs| > 1 {
      var init := xs[..|xs| - 1];
      JoinInert(f, init);
      assert Inert(" ") && FinalMode(" ") == Unquoted;
      InertConcat(Join(f, init), " ");
      InertConcat(Join(f, init) + " ", f(last));
    }
  }

  /** Inert words joined by spaces are one segment, as it stands. */
  lemma JoinedSegment(f: string -> string, xs: seq<string>)
    requires xs != [] && forall x | x in xs :: InertWord(f(x))
    ensures var cmd := Join(f, xs);
      cmd != "" && Accepted(cmd) && FinalMode(cmd) == Unquoted && Segments(cmd) == [cmd]
  {
    var cmd := Join(f, xs);
    JoinInert(f, xs);
    InertState(cmd, |cmd|);
    assert cmd[..|cmd|] == cmd;
    forall p: nat | p < |cmd| ensures !Dangerous(cmd, p) {
      InertByte(cmd, p);
    }
    TrimTight(cmd);
    WholeSegment(cmd, cmd);
  }

  lemma {:induction false} QuotedMode(x: string, k: nat)
    requires '\'' !in x && k <= |x|
    ensures ModeAt(Quote(x), 1 + k) == Single
  {
    if k > 0 {
      QuotedMode(x, k - 1);
      assert Quote(x)[k] == x[k - 1];
      assert x[k - 1] in x;
    }
  }

  lemma QuoteInert(x: string)
    requires '\'' !in x
    ensures InertWord(Quote(x))
  {
    QuotedMode(x, |x|);
    forall p: nat | 0 < p < |Quote(x)| ensures ModeAt(Quote(x), p) == Single {
      assert p == 1 + (p - 1);
      QuotedMode(x, p - 1);
    }
  }

  /** A single-quoted argument list is one segment, and tokenises back to its non-empty arguments. */
  lemma QuotedCommand(xs: seq<string>, allowed: seq<string> -> bool)
    requires xs != [] && forall x | x in xs :: '\'' !in x
    ensures var cmd, argv := Join(Quote, xs), NonEmpty(xs);
      && Accepted(cmd) && Segments(cmd) == [cmd] && Words(cmd) == argv
      && (ReadOnly(cmd, allowed) <==> (argv == [] || (!IsVarAssignment(argv[0]) && allowed(argv))))
  {
    var cmd := Join(Quote, xs);
    forall x | x in xs ensures InertWord(Quote(x)) {
      QuoteInert(x);
    }
    JoinedSegment(Quote, xs);
    UnquoteQuote(xs);
    assert cmd in Segments(cmd);
  }

  predicate PlainChar(c: char) {
    c !in SPECIAL && c != '\'' && !Blank(c)
  }

  predicate AllPlain(x: string) {
    forall i | 0 <= i < |x| :: PlainChar(x[i])
  }

  /** A word that needs no quotes. */
  predicate PlainWord(x: string) {
    x != "" && AllPlain(x)
  }

  function Same(x: string): string {
    x
  }

  lemma {:induction false} PlainMode(x: string, p: nat)
    requires PlainWord(x) && p <= |x|
    ensures ModeAt(x, p) == Unquoted
  {
    if p > 0 {
      PlainMode(x, p - 1);
      assert PlainChar(x[p - 1]);
    }
  }

  lemma PlainInert(x: string)
    requires PlainWord(x)
    ensures InertWord(x)
  {
    PlainMode(x, |x|);
    forall p: nat | p < |x| ensures InertAt(x, p) {
      PlainMode(x, p);
      assert PlainChar(x[p]);
    }
    assert PlainChar(x[0]) && PlainChar(x[|x| - 1]);
  }

  lemma {:induction false} ReadPlain(words: seq<string>, x: string)
    requires AllPlain(x)
    ensures Read(Scan(Unquoted, "", words), x) == Scan(Unquoted, x, words)
  {
    if x != [] {
      ReadPlain(words, x[..|x| - 1]);
      assert PlainChar(x[|x| - 1]) && x[..|x| - 1] + [x[|x| - 1]] == x;
    }
  }

  lemma PlainRenders(x: string)
    requires PlainWord(x)
    ensures Renders(Same, x)
  {
    forall words ensures Read(Scan(Unquoted, "", words), Same(x)) == Scan(Unquoted, x, words) {
      ReadPlain(words, x);
    }
  }

  /** Plain words joined by spaces are one segment, and tokenise back to themselves. */
  lemma PlainCommand(xs: seq<string>)
    requires xs != [] && forall x | x in xs :: PlainWord(x)
    ensures var cmd := Join(Same, xs);
      Accepted(cmd) && FinalMode(cmd) == Unquoted && Segments(cmd) == [cmd] && Words(cmd) == xs
  {
    forall x | x in xs ensures InertWord(Same(x)) && Renders(Same, x) {
      PlainInert(x);
      PlainRenders(x);
    }
    JoinedSegment(Same, xs);
    ReadJoined(Same, xs);
    NonEmptyExact(xs);
  }
}
