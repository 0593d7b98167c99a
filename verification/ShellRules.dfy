/**
 * The classifier's documented rules, said of texts: what a command is refused for, what quotes and backslashes hide,
 * and what is left of it in its segments. `a` is any command so far, `b` whatever follows.
 */
module ShellRules {
  import opened CommandClass
  import opened ShellLexer
  import opened ShellWords
  import opened Text

  // ---------------------------------------------------------------- where a text leaves the lexer

  /** Without quotes and backslashes a text ends as it began. */
  lemma {:induction false} PlainStays(a: string, x: string)
    requires '\'' !in x && '"' !in x && '\\' !in x && FinalMode(a) == Unquoted
    ensures FinalMode(a + x) == Unquoted
  {
    if x == "" {
      assert a + x == a;
    } else {
      var n := |x| - 1;
      PlainStays(a, x[..n]);
      FinalSnoc(a + x[..n], x[n]);
      assert x[n] in x && a + x == a + x[..n] + [x[n]];
    }
  }

  /** So it ends unquoted when it stands alone. */
  lemma PlainUnquoted(x: string)
    requires '\'' !in x && '"' !in x && '\\' !in x
    ensures FinalMode(x) == Unquoted
  {
    PlainStays("", x);
    assert "" + x == x;
  }

  /** Behind an opening quote, up to its partner. */
  lemma {:induction false} Opened(a: string, q: char, x: string)
    requires FinalMode(a) == Unquoted && q in {'\'', '"'} && q !in x && (q == '"' ==> '\\' !in x)
    ensures FinalMode(a + [q] + x) == if q == '"' then Double else Single
  {
    if x == "" {
      FinalSnoc(a, q);
      assert a + [q] + x == a + [q];
    } else {
      var n := |x| - 1;
      Opened(a, q, x[..n]);
      FinalSnoc(a + [q] + x[..n], x[n]);
      assert x[n] in x && a + [q] + x == a + [q] + x[..n] + [x[n]];
    }
  }

  lemma Closed(a: string, q: char, x: string)
    requires FinalMode(a) == Unquoted && q in {'\'', '"'} && q !in x && (q == '"' ==> '\\' !in x)
    ensures FinalMode(a + [q] + x + [q]) == Unquoted
  {
    Opened(a, q, x);
    FinalSnoc(a + [q] + x, q);
  }

  /** A backslash outside single quotes hides the byte behind it. */
  lemma Escaped(a: string, c: char)
    requires FinalMode(a) in {Unquoted, Double}
    ensures FinalMode(a + ['\\'] + [c]) == FinalMode(a)
  {
    FinalSnoc(a, '\\');
    FinalSnoc(a + ['\\'], c);
  }

  // ---------------------------------------------------------------- what is refused

  lemma RefusedAt(s: string, p: nat)
    requires p < |s| && Dangerous(s, p)
    ensures !Accepted(s) && forall allowed: seq<string> -> bool :: !ReadOnly(s, allowed)
  {
  }

  /** A command substitution is refused unquoted and inside double quotes, whatever comes before and behind. */
  lemma SubstitutionRefused(a: string, b: string, s: string)
    requires FinalMode(a) in {Unquoted, Double} && (s == a + "$(" + b || s == a + "`" + b)
    ensures !Accepted(s) && forall allowed: seq<string> -> bool :: !ReadOnly(s, allowed)
  {
    assert s[..|a|] == a;
    PrefixState(a, s);
    assert s[|a|] == '`' || (s[|a|] == '$' && s[|a| + 1] == '(');
    RefusedAt(s, |a|);
  }

  /** In a text without quotes and backslashes there is no way around that. */
  lemma PlainSubstitution(x: string, b: string, s: string, allowed: seq<string> -> bool)
    requires '\'' !in x && '"' !in x && '\\' !in x && (s == x + "$(" + b || s == x + "`" + b)
    ensures !Accepted(s) && !ReadOnly(s, allowed)
  {
    PlainUnquoted(x);
    SubstitutionRefused(x, b, s);
  }

  /** So is every unquoted redirection but `2>&1`. */
  lemma RedirectionRefused(a: string, b: string, s: string)
    requires FinalMode(a) == Unquoted
    requires s == a + "<" + b || (s == a + ">" + b && !(EndsIn(Pending(a, |a|), '2') && |b| >= 2 && b[0] == '&' && b[1] == '1'))
    ensures !Accepted(s) && forall allowed: seq<string> -> bool :: !ReadOnly(s, allowed)
  {
    assert s[..|a|] == a && |s| == |a| + 1 + |b|;
    PrefixState(a, s);
    assert |b| >= 2 ==> s[|a| + 1] == b[0] && s[|a| + 2] == b[1];
    assert Redirects(s, |a|);
    RefusedAt(s, |a|);
  }

  /** And an unquoted `&` on its own. */
  lemma AmpersandRefused(a: string, b: string, s: string)
    requires FinalMode(a) == Unquoted && s == a + "&" + b
    requires (a == "" || a[|a| - 1] !in {'&', '>'}) && (b == "" || b[0] != '&')
    ensures !Accepted(s) && forall allowed: seq<string> -> bool :: !ReadOnly(s, allowed)
  {
    assert s[..|a|] == a && |s| == |a| + 1 + |b| && s[|a|] == '&';
    PrefixState(a, s);
    assert a != "" ==> s[|a| - 1] == a[|a| - 1];
    assert b != "" ==> s[|a| + 1] == b[0];
    RefusedAt(s, |a|);
  }

  /** An open quotation is refused. */
  lemma OpenRefused(a: string, q: char, x: string, s: string)
    requires FinalMode(a) == Unquoted && q in {'\'', '"'} && q !in x && (q == '"' ==> '\\' !in x)
    requires s == a + [q] + x
    ensures !Accepted(s) && forall allowed: seq<string> -> bool :: !ReadOnly(s, allowed)
  {
    Opened(a, q, x);
  }

  // ---------------------------------------------------------------- what is accepted

  /** A text that goes on harmlessly is as harmless as before. */
  lemma HeadSame(a: string, x: string, p: nat)
    requires p < |a| && x != "" && x[0] !in {'(', '&', '1'}
    ensures Dangerous(a + x, p) <==> Dangerous(a, p)
  {
    var s := a + x;
    assert s[..p] == a[..p] && s[..|a|] == a;
    SamePrefix(s, a, p);
    SameMode(s, a, p);
    PrefixBare(a, s, p, '<');
    PrefixBare(a, s, p, '>');
    PrefixBare(a, s, p, '&');
    PrefixBare(a, s, p - 1, '>');
    assert forall i | 0 <= i < |a| :: s[i] == a[i];
    assert s[|a|] == x[0];
  }

  lemma HarmlessOn(a: string, x: string, s: string)
    requires s == a + x && x != "" && x[0] !in {'(', '&', '1'} && Clean(s, |a|, |s|)
    ensures Harmless(s) <==> Harmless(a)
  {
    forall p: nat | p < |a| ensures Dangerous(s, p) <==> Dangerous(a, p) {
      HeadSame(a, x, p);
    }
  }

  /** A byte that means nothing to the splitter in this mode, or is an escaping backslash. */
  predicate Quiet(m: Mode, c: char) {
    match m
    case Unquoted => c !in {'`', '$', '<', '>', '|', '&', ';', '\n', '1'}
    case Double => c !in {'`', '$'}
    case _ => true
  }

  function Kept(m: Mode, c: char): string {
    if c == '\\' && (m == Unquoted || m == Double) then "" else [c]
  }

  lemma QuietByte(s: string, p: nat)
    requires p < |s| && Quiet(ModeAt(s, p), s[p])
    ensures !Dangerous(s, p)
    ensures Pending(s, p + 1) == Pending(s, p) + Kept(ModeAt(s, p), s[p]) && Pieces(s, p + 1) == Pieces(s, p)
  {
    assert !Separates(s, p) && !InDup(s, p) && !Bare(s, p, '>');
    assert Pieces(s, p) + [] == Pieces(s, p);
  }

  ghost predicate QuietFrom(s: string, n: nat) {
    forall p: nat | n <= p < |s| :: Quiet(ModeAt(s, p), s[p])
  }

  /** Behind `a` nothing happens but that `t` is appended to its pending text. */
  ghost predicate Appended(a: string, s: string, t: string) {
    && |a| <= |s| && s[..|a|] == a && QuietFrom(s, |a|)
    && Pending(s, |s|) == Pending(a, |a|) + t && Pieces(s, |s|) == Pieces(a, |a|)
  }

  lemma AppendedNone(a: string)
    ensures Appended(a, a, "")
  {
    assert Pending(a, |a|) + "" == Pending(a, |a|);
  }

  lemma QuietSnoc(s: string, c: char, s': string, n: nat)
    requires n == |s| && s' == s + [c] && Quiet(FinalMode(s), c)
    ensures Pending(s', n + 1) == Pending(s, n) + Kept(FinalMode(s), c) && Pieces(s', n + 1) == Pieces(s, n)
  {
    PrefixState(s, s') by {
      assert s'[..n] == s;
    }
    assert s'[n] == c && ModeAt(s', n) == FinalMode(s);
    QuietByte(s', n);
  }

  lemma QuietFromMore(s: string, c: char, s': string, n: nat)
    requires n <= |s| && QuietFrom(s, n) && s' == s + [c] && Quiet(FinalMode(s), c)
    ensures QuietFrom(s', n)
  {
    forall p: nat | n <= p < |s'| ensures Quiet(ModeAt(s', p), s'[p]) {
      assert s'[..p] == s[..p];
      SameMode(s, s', p);
    }
  }

  lemma AppendedMore(a: string, s: string, t: string, c: char, s': string, t': string)
    requires Appended(a, s, t) && s' == s + [c] && Quiet(FinalMode(s), c) && t' == t + Kept(FinalMode(s), c)
    ensures Appended(a, s', t')
  {
    QuietFromMore(s, c, s', |a|);
    QuietSnoc(s, c, s', |s|);
    assert s'[..|a|] == s[..|a|];
    Associative(Pending(a, |a|), t, Kept(FinalMode(s), c));
  }

  lemma AppendedByte(a: string, s: string, t: string, c: char)
    requires Appended(a, s, t) && Quiet(FinalMode(s), c) && Kept(FinalMode(s), c) == [c]
    ensures Appended(a, s + [c], t + [c])
  {
    AppendedMore(a, s, t, c, s + [c], t + [c]);
  }

  lemma AppendedBackslash(a: string, s: string, t: string)
    requires Appended(a, s, t) && FinalMode(s) in {Unquoted, Double}
    ensures Appended(a, s + ['\\'], t)
  {
    assert t + "" == t;
    AppendedMore(a, s, t, '\\', s + ['\\'], t);
  }

  /** So the command is accepted or refused for what came before. */
  lemma AppendedHarmless(a: string, s: string, t: string, c: char)
    requires Appended(a, s, t) && |a| < |s| && s[|a|] == c && c !in {'(', '&', '1'}
    ensures Harmless(s) <==> Harmless(a)
  {
    forall p: nat | |a| <= p < |s| ensures !Dangerous(s, p) {
      QuietByte(s, p);
    }
    assert s == a + s[|a|..];
    HarmlessOn(a, s[|a|..], s);
  }

  lemma AppendedAccepted(a: string, s: string, t: string, c: char)
    requires Appended(a, s, t) && |a| < |s| && s[|a|] == c && c !in {'(', '&', '1'}
    requires FinalMode(a) == FinalMode(s) == Unquoted
    ensures Accepted(s) <==> Accepted(a)
  {
    AppendedHarmless(a, s, t, c);
  }

  /** Nothing in `x` means anything between these quotes. */
  predicate Quotable(q: char, x: string) {
    q in {'\'', '"'} && q !in x && (q == '"' ==> '\\' !in x && '`' !in x && '$' !in x)
  }

  function Between(q: char): Mode {
    if q == '"' then Double else Single
  }

  lemma QuotableLast(q: char, x: string, n: nat)
    requires Quotable(q, x) && |x| == n + 1
    ensures Quotable(q, x[..n]) && Quiet(Between(q), x[n]) && Kept(Between(q), x[n]) == [x[n]]
  {
    assert x[n] in x;
  }

  lemma {:induction false} OpenedAppended(a: string, q: char, x: string)
    requires FinalMode(a) == Unquoted && Quotable(q, x)
    ensures Appended(a, a + [q] + x, [q] + x)
  {
    if x == "" {
      AppendedNone(a);
      AppendedByte(a, a, "", q);
      assert a + [q] + x == a + [q] && [q] + x == "" + [q];
    } else {
      var n := |x| - 1;
      QuotableLast(q, x, n);
      OpenedAppended(a, q, x[..n]);
      Opened(a, q, x[..n]);
      OpenedMore(a, q, x, n, a + [q] + x[..n], [q] + x[..n]);
    }
  }

  lemma OpenedMore(a: string, q: char, x: string, n: nat, s: string, t: string)
    requires |x| == n + 1 && s == a + [q] + x[..n] && t == [q] + x[..n]
    requires Appended(a, s, t) && Quiet(FinalMode(s), x[n]) && Kept(FinalMode(s), x[n]) == [x[n]]
    ensures Appended(a, a + [q] + x, [q] + x)
  {
    AppendedByte(a, s, t, x[n]);
    assert a + [q] + x == s + [x[n]] && [q] + x == t + [x[n]];
  }

  lemma QuotationAppended(a: string, q: char, x: string, s: string, t: string)
    requires FinalMode(a) == Unquoted && Quotable(q, x)
    requires t == [q] + x + [q] && s == a + [q] + x + [q]
    ensures Appended(a, s, t) && FinalMode(s) == Unquoted
  {
    OpenedAppended(a, q, x);
    Opened(a, q, x);
    Closed(a, q, x);
    AppendedByte(a, a + [q] + x, [q] + x, q);
  }

  /** A quotation without expansions is accepted whatever it says, and stays in its segment, quotes included. */
  lemma QuotationKept(a: string, q: char, x: string, s: string, t: string)
    requires FinalMode(a) == Unquoted && q in {'\'', '"'} && q !in x
    requires q == '"' ==> '\\' !in x && '`' !in x && '$' !in x
    requires t == [q] + x + [q] && s == a + [q] + x + [q]
    ensures Accepted(s) <==> Accepted(a)
    ensures Pending(s, |s|) == Pending(a, |a|) + t && Pieces(s, |s|) == Pieces(a, |a|)
  {
    QuotationAppended(a, q, x, s, t);
    AppendedAccepted(a, s, t, q) by {
      assert s[|a|] == q;
    }
  }

  /** On its own it is the one segment of a command. */
  lemma QuotationAlone(q: char, x: string, t: string)
    requires q in {'\'', '"'} && q !in x && t == [q] + x + [q]
    requires q == '"' ==> '\\' !in x && '`' !in x && '$' !in x
    ensures Accepted(t) && Segments(t) == [t]
  {
    assert "" + [q] + x + [q] == t;
    NothingBefore();
    QuotationKept("", q, x, t, t);
    assert Pending("", 0) + t == t;
    TrimTight(t);
    WholeSegment(t, t);
  }

  /** A backslash makes any byte an ordinary one, outside single quotes: it is kept, and the backslash is not. */
  lemma EscapeKept(a: string, c: char, s: string)
    requires FinalMode(a) in {Unquoted, Double} && s == a + ['\\'] + [c]
    ensures FinalMode(s) == FinalMode(a) && (Harmless(s) <==> Harmless(a))
    ensures Pending(s, |s|) == Pending(a, |a|) + [c] && Pieces(s, |s|) == Pieces(a, |a|)
  {
    Escaped(a, c);
    EscapeAppended(a, c, s);
    AppendedHarmless(a, s, [c], '\\') by {
      assert s[|a|] == '\\';
    }
  }

  lemma EscapeAppended(a: string, c: char, s: string)
    requires FinalMode(a) in {Unquoted, Double} && s == a + ['\\'] + [c]
    ensures Appended(a, s, [c])
  {
    AppendedNone(a);
    AppendedBackslash(a, a, "");
    FinalSnoc(a, '\\');
    AppendedByte(a, a + ['\\'], "", c);
    assert "" + [c] == [c];
  }

  /** `2>&1` is taken out of the command, which is otherwise split and judged as before. */
  lemma DuplicationKept(a: string, s: string)
    requires FinalMode(a) == Unquoted && s == a + "2>&1"
    ensures Accepted(s) <==> Accepted(a)
    ensures Segments(s) == Segments(a) && FinalMode(s) == Unquoted
  {
    var o, i := a + "2", |a| + 1;
    AppendedNone(a);
    FinalSnoc(a, '2');
    assert s[..i] == o;
    AppendedByte(a, a, "", '2');
    PrefixState(o, s);
    assert s[i] == '>' && s[i + 1] == '&' && s[i + 2] == '1' && |s| == i + 3;
    assert EndsIn(Pending(s, i), '2');
    DuplicationEnds(a, s, i);
    DuplicationHarmless(a, o, s);
  }

  lemma DuplicationEnds(a: string, s: string, i: nat)
    requires Bare(s, i, '>') && i + 3 == |s| && s[i + 1] == '&' && s[i + 2] == '1'
    requires Pending(s, i) == Pending(a, |a|) + "2" && Pieces(s, i) == Pieces(a, |a|)
    ensures FinalMode(s) == Unquoted && Segments(s) == Segments(a) && Clean(s, i, |s|)
  {
    var t := Pending(a, |a|);
    assert EndsIn(t + "2", '2') && (t + "2")[..|t + "2"| - 1] == t;
    DupConsumed(s, i);
    SegmentsOf(s, Pieces(a, |a|) + [t]);
  }

  lemma DuplicationHarmless(a: string, o: string, s: string)
    requires Appended(a, o, "2") && o == a + "2" && |o| <= |s| && s[..|o|] == o && Clean(s, |o|, |s|)
    ensures Harmless(s) <==> Harmless(a)
  {
    var x := s[|a|..];
    assert s == a + x && s[|a|] == o[|a|] == '2';
    PrefixState(o, s);
    assert Quiet(ModeAt(o, |a|), o[|a|]);
    assert s[..|a|] == o[..|a|];
    SameMode(o, s, |a|);
    QuietByte(s, |a|);
    HarmlessOn(a, x, s);
  }

  // ---------------------------------------------------------------- the verdict

  /** The empty command is not read-only, nor is one with a segment that does not tokenise or sets a variable first. */
  lemma VerdictRefused(cmd: string, allowed: seq<string> -> bool)
    ensures !ReadOnly("", allowed)
    ensures (exists seg :: seg in Segments(cmd) && FinalMode(seg) != Unquoted) ==> !ReadOnly(cmd, allowed)
    ensures (exists seg :: seg in Segments(cmd) && Words(seg) != [] && IsVarAssignment(Words(seg)[0])) ==> !ReadOnly(cmd, allowed)
    ensures (exists seg :: seg in Segments(cmd) && Words(seg) != [] && !allowed(Words(seg))) ==> !ReadOnly(cmd, allowed)
  {
  }

  /** There are such commands: an escaped quote is accepted, and its segment is an open quotation. */
  lemma EscapedQuoteRefused(cmd: string, allowed: seq<string> -> bool)
    requires cmd == ['\\'] + ['"']
    ensures Accepted(cmd) && Segments(cmd) == ["\""] && !ReadOnly(cmd, allowed)
  {
    NothingBefore();
    assert "" + ['\\'] + ['"'] == cmd;
    EscapeKept("", '"', cmd);
    assert Pending("", 0) + ['"'] == "\"";
    TrimTight("\"");
    WholeSegment(cmd, "\"");
    assert FinalMode("\"") == Double;
    VerdictRefused(cmd, allowed);
  }
}
