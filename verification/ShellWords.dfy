/** The tokeniser that turns one segment into its words, and what quoting means for it. */
module ShellWords {
  import opened ShellLexer

  /** The quoting mode, the word being read, and the words finished. */
  datatype Scan = Scan(mode: Mode, word: string, words: seq<string>)

  const START := Scan(Unquoted, "", [])

  predicate Gap(c: char) {
    c in {' ', '\t', '\r', '\n'}
  }

  /** A byte that only changes the quoting mode. */
  predicate Syntax(m: Mode, c: char) {
    match m
    case Unquoted => c == '\'' || c == '"' || c == '\\'
    case Single => c == '\''
    case Double => c == '"' || c == '\\'
    case _ => false
  }

  function Finished(words: seq<string>, word: string): seq<string> {
    if word == "" then words else words + [word]
  }

  function Feed(st: Scan, c: char): Scan {
    if st.mode == Unquoted && Gap(c) then Scan(Unquoted, "", Finished(st.words, st.word))
    else Scan(After(st.mode, c), if Syntax(st.mode, c) then st.word else st.word + [c], st.words)
  }

  function Read(st: Scan, s: string): Scan {
    if s == [] then st else Feed(Read(st, s[..|s| - 1]), s[|s| - 1])
  }

  /** The words of a segment, read to its end. */
  function Words(s: string): seq<string> {
    Finished(Read(START, s).words, Read(START, s).word)
  }

  lemma {:induction false} SameMode(s: string, t: string, p: nat)
    requires p <= |s| && p <= |t| && s[..p] == t[..p]
    ensures ModeAt(s, p) == ModeAt(t, p)
  {
    if p > 0 {
      assert s[..p - 1] == s[..p][..p - 1] == t[..p - 1];
      assert s[p - 1] == s[..p][p - 1] == t[p - 1];
      SameMode(s, t, p - 1);
    }
  }

  /** After a prefix that ends unquoted, the rest is read as if it stood alone. */
  lemma {:induction false} ConcatMode(a: string, b: string, q: nat)
    requires FinalMode(a) == Unquoted && q <= |b|
    ensures ModeAt(a + b, |a| + q) == ModeAt(b, q)
  {
    if q == 0 {
      assert (a + b)[..|a|] == a == a[..|a|];
      SameMode(a + b, a, |a|);
    } else {
      ConcatMode(a, b, q - 1);
    }
  }

  lemma {:induction false} ReadMode(s: string)
    ensures Read(START, s).mode == FinalMode(s)
  {
    if s != [] {
      ReadMode(s[..|s| - 1]);
      SameMode(s, s[..|s| - 1], |s| - 1);
    }
  }

  lemma {:induction false} ReadConcat(st: Scan, a: string, b: string)
    ensures Read(st, a + b) == Read(Read(st, a), b)
    decreases |b|
  {
    if b == [] {
      assert a + b == a;
    } else {
      assert (a + b)[..|a + b| - 1] == a + b[..|b| - 1];
      ReadConcat(st, a, b[..|b| - 1]);
    }
  }

  method ShellFields(seg: string) returns (fields: seq<string>, ok: bool)
    ensures ok <==> FinalMode(seg) == Unquoted
    ensures fields == if ok then Words(seg) else []
  {
    var state := Unquoted;
    fields := [];
    var current := "";
    var i := 0;
    while i < |seg|
      invariant i <= |seg| && Scan(state, current, fields) == Read(START, seg[..i])
    {
      var c := seg[i];
      assert seg[..i + 1][..i] == seg[..i];
      match state {
        case EscUnquoted =>
          current := current + [c];
          state := Unquoted;
        case EscDouble =>
          current := current + [c];
          state := Double;
        case Single =>
          if c == '\'' {
            state := Unquoted;
          } else {
            current := current + [c];
          }
        case Double =>
          if c == '"' {
            state := Unquoted;
          } else if c == '\\' {
            state := EscDouble;
          } else {
            current := current + [c];
          }
        case Unquoted =>
          if c == ' ' || c == '\t' || c == '\r' || c == '\n' {
            fields, current := Finished(fields, current), "";
          } else if c == '\'' {
            state := Single;
          } else if c == '"' {
            state := Double;
          } else if c == '\\' {
            state := EscUnquoted;
          } else {
            current := current + [c];
          }
      }
      i := i + 1;
    }
    assert seg[..|seg|] == seg;
    ReadMode(seg);
    if state != Unquoted {
      return [], false;
    }
    return Finished(fields, current), true;
  }

  // ---------------------------------------------------------------- quoting round trips

  /** The list joined by single spaces, each element rendered by `f`. */
  function Join(f: string -> string, xs: seq<string>): string {
    if xs == [] then ""
    else if |xs| == 1 then f(xs[0])
    else Join(f, xs[..|xs| - 1]) + " " + f(xs[|xs| - 1])
  }

  /** `x` between single quotes. */
  function Quote(x: string): string {
    "'" + x + "'"
  }

  /** `x` with a backslash before every byte. */
  function Escape(x: string): string {
    if x == [] then "" else Escape(x[..|x| - 1]) + ['\\', x[|x| - 1]]
  }

  function NonEmpty(xs: seq<string>): seq<string> {
    if xs == [] then []
    else NonEmpty(xs[..|xs| - 1]) + (if xs[|xs| - 1] == "" then [] else [xs[|xs| - 1]])
  }

  /** `f(x)` reads as the one word `x`. */
  ghost predicate Renders(f: string -> string, x: string) {
    forall words :: Read(Scan(Unquoted, "", words), f(x)) == Scan(Unquoted, x, words)
  }

  lemma {:induction false} ReadSingle(word: string, words: seq<string>, x: string)
    requires '\'' !in x
    ensures Read(Scan(Single, word, words), x) == Scan(Single, word + x, words)
  {
    if x == [] {
      assert word + x == word;
    } else {
      ReadSingle(word, words, x[..|x| - 1]);
      assert word + x[..|x| - 1] + [x[|x| - 1]] == word + x;
    }
  }

  lemma QuoteRenders(x: string)
    requires '\'' !in x
    ensures Renders(Quote, x)
  {
    forall words ensures Read(Scan(Unquoted, "", words), Quote(x)) == Scan(Unquoted, x, words) {
      assert Quote(x)[..|Quote(x)| - 1] == "'" + x;
      ReadConcat(Scan(Unquoted, "", words), "'", x);
      assert Read(Scan(Unquoted, "", words), "'") == Scan(Single, "", words) by { assert "'"[..0] == ""; }
      ReadSingle("", words, x);
      assert "" + x == x;
    }
  }

  lemma ReadTwo(st: Scan, a: char, b: char)
    ensures Read(st, [a, b]) == Feed(Feed(st, a), b)
  {
    assert [a, b][..1] == [a] && [a][..0] == [];
    assert Read(st, [a]) == Feed(Read(st, []), a);
  }

  lemma {:induction false} ReadEscaped(words: seq<string>, x: string)
    ensures Read(Scan(Unquoted, "", words), Escape(x)) == Scan(Unquoted, x, words)
  {
    if x != [] {
      var st, c := Scan(Unquoted, "", words), x[|x| - 1];
      ReadEscaped(words, x[..|x| - 1]);
      ReadConcat(st, Escape(x[..|x| - 1]), ['\\', c]);
      ReadTwo(Scan(Unquoted, x[..|x| - 1], words), '\\', c);
      assert x[..|x| - 1] + [c] == x;
    }
  }

  lemma {:induction false} ReadJoined(f: string -> string, xs: seq<string>)
    requires xs != [] && forall x | x in xs :: Renders(f, x)
    ensures Read(START, Join(f, xs)) == Scan(Unquoted, xs[|xs| - 1], NonEmpty(xs[..|xs| - 1]))
  {
    var last := xs[|xs| - 1];
    assert Renders(f, last);
    if |xs| == 1 {
      assert xs[..0] == [];
    } else {
      var init := xs[..|xs| - 1];
      ReadJoined(f, init);
      ReadConcat(START, Join(f, init) + " ", f(last));
      ReadConcat(START, Join(f, init), " ");
      assert " "[..0] == "";
      assert Read(START, Join(f, init) + " ") == Scan(Unquoted, "", NonEmpty(init));
    }
  }

  /** Single quotes are undone by the tokeniser, except that empty words vanish. */
  lemma UnquoteQuote(xs: seq<string>)
    requires forall x | x in xs :: '\'' !in x
    ensures FinalMode(Join(Quote, xs)) == Unquoted
    ensures Words(Join(Quote, xs)) == NonEmpty(xs)
  {
    ReadMode(Join(Quote, xs));
    if xs != [] {
      forall x | x in xs ensures Renders(Quote, x) {
        QuoteRenders(x);
      }
      ReadJoined(Quote, xs);
    }
  }

  /** A backslash before every byte is undone too, whatever the bytes. */
  lemma UnescapeEscape(xs: seq<string>)
    ensures FinalMode(Join(Escape, xs)) == Unquoted
    ensures Words(Join(Escape, xs)) == NonEmpty(xs)
  {
    ReadMode(Join(Escape, xs));
    if xs != [] {
      forall x | x in xs ensures Renders(Escape, x) {
        forall words ensures Read(Scan(Unquoted, "", words), Escape(x)) == Scan(Unquoted, x, words) {
          ReadEscaped(words, x);
        }
      }
      ReadJoined(Escape, xs);
    }
  }

  /** So both return the original list exactly when it has no empty word. */
  lemma {:induction false} NonEmptyExact(xs: seq<string>)
    ensures NonEmpty(xs) == xs <==> "" !in xs
    ensures |NonEmpty(xs)| <= |xs|
  {
    if xs != [] {
      NonEmptyExact(xs[..|xs| - 1]);
      assert xs == xs[..|xs| - 1] + [xs[|xs| - 1]];
    }
  }

  // ---------------------------------------------------------------- blanks, quotes and other bytes

  /** Words stand apart where an unquoted blank does, and are the words of the two sides. */
  lemma WordsApart(a: string, gap: char, b: string)
    requires FinalMode(a) == Unquoted && gap in {' ', '\t', '\r', '\n'}
    ensures Words(a + [gap] + b) == Words(a) + Words(b)
    ensures FinalMode(a + [gap] + b) == FinalMode(b)
  {
    ReadMode(a);
    ReadConcat(START, a + [gap], b);
    assert (a + [gap])[..|a|] == a;
    ReadBehind(Words(a), b);
    ReadMode(a + [gap]);
    ReadMode(a + [gap] + b);
    ReadMode(b);
  }

  /** Finished words in front change nothing for what is read behind them. */
  lemma {:induction false} ReadBehind(words: seq<string>, b: string)
    ensures var alone := Read(START, b);
      Read(Scan(Unquoted, "", words), b) == Scan(alone.mode, alone.word, words + alone.words)
    ensures var behind := Read(Scan(Unquoted, "", words), b);
      Finished(behind.words, behind.word) == words + Words(b)
  {
    if b == "" {
      assert words + [] == words;
    } else {
      ReadBehind(words, b[..|b| - 1]);
      FinishedBehind(words, Read(START, b[..|b| - 1]).words, Read(START, b[..|b| - 1]).word);
    }
    FinishedBehind(words, Read(START, b).words, Read(START, b).word);
  }

  lemma FinishedBehind(words: seq<string>, more: seq<string>, word: string)
    ensures Finished(words + more, word) == words + Finished(more, word)
  {
    assert words + more + [word] == words + (more + [word]);
  }

  predicate Ordinary(c: char) {
    c != ' ' && c != '\t' && c != '\r' && c != '\n' && c != '\'' && c != '"' && c != '\\'
  }

  lemma {:induction false} ReadOrdinary(x: string)
    requires forall i | 0 <= i < |x| :: Ordinary(x[i])
    ensures Read(START, x) == Scan(Unquoted, x, [])
  {
    if x != "" {
      var n := |x| - 1;
      ReadOrdinary(x[..n]);
      assert Ordinary(x[n]) && x == x[..n] + [x[n]];
    }
  }

  /** Bytes other than blanks, quotes and backslashes make one word. */
  lemma OrdinaryWord(x: string)
    requires x != ""
    requires forall c | c in x :: c != ' ' && c != '\t' && c != '\r' && c != '\n' && c != '\'' && c != '"' && c != '\\'
    ensures Words(x) == [x] && FinalMode(x) == Unquoted
  {
    forall i | 0 <= i < |x| ensures Ordinary(x[i]) {
      assert x[i] in x;
    }
    ReadOrdinary(x);
    ReadMode(x);
  }

  /** `x` between double quotes, with a backslash before every quote and backslash. */
  function DoubleQuote(x: string): string {
    "\"" + Shielded(x) + "\""
  }

  function Shielded(x: string): string {
    if x == [] then ""
    else
      var c := x[|x| - 1];
      Shielded(x[..|x| - 1]) + (if c == '"' || c == '\\' then ['\\', c] else [c])
  }

  lemma {:induction false} ReadShielded(word: string, words: seq<string>, x: string)
    ensures Read(Scan(Double, word, words), Shielded(x)) == Scan(Double, word + x, words)
  {
    if x == [] {
      assert word + x == word;
    } else {
      var st, c, rest := Scan(Double, word, words), x[|x| - 1], Shielded(x[..|x| - 1]);
      ReadShielded(word, words, x[..|x| - 1]);
      assert word + x[..|x| - 1] + [c] == word + x;
      if c == '"' || c == '\\' {
        ReadConcat(st, rest, ['\\', c]);
        ReadTwo(Scan(Double, word + x[..|x| - 1], words), '\\', c);
      } else {
        assert (rest + [c])[..|rest|] == rest;
      }
    }
  }

  lemma DoubleRenders(x: string)
    ensures Renders(DoubleQuote, x)
  {
    forall words ensures Read(Scan(Unquoted, "", words), DoubleQuote(x)) == Scan(Unquoted, x, words) {
      assert DoubleQuote(x)[..|DoubleQuote(x)| - 1] == "\"" + Shielded(x);
      ReadConcat(Scan(Unquoted, "", words), "\"", Shielded(x));
      assert Read(Scan(Unquoted, "", words), "\"") == Scan(Double, "", words) by { assert "\""[..0] == ""; }
      ReadShielded("", words, x);
      assert "" + x == x;
    }
  }

  /** Double quotes are undone as well, whatever the bytes. */
  lemma UnquoteDouble(xs: seq<string>)
    ensures FinalMode(Join(DoubleQuote, xs)) == Unquoted
    ensures Words(Join(DoubleQuote, xs)) == NonEmpty(xs)
  {
    ReadMode(Join(DoubleQuote, xs));
    if xs != [] {
      forall x | x in xs ensures Renders(DoubleQuote, x) {
        DoubleRenders(x);
      }
      ReadJoined(DoubleQuote, xs);
    }
  }

  /** The list without its empty words, by what is in it and in which order. */
  lemma {:induction false} NonEmptyParts(xs: seq<string>, ys: seq<string>, x: string)
    ensures NonEmpty(xs + [x] + ys) == NonEmpty(xs) + (if x == "" then [] else [x]) + NonEmpty(ys)
  {
    var all := xs + [x] + ys;
    if ys == [] {
      assert all == xs + [x] && all[..|xs|] == xs;
    } else {
      var n := |ys| - 1;
      NonEmptyParts(xs, ys[..n], x);
      assert all[..|all| - 1] == xs + [x] + ys[..n] && all[|all| - 1] == ys[n];
      var last := if ys[n] == "" then [] else [ys[n]];
      assert NonEmpty(all) == NonEmpty(xs) + (if x == "" then [] else [x]) + NonEmpty(ys[..n]) + last;
    }
  }
}
