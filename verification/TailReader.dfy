/** Reading the last lines of a transcript backward in chunks, and what it finds there. */
module TailReader {
  import opened Dispatches
  import opened LineScanner

  // ---------------------------------------------------------------- lines of a text

  /** Every `\r\n` becomes `\n`, left to right. */
  function Normalise(s: string): string {
    if s == [] then []
    else if |s| >= 2 && s[0] == '\r' && s[1] == '\n' then ['\n'] + Normalise(s[2..])
    else [s[0]] + Normalise(s[1..])
  }

  function Lines(s: string): seq<string> {
    Closed(Split(Normalise(s)))
  }

  function LastN<T>(xs: seq<T>, n: nat): seq<T> {
    if |xs| > n then xs[|xs| - n..] else xs
  }

  function Newlines(s: string): nat {
    if s == [] then 0 else (if s[0] == '\n' then 1 else 0) + Newlines(s[1..])
  }

  /** The lines no longer than `cap`. */
  function Short(xs: seq<string>, cap: nat): seq<string> {
    if xs == [] then []
    else Short(xs[..|xs| - 1], cap) + (if |xs[|xs| - 1]| > cap then [] else [xs[|xs| - 1]])
  }

  /** Which lines those are: each is kept or not for itself, in place. */
  lemma {:induction false} ShortParts(xs: seq<string>, x: string, ys: seq<string>, cap: nat)
    ensures Short(xs + [x] + ys, cap) == Short(xs, cap) + (if |x| <= cap then [x] else []) + Short(ys, cap)
  {
    var all := xs + [x] + ys;
    if ys == [] {
      assert all == xs + [x] && all[..|xs|] == xs;
    } else {
      var n := |ys| - 1;
      ShortParts(xs, x, ys[..n], cap);
      assert all[..|all| - 1] == xs + [x] + ys[..n] && all[|all| - 1] == ys[n];
      var last := if |ys[n]| <= cap then [ys[n]] else [];
      assert Short(all, cap) == Short(xs, cap) + (if |x| <= cap then [x] else []) + Short(ys[..n], cap) + last;
    }
  }

  predicate IsSuffix(a: string, b: string) {
    |a| <= |b| && b[|b| - |a|..] == a
  }

  // ---------------------------------------------------------------- reading from an offset

  lemma {:induction false} NewlinesConcat(a: string, b: string)
    ensures Newlines(a + b) == Newlines(a) + Newlines(b)
  {
    if a == [] {
      assert a + b == b;
    } else {
      assert (a + b)[1..] == a[1..] + b;
      NewlinesConcat(a[1..], b);
    }
  }

  lemma {:induction false} NormaliseKeepsNewlines(s: string)
    ensures Newlines(Normalise(s)) == Newlines(s)
    decreases |s|
  {
    if |s| >= 2 && s[0] == '\r' && s[1] == '\n' {
      NormaliseKeepsNewlines(s[2..]);
      assert s[1..][1..] == s[2..];
      assert (['\n'] + Normalise(s[2..]))[1..] == Normalise(s[2..]);
    } else if s != [] {
      NormaliseKeepsNewlines(s[1..]);
      assert ([s[0]] + Normalise(s[1..]))[1..] == Normalise(s[1..]);
    }
  }

  lemma {:induction false} SplitCount(s: string)
    ensures |Split(s)| == Newlines(s) + 1
  {
    if s != [] {
      SplitCount(s[1..]);
    }
  }

  lemma {:induction false} SplitLast(s: string)
    ensures Split(s)[|Split(s)| - 1] == "" <==> s == "" || s[|s| - 1] == '\n'
  {
    if s != [] {
      SplitLast(s[1..]);
    }
  }

  lemma {:induction false} NormaliseLast(s: string)
    requires s != ""
    ensures Normalise(s) != "" && (Normalise(s)[|Normalise(s)| - 1] == '\n' <==> s[|s| - 1] == '\n')
    decreases |s|
  {
    if |s| >= 2 && s[0] == '\r' && s[1] == '\n' {
      if s[2..] != [] {
        NormaliseLast(s[2..]);
      }
    } else if |s| > 1 {
      NormaliseLast(s[1..]);
    }
  }

  /** The text before `u`, without a carriage return whose line feed `u` starts with. */
  function Before(pre: string, u: string): string {
    if pre != "" && pre[|pre| - 1] == '\r' && u != "" && u[0] == '\n' then pre[..|pre| - 1] else pre
  }

  /** A text read from the middle normalises to a suffix of the whole, even between a CR and its LF. */
  lemma {:induction false} NormaliseSuffix(pre: string, u: string)
    ensures Normalise(pre + u) == Normalise(Before(pre, u)) + Normalise(u)
    decreases |pre|
  {
    if pre == [] {
      assert pre + u == u;
    } else if pre == "\r" && u != "" && u[0] == '\n' {
      SplitCRNormalise(pre, u);
    } else if |pre| >= 2 && pre[0] == '\r' && pre[1] == '\n' {
      NormaliseSuffix(pre[2..], u);
      NormalisePair(pre, u);
    } else {
      NormaliseSuffix(pre[1..], u);
      NormaliseByte(pre, u);
    }
  }

  lemma Regroup(s: string, x: string, c: char, rest: string, more: string, b: string)
    requires s == [c] + rest && x == [c] + more && rest == more + b
    ensures s == x + b
  {
  }

  lemma CRLFFront(s: string, x: string, b: string)
    requires |s| >= 2 && s[0] == '\r' && s[1] == '\n' && |x| >= 2 && x[0] == '\r' && x[1] == '\n'
    requires Normalise(s[2..]) == Normalise(x[2..]) + b
    ensures Normalise(s) == Normalise(x) + b
  {
    var rest, more := Normalise(s[2..]), Normalise(x[2..]);
    Regroup(Normalise(s), Normalise(x), '\n', rest, more, b);
  }

  lemma ByteFront(s: string, x: string, b: string)
    requires s != "" && x != "" && s[0] == x[0]
    requires !(|x| >= 2 && x[0] == '\r' && x[1] == '\n') && !(|s| >= 2 && s[0] == '\r' && s[1] == '\n')
    requires Normalise(s[1..]) == Normalise(x[1..]) + b
    ensures Normalise(s) == Normalise(x) + b
  {
    var rest, more := Normalise(s[1..]), Normalise(x[1..]);
    Regroup(Normalise(s), Normalise(x), s[0], rest, more, b);
  }

  lemma NormalisePair(pre: string, u: string)
    requires |pre| >= 2 && pre[0] == '\r' && pre[1] == '\n'
    requires Normalise(pre[2..] + u) == Normalise(Before(pre[2..], u)) + Normalise(u)
    ensures Normalise(pre + u) == Normalise(Before(pre, u)) + Normalise(u)
  {
    BeforePair(pre, u);
    CRLFFront(pre + u, Before(pre, u), Normalise(u));
  }

  lemma NormaliseByte(pre: string, u: string)
    requires pre != "" && !(|pre| >= 2 && pre[0] == '\r' && pre[1] == '\n') && !(pre == "\r" && u != "" && u[0] == '\n')
    requires Normalise(pre[1..] + u) == Normalise(Before(pre[1..], u)) + Normalise(u)
    ensures Normalise(pre + u) == Normalise(Before(pre, u)) + Normalise(u)
  {
    BeforeByte(pre, u);
    ByteFront(pre + u, Before(pre, u), Normalise(u));
  }

  lemma BeforePair(pre: string, u: string)
    requires |pre| >= 2 && pre[0] == '\r' && pre[1] == '\n'
    ensures var s, x := pre + u, Before(pre, u);
      && |s| >= 2 && s[0] == '\r' && s[1] == '\n' && s[2..] == pre[2..] + u
      && |x| >= 2 && x[0] == '\r' && x[1] == '\n' && x[2..] == Before(pre[2..], u)
  {
  }

  lemma BeforeByte(pre: string, u: string)
    requires pre != "" && !(|pre| >= 2 && pre[0] == '\r' && pre[1] == '\n') && !(pre == "\r" && u != "" && u[0] == '\n')
    ensures var s, x := pre + u, Before(pre, u);
      && x != "" && x[0] == s[0] == pre[0] && x[1..] == Before(pre[1..], u) && s[1..] == pre[1..] + u
      && !(|x| >= 2 && x[0] == '\r' && x[1] == '\n') && !(|s| >= 2 && s[0] == '\r' && s[1] == '\n')
  {
  }

  lemma SplitCRNormalise(pre: string, u: string)
    requires pre == "\r" && u != "" && u[0] == '\n'
    ensures Normalise(pre + u) == Normalise(Before(pre, u)) + Normalise(u)
  {
    var s := pre + u;
    assert s[2..] == u[1..] && Before(pre, u) == "";
    assert Normalise(u) == ['\n'] + Normalise(u[1..]);
  }

  /** Text put in front only adds whole pieces and lengthens the first. */
  ghost predicate Extends(whole: seq<string>, parts: seq<string>) {
    && parts != [] && |whole| >= |parts|
    && whole[|whole| - |parts| + 1..] == parts[1..]
    && IsSuffix(parts[0], whole[|whole| - |parts|])
  }

  lemma SuffixCons(c: char, a: string, b: string)
    requires IsSuffix(a, b)
    ensures IsSuffix(a, [c] + b)
  {
    assert ([c] + b)[|b| + 1 - |a|..] == b[|b| - |a|..];
  }

  lemma ExtendsConsed(c: char, whole: seq<string>, parts: seq<string>)
    requires Extends(whole, parts)
    ensures Extends(Consed(c, whole), parts)
  {
    if c == '\n' {
      ExtendsMore([""], whole, parts);
    } else if |whole| == |parts| {
      SuffixCons(c, parts[0], whole[0]);
      assert ([[c] + whole[0]] + whole[1..])[1..] == whole[1..];
    } else {
      ExtendsTailOf(whole, parts);
      ExtendsMore([[c] + whole[0]], whole[1..], parts);
    }
  }

  lemma ExtendsMore(before: seq<string>, whole: seq<string>, parts: seq<string>)
    requires Extends(whole, parts)
    ensures Extends(before + whole, parts)
  {
    var more := before + whole;
    assert more[|more| - |parts| + 1..] == whole[|whole| - |parts| + 1..];
  }

  lemma ExtendsTailOf(whole: seq<string>, parts: seq<string>)
    requires Extends(whole, parts) && |whole| > |parts|
    ensures Extends(whole[1..], parts)
  {
    var d := |whole| - |parts|;
    assert whole[1..][d..] == whole[d + 1..] && whole[1..][d - 1] == whole[d];
  }

  /** Nothing, or whole lines. */
  predicate EndsLine(q: string) {
    q == "" || q[|q| - 1] == '\n'
  }

  /** The first of `parts` is a whole piece of `whole`. */
  predicate FirstWhole(whole: seq<string>, parts: seq<string>)
    requires 0 < |parts| <= |whole|
  {
    whole[|whole| - |parts|] == parts[0]
  }

  /** The pieces of `q + t` against those of `t`. */
  ghost predicate Fronted(q: string, whole: seq<string>, parts: seq<string>) {
    && Extends(whole, parts) && (FirstWhole(whole, parts) <==> EndsLine(q))
    && (|whole| == |parts| && q != "" ==> q[|q| - 1] != '\n')
    && (q == "" ==> whole == parts)
  }

  lemma FrontedMore(c: char, rest: string, whole: seq<string>, parts: seq<string>)
    requires Fronted(rest, whole, parts)
    ensures Fronted([c] + rest, Consed(c, whole), parts)
  {
    ExtendsConsed(c, whole, parts);
    FirstOfConsed(c, whole, parts);
    var q := [c] + rest;
    assert rest == "" ==> q[|q| - 1] == c;
    assert rest != "" ==> q[|q| - 1] == rest[|rest| - 1];
  }

  /** The first piece is untouched exactly if the text in front is empty or ends a line. */
  lemma {:induction false} SplitFronted(q: string, t: string)
    ensures Fronted(q, Split(q + t), Split(t))
  {
    if q == [] {
      assert q + t == t;
    } else {
      var c, rest := q[0], q[1..];
      SplitFronted(rest, t);
      FrontedMore(c, rest, Split(rest + t), Split(t));
      SplitHead(c, rest + t);
      HeadApart(q, t);
    }
  }

  lemma HeadApart(q: string, t: string)
    requires q != ""
    ensures q == [q[0]] + q[1..] && q + t == [q[0]] + (q[1..] + t)
  {
  }

  lemma SplitHead(c: char, rest: string)
    ensures Split([c] + rest) == Consed(c, Split(rest))
  {
    assert ([c] + rest)[1..] == rest;
  }

  lemma FirstOfConsed(c: char, whole: seq<string>, parts: seq<string>)
    requires Extends(whole, parts)
    ensures var more := Consed(c, whole);
      && (|more| == |parts| <==> c != '\n' && |whole| == |parts|)
      && |more| >= |parts|
      && (more[|more| - |parts|] == parts[0] <==>
            if c != '\n' && |whole| == |parts| then false else whole[|whole| - |parts|] == parts[0])
  {
    if c != '\n' && |whole| == |parts| {
      assert |Consed(c, whole)[0]| == 1 + |whole[0]|;
    }
  }

  /** The lines read from offset `start` on, cut to the last `n`. */
  function Window(data: string, start: nat, n: nat): seq<string>
    requires start <= |data|
  {
    LastN(Lines(data[start..]), n)
  }

  /** The last `n` lines, except that the oldest may have lost its beginning. */
  ghost predicate IsTail(w: seq<string>, lines: seq<string>, n: nat) {
    && |w| == (if |lines| < n then |lines| else n)
    && (forall k | 1 <= k < |w| :: w[k] == lines[|lines| - |w| + k])
    && (w != [] ==> IsSuffix(w[0], lines[|lines| - |w|]))
  }

  lemma ExtendsClosed(whole: seq<string>, parts: seq<string>)
    requires Extends(whole, parts) && |parts| >= 2
    ensures Extends(Closed(whole), Closed(parts)) && |Closed(parts)| == |parts| - |whole| + |Closed(whole)|
  {
    assert whole[|whole| - 1] == parts[|parts| - 1] by {
      assert whole[|whole| - |parts| + 1..][|parts| - 2] == parts[1..][|parts| - 2];
    }
    if parts[|parts| - 1] == "" {
      var w, p := Closed(whole), Closed(parts);
      assert w[|w| - |p| + 1..] == whole[|whole| - |parts| + 1..][..|parts| - 2];
      assert p[1..] == parts[1..][..|parts| - 2];
    }
  }

  lemma LastNAt<T>(xs: seq<T>, n: nat)
    requires |xs| >= n
    ensures |LastN(xs, n)| == n && forall k | 0 <= k < n :: LastN(xs, n)[k] == xs[|xs| - n + k]
  {
  }

  lemma ExtendsTail(whole: seq<string>, parts: seq<string>, n: nat)
    requires Extends(whole, parts) && |parts| >= n
    ensures IsTail(LastN(parts, n), whole, n)
    ensures |parts| > n ==> LastN(parts, n) == LastN(whole, n)
  {
    if |parts| > n {
      ExtendsSame(whole, parts, n, LastN(parts, n), LastN(whole, n));
    } else {
      ExtendsExact(whole, parts, n);
    }
  }

  lemma ExtendsExact(whole: seq<string>, parts: seq<string>, n: nat)
    requires Extends(whole, parts) && |parts| == n
    ensures LastN(parts, n) == parts && IsTail(parts, whole, n)
  {
    ExtendsAt(whole, parts, |whole| - n);
  }

  lemma ExtendsSame(whole: seq<string>, parts: seq<string>, n: nat, w: seq<string>, v: seq<string>)
    requires Extends(whole, parts) && |parts| > n && w == LastN(parts, n) && v == LastN(whole, n)
    ensures w == v && IsTail(v, whole, n)
  {
    ExtendsAt(whole, parts, |whole| - |parts|);
    LastNAt(parts, n);
    LastNAt(whole, n);
    forall k | 0 <= k < n ensures w[k] == v[k] {
      var m := |parts| - n + k;
      assert parts[m] == whole[|whole| - |parts| + m];
    }
    assert v != [] ==> IsSuffix(v[0], whole[|whole| - n]);
  }

  lemma ExtendsAt(whole: seq<string>, parts: seq<string>, d: nat)
    requires Extends(whole, parts) && d == |whole| - |parts|
    ensures forall k | 1 <= k < |parts| :: parts[k] == whole[d + k]
  {
    forall k | 1 <= k < |parts| ensures parts[k] == whole[d + k] {
      assert parts[k] == parts[1..][k - 1] == whole[d + 1..][k - 1];
    }
  }

  /** No line reaches across `start`: it is at the beginning, behind a newline, or inside the CRLF of an empty line. */
  predicate AtLineStart(data: string, start: nat)
    requires start <= |data|
  {
    EndsLine(Before(data[..start], data[start..]))
  }

  lemma NoneLast<T>(xs: seq<T>)
    ensures LastN(xs, 0) == []
  {
  }

  lemma WindowWhole(data: string, n: nat)
    ensures IsTail(Window(data, 0, n), Lines(data), n) && Window(data, 0, n) == LastN(Lines(data), n)
    ensures data != "" ==> !CutsLine(data, 0, n)
  {
    assert data[0..] == data && data[..0] == "";
    WholeTail(Lines(data), n);
  }

  lemma WholeTail(lines: seq<string>, n: nat)
    ensures IsTail(LastN(lines, n), lines, n)
  {
  }

  lemma TailMissing(data: string, start: nat, n: nat)
    requires start <= |data|
    ensures var w, lines := Window(data, start, n), Lines(data);
      IsTail(w, lines, n) && w != [] ==> exists missing :: lines[|lines| - |w|] == missing + w[0]
  {
    var w, lines := Window(data, start, n), Lines(data);
    if IsTail(w, lines, n) && w != [] {
      var line := lines[|lines| - |w|];
      assert line == line[..|line| - |w[0]|] + w[0];
    }
  }

  /**
   * However far back the reading started, once it covers `n` newlines or the whole text the window is the
   * tail of the text's lines. It is exactly the last lines unless reading started inside a line, at exactly
   * `n` newlines of a text that ends in one: then the oldest line has lost its beginning.
   */
  lemma WindowIsTail(data: string, start: nat, n: nat)
    requires start <= |data| && data != "" && (start == 0 || Newlines(data[start..]) >= n)
    ensures IsTail(Window(data, start, n), Lines(data), n)
    ensures Window(data, start, n) == LastN(Lines(data), n) <==> !CutsLine(data, start, n)
  {
    if start == 0 {
      WindowWhole(data, n);
    } else if n == 0 {
      NoneLast(Lines(data[start..]));
      NoneLast(Lines(data));
    } else {
      WindowInside(data, start, n);
    }
  }

  /** Line by line: all but the oldest are whole, and something may be missing in front of that one. */
  lemma WindowLines(data: string, start: nat, n: nat)
    requires start <= |data| && data != "" && (start == 0 || Newlines(data[start..]) >= n)
    ensures var w, lines := Window(data, start, n), Lines(data);
      && |w| == (if |lines| < n then |lines| else n)
      && (forall k | 1 <= k < |w| :: w[k] == lines[|lines| - |w| + k])
      && (w != [] ==> exists missing :: lines[|lines| - |w|] == missing + w[0])
  {
    WindowIsTail(data, start, n);
    TailMissing(data, start, n);
  }

  /** The reading stopped with exactly the newlines it wanted, in the middle of the oldest line. */
  predicate CutsLine(data: string, start: nat, n: nat)
    requires start <= |data|
  {
    n > 0 && Newlines(data[start..]) == n && data[|data| - 1] == '\n' && !AtLineStart(data, start)
  }

  lemma PartsFrom(data: string, start: nat)
    requires start < |data|
    ensures var whole, parts := Split(Normalise(data)), Split(Normalise(data[start..]));
      && Extends(whole, parts) && |parts| == Newlines(data[start..]) + 1
      && (parts[|parts| - 1] == "" <==> data[|data| - 1] == '\n')
      && (whole[|whole| - |parts|] == parts[0] <==> AtLineStart(data, start))
  {
    var u := data[start..];
    var pre := Before(data[..start], u);
    assert data == data[..start] + u && u[|u| - 1] == data[|data| - 1];
    NormaliseSuffix(data[..start], u);
    NormaliseEnds(pre);
    PartsBehind(Normalise(pre), Normalise(u), pre);
    PartsOf(u);
  }

  lemma NormaliseEnds(q: string)
    ensures EndsLine(Normalise(q)) <==> EndsLine(q)
  {
    if q != "" {
      NormaliseLast(q);
    }
  }

  lemma PartsBehind(front: string, t: string, q: string)
    requires EndsLine(front) <==> EndsLine(q)
    ensures var whole, parts := Split(front + t), Split(t);
      Extends(whole, parts) && (FirstWhole(whole, parts) <==> EndsLine(q))
  {
    SplitFronted(front, t);
  }

  lemma PartsOf(u: string)
    requires u != ""
    ensures var parts := Split(Normalise(u));
      |parts| == Newlines(u) + 1 && (parts[|parts| - 1] == "" <==> u[|u| - 1] == '\n')
  {
    NormaliseKeepsNewlines(u);
    SplitCount(Normalise(u));
    NormaliseLast(u);
    SplitLast(Normalise(u));
  }

  lemma PartsTail(whole: seq<string>, parts: seq<string>, n: nat)
    requires Extends(whole, parts) && |parts| > n > 0
    ensures IsTail(LastN(Closed(parts), n), Closed(whole), n)
    ensures LastN(Closed(parts), n) == LastN(Closed(whole), n) <==>
      !(|parts| == n + 1 && parts[|parts| - 1] == "" && whole[|whole| - |parts|] != parts[0])
  {
    var w, p := Closed(whole), Closed(parts);
    ExtendsClosed(whole, parts);
    ExtendsTail(w, p, n);
    if |parts| == n + 1 && parts[|parts| - 1] == "" {
      FirstDecides(w, p);
      assert |p| == n && LastN(p, n) == p;
      assert w[|whole| - |parts|] == whole[|whole| - |parts|] && p[0] == parts[0];
    } else {
      assert |p| > n;
    }
  }

  /** Lines that extend others have them as their end exactly if the first is the same. */
  lemma FirstDecides(whole: seq<string>, parts: seq<string>)
    requires Extends(whole, parts)
    ensures parts == LastN(whole, |parts|) <==> whole[|whole| - |parts|] == parts[0]
  {
    var end := LastN(whole, |parts|);
    assert end == whole[|whole| - |parts|..];
    assert end[1..] == whole[|whole| - |parts| + 1..];
    assert parts == [parts[0]] + parts[1..] && end == [end[0]] + end[1..];
  }

  lemma WindowInside(data: string, start: nat, n: nat)
    requires 0 < start <= |data| && Newlines(data[start..]) >= n > 0
    ensures IsTail(Window(data, start, n), Lines(data), n)
    ensures Window(data, start, n) == LastN(Lines(data), n) <==> !CutsLine(data, start, n)
  {
    assert data[start..] != "";
    var whole, parts := Split(Normalise(data)), Split(Normalise(data[start..]));
    PartsFrom(data, start);
    PartsTail(whole, parts, n);
    assert Window(data, start, n) == LastN(Closed(parts), n) && Lines(data) == Closed(whole);
  }

  const CUT_LINE := "ab\n"

  /** Reading "ab\n" for one line, two bytes at a time, stops inside that line and returns half of it. */
  lemma CutLine()
    ensures Stop(CUT_LINE, 3, 1, 2) == 1 && CutsLine(CUT_LINE, 1, 1)
    ensures Window(CUT_LINE, 1, 1) == ["b"] && LastN(Lines(CUT_LINE), 1) == ["ab"]
  {
    var s := CUT_LINE;
    assert s[3..] == "" && s[1..] == "b\n" && s[..1] == "a";
    ShortNewlines();
    assert Before(s[..1], s[1..]) == "a";
    ShortLines();
  }

  lemma ShortNewlines()
    ensures Newlines("") == 0 && Newlines("b\n") == 1
  {
    assert "b\n"[1..] == "\n" && "\n"[1..] == "";
    assert Newlines("\n") == 1;
  }

  lemma ShortLines()
    ensures Lines("b\n") == ["b"] && Lines("ab\n") == ["ab"]
  {
    assert "ab\n"[1..] == "b\n" && "b\n"[1..] == "\n" && "\n"[1..] == "";
    assert Normalise("\n") == "\n" && Normalise("b\n") == "b\n" && Normalise("ab\n") == "ab\n";
    assert Split("") == [""] && Split("\n") == ["", ""];
    assert Split("b\n") == Consed('b', ["", ""]) && ['b'] + "" == "b";
    assert Split("ab\n") == Consed('a', ["b", ""]) && ['a'] + "b" == "ab";
    assert Closed(["b", ""]) == ["b"] && Closed(["ab", ""]) == ["ab"];
  }

  // ---------------------------------------------------------------- the backward reader

  /** The chunks in file order: they were collected latest first. */
  function Assembled(chunks: seq<string>): string {
    if chunks == [] then "" else chunks[|chunks| - 1] + Assembled(chunks[..|chunks| - 1])
  }

  lemma AssembledSnoc(chunks: seq<string>, c: string)
    ensures Assembled(chunks + [c]) == c + Assembled(chunks)
  {
    assert (chunks + [c])[..|chunks|] == chunks;
  }

  lemma SliceJoin(data: string, i: nat, j: nat)
    requires i <= j <= |data|
    ensures data[i..j] + data[j..] == data[i..]
  {
  }

  /** Where backward reading in chunks stops, from offset `remaining` on. */
  function Stop(data: string, remaining: nat, maxLines: nat, chunkSize: nat): (start: nat)
    requires remaining <= |data| && chunkSize > 0
    ensures start <= remaining && (start == 0 || Newlines(data[start..]) >= maxLines)
    decreases remaining
  {
    if remaining == 0 || Newlines(data[remaining..]) >= maxLines then remaining
    else Stop(data, if chunkSize < remaining then remaining - chunkSize else 0, maxLines, chunkSize)
  }

  /** The chunks are the data from an offset on, with so many newlines. */
  ghost predicate ReadFrom(data: string, start: nat, chunks: seq<string>, found: int)
    requires start <= |data|
  {
    Assembled(chunks) == data[start..] && found == Newlines(data[start..])
  }

  ghost predicate Sized(chunks: seq<string>, chunkSize: nat) {
    forall i | 0 <= i < |chunks| :: 0 < |chunks[i]| <= chunkSize
  }

  lemma SizedMore(chunks: seq<string>, chunk: string, chunkSize: nat)
    requires Sized(chunks, chunkSize) && 0 < |chunk| <= chunkSize
    ensures Sized(chunks + [chunk], chunkSize)
  {
  }

  lemma AddChunk(data: string, chunks: seq<string>, i: nat, j: nat, found: int)
    requires i <= j <= |data| && ReadFrom(data, j, chunks, found)
    ensures ReadFrom(data, i, chunks + [data[i..j]], found + Newlines(data[i..j]))
  {
    AssembledSnoc(chunks, data[i..j]);
    NewlinesConcat(data[i..j], data[j..]);
    SliceJoin(data, i, j);
  }

  /** One block, ending where the last one began. */
  method ReadChunk(data: string, remaining: nat, chunkSize: nat, ghost chunks: seq<string>, ghost found: int)
    returns (buf: string, offset: nat)
    requires 0 < remaining <= |data| && chunkSize > 0 && ReadFrom(data, remaining, chunks, found) && Sized(chunks, chunkSize)
    ensures offset == if chunkSize < remaining then remaining - chunkSize else 0
    ensures ReadFrom(data, offset, chunks + [buf], found + Newlines(buf)) && Sized(chunks + [buf], chunkSize)
  {
    var readSize := if chunkSize < remaining then chunkSize else remaining;
    offset := remaining - readSize;
    buf := data[offset..remaining];
    AddChunk(data, chunks, offset, remaining, found);
    SizedMore(chunks, buf, chunkSize);
  }

  /** Blocks of at most `chunkSize` from the end, until there are enough newlines or nothing is left. */
  method ReadBackward(data: string, maxLines: nat, chunkSize: nat) returns (chunks: seq<string>, start: nat)
    requires chunkSize > 0
    ensures start == Stop(data, |data|, maxLines, chunkSize) && start <= |data| && Assembled(chunks) == data[start..]
    ensures start == 0 || Newlines(data[start..]) >= maxLines
    ensures Sized(chunks, chunkSize)
  {
    var remaining := |data|;
    var linesFound := 0;
    chunks := [];
    while remaining > 0 && linesFound < maxLines
      invariant 0 <= remaining <= |data| && ReadFrom(data, remaining, chunks, linesFound)
      invariant Stop(data, |data|, maxLines, chunkSize) == Stop(data, remaining, maxLines, chunkSize)
      invariant Sized(chunks, chunkSize)
    {
      var buf;
      buf, remaining := ReadChunk(data, remaining, chunkSize, chunks, linesFound);
      linesFound := linesFound + Newlines(buf);
      chunks := chunks + [buf];
    }
    start := remaining;
  }

  /**
   * The last `maxLines` lines of `data`, read backward in chunks, without those over `maxLineBytes`. The window
   * is the tail of the lines, and exactly the last lines unless reading stopped in the middle of one.
   */
  method TailLines(data: string, maxLines: nat, chunkSize: nat, maxLineBytes: nat)
    returns (result: seq<string>)
    requires chunkSize > 0
    ensures result == Short(Window(data, Stop(data, |data|, maxLines, chunkSize), maxLines), maxLineBytes)
    ensures IsTail(Window(data, Stop(data, |data|, maxLines, chunkSize), maxLines), Lines(data), maxLines)
    ensures var start := Stop(data, |data|, maxLines, chunkSize);
      Window(data, start, maxLines) == LastN(Lines(data), maxLines) <==> data == "" || !CutsLine(data, start, maxLines)
  {
    if |data| == 0 {
      assert Lines(data) == [];
      return [];
    }
    var chunks, start := ReadBackward(data, maxLines, chunkSize);
    WindowIsTail(data, start, maxLines);
    var assembled := Assemble(chunks);
    var parts := CutLines(assembled, maxLines);
    result := DropLong(parts, maxLineBytes);
  }

  method Assemble(chunks: seq<string>) returns (assembled: string)
    ensures assembled == Assembled(chunks)
  {
    assembled := "";
    assert chunks[..|chunks|] == chunks;
    for i := |chunks| downto 0
      invariant assembled + Assembled(chunks[..i]) == Assembled(chunks)
    {
      assert chunks[..i + 1][..i] == chunks[..i];
      assert chunks[..i + 1][i] == chunks[i];
      ghost var before := assembled;
      assembled := assembled + chunks[i];
      assert before + (chunks[i] + Assembled(chunks[..i])) == assembled + Assembled(chunks[..i]);
    }
  }

  method CutLines(assembled: string, maxLines: nat) returns (parts: seq<string>)
    ensures parts == LastN(Lines(assembled), maxLines)
  {
    parts := Split(Normalise(assembled));
    if parts[|parts| - 1] == "" {
      parts := parts[..|parts| - 1];
    }
    if |parts| > maxLines {
      parts := parts[|parts| - maxLines..];
    }
  }

  method DropLong(parts: seq<string>, maxLineBytes: nat) returns (result: seq<string>)
    ensures result == Short(parts, maxLineBytes)
  {
    result := [];
    for i := 0 to |parts|
      invariant result == Short(parts[..i], maxLineBytes)
    {
      assert parts[..i + 1][..i] == parts[..i];
      if |parts[i]| <= maxLineBytes {
        result := result + [parts[i]];
      }
    }
    assert parts[..|parts|] == parts;
  }

  // ---------------------------------------------------------------- detection

  /** What the last line that `q` accepts says. */
  function Latest<T>(lines: seq<string>, q: string -> Option<T>): Option<T> {
    if lines == [] then None
    else if q(lines[|lines| - 1]).Some? then q(lines[|lines| - 1])
    else Latest(lines[..|lines| - 1], q)
  }

  /** Line `i` is the last that `q` accepts. */
  ghost predicate LastAt<T>(lines: seq<string>, q: string -> Option<T>, i: int) {
    0 <= i < |lines| && q(lines[i]).Some? && forall j | i < j < |lines| :: q(lines[j]).None?
  }

  /** `model` is what the last line that `q` accepts says, `None` if it accepts none. */
  ghost predicate LastOf<T>(lines: seq<string>, q: string -> Option<T>, model: Option<T>) {
    match model
    case None => forall i | 0 <= i < |lines| :: q(lines[i]).None?
    case Some(v) => exists i :: LastAt(lines, q, i) && q(lines[i]) == model
  }

  lemma {:induction false} LatestIs<T>(lines: seq<string>, q: string -> Option<T>, model: Option<T>)
    ensures model == Latest(lines, q) <==> LastOf(lines, q, model)
  {
    if lines != [] {
      var n := |lines| - 1;
      LatestIs(lines[..n], q, model);
      forall i | 0 <= i <= n ensures LastAt(lines, q, i) <==> if i == n then q(lines[n]).Some? else q(lines[n]).None? && LastAt(lines[..n], q, i) {
        LastAtMore(lines, q, i, n);
      }
      assert q(lines[n]).Some? ==> LastAt(lines, q, n);
      assert forall i | 0 <= i < n :: lines[..n][i] == lines[i];
    }
  }

  lemma LastAtMore<T>(lines: seq<string>, q: string -> Option<T>, i: nat, n: nat)
    requires |lines| == n + 1 && i <= n
    ensures LastAt(lines, q, i) <==> if i == n then q(lines[n]).Some? else q(lines[n]).None? && LastAt(lines[..n], q, i)
  {
    assert forall j | 0 <= j < n :: lines[..n][j] == lines[j];
  }

  method ScanTranscript<T>(data: string, q: string -> Option<T>, cap: nat) returns (last: Option<T>)
    ensures last == Latest(Scanned(RawLines(data), cap), q)
  {
    last := None;
    var raw := RawLines(data);
    ghost var seen: seq<string> := [];
    var i := 0;
    while i < |raw| && |raw[i]| < cap
      invariant i <= |raw| && last == Latest(seen, q)
      invariant seen + Scanned(raw[i..], cap) == Scanned(raw, cap)
    {
      var line := DropCR(raw[i]);
      assert raw[i..][1..] == raw[i + 1..];
      ghost var before := seen;
      seen := seen + [line];
      assert before + ([line] + Scanned(raw[i + 1..], cap)) == seen + Scanned(raw[i + 1..], cap);
      assert seen[..|before|] == before;
      if q(line).Some? {
        last := q(line);
      }
      i := i + 1;
    }
    assert seen + [] == seen;
  }

  /** The tail first, newest line first; the whole file only if nothing there qualifies. */
  method DetectModel<T>(data: string, q: string -> Option<T>, maxLines: nat, chunkSize: nat, maxLineBytes: nat)
    returns (model: Option<T>)
    requires chunkSize > 0
    ensures var tail := Latest(Short(Window(data, Stop(data, |data|, maxLines, chunkSize), maxLines), maxLineBytes), q);
      model == if tail.Some? then tail else Latest(Scanned(RawLines(data), maxLineBytes), q)
    // The answer for the whole file, when its lines fit the buffers and the test is discerning.
    ensures Discerning(q, Lines(data)) && (forall line | line in RawLines(data) :: |line| < maxLineBytes) ==>
      model == Latest(Lines(data), q)
    // It is what the last qualifying line says, and nothing exactly if no line qualifies.
    ensures Discerning(q, Lines(data)) && (forall line | line in RawLines(data) :: |line| < maxLineBytes) ==>
      (model.None? <==> forall i | 0 <= i < |Lines(data)| :: q(Lines(data)[i]).None?)
    ensures Discerning(q, Lines(data)) && (forall line | line in RawLines(data) :: |line| < maxLineBytes) && model.Some? ==>
      exists i | 0 <= i < |Lines(data)| ::
        q(Lines(data)[i]) == model && forall j | i < j < |Lines(data)| :: q(Lines(data)[j]).None?
  {
    LatestIs(Lines(data), q, Latest(Lines(data), q));
    ghost var start := Stop(data, |data|, maxLines, chunkSize);
    var tail := TailLines(data, maxLines, chunkSize, maxLineBytes);
    if Discerning(q, Lines(data)) && (forall line | line in RawLines(data) :: |line| < maxLineBytes) {
      DetectsLatest(data, q, start, maxLines, maxLineBytes);
    }
    model := NewestFirst(tail, q);
    if model.None? {
      model := ScanTranscript(data, q, maxLineBytes);
    }
  }

  method NewestFirst<T>(tail: seq<string>, q: string -> Option<T>) returns (model: Option<T>)
    ensures model == Latest(tail, q)
  {
    var i := |tail|;
    assert tail[..i] == tail;
    while i > 0
      invariant 0 <= i <= |tail| && Latest(tail, q) == Latest(tail[..i], q)
    {
      i := i - 1;
      assert tail[..i + 1][..i] == tail[..i];
      if q(tail[i]).Some? {
        return q(tail[i]);
      }
    }
    return None;
  }

  // ---------------------------------------------------------------- detection finds the last qualifying line

  /** The same pieces, each but the last without its carriage return. */
  ghost predicate Stripped(p: seq<string>, r: seq<string>) {
    && |p| == |r| && p != [] && p[|p| - 1] == r[|r| - 1]
    && forall i | 0 <= i < |p| - 1 :: p[i] == DropCR(r[i])
  }

  lemma StrippedPrepend(c: char, p: seq<string>, r: seq<string>)
    requires Stripped(p, r) && (c == '\r' && |r| > 1 ==> r[0] != "")
    ensures Stripped([[c] + p[0]] + p[1..], [[c] + r[0]] + r[1..])
  {
    if |p| > 1 {
      assert p[0] == DropCR(r[0]);
      assert [c] + p[0] == DropCR([c] + r[0]);
    }
  }

  /** One more piece in front, without its carriage return. */
  lemma StrippedMore(x: string, y: string, p: seq<string>, r: seq<string>)
    requires Stripped(p, r) && x == DropCR(y)
    ensures Stripped([x] + p, [y] + r)
  {
    var more, raw := [x] + p, [y] + r;
    forall i | 0 <= i < |more| - 1 ensures more[i] == DropCR(raw[i]) {
      if i > 0 {
        assert more[i] == p[i - 1] && raw[i] == r[i - 1];
      }
    }
  }

  /** Line by line, normalising first only drops the carriage return before each newline. */
  lemma {:induction false} SplitNormalise(s: string)
    ensures Stripped(Split(Normalise(s)), Split(s))
    decreases |s|
  {
    if s == [] {
    } else if |s| >= 2 && s[0] == '\r' && s[1] == '\n' {
      SplitNormalise(s[2..]);
      SplitCRLF(s[2..]);
      StrippedMore("", "\r", Split(Normalise(s[2..])), Split(s[2..]));
      assert s == ['\r', '\n'] + s[2..];
    } else {
      SplitNormalise(s[1..]);
      NormaliseHead(s);
      StrippedHead(s, Split(Normalise(s[1..])));
    }
  }

  lemma StrippedHead(s: string, p: seq<string>)
    requires s != "" && !(|s| >= 2 && s[0] == '\r' && s[1] == '\n') && Stripped(p, Split(s[1..]))
    ensures Stripped(Consed(s[0], p), Split(s))
  {
    FirstPart(s[1..]);
    SplitOne(s[1..]);
    StrippedConsed(s[0], p, Split(s[1..]));
  }

  lemma StrippedConsed(c: char, p: seq<string>, r: seq<string>)
    requires Stripped(p, r) && (c == '\r' && |r| > 1 ==> r[0] != "")
    ensures Stripped(Consed(c, p), Consed(c, r))
  {
    if c == '\n' {
      StrippedMore("", "", p, r);
    } else {
      StrippedPrepend(c, p, r);
    }
  }

  lemma SplitOne(s: string)
    ensures s == "" ==> |Split(s)| == 1
  {
  }

  lemma NormaliseHead(s: string)
    requires s != "" && !(|s| >= 2 && s[0] == '\r' && s[1] == '\n')
    ensures Split(Normalise(s)) == Consed(s[0], Split(Normalise(s[1..])))
  {
    assert ([s[0]] + Normalise(s[1..]))[1..] == Normalise(s[1..]);
  }

  lemma SplitCRLF(rest: string)
    ensures Split(['\r', '\n'] + rest) == ["\r"] + Split(rest)
    ensures Split(Normalise(['\r', '\n'] + rest)) == [""] + Split(Normalise(rest))
  {
    var s := ['\r', '\n'] + rest;
    assert s[2..] == rest && s[1..][1..] == rest;
    assert Split(s[1..]) == [""] + Split(rest);
    assert Split(s) == [['\r'] + Split(s[1..])[0]] + Split(s[1..])[1..];
    assert ['\r'] + "" == "\r" && ([""] + Split(rest))[1..] == Split(rest);
    assert (['\n'] + Normalise(rest))[1..] == Normalise(rest);
  }

  lemma FirstPart(s: string)
    ensures Split(s)[0] == "" <==> s == "" || s[0] == '\n'
  {
  }

  /** The tail reader's lines are the scanner's, up to a carriage return at the end of the file. */
  lemma LinesAreRaw(data: string)
    ensures |Lines(data)| == |RawLines(data)|
    ensures forall i | 0 <= i < |Lines(data)| :: Lines(data)[i] == RawLines(data)[i] || Lines(data)[i] == DropCR(RawLines(data)[i])
  {
    SplitNormalise(data);
  }

  lemma {:induction false} LatestSame<T>(xs: seq<string>, ys: seq<string>, q: string -> Option<T>)
    requires |xs| == |ys| && forall i | 0 <= i < |xs| :: q(xs[i]) == q(ys[i])
    ensures Latest(xs, q) == Latest(ys, q)
  {
    if xs != [] {
      LatestSame(xs[..|xs| - 1], ys[..|ys| - 1], q);
    }
  }

  lemma {:induction false} ShortAll(xs: seq<string>, cap: nat)
    requires forall i | 0 <= i < |xs| :: |xs[i]| <= cap
    ensures Short(xs, cap) == xs
  {
    if xs != [] {
      ShortAll(xs[..|xs| - 1], cap);
      assert xs == xs[..|xs| - 1] + [xs[|xs| - 1]];
    }
  }

  /** `w` is the end of `lines`, but its first entry may have lost its beginning. */
  ghost predicate EndOf(w: seq<string>, lines: seq<string>) {
    && |w| <= |lines|
    && (forall k | 1 <= k < |w| :: w[k] == lines[|lines| - |w| + k])
    && (w != [] ==> IsSuffix(w[0], lines[|lines| - |w|]))
  }

  /**
   * The end of a line never says anything but what the line says, and a trailing carriage return makes no
   * difference.
   */
  ghost predicate Discerning<T>(q: string -> Option<T>, lines: seq<string>) {
    && (forall line, part | line in lines && IsSuffix(part, line) :: q(part).None? || q(part) == q(line))
    && (forall line :: q(DropCR(line)) == q(line))
  }

  lemma {:induction false} EndLatest<T>(w: seq<string>, lines: seq<string>, q: string -> Option<T>)
    requires EndOf(w, lines) && Discerning(q, lines) && Latest(w, q).Some?
    ensures Latest(w, q) == Latest(lines, q)
  {
    var x, y := w[|w| - 1], lines[|lines| - 1];
    assert y in lines;
    if |w| == 1 {
      assert IsSuffix(x, y);
    } else if q(x).None? {
      EndLatest(w[..|w| - 1], lines[..|lines| - 1], q);
    }
  }

  /**
   * Whatever the chunk size, tail-then-fallback detection finds the last qualifying line of the file,
   * when every line fits the buffers and the test is discerning.
   */
  lemma DetectsLatest<T>(data: string, q: string -> Option<T>, start: nat, maxLines: nat, cap: nat)
    requires start <= |data| && IsTail(Window(data, start, maxLines), Lines(data), maxLines)
    requires Discerning(q, Lines(data)) && forall line | line in RawLines(data) :: |line| < cap
    ensures var tail := Latest(Short(Window(data, start, maxLines), cap), q);
      (if tail.Some? then tail else Latest(Scanned(RawLines(data), cap), q)) == Latest(Lines(data), q)
    ensures LastOf(Lines(data), q, Latest(Lines(data), q))
  {
    var w, lines, raw := Window(data, start, maxLines), Lines(data), RawLines(data);
    LinesAreRaw(data);
    ScannedAll(raw, cap);
    LatestSame(Scanned(raw, cap), lines, q);
    WindowShort(data, start, maxLines, cap);
    LatestIs(lines, q, Latest(lines, q));
    if Latest(w, q).Some? {
      EndLatest(w, lines, q);
    }
  }

  lemma ShortTail(w: seq<string>, lines: seq<string>, raw: seq<string>, n: nat, cap: nat)
    requires IsTail(w, lines, n) && |lines| == |raw| && forall i | 0 <= i < |lines| :: |lines[i]| <= |raw[i]| < cap
    ensures Short(w, cap) == w
  {
    forall k | 0 <= k < |w| ensures |w[k]| <= cap {
      assert |w[k]| <= |lines[|lines| - |w| + k]|;
    }
    ShortAll(w, cap);
  }

  lemma LinesFit(data: string, cap: nat)
    requires forall line | line in RawLines(data) :: |line| < cap
    ensures |Lines(data)| == |RawLines(data)|
    ensures forall i | 0 <= i < |Lines(data)| :: |Lines(data)[i]| <= |RawLines(data)[i]| < cap
  {
    var lines, raw := Lines(data), RawLines(data);
    LinesAreRaw(data);
    forall i | 0 <= i < |lines| ensures |lines[i]| <= |raw[i]| < cap {
      assert raw[i] in raw;
    }
  }

  lemma WindowShort(data: string, start: nat, maxLines: nat, cap: nat)
    requires start <= |data| && IsTail(Window(data, start, maxLines), Lines(data), maxLines)
    requires forall line | line in RawLines(data) :: |line| < cap
    ensures Short(Window(data, start, maxLines), cap) == Window(data, start, maxLines)
  {
    LinesFit(data, cap);
    ShortTail(Window(data, start, maxLines), Lines(data), RawLines(data), maxLines, cap);
  }
}
