/** String operations of the source's standard library, on ASCII bytes. */
module Text {

  predicate Blank(c: char) {
    c in {' ', '\t', '\n', '\r', '\U{0B}', '\U{0C}'}
  }

  function TrimLeft(s: string): string {
    if s != [] && Blank(s[0]) then TrimLeft(s[1..]) else s
  }

  function TrimRight(s: string): string {
    if s != [] && Blank(s[|s| - 1]) then TrimRight(s[..|s| - 1]) else s
  }

  function TrimSpace(s: string): string {
    TrimRight(TrimLeft(s))
  }

  lemma {:induction false} TrimLeftShorter(s: string)
    ensures |TrimLeft(s)| <= |s|
  {
    if s != [] && Blank(s[0]) {
      TrimLeftShorter(s[1..]);
    }
  }

  lemma {:induction false} TrimRightShorter(s: string)
    ensures |TrimRight(s)| <= |s|
  {
    if s != [] && Blank(s[|s| - 1]) {
      TrimRightShorter(s[..|s| - 1]);
    }
  }

  lemma TrimShorter(s: string)
    ensures |TrimSpace(s)| <= |s|
  {
    TrimLeftShorter(s);
    TrimRightShorter(TrimLeft(s));
  }

  /** Neither empty nor blank at either end, so trimming does nothing. */
  predicate Tight(s: string) {
    s != "" && !Blank(s[0]) && !Blank(s[|s| - 1])
  }

  lemma TrimTight(s: string)
    requires Tight(s)
    ensures TrimSpace(s) == s && TrimSpace(s + " ") == s && TrimSpace(" " + s) == s
  {
    assert (s + " ")[..|s|] == s && (" " + s)[1..] == s;
  }

  lemma {:induction false} TrimLeftEnds(s: string)
    ensures TrimLeft(s) != "" ==> !Blank(TrimLeft(s)[0])
  {
    if s != [] && Blank(s[0]) {
      TrimLeftEnds(s[1..]);
    }
  }

  lemma {:induction false} TrimRightEnds(s: string)
    ensures TrimRight(s) != "" ==> !Blank(TrimRight(s)[|TrimRight(s)| - 1]) && TrimRight(s)[0] == s[0]
  {
    if s != [] && Blank(s[|s| - 1]) {
      TrimRightEnds(s[..|s| - 1]);
    }
  }

  /** The six white space bytes, by their codes. */
  predicate White(c: char) {
    9 <= c as int <= 13 || c as int == 32
  }

  predicate WhiteSpace(s: string) {
    forall i | 0 <= i < |s| :: White(s[i])
  }

  lemma {:induction false} TrimLeftParts(s: string) returns (l: string)
    ensures s == l + TrimLeft(s) && WhiteSpace(l)
  {
    if s != [] && Blank(s[0]) {
      l := TrimLeftParts(s[1..]);
      l := [s[0]] + l;
      assert s == [s[0]] + s[1..];
    } else {
      l := "";
    }
  }

  lemma {:induction false} TrimRightParts(s: string) returns (r: string)
    ensures s == TrimRight(s) + r && WhiteSpace(r)
  {
    if s != [] && Blank(s[|s| - 1]) {
      var n := |s| - 1;
      r := TrimRightParts(s[..n]);
      assert s == s[..n] + [s[n]] && TrimRight(s) + r + [s[n]] == TrimRight(s) + (r + [s[n]]);
      r := r + [s[n]];
    } else {
      r := "";
    }
  }

  /** Trimming takes away white space at both ends, and all of it. */
  lemma TrimParts(s: string) returns (l: string, r: string)
    ensures s == l + TrimSpace(s) + r && WhiteSpace(l) && WhiteSpace(r)
    ensures var t := TrimSpace(s); t != "" ==> !White(t[0]) && !White(t[|t| - 1])
  {
    l := TrimLeftParts(s);
    r := TrimRightParts(TrimLeft(s));
    assert l + (TrimSpace(s) + r) == l + TrimSpace(s) + r;
    TrimmedTight(s);
    TightWhite(TrimSpace(s));
  }

  lemma TightWhite(t: string)
    ensures Tight(t) ==> !White(t[0]) && !White(t[|t| - 1])
  {
  }

  /** What is left after trimming is tight, or nothing. */
  lemma TrimmedTight(s: string)
    ensures TrimSpace(s) != "" ==> Tight(TrimSpace(s))
    ensures TrimSpace(TrimSpace(s)) == TrimSpace(s)
  {
    TrimLeftEnds(s);
    TrimRightEnds(TrimLeft(s));
    if TrimSpace(s) != "" {
      TrimTight(TrimSpace(s));
    }
  }

  /** Where `c` first occurs, or the length. */
  function IndexByte(s: string, c: char): (i: nat)
    ensures i <= |s| && (i < |s| ==> s[i] == c) && forall k | 0 <= k < i :: s[k] != c
  {
    if s == [] || s[0] == c then 0 else 1 + IndexByte(s[1..], c)
  }

  predicate HasPrefix(s: string, prefix: string) {
    |prefix| <= |s| && s[..|prefix|] == prefix
  }

  predicate HasSuffix(s: string, suffix: string) {
    |suffix| <= |s| && s[|s| - |suffix|..] == suffix
  }
}
