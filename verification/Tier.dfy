/** The `models.toml` subset: parsing, printing candidates, merging an override, and resolving a tier. */
module Tier {
  import opened Dispatches
  import opened Text

  // ---------------------------------------------------------------- candidates

  datatype Candidate = Candidate(adapter: string, provider: string, model: string)

  /** The canonical `adapter:provider/model` form. */
  function Print(c: Candidate): string {
    c.adapter + ":" + c.provider + "/" + c.model
  }

  /** The text before and after the first `sep`. */
  function Cut(s: string, sep: char): Option<(string, string)> {
    var i := IndexByte(s, sep);
    if i == |s| then None else Some((s[..i], s[i + 1..]))
  }

  lemma CutJoined(a: string, sep: char, b: string)
    ensures Cut(a + [sep] + b, sep) == Some((a, b)) <==> sep !in a
  {
    var s := a + [sep] + b;
    var i := IndexByte(s, sep);
    assert s[|a|] == sep;
    if sep !in a {
      assert forall k | 0 <= k < |a| :: s[k] == a[k] && a[k] in a;
      assert i == |a| && s[..i] == a && s[i + 1..] == b;
    } else {
      var k :| 0 <= k < |a| && a[k] == sep;
      assert s[k] == sep;
      assert i < |a|;
    }
  }

  lemma CutParts(s: string, sep: char)
    requires Cut(s, sep).Some?
    ensures var (a, b) := Cut(s, sep).value; s == a + [sep] + b && sep !in a
  {
  }

  function ParseCandidate(s: string): Option<Candidate> {
    match Cut(s, ':')
    case None => None
    case Some((adapter, rest)) =>
      match Cut(rest, '/')
      case None => None
      case Some((provider, model)) =>
        if adapter == "" || provider == "" || model == "" then None else Some(Candidate(adapter, provider, model))
  }

  /** What can be told apart again in print. */
  predicate Printable(c: Candidate) {
    c.adapter != "" && c.provider != "" && c.model != "" && ':' !in c.adapter && '/' !in c.provider
  }

  /** What is read as a candidate is the print of it, and printable. */
  lemma ParseThenPrint(s: string)
    requires ParseCandidate(s).Some?
    ensures Print(ParseCandidate(s).value) == s && Printable(ParseCandidate(s).value)
  {
    CutParts(s, ':');
    CutParts(Cut(s, ':').value.1, '/');
  }

  lemma PrintedReads(c: Candidate, rest: string)
    requires Printable(c) && rest == c.provider + "/" + c.model
    ensures ParseCandidate(c.adapter + ":" + rest) == Some(c)
  {
    CutJoined(c.adapter, ':', rest);
    CutJoined(c.provider, '/', c.model);
  }

  /** A candidate reads back from its print exactly if it is printable. */
  lemma PrintThenParse(c: Candidate)
    ensures ParseCandidate(Print(c)) == Some(c) <==> Printable(c)
  {
    if ParseCandidate(Print(c)) == Some(c) {
      ParseThenPrint(Print(c));
    }
    if Printable(c) {
      var rest := c.provider + "/" + c.model;
      assert Print(c) == c.adapter + ":" + rest;
      PrintedReads(c, rest);
    }
  }

  // ---------------------------------------------------------------- string arrays

  const QUOTE := '"'

  /** The quoted strings of an array's inside, separated by optional commas. */
  function Tokens(rest: string): Option<seq<string>>
    decreases |rest|
  {
    if rest == "" then Some([])
    else if rest[0] != QUOTE then None
    else
      var close := IndexByte(rest[1..], QUOTE);
      if close == |rest| - 1 then None
      else
        TrimShorter(rest[close + 2..]);
        match Tokens(AfterComma(TrimSpace(rest[close + 2..])))
        case None => None
        case Some(more) => Some([rest[1..close + 1]] + more)
  }

  function AfterComma(s: string): (t: string)
    ensures |t| <= |s|
  {
    if s != "" && s[0] == ',' then TrimShorter(s[1..]); TrimSpace(s[1..]) else s
  }

  /** The inside of the array on a line `key = [...]`. */
  function ArrayInside(line: string, key: string): Option<string> {
    match Cut(line, '=')
    case None => None
    case Some((before, after)) =>
      var val := TrimSpace(after);
      if TrimSpace(before) != key || |val| < 2 || val[0] != '[' || val[|val| - 1] != ']' then None
      else Some(val[1..|val| - 1])
  }

  function ParseStringArrayLine(line: string, key: string): Option<seq<string>> {
    match ArrayInside(line, key)
    case None => None
    case Some(inner) => Tokens(TrimSpace(inner))
  }

  method ParseStringArray(line: string, key: string) returns (result: Option<seq<string>>)
    ensures result == ParseStringArrayLine(line, key)
  {
    var inner := ArrayInside(line, key);
    if inner.None? {
      return None;
    }
    result := TokensOf(TrimSpace(inner.value));
  }

  method TokensOf(inner: string) returns (result: Option<seq<string>>)
    ensures result == Tokens(inner)
  {
    var rest, found := inner, [];
    PrependNothing(Tokens(inner));
    while rest != ""
      invariant Tokens(inner) == Prepend(found, Tokens(rest))
      decreases |rest|
    {
      if rest[0] != QUOTE {
        return None;
      }
      var close := IndexByte(rest[1..], QUOTE);
      if close == |rest| - 1 {
        return None;
      }
      var token, left := rest[1..close + 1], TrimSpace(rest[close + 2..]);
      TrimShorter(rest[close + 2..]);
      if left != "" && left[0] == ',' {
        TrimShorter(left[1..]);
        left := TrimSpace(left[1..]);
      }
      assert Tokens(rest) == Prepend([token], Tokens(left));
      PrependMore(found, token, Tokens(left));
      found, rest := found + [token], left;
    }
    assert found + [] == found;
    return Some(found);
  }

  lemma PrependNothing(more: Option<seq<string>>)
    ensures Prepend([], more) == more
  {
    if more.Some? {
      assert [] + more.value == more.value;
    }
  }

  ghost function Prepend(a: seq<string>, more: Option<seq<string>>): Option<seq<string>> {
    if more.None? then None else Some(a + more.value)
  }

  lemma PrependMore(a: seq<string>, token: string, more: Option<seq<string>>)
    ensures Prepend(a + [token], more) == Prepend(a, Prepend([token], more))
  {
    if more.Some? {
      assert a + [token] + more.value == a + ([token] + more.value);
    }
  }

  function Quoted(values: seq<string>): string {
    if values == [] then ""
    else [QUOTE] + values[0] + [QUOTE] + if |values| == 1 then "" else ", " + Quoted(values[1..])
  }

  function PrintArrayLine(key: string, values: seq<string>): string {
    key + " = [" + Quoted(values) + "]"
  }

  ghost predicate QuoteFree(values: seq<string>) {
    forall i | 0 <= i < |values| :: QUOTE !in values[i]
  }

  /** Nothing with a quote in it is ever read. */
  lemma {:induction false} TokensQuoteFree(rest: string)
    requires Tokens(rest).Some?
    ensures QuoteFree(Tokens(rest).value)
    decreases |rest|
  {
    if rest != "" {
      var close := IndexByte(rest[1..], QUOTE);
      TrimShorter(rest[close + 2..]);
      TokensQuoteFree(AfterComma(TrimSpace(rest[close + 2..])));
      assert forall k | 0 <= k < close :: rest[1..close + 1][k] == rest[1..][k];
    }
  }

  lemma QuotedTight(values: seq<string>)
    requires values != []
    ensures Tight(Quoted(values)) && Quoted(values)[0] == QUOTE
    decreases |values|
  {
    if |values| > 1 {
      QuotedTight(values[1..]);
    }
  }

  /** One quoted string at the front is read as the first token. */
  lemma FirstToken(v: string, rest: string)
    requires QUOTE !in v
    ensures var s := [QUOTE] + v + [QUOTE] + rest;
      s != "" && s[0] == QUOTE && IndexByte(s[1..], QUOTE) == |v| && s[1..|v| + 1] == v && s[|v| + 2..] == rest
  {
    var s := [QUOTE] + v + [QUOTE] + rest;
    assert s[1..][|v|] == QUOTE;
    assert forall k | 0 <= k < |v| :: s[1..][k] == v[k] && v[k] in v;
  }

  lemma {:induction false} TokensQuoted(values: seq<string>)
    requires QuoteFree(values)
    ensures Tokens(Quoted(values)) == Some(values)
  {
    if values != [] {
      var v, tail := values[0], values[1..];
      var more := if |values| == 1 then "" else ", " + Quoted(tail);
      FirstToken(v, more);
      TokensQuoted(tail);
      MoreTokens(tail);
      assert AfterComma(TrimSpace(more)) == Quoted(tail);
      assert values == [v] + tail;
    }
  }

  lemma MoreTokens(tail: seq<string>)
    ensures tail != [] ==> AfterComma(TrimSpace(", " + Quoted(tail))) == Quoted(tail)
    ensures AfterComma(TrimSpace("")) == ""
  {
    if tail != [] {
      var s := ", " + Quoted(tail);
      QuotedTight(tail);
      TrimTight(s);
      TrimTight(Quoted(tail));
      assert s[1..] == " " + Quoted(tail);
    }
  }

  predicate PlainKey(key: string) {
    Tight(key) && '=' !in key
  }

  lemma InsideOf(key: string, inner: string)
    requires PlainKey(key)
    ensures ArrayInside(key + " = [" + inner + "]", key) == Some(inner)
    ensures Tight(key + " = [" + inner + "]")
  {
    var val, after := "[" + inner + "]", " [" + inner + "]";
    assert after == " " + val;
    assert key + " = [" + inner + "]" == (key + " ") + ['='] + after;
    CutJoined(key + " ", '=', after);
    TrimTight(key);
    TrimTight(val);
    assert val[1..|val| - 1] == inner;
  }

  /** Printing an array and reading the line gives the array back exactly if no string has a quote in it. */
  lemma ArrayRoundTrip(key: string, values: seq<string>)
    requires PlainKey(key)
    ensures ParseStringArrayLine(PrintArrayLine(key, values), key) == Some(values) <==> QuoteFree(values)
  {
    InsideOf(key, Quoted(values));
    if values == [] {
      assert TrimSpace(Quoted(values)) == Quoted(values);
    } else {
      QuotedTight(values);
      TrimTight(Quoted(values));
    }
    if QuoteFree(values) {
      TokensQuoted(values);
    }
    if Tokens(Quoted(values)) == Some(values) {
      TokensQuoteFree(Quoted(values));
    }
  }
}
