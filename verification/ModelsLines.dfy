/**
 * Which lines of a `models.toml` file are accepted, and what each of them sets: every form a line can have, as text, and
 * nothing else. Lines are taken as they are after trimming.
 */
module ModelsLines {
  import opened Dispatches
  import opened LineScanner
  import opened ModelsToml
  import opened Text
  import opened Tier

  // ---------------------------------------------------------------- assignments

  /** `before = after`, at the first `=`, with this key. */
  predicate Assigns(line: string, before: string, after: string, key: string) {
    line == before + "=" + after && '=' !in before && TrimSpace(before) == key
  }

  lemma CutIs(line: string, before: string, after: string)
    ensures Cut(line, '=') == Some((before, after)) <==> line == before + "=" + after && '=' !in before
  {
    if Cut(line, '=').Some? {
      CutParts(line, '=');
    }
    if line == before + "=" + after && '=' !in before {
      CutJoined(before, '=', after);
    }
  }

  /** Text between two bytes of its own. */
  lemma Between(val: string, a: char, b: char, inner: string)
    ensures val == [a] + inner + [b] <==> |val| >= 2 && val[0] == a && val[|val| - 1] == b && val[1..|val| - 1] == inner
  {
    if |val| >= 2 && val[0] == a && val[|val| - 1] == b {
      assert val == [a] + val[1..|val| - 1] + [b];
    }
    if val == [a] + inner + [b] {
      assert val[1..|val| - 1] == inner;
    }
  }

  /** A string is read from exactly the lines `key = "v"`, with any white space around key and value. */
  lemma StringValueIs(line: string, key: string, v: string)
    ensures ParseStringValue(line, key) == Some(v) <==>
      exists before, after :: Assigns(line, before, after, key) && TrimSpace(after) == ['"'] + v + ['"']
  {
    if ParseStringValue(line, key) == Some(v) {
      var (before, after) := Cut(line, '=').value;
      CutIs(line, before, after);
      Between(TrimSpace(after), '"', '"', v);
      assert Assigns(line, before, after, key);
    }
    if before, after :| Assigns(line, before, after, key) && TrimSpace(after) == ['"'] + v + ['"'] {
      CutIs(line, before, after);
      Between(TrimSpace(after), '"', '"', v);
    }
  }

  /** An array's inside is that of exactly the lines `key = [...]`. */
  lemma ArrayInsideIs(line: string, key: string, inner: string)
    ensures ArrayInside(line, key) == Some(inner) <==>
      exists before, after :: Assigns(line, before, after, key) && TrimSpace(after) == ['['] + inner + [']']
  {
    if ArrayInside(line, key) == Some(inner) {
      var (before, after) := Cut(line, '=').value;
      CutIs(line, before, after);
      Between(TrimSpace(after), '[', ']', inner);
      assert Assigns(line, before, after, key);
    }
    if before, after :| Assigns(line, before, after, key) && TrimSpace(after) == ['['] + inner + [']'] {
      CutIs(line, before, after);
      Between(TrimSpace(after), '[', ']', inner);
    }
  }

  /** What is left of an array behind one of its strings: without white space and one comma. */
  ghost predicate Behind(more: string, rest: string) {
    if exists r :: TrimSpace(more) == [','] + r then exists r :: TrimSpace(more) == [','] + r && rest == TrimSpace(r)
    else rest == TrimSpace(more)
  }

  lemma BehindIs(more: string, rest: string)
    ensures Behind(more, rest) <==> rest == AfterComma(TrimSpace(more))
  {
    var s := TrimSpace(more);
    if s != "" && s[0] == ',' {
      assert s == [','] + s[1..];
    }
    assert forall r :: s == [','] + r ==> s[1..] == r;
  }

  /** A first string, and what is behind it. */
  ghost predicate Splits(rest: string, token: string, more: string, left: string) {
    '"' !in token && rest == ['"'] + token + ['"'] + more && Behind(more, left)
  }

  lemma TokensFrom(rest: string, tokens: seq<string>) returns (more: string, left: string)
    requires Tokens(rest) == Some(tokens) && rest != ""
    ensures tokens != [] && Splits(rest, tokens[0], more, left) && Tokens(left) == Some(tokens[1..])
  {
    var close := IndexByte(rest[1..], QUOTE);
    more := rest[close + 2..];
    left := AfterComma(TrimSpace(more));
    BehindIs(more, left);
    assert rest == ['"'] + rest[1..close + 1] + ['"'] + more;
    assert forall k | 0 <= k < close :: rest[1..close + 1][k] == rest[1..][k];
  }

  lemma TokensTo(rest: string, token: string, more: string, left: string)
    requires Splits(rest, token, more, left)
    ensures Tokens(rest) == if Tokens(left).None? then None else Some([token] + Tokens(left).value)
  {
    FirstToken(token, more);
    BehindIs(more, left);
  }

  /** The strings of an array: none, or a quoted one without quotes in it and those of what is behind it. */
  lemma TokensStep(rest: string, tokens: seq<string>)
    ensures Tokens(rest) == Some(tokens) <==>
      || (rest == "" && tokens == [])
      || (tokens != [] && exists more, left :: Splits(rest, tokens[0], more, left) && Tokens(left) == Some(tokens[1..]))
  {
    if Tokens(rest) == Some(tokens) && rest != "" {
      var more, left := TokensFrom(rest, tokens);
    }
    if tokens != [] {
      if more, left :| Splits(rest, tokens[0], more, left) && Tokens(left) == Some(tokens[1..]) {
        TokensTo(rest, tokens[0], more, left);
        assert tokens == [tokens[0]] + tokens[1..];
      }
    }
  }

  // ---------------------------------------------------------------- section headers

  /** A name that can stand in a section header; only a tier's has no dots. */
  predicate HeaderName(name: string, dots: bool) {
    && name != "" && ' ' !in name && '\t' !in name && '[' !in name && ']' !in name
    && (!dots ==> '.' !in name)
  }

  lemma HeaderNames(name: string)
    ensures HeaderName(name, false) <==> name != "" && !ContainsAny(name, " \t.[]")
    ensures HeaderName(name, true) <==> name != "" && !ContainsAny(name, " \t[]")
  {
    var with, without := " \t.[]", " \t[]";
    assert with[0] == ' ' && with[1] == '\t' && with[2] == '.' && with[3] == '[' && with[4] == ']';
    assert without[0] == ' ' && without[1] == '\t' && without[2] == '[' && without[3] == ']';
  }

  /** The section opened, and its entry made if the file has none of that name yet. */
  predicate Opens(s: State, line: string, t: State) {
    match t.section
    case NoSection => false
    case InTier(name) =>
      && line == "[tiers." + name + "]" && HeaderName(name, false)
      && t.cfg == if name in s.cfg.tiers then s.cfg else s.cfg.(tiers := s.cfg.tiers[name := []])
    case InAdapter(name) =>
      && line == "[adapter." + name + "]" && HeaderName(name, true)
      && t.cfg == if name in s.cfg.adapters then s.cfg
                  else s.cfg.(adapters := s.cfg.adapters[name := Adapter([], "stdout", "")])
    case InAmbient(name) =>
      && line == "[ambient." + name + "]" && HeaderName(name, true)
      && t.cfg == if name in s.cfg.ambient then s.cfg else s.cfg.(ambient := s.cfg.ambient[name := Ambient("", [], map[])])
  }

  lemma NamedHeader(line: string, prefix: string, name: string)
    requires line != "" && line[0] == '['
    ensures line == "[" + prefix + name + "]" <==>
      && |line| >= 2 && line[|line| - 1] == ']'
      && var inner := line[1..|line| - 1]; HasPrefix(inner, prefix) && inner[|prefix|..] == name
  {
    if |line| >= 2 && line[|line| - 1] == ']' {
      var inner := line[1..|line| - 1];
      Between(line, '[', ']', inner);
      if HasPrefix(inner, prefix) && inner[|prefix|..] == name {
        assert inner == prefix + name;
      }
      if line == "[" + prefix + name + "]" {
        assert inner == prefix + name;
      }
    }
  }

  lemma PrefixesApart(inner: string)
    ensures HasPrefix(inner, ADAPTER) ==> !HasPrefix(inner, TIERS)
    ensures HasPrefix(inner, AMBIENT) ==> !HasPrefix(inner, TIERS) && !HasPrefix(inner, ADAPTER)
  {
    assert HasPrefix(inner, TIERS) ==> inner[0] == inner[..6][0] == 't';
    assert HasPrefix(inner, ADAPTER) ==> inner[0] == inner[..8][0] == 'a' && inner[1] == inner[..8][1] == 'd';
    assert HasPrefix(inner, AMBIENT) ==> inner[0] == inner[..8][0] == 'a' && inner[1] == inner[..8][1] == 'm';
  }

  lemma HeaderTier(s: State, line: string, t: State)
    requires line != "" && line[0] == '[' && t.section.InTier?
    ensures Header(s, line) == Some(t) <==> Opens(s, line, t)
  {
    NamedHeader(line, TIERS, t.section.name);
    HeaderNames(t.section.name);
  }

  lemma HeaderAdapter(s: State, line: string, t: State)
    requires line != "" && line[0] == '[' && t.section.InAdapter?
    ensures Header(s, line) == Some(t) <==> Opens(s, line, t)
  {
    NamedHeader(line, ADAPTER, t.section.name);
    HeaderNames(t.section.name);
    if |line| >= 2 {
      PrefixesApart(line[1..|line| - 1]);
    }
  }

  lemma HeaderAmbient(s: State, line: string, t: State)
    requires line != "" && line[0] == '[' && t.section.InAmbient?
    ensures Header(s, line) == Some(t) <==> Opens(s, line, t)
  {
    NamedHeader(line, AMBIENT, t.section.name);
    HeaderNames(t.section.name);
    if |line| >= 2 {
      PrefixesApart(line[1..|line| - 1]);
    }
  }

  /** A header line is accepted exactly if it opens a section of one of the three kinds. */
  lemma HeaderIs(s: State, line: string, t: State)
    requires line != "" && line[0] == '['
    ensures Header(s, line) == Some(t) <==> Opens(s, line, t)
  {
    match t.section
    case NoSection => assert Header(s, line) != Some(t);
    case InTier(_) => HeaderTier(s, line, t);
    case InAdapter(_) => HeaderAdapter(s, line, t);
    case InAmbient(_) => HeaderAmbient(s, line, t);
  }

  // ---------------------------------------------------------------- content lines

  /** A line as it is after trimming: not empty, and nothing to trim. */
  predicate Trimmed(line: string) {
    line != "" && TrimSpace(line) == line
  }

  lemma TrimmedFront(line: string)
    requires Trimmed(line)
    ensures !White(line[0])
  {
    var _, _ := TrimParts(line);
  }

  lemma WhiteFront(l: string, rest: string)
    requires WhiteSpace(l)
    ensures l == "" || White((l + rest)[0])
  {
    if l != "" {
      assert White(l[0]);
    }
  }

  lemma TrimmedKey(before: string, key: string)
    requires before != "" && !White(before[0]) && TrimSpace(before) == key
    ensures HasPrefix(before, key)
  {
    var l, r := TrimParts(before);
    WhiteFront(l, key + r);
    assert before == l + (key + r);
  }

  lemma InFront(line: string, before: string, after: string, key: string)
    requires Trimmed(line) && key != "" && Assigns(line, before, after, key)
    ensures HasPrefix(line, key)
  {
    assert before != "";
    assert line[0] == before[0];
    TrimmedFront(line);
    TrimmedKey(before, key);
    assert line[..|key|] == before[..|key|];
  }

  /** The key of an assignment is what the line begins with. */
  lemma KeyInFront(line: string, key: string)
    requires Trimmed(line) && key != "" && (ParseStringArrayLine(line, key).Some? || ParseStringValue(line, key).Some?)
    ensures HasPrefix(line, key)
  {
    var (before, after) := Cut(line, '=').value;
    CutIs(line, before, after);
    InFront(line, before, after, key);
  }

  /** Candidates in their text form, one for one. */
  predicate ReadsAs(raw: seq<string>, cands: seq<Candidate>) {
    |cands| == |raw| && forall i | 0 <= i < |raw| :: ParseCandidate(raw[i]) == Some(cands[i])
  }

  lemma ReadsAsStep(raw: seq<string>, cands: seq<Candidate>)
    requires raw != [] && cands != []
    ensures ReadsAs(raw, cands) <==> ParseCandidate(raw[0]) == Some(cands[0]) && ReadsAs(raw[1..], cands[1..])
  {
    var r, c := raw[1..], cands[1..];
    assert forall i | 0 <= i < |r| :: r[i] == raw[i + 1];
    assert forall i | 0 <= i < |c| :: c[i] == cands[i + 1];
    if ParseCandidate(raw[0]) == Some(cands[0]) && ReadsAs(r, c) {
      forall i | 0 <= i < |raw| ensures ParseCandidate(raw[i]) == Some(cands[i]) {
        assert i > 0 ==> ParseCandidate(r[i - 1]) == Some(c[i - 1]);
      }
    }
  }

  lemma {:induction false} ParseAllIs(raw: seq<string>, cands: seq<Candidate>)
    ensures ParseAll(raw) == Some(cands) <==> ReadsAs(raw, cands)
  {
    if raw != [] && cands != [] {
      ParseAllIs(raw[1..], cands[1..]);
      ReadsAsStep(raw, cands);
      assert cands == [cands[0]] + cands[1..];
    }
  }

  /** In a tier: its candidates, at least one, each of the form adapter:provider/model. */
  ghost predicate TierSets(line: string, cands: seq<Candidate>) {
    exists raw :: ParseStringArrayLine(line, "candidates") == Some(raw) && raw != [] && ReadsAs(raw, cands)
  }

  lemma TierLineIs(cfg: Config, name: string, line: string, cands: seq<Candidate>)
    requires Trimmed(line)
    ensures TierSets(line, cands) <==> HasPrefix(line, CANDIDATES) && ParseCandidatesLine(line) == Some(cands)
  {
    if ParseStringArrayLine(line, CANDIDATES).Some? {
      var raw := ParseStringArrayLine(line, CANDIDATES).value;
      KeyInFront(line, CANDIDATES);
      ParseAllIs(raw, cands);
    }
  }

  /** In an adapter: its arguments, its report or its timeout. */
  predicate AdapterSets(ac: Adapter, line: string, after: Adapter) {
    || (ParseStringArrayLine(line, "argv") == Some(after.argv) && after == ac.(argv := after.argv))
    || (ParseStringValue(line, "report") == Some(after.report) && after == ac.(report := after.report))
    || (ParseStringValue(line, "timeout") == Some(after.timeout) && after == ac.(timeout := after.timeout))
  }

  lemma AdapterLineIs(ac: Adapter, line: string, after: Adapter)
    requires Trimmed(line)
    ensures AdapterLine(ac, line) == Some(after) <==> AdapterSets(ac, line, after)
  {
    if ParseStringArrayLine(line, "argv").Some? {
      KeyInFront(line, "argv");
    }
    if ParseStringValue(line, "report").Some? {
      KeyInFront(line, "report");
    }
    if ParseStringValue(line, "timeout").Some? {
      KeyInFront(line, "timeout");
    }
    assert HasPrefix(line, "argv") ==> line[0] == line[..4][0] == 'a';
    assert HasPrefix(line, "report") ==> line[0] == line[..6][0] == 'r';
    assert HasPrefix(line, "timeout") ==> line[0] == line[..7][0] == 't';
  }

  /** In an ambient section, the models of a tier: a key that ends in `_models` and does not begin as another key. */
  predicate SetsModels(ac: Ambient, line: string, tier: string, models: seq<string>, after: Ambient) {
    && ParseStringArrayLine(line, tier + "_models") == Some(models) && models != []
    && HeaderName(tier, false) && !HasPrefix(line, "detector") && !HasPrefix(line, "govern_tiers")
    && after == ac.(models := ac.models[tier := models])
  }

  /** Or its detector, not empty, or the tiers it governs, at least one. */
  ghost predicate AmbientSets(ac: Ambient, line: string, after: Ambient) {
    || (ParseStringValue(line, "detector") == Some(after.detector) && after.detector != ""
        && after == ac.(detector := after.detector))
    || (ParseStringArrayLine(line, "govern_tiers") == Some(after.governTiers) && after.governTiers != []
        && after == ac.(governTiers := after.governTiers))
    || exists tier, models :: SetsModels(ac, line, tier, models, after)
  }

  lemma ModelsFrom(ac: Ambient, line: string, after: Ambient) returns (tier: string, models: seq<string>)
    requires ModelsLine(ac, line) == Some(after) && !HasPrefix(line, "detector") && !HasPrefix(line, "govern_tiers")
    ensures SetsModels(ac, line, tier, models, after)
  {
    var key := TrimSpace(Cut(line, '=').value.0);
    tier := key[..|key| - |MODELS|];
    models := ParseStringArrayLine(line, key).value;
    assert key == tier + "_models";
    HeaderNames(tier);
  }

  lemma ModelsTo(ac: Ambient, line: string, tier: string, models: seq<string>, after: Ambient)
    requires Trimmed(line) && SetsModels(ac, line, tier, models, after)
    ensures ModelsLine(ac, line) == Some(after) && Contains(line, MODELS)
  {
    var key := tier + "_models";
    KeyInFront(line, key);
    assert TrimSpace(Cut(line, '=').value.0) == key;
    assert key[..|key| - |MODELS|] == tier && key[|key| - |MODELS|..] == MODELS;
    HeaderNames(tier);
    assert line[|tier|..][..|MODELS|] == line[..|key|][|tier|..];
    assert HasPrefix(line[|tier|..], MODELS);
  }

  lemma AmbientLineIs(ac: Ambient, line: string, after: Ambient)
    requires Trimmed(line)
    ensures AmbientLine(ac, line) == Some(after) <==> AmbientSets(ac, line, after)
  {
    if ParseStringValue(line, "detector").Some? {
      KeyInFront(line, "detector");
    }
    if ParseStringArrayLine(line, "govern_tiers").Some? {
      KeyInFront(line, "govern_tiers");
    }
    assert HasPrefix(line, "detector") ==> line[0] == line[..8][0] == 'd';
    assert HasPrefix(line, "govern_tiers") ==> line[0] == line[..12][0] == 'g';
    if tier, models :| SetsModels(ac, line, tier, models, after) {
      ModelsTo(ac, line, tier, models, after);
    } else if !HasPrefix(line, "detector") && !HasPrefix(line, "govern_tiers") {
      if ModelsLine(ac, line) == Some(after) {
        var tier, models := ModelsFrom(ac, line, after);
      }
    }
  }

  // ---------------------------------------------------------------- whole files

  ghost predicate TierReads(s: State, line: string, t: State, name: string) {
    exists cands :: TierSets(line, cands) && t == s.(cfg := s.cfg.(tiers := s.cfg.tiers[name := cands]))
  }

  ghost predicate AdapterReads(s: State, line: string, t: State, name: string)
    requires name in s.cfg.adapters
  {
    exists ac :: AdapterSets(s.cfg.adapters[name], line, ac)
                 && t == s.(cfg := s.cfg.(adapters := s.cfg.adapters[name := ac]))
  }

  ghost predicate AmbientReads(s: State, line: string, t: State, name: string)
    requires name in s.cfg.ambient
  {
    exists ac :: AmbientSets(s.cfg.ambient[name], line, ac)
                 && t == s.(cfg := s.cfg.(ambient := s.cfg.ambient[name := ac]))
  }

  /** What a line of the file does: nothing if it is blank or a comment, else what its form says, in its section. */
  ghost predicate Reads(s: State, raw: string, t: State) {
    var line := TrimSpace(raw);
    if line == "" || line[0] == '#' then t == s
    else if line[0] == '[' then Opens(s, line, t)
    else
      match s.section
      case NoSection => false
      case InTier(name) => TierReads(s, line, t, name)
      case InAdapter(name) => name in s.cfg.adapters && AdapterReads(s, line, t, name)
      case InAmbient(name) => name in s.cfg.ambient && AmbientReads(s, line, t, name)
  }

  lemma TierContent(s: State, line: string, t: State, name: string)
    requires Trimmed(line) && s.section == InTier(name)
    ensures Content(s, line) == Some(t) <==> TierReads(s, line, t, name)
  {
    forall cands ensures TierSets(line, cands) <==> HasPrefix(line, CANDIDATES) && ParseCandidatesLine(line) == Some(cands) {
      TierLineIs(s.cfg, name, line, cands);
    }
    if Content(s, line) == Some(t) {
      assert TierSets(line, ParseCandidatesLine(line).value);
    }
  }

  lemma AdapterContent(s: State, line: string, t: State, name: string)
    requires Trimmed(line) && s.section == InAdapter(name) && name in s.cfg.adapters
    ensures Content(s, line) == Some(t) <==> AdapterReads(s, line, t, name)
  {
    var known := s.cfg.adapters[name];
    if AdapterLine(known, line).Some? {
      AdapterLineIs(known, line, AdapterLine(known, line).value);
    }
    if ac :| AdapterSets(known, line, ac) && t == s.(cfg := s.cfg.(adapters := s.cfg.adapters[name := ac])) {
      AdapterLineIs(known, line, ac);
    }
  }

  lemma AmbientContent(s: State, line: string, t: State, name: string)
    requires Trimmed(line) && s.section == InAmbient(name) && name in s.cfg.ambient
    ensures Content(s, line) == Some(t) <==> AmbientReads(s, line, t, name)
  {
    var known := s.cfg.ambient[name];
    if AmbientLine(known, line).Some? {
      AmbientLineIs(known, line, AmbientLine(known, line).value);
    }
    if ac :| AmbientSets(known, line, ac) && t == s.(cfg := s.cfg.(ambient := s.cfg.ambient[name := ac])) {
      AmbientLineIs(known, line, ac);
    }
  }

  /** Every accepted line has one of the forms above, and every other line is an error. */
  lemma ReadLineIs(s: State, raw: string, t: State)
    ensures ReadLine(s, raw) == Some(t) <==> Reads(s, raw, t)
  {
    var line := TrimSpace(raw);
    TrimmedTight(raw);
    if line == "" || line[0] == '#' {
    } else if line[0] == '[' {
      HeaderIs(s, line, t);
    } else {
      match s.section
      case NoSection =>
      case InTier(name) => TierContent(s, line, t, name);
      case InAdapter(name) =>
        if name in s.cfg.adapters {
          AdapterContent(s, line, t, name);
        }
      case InAmbient(name) =>
        if name in s.cfg.ambient {
          AmbientContent(s, line, t, name);
        }
    }
  }

  /** The states a file goes through, line by line. */
  ghost predicate Passes(lines: seq<string>, states: seq<State>) {
    && |states| == |lines| + 1 && states[0] == State(NoSection, Config(map[], map[], map[]))
    && forall i | 0 <= i < |lines| :: Reads(states[i], lines[i], states[i + 1])
  }

  lemma {:induction false} ReadLinesPass(lines: seq<string>, s: State) returns (states: seq<State>)
    requires ReadLines(ReadLine, lines) == Some(s)
    ensures Passes(lines, states) && states[|lines|] == s
  {
    if lines == [] {
      states := [s];
    } else {
      var n := |lines| - 1;
      var before := ReadLines(ReadLine, lines[..n]).value;
      var fewer := ReadLinesPass(lines[..n], before);
      ReadLineIs(before, lines[n], s);
      states := fewer + [s];
      forall i | 0 <= i < |lines| ensures Reads(states[i], lines[i], states[i + 1]) {
        if i < n {
          assert lines[..n][i] == lines[i] && Reads(fewer[i], lines[..n][i], fewer[i + 1]);
        }
      }
    }
  }

  lemma {:induction false} PassedLines(lines: seq<string>, states: seq<State>)
    requires Passes(lines, states)
    ensures ReadLines(ReadLine, lines) == Some(states[|lines|])
  {
    if lines != [] {
      var n := |lines| - 1;
      assert Reads(states[n], lines[n], states[n + 1]);
      assert Passes(lines[..n], states[..n + 1]) by {
        forall i | 0 <= i < n ensures Reads(states[..n + 1][i], lines[..n][i], states[..n + 1][i + 1]) {
          assert Reads(states[i], lines[i], states[i + 1]);
        }
      }
      PassedLines(lines[..n], states[..n + 1]);
      ReadLineIs(states[n], lines[n], states[n + 1]);
    }
  }

  lemma LinesPass(lines: seq<string>, cfg: Config)
    ensures (exists states: seq<State> :: Passes(lines, states) && states[|states| - 1].cfg == cfg) <==>
      ReadLines(ReadLine, lines).Some? && ReadLines(ReadLine, lines).value.cfg == cfg
  {
    if ReadLines(ReadLine, lines).Some? {
      var states := ReadLinesPass(lines, ReadLines(ReadLine, lines).value);
    }
    if states: seq<State> :| Passes(lines, states) && states[|states| - 1].cfg == cfg {
      PassedLines(lines, states);
    }
  }

  /**
   * A file is accepted exactly if each of its lines fits the scanner's buffer and is of one of those forms, no tier it
   * opens lacks candidates, and no ambient section its detector, its tiers or its models.
   */
  lemma ParsedIs(data: string, cfg: Config)
    ensures Parsed(data) == Some(cfg) <==>
      && (forall line | line in RawLines(data) :: |line| < 65536)
      && (exists states: seq<State> :: Passes(Scanned(RawLines(data), 65536), states) && states[|states| - 1].cfg == cfg)
      && (forall name | name in cfg.tiers :: cfg.tiers[name] != [])
      && (forall name | name in cfg.ambient ::
            cfg.ambient[name].detector != "" && cfg.ambient[name].governTiers != [] && cfg.ambient[name].models != map[])
  {
    var raw, lines := RawLines(data), Scanned(RawLines(data), MAX_TOKEN);
    ScannedAll(raw, MAX_TOKEN);
    LinesPass(lines, cfg);
  }
}
