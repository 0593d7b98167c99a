/** `models.toml` files: parsing whole files, overriding defaults, and resolving tiers. */
module ModelsToml {
  import opened Dispatches
  import opened LineScanner
  import opened Text
  import opened Tier

  datatype Adapter = Adapter(argv: seq<string>, report: string, timeout: string)
  datatype Ambient = Ambient(detector: string, governTiers: seq<string>, models: map<string, seq<string>>)

  /** A tier with no candidates yet has the empty list. */
  datatype Config = Config(
    tiers: map<string, seq<Candidate>>, adapters: map<string, Adapter>, ambient: map<string, Ambient>
  )

  datatype Section = NoSection | InTier(name: string) | InAdapter(name: string) | InAmbient(name: string)
  datatype State = State(section: Section, cfg: Config)

  const EMPTY := Config(map[], map[], map[])
  const CANDIDATES := "candidates"
  const TIERS := "tiers."
  const ADAPTER := "adapter."
  const AMBIENT := "ambient."
  const MODELS := "_models"
  const MAX_TOKEN: nat := 64 * 1024

  predicate ContainsAny(s: string, chars: string) {
    exists i | 0 <= i < |s| :: s[i] in chars
  }

  predicate Contains(s: string, part: string) {
    exists i | 0 <= i <= |s| :: HasPrefix(s[i..], part)
  }

  // ---------------------------------------------------------------- one line

  function Header(s: State, line: string): Option<State> {
    if |line| < 2 || line[|line| - 1] != ']' then None
    else
      var inner := line[1..|line| - 1];
      if HasPrefix(inner, TIERS) then TierHeader(s, inner[|TIERS|..])
      else if HasPrefix(inner, ADAPTER) then AdapterHeader(s, inner[|ADAPTER|..])
      else if HasPrefix(inner, AMBIENT) then AmbientHeader(s, inner[|AMBIENT|..])
      else None
  }

  function TierHeader(s: State, name: string): Option<State> {
    if name == "" || ContainsAny(name, " \t.[]") then None
    else Some(State(InTier(name), if name in s.cfg.tiers then s.cfg else s.cfg.(tiers := s.cfg.tiers[name := []])))
  }

  function AdapterHeader(s: State, name: string): Option<State> {
    if name == "" || ContainsAny(name, " \t[]") then None
    else Some(State(InAdapter(name),
      if name in s.cfg.adapters then s.cfg else s.cfg.(adapters := s.cfg.adapters[name := Adapter([], "stdout", "")])))
  }

  function AmbientHeader(s: State, name: string): Option<State> {
    if name == "" || ContainsAny(name, " \t[]") then None
    else Some(State(InAmbient(name),
      if name in s.cfg.ambient then s.cfg else s.cfg.(ambient := s.cfg.ambient[name := Ambient("", [], map[])])))
  }

  function ParseAll(raw: seq<string>): Option<seq<Candidate>> {
    if raw == [] then Some([])
    else if ParseCandidate(raw[0]).None? || ParseAll(raw[1..]).None? then None
    else Some([ParseCandidate(raw[0]).value] + ParseAll(raw[1..]).value)
  }

  /** The candidates on a line; an empty list is an error. */
  function ParseCandidatesLine(line: string): Option<seq<Candidate>> {
    match ParseStringArrayLine(line, CANDIDATES)
    case None => None
    case Some(raw) => if raw == [] then None else ParseAll(raw)
  }

  function ParseStringValue(line: string, key: string): Option<string> {
    match Cut(line, '=')
    case None => None
    case Some((before, after)) =>
      var val := TrimSpace(after);
      if TrimSpace(before) != key || |val| < 2 || val[0] != QUOTE || val[|val| - 1] != QUOTE then None
      else Some(val[1..|val| - 1])
  }

  function TierLine(cfg: Config, name: string, line: string): Option<Config> {
    if !HasPrefix(line, CANDIDATES) then None
    else
      match ParseCandidatesLine(line)
      case None => None
      case Some(cands) => Some(cfg.(tiers := cfg.tiers[name := cands]))
  }

  function AdapterLine(ac: Adapter, line: string): Option<Adapter> {
    if HasPrefix(line, "argv") then
      match ParseStringArrayLine(line, "argv")
      case None => None
      case Some(argv) => Some(ac.(argv := argv))
    else if HasPrefix(line, "report") then
      match ParseStringValue(line, "report")
      case None => None
      case Some(val) => Some(ac.(report := val))
    else if HasPrefix(line, "timeout") then
      match ParseStringValue(line, "timeout")
      case None => None
      case Some(val) => Some(ac.(timeout := val))
    else None
  }

  function AmbientLine(ac: Ambient, line: string): Option<Ambient> {
    if HasPrefix(line, "detector") then
      match ParseStringValue(line, "detector")
      case None => None
      case Some(val) => if val == "" then None else Some(ac.(detector := val))
    else if HasPrefix(line, "govern_tiers") then
      match ParseStringArrayLine(line, "govern_tiers")
      case None => None
      case Some(tiers) => if tiers == [] then None else Some(ac.(governTiers := tiers))
    else if Contains(line, MODELS) then ModelsLine(ac, line)
    else None
  }

  function ModelsLine(ac: Ambient, line: string): Option<Ambient> {
    match Cut(line, '=')
    case None => None
    case Some((before, _)) =>
      var key := TrimSpace(before);
      if !HasSuffix(key, MODELS) then None
      else
        var tier := key[..|key| - |MODELS|];
        if tier == "" || ContainsAny(tier, " \t.[]") then None
        else
          match ParseStringArrayLine(line, key)
          case None => None
          case Some(models) => if models == [] then None else Some(ac.(models := ac.models[tier := models]))
  }

  /** What a content line does in the section it stands in. */
  function Content(s: State, line: string): Option<State> {
    match s.section
    case NoSection => None
    case InTier(name) =>
      (match TierLine(s.cfg, name, line)
       case None => None
       case Some(cfg) => Some(s.(cfg := cfg)))
    case InAdapter(name) =>
      if name !in s.cfg.adapters then None
      else
        (match AdapterLine(s.cfg.adapters[name], line)
         case None => None
         case Some(ac) => Some(s.(cfg := s.cfg.(adapters := s.cfg.adapters[name := ac]))))
    case InAmbient(name) =>
      if name !in s.cfg.ambient then None
      else
        (match AmbientLine(s.cfg.ambient[name], line)
         case None => None
         case Some(ac) => Some(s.(cfg := s.cfg.(ambient := s.cfg.ambient[name := ac]))))
  }

  function ReadLine(s: State, raw: string): Option<State> {
    var line := TrimSpace(raw);
    if line == "" || line[0] == '#' then Some(s)
    else if line[0] == '[' then Header(s, line)
    else Content(s, line)
  }

  // ---------------------------------------------------------------- whole files

  /** One line's effect, as a value: what is proved of any such function holds of the parser's. */
  type Reader = (State, string) -> Option<State>

  function ReadLines(read: Reader, lines: seq<string>): Option<State>
    decreases |lines|
  {
    if lines == [] then Some(State(NoSection, EMPTY))
    else
      match ReadLines(read, lines[..|lines| - 1])
      case None => None
      case Some(s) => read(s, lines[|lines| - 1])
  }

  predicate Complete(cfg: Config) {
    && (forall name | name in cfg.tiers :: cfg.tiers[name] != [])
    && (forall name | name in cfg.ambient ::
          cfg.ambient[name].detector != "" && cfg.ambient[name].governTiers != [] && cfg.ambient[name].models != map[])
  }

  /** The configuration in a file; `None` for any error, a line too long for the scanner among them. */
  function Parsed(data: string): Option<Config> {
    var raw := RawLines(data);
    var lines := Scanned(raw, MAX_TOKEN);
    match ReadLines(ReadLine, lines)
    case None => None
    case Some(s) => if |lines| < |raw| || !Complete(s.cfg) then None else Some(s.cfg)
  }

  method Parse(data: string) returns (cfg: Option<Config>)
    ensures cfg == Parsed(data)
  {
    var raw := RawLines(data);
    var state, tooLong := ParseRaw(ReadLine, raw);
    if state.None? || tooLong || !Complete(state.value.cfg) {
      return None;
    }
    return Some(state.value.cfg);
  }

  /** The scanning loop: the state after the lines that fit, and whether a line did not. */
  method ParseRaw(read: Reader, raw: seq<string>) returns (state: Option<State>, tooLong: bool)
    ensures state == ReadLines(read, Scanned(raw, MAX_TOKEN))
    ensures state.Some? ==> tooLong == (|Scanned(raw, MAX_TOKEN)| < |raw|)
  {
    ghost var lines := Scanned(raw, MAX_TOKEN);
    ScannedAll(raw, MAX_TOKEN);
    var current := State(NoSection, EMPTY);
    var i := 0;
    while i < |raw| && |raw[i]| < MAX_TOKEN
      invariant i <= |lines| && ReadLines(read, lines[..i]) == Some(current)
    {
      NextLine(read, lines, i);
      var next := read(current, DropCR(raw[i]));
      if next.None? {
        NeverAfter(read, lines, i + 1);
        return None, false;
      }
      current := next.value;
      i := i + 1;
    }
    assert lines[..|lines|] == lines;
    return Some(current), i < |raw|;
  }

  lemma NextLine(read: Reader, lines: seq<string>, i: nat)
    requires i < |lines| && ReadLines(read, lines[..i]).Some?
    ensures ReadLines(read, lines[..i + 1]) == read(ReadLines(read, lines[..i]).value, lines[i])
  {
    assert lines[..i + 1][..i] == lines[..i];
  }

  /** An error on a line is an error of the file. */
  lemma {:induction false} NeverAfter(read: Reader, lines: seq<string>, i: nat)
    requires i <= |lines| && ReadLines(read, lines[..i]).None?
    ensures ReadLines(read, lines).None?
    decreases |lines|
  {
    if i == |lines| {
      assert lines[..i] == lines;
    } else {
      assert lines[..|lines| - 1][..i] == lines[..i];
      NeverAfter(read, lines[..|lines| - 1], i);
    }
  }

  // ---------------------------------------------------------------- what a parsed configuration is like

  /** Candidates that were read: each prints as text that reads as the same candidate, without a quote in it. */
  ghost predicate ReadBack(cands: seq<Candidate>) {
    forall i | 0 <= i < |cands| :: ParseCandidate(Print(cands[i])) == Some(cands[i]) && QUOTE !in Print(cands[i])
  }

  ghost predicate Sound(cfg: Config) {
    && (forall name | name in cfg.tiers :: ReadBack(cfg.tiers[name]))
    && (forall name, tier | name in cfg.ambient && tier in cfg.ambient[name].models :: cfg.ambient[name].models[tier] != [])
  }

  /** The current section has its entry. */
  predicate Known(s: State) {
    match s.section
    case NoSection => true
    case InTier(name) => name in s.cfg.tiers
    case InAdapter(name) => name in s.cfg.adapters
    case InAmbient(name) => name in s.cfg.ambient
  }

  lemma {:induction false} ParseAllReadBack(raw: seq<string>)
    requires QuoteFree(raw) && ParseAll(raw).Some?
    ensures ReadBack(ParseAll(raw).value) && |ParseAll(raw).value| == |raw|
  {
    if raw != [] {
      assert QuoteFree(raw[1..]);
      ParseAllReadBack(raw[1..]);
      ParseThenPrint(raw[0]);
      PrintThenParse(ParseCandidate(raw[0]).value);
    }
  }

  lemma CandidatesReadBack(line: string)
    requires ParseCandidatesLine(line).Some?
    ensures ReadBack(ParseCandidatesLine(line).value) && ParseCandidatesLine(line).value != []
  {
    TokensQuoteFree(TrimSpace(ArrayInside(line, CANDIDATES).value));
    ParseAllReadBack(ParseStringArrayLine(line, CANDIDATES).value);
  }

  lemma AmbientLineModels(ac: Ambient, line: string)
    requires AmbientLine(ac, line).Some? && forall tier | tier in ac.models :: ac.models[tier] != []
    ensures forall tier | tier in AmbientLine(ac, line).value.models :: AmbientLine(ac, line).value.models[tier] != []
  {
  }

  lemma ContentSound(s: State, line: string)
    requires Sound(s.cfg) && Known(s) && Content(s, line).Some?
    ensures Sound(Content(s, line).value.cfg) && Known(Content(s, line).value)
  {
    match s.section
    case NoSection =>
    case InTier(name) => CandidatesReadBack(line);
    case InAdapter(name) =>
    case InAmbient(name) => AmbientLineModels(s.cfg.ambient[name], line);
  }

  lemma HeaderSound(s: State, line: string)
    requires Sound(s.cfg) && line != "" && Header(s, line).Some?
    ensures Sound(Header(s, line).value.cfg) && Known(Header(s, line).value)
  {
  }

  lemma {:induction false} ReadLinesSound(lines: seq<string>)
    requires ReadLines(ReadLine, lines).Some?
    ensures Sound(ReadLines(ReadLine, lines).value.cfg) && Known(ReadLines(ReadLine, lines).value)
  {
    if lines != [] {
      ReadLinesSound(lines[..|lines| - 1]);
      var s, line := ReadLines(ReadLine, lines[..|lines| - 1]).value, TrimSpace(lines[|lines| - 1]);
      if line != "" && line[0] == '[' {
        HeaderSound(s, line);
      } else if line != "" && line[0] != '#' {
        ContentSound(s, line);
      }
    }
  }

  /** Whatever file parses: no tier is empty, and every candidate survives printing and parsing. */
  lemma ParsedSound(data: string)
    requires Parsed(data).Some?
    ensures Complete(Parsed(data).value) && Sound(Parsed(data).value)
  {
    ReadLinesSound(Scanned(RawLines(data), MAX_TOKEN));
  }

  // ---------------------------------------------------------------- printing a file and reading it

  datatype ModelList = ModelList(tier: string, models: seq<string>)

  /** One section of a file, with all its keys. */
  datatype Entry =
    | TierEntry(name: string, cands: seq<Candidate>)
    | AdapterEntry(name: string, adapter: Adapter)
    | AmbientEntry(name: string, detector: string, governTiers: seq<string>, models: seq<ModelList>)

  function Prints(cands: seq<Candidate>): (texts: seq<string>)
    ensures |texts| == |cands| && forall i | 0 <= i < |cands| :: texts[i] == Print(cands[i])
  {
    seq(|cands|, i requires 0 <= i < |cands| => Print(cands[i]))
  }

  function HeaderLine(prefix: string, name: string): string {
    "[" + (prefix + name) + "]"
  }

  function ValueLine(key: string, value: string): string {
    key + " = \"" + value + "\""
  }

  function ModelsLines(models: seq<ModelList>): seq<string> {
    if models == [] then []
    else ModelsLines(models[..|models| - 1])
         + [PrintArrayLine(models[|models| - 1].tier + MODELS, models[|models| - 1].models)]
  }

  function EntryLines(e: Entry): seq<string> {
    match e
    case TierEntry(name, cands) => [HeaderLine(TIERS, name), PrintArrayLine(CANDIDATES, Prints(cands))]
    case AdapterEntry(name, ac) =>
      [HeaderLine(ADAPTER, name), PrintArrayLine("argv", ac.argv), ValueLine("report", ac.report), ValueLine("timeout", ac.timeout)]
    case AmbientEntry(name, detector, governTiers, models) =>
      [HeaderLine(AMBIENT, name), ValueLine("detector", detector), PrintArrayLine("govern_tiers", governTiers)] + ModelsLines(models)
  }

  function FileLines(entries: seq<Entry>): seq<string> {
    if entries == [] then [] else FileLines(entries[..|entries| - 1]) + EntryLines(entries[|entries| - 1])
  }

  function AddModels(old_: map<string, seq<string>>, models: seq<ModelList>): map<string, seq<string>> {
    if models == [] then old_
    else AddModels(old_, models[..|models| - 1])[models[|models| - 1].tier := models[|models| - 1].models]
  }

  /** The configuration after a section: a later one of the same name replaces what it mentions. */
  function Declared(cfg: Config, e: Entry): Config {
    match e
    case TierEntry(name, cands) => cfg.(tiers := cfg.tiers[name := cands])
    case AdapterEntry(name, ac) => cfg.(adapters := cfg.adapters[name := ac])
    case AmbientEntry(name, detector, governTiers, models) =>
      var before := if name in cfg.ambient then cfg.ambient[name].models else map[];
      cfg.(ambient := cfg.ambient[name := Ambient(detector, governTiers, AddModels(before, models))])
  }

  function DeclaredAll(entries: seq<Entry>): Config {
    if entries == [] then EMPTY else Declared(DeclaredAll(entries[..|entries| - 1]), entries[|entries| - 1])
  }

  ghost predicate AllUnbroken(values: seq<string>) {
    forall i | 0 <= i < |values| :: Unbroken(values[i])
  }

  /** A model list the section's other keys do not get in the way of. */
  ghost predicate DeclarableModels(m: ModelList) {
    && m.models != [] && QuoteFree(m.models)
    && Tight(m.tier) && '=' !in m.tier && !ContainsAny(m.tier, " \t.[]") && m.tier[0] != '#'
    && !HasPrefix(m.tier + MODELS, "detector") && !HasPrefix(m.tier + MODELS, "govern_tiers")
  }

  /** What the section's lines can hold. */
  ghost predicate Declarable(e: Entry) {
    && e.name != ""
    && match e
       case TierEntry(name, cands) => !ContainsAny(name, " \t.[]") && cands != [] && ReadBack(cands)
       case AdapterEntry(name, ac) => !ContainsAny(name, " \t[]") && QuoteFree(ac.argv)
       case AmbientEntry(name, detector, governTiers, models) =>
         && !ContainsAny(name, " \t[]") && detector != "" && governTiers != [] && QuoteFree(governTiers)
         && models != [] && forall i | 0 <= i < |models| :: DeclarableModels(models[i])
  }

  /** No name and no value has a line break in it. */
  ghost predicate OneLiners(e: Entry) {
    && Unbroken(e.name)
    && match e
       case TierEntry(_, cands) => AllUnbroken(Prints(cands))
       case AdapterEntry(_, ac) => AllUnbroken(ac.argv) && Unbroken(ac.report) && Unbroken(ac.timeout)
       case AmbientEntry(_, detector, governTiers, models) =>
         && Unbroken(detector) && AllUnbroken(governTiers)
         && forall i | 0 <= i < |models| :: Unbroken(models[i].tier) && AllUnbroken(models[i].models)
  }

  function Fold(read: Reader, s: State, lines: seq<string>): Option<State>
    decreases |lines|
  {
    if lines == [] then Some(s)
    else
      match read(s, lines[0])
      case None => None
      case Some(next) => Fold(read, next, lines[1..])
  }

  lemma {:induction false} FoldSnoc(read: Reader, s: State, lines: seq<string>, line: string)
    requires Fold(read, s, lines).Some?
    ensures Fold(read, s, lines + [line]) == read(Fold(read, s, lines).value, line)
    decreases |lines|
  {
    if lines == [] {
      assert [line][1..] == [];
    } else {
      assert (lines + [line])[1..] == lines[1..] + [line];
      FoldSnoc(read, read(s, lines[0]).value, lines[1..], line);
    }
  }

  lemma FoldTwo(read: Reader, s: State, a: string, b: string, t: State, u: State)
    requires read(s, a) == Some(t) && read(t, b) == Some(u)
    ensures Fold(read, s, [a, b]) == Some(u)
  {
    assert [a, b][1..] == [b] && [b][1..] == [];
    assert Fold(read, t, [b]) == Some(u);
  }

  lemma FoldThree(read: Reader, s: State, a: string, b: string, c: string, t: State, u: State, v: State)
    requires read(s, a) == Some(t) && read(t, b) == Some(u) && read(u, c) == Some(v)
    ensures Fold(read, s, [a, b, c]) == Some(v)
  {
    FoldTwo(read, s, a, b, t, u);
    FoldSnoc(read, s, [a, b], c);
    assert [a, b] + [c] == [a, b, c];
  }

  lemma FoldFour(read: Reader, s: State, a: string, b: string, c: string, d: string, t: State, u: State, v: State, w: State)
    requires read(s, a) == Some(t) && read(t, b) == Some(u) && read(u, c) == Some(v) && read(v, d) == Some(w)
    ensures Fold(read, s, [a, b, c, d]) == Some(w)
  {
    FoldThree(read, s, a, b, c, t, u, v);
    FoldSnoc(read, s, [a, b, c], d);
    assert [a, b, c] + [d] == [a, b, c, d];
  }

  lemma {:induction false} ReadLinesConcat(a: seq<string>, b: seq<string>)
    requires ReadLines(ReadLine, a).Some? && Fold(ReadLine, ReadLines(ReadLine, a).value, b).Some?
    ensures ReadLines(ReadLine, a + b) == Fold(ReadLine, ReadLines(ReadLine, a).value, b)
    decreases |b|
  {
    if b == [] {
      assert a + b == a;
    } else {
      var more := a + [b[0]];
      assert more[..|more| - 1] == a;
      assert a + b == more + b[1..];
      ReadLinesConcat(more, b[1..]);
    }
  }

  lemma {:induction false} ParseAllPrints(cands: seq<Candidate>)
    requires ReadBack(cands)
    ensures ParseAll(Prints(cands)) == Some(cands)
  {
    if cands != [] {
      assert Prints(cands)[1..] == Prints(cands[1..]);
      ParseAllPrints(cands[1..]);
      assert cands == [cands[0]] + cands[1..];
    }
  }

  /** A line as the parser sees it: not blank, not a comment, not a header, and starting with its key. */
  ghost predicate Plain(line: string, key: string) {
    line != "" && TrimSpace(line) == line && line[0] != '#' && line[0] != '[' && HasPrefix(line, key)
  }

  lemma ArrayLinePlain(key: string, values: seq<string>)
    requires PlainKey(key) && key[0] != '#' && key[0] != '['
    ensures Plain(PrintArrayLine(key, values), key)
    ensures QuoteFree(values) ==> ParseStringArrayLine(PrintArrayLine(key, values), key) == Some(values)
  {
    var line := PrintArrayLine(key, values);
    InsideOf(key, Quoted(values));
    TrimTight(line);
    ArrayRoundTrip(key, values);
    assert line[..|key|] == key && line[0] == key[0];
  }

  lemma ValueLineParts(key: string, val: string, line: string)
    requires Tight(key) && Tight(val) && line == key + (" = " + val)
    ensures Tight(line) && line[..|key|] == key && line[0] == key[0]
    ensures line == (key + " ") + ['='] + (" " + val)
  {
    assert " = " + val == " " + (['='] + (" " + val));
  }

  lemma ValueParsed(key: string, val: string, line: string)
    requires PlainKey(key) && Tight(val) && |val| >= 2 && val[0] == val[|val| - 1] == QUOTE
    requires line == (key + " ") + ['='] + (" " + val)
    ensures ParseStringValue(line, key) == Some(val[1..|val| - 1])
  {
    CutJoined(key + " ", '=', " " + val);
    TrimTight(key);
    TrimTight(val);
  }

  /** A quoted value reads back whatever is in it, quotes included. */
  lemma ValueLinePlain(key: string, value: string)
    requires PlainKey(key) && key[0] != '#' && key[0] != '['
    ensures Plain(ValueLine(key, value), key)
    ensures ParseStringValue(ValueLine(key, value), key) == Some(value)
  {
    var line, val := ValueLine(key, value), "\"" + value + "\"";
    assert line == key + (" = " + val) && val[1..|val| - 1] == value;
    ValueLineParts(key, val, line);
    ValueParsed(key, val, line);
    TrimTight(line);
  }

  lemma HeaderParts(prefix: string, name: string)
    ensures var line := HeaderLine(prefix, name);
      && TrimSpace(line) == line && |line| >= 2 && line[0] == '[' && line[|line| - 1] == ']' && line[1..|line| - 1] == prefix + name
    ensures HasPrefix(prefix + name, prefix) && (prefix + name)[|prefix|..] == name
  {
    TrimTight(HeaderLine(prefix, name));
  }

  lemma ReadHeaderLine(s: State, prefix: string, name: string)
    requires prefix == TIERS || prefix == ADAPTER || prefix == AMBIENT
    ensures ReadLine(s, HeaderLine(prefix, name)) ==
      if prefix == TIERS then TierHeader(s, name) else if prefix == ADAPTER then AdapterHeader(s, name) else AmbientHeader(s, name)
  {
    HeaderParts(prefix, name);
    FirstByte(prefix, name);
  }

  /** The three kinds of header are told apart. */
  lemma FirstByte(prefix: string, name: string)
    requires prefix == TIERS || prefix == ADAPTER || prefix == AMBIENT
    ensures HasPrefix(prefix + name, TIERS) <==> prefix == TIERS
    ensures HasPrefix(prefix + name, ADAPTER) <==> prefix == ADAPTER
  {
    var s := prefix + name;
    assert s[..|prefix|] == prefix;
    assert TIERS[0] == 't' && ADAPTER[1] == 'd' && AMBIENT[1] == 'm' && ADAPTER[0] == 'a' && AMBIENT[0] == 'a';
    assert s[0] == prefix[0] && s[1] == prefix[1];
    assert HasPrefix(s, TIERS) ==> s[0] == s[..|TIERS|][0] == 't';
    assert HasPrefix(s, ADAPTER) ==> s[1] == s[..|ADAPTER|][1] == 'd' && s[0] == s[..|ADAPTER|][0];
  }

  // ---------------------------------------------------------------- sections read back

  lemma PrintedCandidates(cands: seq<Candidate>)
    requires cands != [] && ReadBack(cands)
    ensures ParseCandidatesLine(PrintArrayLine(CANDIDATES, Prints(cands))) == Some(cands)
  {
    ArrayRoundTrip(CANDIDATES, Prints(cands));
    ParseAllPrints(cands);
  }

  /** A plain line is read by the section it stands in. */
  lemma ContentLine(s: State, line: string, key: string)
    requires Plain(line, key)
    ensures ReadLine(s, line) == Content(s, line)
  {
  }

  lemma SetTier(s: State, name: string, cands: seq<Candidate>, line: string) returns (t: State)
    requires s.section == InTier(name) && Plain(line, CANDIDATES) && ParseCandidatesLine(line) == Some(cands)
    ensures ReadLine(s, line) == Some(t) && t == State(InTier(name), s.cfg.(tiers := s.cfg.tiers[name := cands]))
  {
    ContentLine(s, line, CANDIDATES);
    t := State(InTier(name), s.cfg.(tiers := s.cfg.tiers[name := cands]));
  }

  lemma OtherKey(line: string, key: string, other: string)
    requires HasPrefix(line, key) && key != "" && other != "" && key[0] != other[0]
    ensures !HasPrefix(line, other)
  {
    assert line[0] == line[..|key|][0];
    assert |other| <= |line| ==> line[0] == line[..|other|][0];
  }

  lemma AdapterKeys(ac: Adapter, line: string, key: string)
    requires Plain(line, key) && key in {"argv", "report", "timeout"}
    ensures key == "argv" && ParseStringArrayLine(line, key).Some? ==>
      AdapterLine(ac, line) == Some(ac.(argv := ParseStringArrayLine(line, key).value))
    ensures key == "report" && ParseStringValue(line, key).Some? ==>
      AdapterLine(ac, line) == Some(ac.(report := ParseStringValue(line, key).value))
    ensures key == "timeout" && ParseStringValue(line, key).Some? ==>
      AdapterLine(ac, line) == Some(ac.(timeout := ParseStringValue(line, key).value))
  {
    if key != "argv" {
      OtherKey(line, key, "argv");
      if key != "report" {
        OtherKey(line, key, "report");
      }
    }
  }

  lemma SetAdapter(s: State, name: string, line: string, key: string, ac: Adapter) returns (t: State)
    requires s.section == InAdapter(name) && name in s.cfg.adapters && Plain(line, key)
    requires AdapterLine(s.cfg.adapters[name], line) == Some(ac)
    ensures ReadLine(s, line) == Some(t) && t.section == InAdapter(name)
    ensures t.cfg == s.cfg.(adapters := t.cfg.adapters) && t.cfg.adapters == s.cfg.adapters[name := ac]
  {
    ContentLine(s, line, key);
    t := State(InAdapter(name), s.cfg.(adapters := s.cfg.adapters[name := ac]));
  }

  // ---------------------------------------------------------------- ambient sections

  lemma SetAmbient(s: State, name: string, line: string, key: string, ac: Ambient) returns (t: State)
    requires s.section == InAmbient(name) && name in s.cfg.ambient && Plain(line, key)
    requires AmbientLine(s.cfg.ambient[name], line) == Some(ac)
    ensures ReadLine(s, line) == Some(t) && t.section == InAmbient(name)
    ensures t.cfg == s.cfg.(ambient := t.cfg.ambient) && t.cfg.ambient == s.cfg.ambient[name := ac]
  {
    ContentLine(s, line, key);
    t := State(InAmbient(name), s.cfg.(ambient := s.cfg.ambient[name := ac]));
  }

  lemma DetectorLine(ac: Ambient, line: string, detector: string)
    requires Plain(line, "detector") && ParseStringValue(line, "detector") == Some(detector) && detector != ""
    ensures AmbientLine(ac, line) == Some(ac.(detector := detector))
  {
  }

  lemma GovernLine(ac: Ambient, line: string, tiers: seq<string>)
    requires Plain(line, "govern_tiers") && ParseStringArrayLine(line, "govern_tiers") == Some(tiers) && tiers != []
    ensures AmbientLine(ac, line) == Some(ac.(governTiers := tiers))
  {
    OtherKey(line, "govern_tiers", "detector");
  }

  /** A line starts with a word exactly if its key does. */
  lemma LinePrefix(key: string, rest: string, word: string)
    requires ' ' !in word
    ensures HasPrefix(key + (" " + rest), word) <==> HasPrefix(key, word)
  {
    var line := key + (" " + rest);
    if |word| <= |key| {
      assert line[..|word|] == key[..|word|];
    } else {
      assert line[|key|] == ' ' && word[|key|] in word;
      assert |word| <= |line| ==> line[..|word|][|key|] == ' ';
    }
  }

  lemma ModelsLineReads(ac: Ambient, m: ModelList)
    requires DeclarableModels(m)
    ensures var line := PrintArrayLine(m.tier + MODELS, m.models);
      Plain(line, m.tier + MODELS) && AmbientLine(ac, line) == Some(ac.(models := ac.models[m.tier := m.models]))
  {
    var line, after := PrintArrayLine(m.tier + MODELS, m.models), "= [" + Quoted(m.models) + "]";
    ModelsLineText(m, line, after);
    ModelsLineAccepted(ac, m, line, after);
  }

  lemma ArrayLineParts(key: string, inner: string, after: string)
    requires after == "= [" + inner + "]"
    ensures key + " = [" + inner + "]" == key + (" " + after)
  {
    assert " = [" + inner + "]" == " " + after;
    assert key + " = [" + inner + "]" == key + (" = [" + inner + "]");
  }

  lemma ModelsLineText(m: ModelList, line: string, after: string)
    requires DeclarableModels(m) && line == PrintArrayLine(m.tier + MODELS, m.models) && after == "= [" + Quoted(m.models) + "]"
    ensures line == m.tier + MODELS + (" " + after)
    ensures Plain(line, m.tier + MODELS) && ParseStringArrayLine(line, m.tier + MODELS) == Some(m.models)
  {
    KeyOfModels(m);
    ArrayLinePlain(m.tier + MODELS, m.models);
    ArrayLineParts(m.tier + MODELS, Quoted(m.models), after);
  }

  lemma ModelsLineAccepted(ac: Ambient, m: ModelList, line: string, after: string)
    requires DeclarableModels(m) && after != "" && after[0] == '=' && line == m.tier + MODELS + (" " + after)
    requires ParseStringArrayLine(line, m.tier + MODELS) == Some(m.models)
    ensures AmbientLine(ac, line) == Some(ac.(models := ac.models[m.tier := m.models]))
  {
    ModelsLineKind(m, line, after);
    ModelsLineRead(ac, line);
    ModelsLineParts(ac, m, line, after);
  }

  lemma ModelsLineRead(ac: Ambient, line: string)
    requires !HasPrefix(line, "detector") && !HasPrefix(line, "govern_tiers") && Contains(line, MODELS)
    ensures AmbientLine(ac, line) == ModelsLine(ac, line)
  {
  }

  lemma ModelsLineKind(m: ModelList, line: string, after: string)
    requires DeclarableModels(m) && line == m.tier + MODELS + (" " + after)
    ensures !HasPrefix(line, "detector") && !HasPrefix(line, "govern_tiers") && Contains(line, MODELS)
  {
    var key := m.tier + MODELS;
    LinePrefix(key, after, "detector");
    LinePrefix(key, after, "govern_tiers");
    assert line[|m.tier|..] == MODELS + (" " + after) && (MODELS + (" " + after))[..|MODELS|] == MODELS;
    assert HasPrefix(line[|m.tier|..], MODELS);
  }

  lemma KeyOfModels(m: ModelList)
    requires DeclarableModels(m)
    ensures var key := m.tier + MODELS;
      PlainKey(key) && key[0] != '#' && key[0] != '[' && HasSuffix(key, MODELS) && key[..|key| - |MODELS|] == m.tier
  {
    var key := m.tier + MODELS;
    assert !(m.tier[0] in " \t.[]");
    assert " \t.[]"[3] == '[';
    assert key[|m.tier|..] == MODELS;
  }

  lemma ModelsLineParts(ac: Ambient, m: ModelList, line: string, after: string)
    requires DeclarableModels(m) && after != "" && after[0] == '=' && line == m.tier + MODELS + (" " + after)
    requires ParseStringArrayLine(line, m.tier + MODELS) == Some(m.models)
    ensures ModelsLine(ac, line) == Some(ac.(models := ac.models[m.tier := m.models]))
  {
    var key := m.tier + MODELS;
    KeyOfModels(m);
    assert line == (key + " ") + ['='] + after[1..];
    CutJoined(key + " ", '=', after[1..]);
    TrimTight(key);
  }

  /** The model lines of an ambient section, read one after the other. */
  lemma {:induction false} ReadModels(s: State, lines: seq<string>, t: State, name: string, models: seq<ModelList>) returns (u: State)
    requires Fold(ReadLine, s, lines) == Some(t) && t.section == InAmbient(name) && name in t.cfg.ambient
    requires forall i | 0 <= i < |models| :: DeclarableModels(models[i])
    ensures Fold(ReadLine, s, lines + ModelsLines(models)) == Some(u) && u.section == InAmbient(name)
    ensures u.cfg == t.cfg.(ambient := u.cfg.ambient)
    ensures var ac := t.cfg.ambient[name];
      u.cfg.ambient == t.cfg.ambient[name := ac.(models := AddModels(ac.models, models))]
    decreases |models|
  {
    if models == [] {
      assert lines + [] == lines;
      assert t.cfg.ambient == t.cfg.ambient[name := t.cfg.ambient[name]];
      u := t;
    } else {
      var fewer, m := models[..|models| - 1], models[|models| - 1];
      var v := ReadModels(s, lines, t, name, fewer);
      var line := PrintArrayLine(m.tier + MODELS, m.models);
      u := SetModels(v, name, m);
      FoldSnoc(ReadLine, s, lines + ModelsLines(fewer), line);
      assert lines + ModelsLines(models) == lines + ModelsLines(fewer) + [line];
    }
  }

  lemma SetModels(s: State, name: string, m: ModelList) returns (t: State)
    requires s.section == InAmbient(name) && name in s.cfg.ambient && DeclarableModels(m)
    ensures ReadLine(s, PrintArrayLine(m.tier + MODELS, m.models)) == Some(t) && t.section == InAmbient(name)
    ensures var ac := s.cfg.ambient[name];
      && t.cfg == s.cfg.(ambient := t.cfg.ambient)
      && t.cfg.ambient == s.cfg.ambient[name := ac.(models := ac.models[m.tier := m.models])]
  {
    var ac := s.cfg.ambient[name];
    ModelsLineReads(ac, m);
    t := SetAmbient(s, name, PrintArrayLine(m.tier + MODELS, m.models), m.tier + MODELS, ac.(models := ac.models[m.tier := m.models]));
  }

  // ---------------------------------------------------------------- whole files read back

  /** The section a printed entry leaves the parser in. */
  function SectionOf(e: Entry): Section {
    match e
    case TierEntry(name, _) => InTier(name)
    case AdapterEntry(name, _) => InAdapter(name)
    case AmbientEntry(name, _, _, _) => InAmbient(name)
  }

  lemma OpenTier(s: State, name: string, cands: seq<Candidate>) returns (t: State)
    requires name != "" && !ContainsAny(name, " \t.[]")
    ensures ReadLine(s, HeaderLine(TIERS, name)) == Some(t) && t.section == InTier(name)
    ensures t.cfg.(tiers := t.cfg.tiers[name := cands]) == s.cfg.(tiers := s.cfg.tiers[name := cands])
  {
    ReadHeaderLine(s, TIERS, name);
    t := TierHeader(s, name).value;
    assert t.cfg.tiers[name := cands] == s.cfg.tiers[name := cands];
  }

  lemma OpenAdapter(s: State, name: string, ac: Adapter) returns (t: State)
    requires name != "" && !ContainsAny(name, " \t[]")
    ensures ReadLine(s, HeaderLine(ADAPTER, name)) == Some(t) && t.section == InAdapter(name) && name in t.cfg.adapters
    ensures t.cfg.(adapters := t.cfg.adapters[name := ac]) == s.cfg.(adapters := s.cfg.adapters[name := ac])
  {
    ReadHeaderLine(s, ADAPTER, name);
    t := AdapterHeader(s, name).value;
    assert t.cfg.adapters[name := ac] == s.cfg.adapters[name := ac];
  }

  lemma OpenAmbient(s: State, name: string, ac: Ambient) returns (t: State)
    requires name != "" && !ContainsAny(name, " \t[]")
    ensures ReadLine(s, HeaderLine(AMBIENT, name)) == Some(t) && t.section == InAmbient(name) && name in t.cfg.ambient
    ensures t.cfg.ambient[name].models == if name in s.cfg.ambient then s.cfg.ambient[name].models else map[]
    ensures t.cfg.(ambient := t.cfg.ambient[name := ac]) == s.cfg.(ambient := s.cfg.ambient[name := ac])
  {
    ReadHeaderLine(s, AMBIENT, name);
    t := AmbientHeader(s, name).value;
    assert t.cfg.ambient[name := ac] == s.cfg.ambient[name := ac];
  }

  lemma ReadTierEntry(s: State, e: Entry)
    requires e.TierEntry? && Declarable(e)
    ensures Fold(ReadLine, s, EntryLines(e)) == Some(State(SectionOf(e), Declared(s.cfg, e)))
  {
    var header, line := HeaderLine(TIERS, e.name), PrintArrayLine(CANDIDATES, Prints(e.cands));
    var t := OpenTier(s, e.name, e.cands);
    ArrayLinePlain(CANDIDATES, Prints(e.cands));
    PrintedCandidates(e.cands);
    var u := SetTier(t, e.name, e.cands, line);
    FoldTwo(ReadLine, s, header, line, t, u);
  }

  lemma SetArgv(s: State, name: string, argv: seq<string>) returns (t: State)
    requires s.section == InAdapter(name) && name in s.cfg.adapters && QuoteFree(argv)
    ensures ReadLine(s, PrintArrayLine("argv", argv)) == Some(t) && t.section == InAdapter(name)
    ensures t.cfg == s.cfg.(adapters := s.cfg.adapters[name := s.cfg.adapters[name].(argv := argv)])
  {
    ArrayLinePlain("argv", argv);
    AdapterKeys(s.cfg.adapters[name], PrintArrayLine("argv", argv), "argv");
    t := SetAdapter(s, name, PrintArrayLine("argv", argv), "argv", s.cfg.adapters[name].(argv := argv));
  }

  lemma SetReport(s: State, name: string, report: string) returns (t: State)
    requires s.section == InAdapter(name) && name in s.cfg.adapters
    ensures ReadLine(s, ValueLine("report", report)) == Some(t) && t.section == InAdapter(name)
    ensures t.cfg == s.cfg.(adapters := s.cfg.adapters[name := s.cfg.adapters[name].(report := report)])
  {
    ValueLinePlain("report", report);
    AdapterKeys(s.cfg.adapters[name], ValueLine("report", report), "report");
    t := SetAdapter(s, name, ValueLine("report", report), "report", s.cfg.adapters[name].(report := report));
  }

  lemma SetTimeout(s: State, name: string, timeout: string) returns (t: State)
    requires s.section == InAdapter(name) && name in s.cfg.adapters
    ensures ReadLine(s, ValueLine("timeout", timeout)) == Some(t) && t.section == InAdapter(name)
    ensures t.cfg == s.cfg.(adapters := s.cfg.adapters[name := s.cfg.adapters[name].(timeout := timeout)])
  {
    ValueLinePlain("timeout", timeout);
    AdapterKeys(s.cfg.adapters[name], ValueLine("timeout", timeout), "timeout");
    t := SetAdapter(s, name, ValueLine("timeout", timeout), "timeout", s.cfg.adapters[name].(timeout := timeout));
  }

  lemma ReadAdapterEntry(s: State, e: Entry)
    requires e.AdapterEntry? && Declarable(e)
    ensures Fold(ReadLine, s, EntryLines(e)) == Some(State(SectionOf(e), Declared(s.cfg, e)))
  {
    var name, ac := e.name, e.adapter;
    var t := OpenAdapter(s, name, ac);
    var u := SetArgv(t, name, ac.argv);
    var v := SetReport(u, name, ac.report);
    var w := SetTimeout(v, name, ac.timeout);
    assert w.cfg == t.cfg.(adapters := t.cfg.adapters[name := ac]);
    FoldFour(ReadLine, s, HeaderLine(ADAPTER, name), PrintArrayLine("argv", ac.argv), ValueLine("report", ac.report),
             ValueLine("timeout", ac.timeout), t, u, v, w);
  }

  lemma SetDetector(s: State, name: string, detector: string) returns (t: State)
    requires s.section == InAmbient(name) && name in s.cfg.ambient && detector != ""
    ensures ReadLine(s, ValueLine("detector", detector)) == Some(t) && t.section == InAmbient(name)
    ensures t.cfg == s.cfg.(ambient := s.cfg.ambient[name := s.cfg.ambient[name].(detector := detector)])
  {
    ValueLinePlain("detector", detector);
    DetectorLine(s.cfg.ambient[name], ValueLine("detector", detector), detector);
    t := SetAmbient(s, name, ValueLine("detector", detector), "detector", s.cfg.ambient[name].(detector := detector));
  }

  lemma SetGovern(s: State, name: string, tiers: seq<string>) returns (t: State)
    requires s.section == InAmbient(name) && name in s.cfg.ambient && tiers != [] && QuoteFree(tiers)
    ensures ReadLine(s, PrintArrayLine("govern_tiers", tiers)) == Some(t) && t.section == InAmbient(name)
    ensures t.cfg == s.cfg.(ambient := s.cfg.ambient[name := s.cfg.ambient[name].(governTiers := tiers)])
  {
    var line := PrintArrayLine("govern_tiers", tiers);
    ArrayLinePlain("govern_tiers", tiers);
    GovernLine(s.cfg.ambient[name], line, tiers);
    t := SetAmbient(s, name, line, "govern_tiers", s.cfg.ambient[name].(governTiers := tiers));
  }

  lemma ReadAmbientKeys(s: State, name: string, detector: string, tiers: seq<string>) returns (t: State)
    requires name != "" && !ContainsAny(name, " \t[]") && detector != "" && tiers != [] && QuoteFree(tiers)
    ensures var lines := [HeaderLine(AMBIENT, name), ValueLine("detector", detector), PrintArrayLine("govern_tiers", tiers)];
      Fold(ReadLine, s, lines) == Some(t)
    ensures t.section == InAmbient(name)
    ensures var before := if name in s.cfg.ambient then s.cfg.ambient[name].models else map[];
      t.cfg == s.cfg.(ambient := s.cfg.ambient[name := Ambient(detector, tiers, before)])
  {
    var header, first, second := HeaderLine(AMBIENT, name), ValueLine("detector", detector), PrintArrayLine("govern_tiers", tiers);
    var v := ReadAmbientStart(s, name, detector, tiers);
    t := SetGovern(v, name, tiers);
    FoldSnoc(ReadLine, s, [header, first], second);
    assert [header, first] + [second] == [header, first, second];
  }

  lemma ReadAmbientStart(s: State, name: string, detector: string, tiers: seq<string>) returns (t: State)
    requires name != "" && !ContainsAny(name, " \t[]") && detector != ""
    ensures Fold(ReadLine, s, [HeaderLine(AMBIENT, name), ValueLine("detector", detector)]) == Some(t)
    ensures t.section == InAmbient(name) && name in t.cfg.ambient
    ensures var before := if name in s.cfg.ambient then s.cfg.ambient[name].models else map[];
      t.cfg.(ambient := t.cfg.ambient[name := t.cfg.ambient[name].(governTiers := tiers)])
      == s.cfg.(ambient := s.cfg.ambient[name := Ambient(detector, tiers, before)])
  {
    var before := if name in s.cfg.ambient then s.cfg.ambient[name].models else map[];
    var u := OpenAmbient(s, name, Ambient(detector, tiers, before));
    t := SetDetector(u, name, detector);
    FoldTwo(ReadLine, s, HeaderLine(AMBIENT, name), ValueLine("detector", detector), u, t);
    assert t.cfg.(ambient := t.cfg.ambient[name := t.cfg.ambient[name].(governTiers := tiers)])
        == u.cfg.(ambient := u.cfg.ambient[name := Ambient(detector, tiers, before)]);
  }

  lemma ReadAmbientEntry(s: State, e: Entry)
    requires e.AmbientEntry? && Declarable(e)
    ensures Fold(ReadLine, s, EntryLines(e)) == Some(State(SectionOf(e), Declared(s.cfg, e)))
  {
    var t := ReadAmbientKeys(s, e.name, e.detector, e.governTiers);
    var lines := [HeaderLine(AMBIENT, e.name), ValueLine("detector", e.detector), PrintArrayLine("govern_tiers", e.governTiers)];
    var u := ReadModels(s, lines, t, e.name, e.models);
    assert u.cfg == Declared(s.cfg, e);
  }

  lemma ReadEntry(s: State, e: Entry)
    requires Declarable(e)
    ensures Fold(ReadLine, s, EntryLines(e)) == Some(State(SectionOf(e), Declared(s.cfg, e)))
  {
    match e
    case TierEntry(_, _) => ReadTierEntry(s, e);
    case AdapterEntry(_, _) => ReadAdapterEntry(s, e);
    case AmbientEntry(_, _, _, _) => ReadAmbientEntry(s, e);
  }

  lemma {:induction false} ReadFile(entries: seq<Entry>)
    requires forall i | 0 <= i < |entries| :: Declarable(entries[i])
    ensures ReadLines(ReadLine, FileLines(entries)).Some? && ReadLines(ReadLine, FileLines(entries)).value.cfg == DeclaredAll(entries)
  {
    if entries != [] {
      var fewer, e := entries[..|entries| - 1], entries[|entries| - 1];
      ReadFile(fewer);
      var s := ReadLines(ReadLine, FileLines(fewer)).value;
      ReadEntry(s, e);
      ReadLinesConcat(FileLines(fewer), EntryLines(e));
    }
  }

  lemma AddedModels(before: map<string, seq<string>>, models: seq<ModelList>)
    requires models != []
    ensures AddModels(before, models) != map[]
  {
    assert models[|models| - 1].tier in AddModels(before, models);
  }

  lemma {:induction false} DeclaredComplete(entries: seq<Entry>)
    requires forall i | 0 <= i < |entries| :: Declarable(entries[i])
    ensures Complete(DeclaredAll(entries))
  {
    if entries != [] {
      var fewer, e := entries[..|entries| - 1], entries[|entries| - 1];
      DeclaredComplete(fewer);
      assert Declarable(e);
      CompleteMore(DeclaredAll(fewer), e);
    }
  }

  lemma CompleteMore(cfg: Config, e: Entry)
    requires Complete(cfg) && Declarable(e)
    ensures Complete(Declared(cfg, e))
  {
    if e.AmbientEntry? {
      AddedModels(if e.name in cfg.ambient then cfg.ambient[e.name].models else map[], e.models);
    }
  }

  // ---------------------------------------------------------------- the text of a file

  /** A line the scanner gives back as it was written. */
  ghost predicate Kept(line: string) {
    Unbroken(line) && DropCR(line) == line
  }

  ghost predicate AllKept(lines: seq<string>) {
    forall i | 0 <= i < |lines| :: Kept(lines[i])
  }

  lemma {:induction false} QuotedUnbroken(values: seq<string>)
    requires AllUnbroken(values)
    ensures Unbroken(Quoted(values))
    decreases |values|
  {
    if |values| > 1 {
      QuotedUnbroken(values[1..]);
    }
  }

  lemma LinesKept(key: string, values: seq<string>, value: string)
    requires Unbroken(key)
    ensures AllUnbroken(values) ==> Kept(PrintArrayLine(key, values))
    ensures Unbroken(value) ==> Kept(ValueLine(key, value))
  {
    if AllUnbroken(values) {
      QuotedUnbroken(values);
    }
  }

  lemma HeaderKept(prefix: string, name: string)
    requires Unbroken(prefix) && Unbroken(name)
    ensures Kept(HeaderLine(prefix, name))
  {
  }

  lemma {:induction false} ModelsKept(models: seq<ModelList>)
    requires forall i | 0 <= i < |models| :: Unbroken(models[i].tier) && AllUnbroken(models[i].models)
    ensures AllKept(ModelsLines(models))
  {
    if models != [] {
      var m := models[|models| - 1];
      ModelsKept(models[..|models| - 1]);
      LinesKept(m.tier + MODELS, m.models, "");
    }
  }

  lemma AdapterKept(name: string, ac: Adapter)
    requires OneLiners(AdapterEntry(name, ac))
    ensures AllKept(EntryLines(AdapterEntry(name, ac)))
  {
    HeaderKept(ADAPTER, name);
    LinesKept("argv", ac.argv, "");
    LinesKept("report", [], ac.report);
    LinesKept("timeout", [], ac.timeout);
  }

  lemma AmbientKept(name: string, detector: string, governTiers: seq<string>, models: seq<ModelList>)
    requires OneLiners(AmbientEntry(name, detector, governTiers, models))
    ensures AllKept(EntryLines(AmbientEntry(name, detector, governTiers, models)))
  {
    HeaderKept(AMBIENT, name);
    LinesKept("detector", [], detector);
    LinesKept("govern_tiers", governTiers, "");
    ModelsKept(models);
  }

  lemma EntryKept(e: Entry)
    requires OneLiners(e)
    ensures AllKept(EntryLines(e))
  {
    match e
    case TierEntry(name, cands) =>
      HeaderKept(TIERS, name);
      LinesKept(CANDIDATES, Prints(cands), "");
    case AdapterEntry(name, ac) => AdapterKept(name, ac);
    case AmbientEntry(name, detector, governTiers, models) => AmbientKept(name, detector, governTiers, models);
  }

  lemma {:induction false} FileKept(entries: seq<Entry>)
    requires forall i | 0 <= i < |entries| :: OneLiners(entries[i])
    ensures AllKept(FileLines(entries))
  {
    if entries != [] {
      FileKept(entries[..|entries| - 1]);
      EntryKept(entries[|entries| - 1]);
    }
  }

  /** The scanner gives back the lines of a written file. */
  lemma ScannedWritten(lines: seq<string>)
    requires AllKept(lines)
    ensures RawLines(Written(lines)) == lines
    ensures (forall line | line in lines :: |line| < MAX_TOKEN) ==> Scanned(lines, MAX_TOKEN) == lines
  {
    LinesWritten(lines);
    ScannedAll(lines, MAX_TOKEN);
  }

  /** The text of a file with these sections. */
  function FileText(entries: seq<Entry>): string {
    Written(FileLines(entries))
  }

  /** A file written section by section reads back as what was written, exactly if every line fits the scanner. */
  lemma FileRoundTrip(entries: seq<Entry>)
    requires forall i | 0 <= i < |entries| :: Declarable(entries[i]) && OneLiners(entries[i])
    ensures Parsed(FileText(entries)) == Some(DeclaredAll(entries)) <==>
      forall line | line in FileLines(entries) :: |line| < MAX_TOKEN
  {
    var lines := FileLines(entries);
    FileKept(entries);
    ScannedWritten(lines);
    ScannedAll(lines, MAX_TOKEN);
    ReadFile(entries);
    DeclaredComplete(entries);
  }

  // ---------------------------------------------------------------- overriding and resolving

  /** Whole entries of the override replace those of the defaults. */
  function Overridden(cfg: Config, override: Config): Config {
    Config(cfg.tiers + override.tiers, cfg.adapters + override.adapters, cfg.ambient + override.ambient)
  }

  function CandidatesFor(cfg: Config, tier: string): Option<seq<Candidate>> {
    if tier in cfg.tiers then Some(cfg.tiers[tier]) else None
  }

  function Either<T>(first: Option<T>, second: Option<T>): Option<T> {
    if first.Some? then first else second
  }

  /** Defaults, with the project's file over them if there is a readable one. */
  method Load(defaults: string, project: Option<string>) returns (cfg: Option<Config>)
    ensures cfg.Some? <==> Parsed(defaults).Some? && (project.Some? ==> Parsed(project.value).Some?)
    ensures cfg.Some? ==> Complete(cfg.value) && Sound(cfg.value)
    ensures cfg.Some? && project.None? ==> cfg == Parsed(defaults)
    ensures cfg.Some? && project.Some? ==>
      cfg.value == Overridden(Parsed(defaults).value, Parsed(project.value).value)
    // Tier by tier, the project's candidates replace the defaults' whole list.
    ensures cfg.Some? && project.Some? ==>
      var theirs, ours := Parsed(project.value).value, Parsed(defaults).value;
      forall tier :: CandidatesFor(cfg.value, tier) == Either(CandidatesFor(theirs, tier), CandidatesFor(ours, tier))
  {
    cfg := Parse(defaults);
    if cfg.None? {
      return;
    }
    ParsedSound(defaults);
    if project.Some? {
      var override := Parse(project.value);
      if override.None? {
        return None;
      }
      ParsedSound(project.value);
      cfg := Some(Overridden(cfg.value, override.value));
    }
  }

  /** Remainder as Go computes it: the sign is that of the dividend. */
  function Remainder(a: int, n: int): int
    requires n > 0
  {
    if a >= 0 then a % n else -((-a) % n)
  }

  /**
   * The candidate at the bucket's residue, for every integer bucket; an unknown tier is an error. What keeps the
   * remainder from dividing by zero is that no tier is empty.
   */
  method Resolve(cfg: Config, tier: string, bucket: int) returns (c: Option<Candidate>)
    requires tier in cfg.tiers ==> cfg.tiers[tier] != []
    ensures c == if tier in cfg.tiers then Some(cfg.tiers[tier][bucket % |cfg.tiers[tier]|]) else None
  {
    if tier !in cfg.tiers {
      return None;
    }
    var cands := cfg.tiers[tier];
    var idx := Remainder(bucket, |cands|);
    Residue(bucket, |cands|);
    if idx < 0 {
      idx := idx + |cands|;
    }
    return Some(cands[idx]);
  }

  /** The truncated remainder, moved up by `n` when negative, is the residue. */
  lemma Residue(a: int, n: int)
    requires n > 0
    ensures a % n == if Remainder(a, n) < 0 then Remainder(a, n) + n else Remainder(a, n)
  {
    if a < 0 {
      var q, r := (-a) / n, (-a) % n;
      assert -a == q * n + r;
      if r == 0 {
        Quotient(a, n, -q, 0);
      } else {
        assert a == (-q - 1) * n + (n - r);
        Quotient(a, n, -q - 1, n - r);
      }
    }
  }

  lemma Quotient(a: int, n: int, q: int, r: int)
    requires n > 0 && a == q * n + r && 0 <= r < n
    ensures a % n == r
  {
    var k, rest := q - a / n, a % n;
    assert a == (a / n) * n + rest;
    Distribute(q, a / n, n);
    if k >= 1 {
      AtLeast(k, n);
    } else if k <= -1 {
      AtLeast(-k, n);
    }
  }

  lemma Distribute(p: int, q: int, n: int)
    ensures (p - q) * n == p * n - q * n && (q - p) * n == q * n - p * n
  {
  }

  lemma AtLeast(k: int, n: int)
    requires k >= 1 && n > 0
    ensures k * n >= n
  {
  }
}
