/** The one command line that may remove the tool itself: exactly which texts are recognised. */
module CommandForms {
  import opened CommandClass
  import opened ShellLexer
  import opened ShellWords
  import opened Text

  // ---------------------------------------------------------------- the base name of a path

  function TrimSlashes(path: string): (t: string)
    ensures t != "" ==> t[|t| - 1] != '/'
  {
    if path != "" && path[|path| - 1] == '/' then TrimSlashes(path[..|path| - 1]) else path
  }

  /** What follows the last slash. */
  function AfterSlash(path: string): string {
    if path == "" || path[|path| - 1] == '/' then "" else AfterSlash(path[..|path| - 1]) + [path[|path| - 1]]
  }

  function Base(path: string): string {
    if path == "" then "."
    else if TrimSlashes(path) == "" then "/"
    else AfterSlash(TrimSlashes(path))
  }

  lemma {:induction false} AfterSlashIs(path: string, dir: string, name: string)
    requires '/' !in name && path == dir + "/" + name
    ensures AfterSlash(path) == name
    decreases |name|
  {
    if name != "" {
      var n := |name| - 1;
      assert path[..|path| - 1] == dir + "/" + name[..n] && path[|path| - 1] == name[n] && name[n] in name;
      AfterSlashIs(path[..|path| - 1], dir, name[..n]);
    }
  }

  lemma {:induction false} SlashesTrimmed(path: string, slashes: string)
    requires path != "" && path[|path| - 1] != '/' && forall i | 0 <= i < |slashes| :: slashes[i] == '/'
    ensures TrimSlashes(path + slashes) == path
    decreases |slashes|
  {
    if slashes == "" {
      assert path + slashes == path;
    } else {
      var n := |slashes| - 1;
      assert (path + slashes)[..|path + slashes| - 1] == path + slashes[..n];
      SlashesTrimmed(path, slashes[..n]);
    }
  }

  lemma {:induction false} OnlySlashes(slashes: string)
    requires forall i | 0 <= i < |slashes| :: slashes[i] == '/'
    ensures TrimSlashes(slashes) == ""
  {
    if slashes != "" {
      OnlySlashes(slashes[..|slashes| - 1]);
    }
  }

  lemma {:induction false} NoSlash(path: string)
    requires '/' !in path
    ensures AfterSlash(path) == path && TrimSlashes(path) == path
  {
    if path != "" {
      assert path[|path| - 1] in path;
      NoSlash(path[..|path| - 1]);
      assert path[..|path| - 1] + [path[|path| - 1]] == path;
    }
  }

  /** The base name: without directories in front and slashes behind; a dot for nothing, a slash for slashes alone. */
  lemma BaseIs(dir: string, name: string, slashes: string)
    requires name != "" && '/' !in name && forall i | 0 <= i < |slashes| :: slashes[i] == '/'
    ensures Base(name + slashes) == name && Base(dir + "/" + name + slashes) == name
    ensures Base("") == "." && (slashes != "" ==> Base(slashes) == "/")
  {
    assert name[|name| - 1] in name;
    SlashesTrimmed(name, slashes);
    NoSlash(name);
    SlashesTrimmed(dir + "/" + name, slashes);
    AfterSlashIs(dir + "/" + name, dir, name);
    OnlySlashes(slashes);
  }

  // ---------------------------------------------------------------- options

  const PRINT := "--print"
  const PROJECT := "--project"
  const BACKEND := "--backend"
  const BACKEND_EQ := "--backend="

  predicate AllowedBackend(name: string) {
    name == "claude-code" || name == "codex"
  }

  /** Which options have been seen. */
  datatype Seen = Seen(print_: bool, project: bool, backend: bool)

  const NONE_SEEN := Seen(false, false, false)

  /** The options as the loop reads them. */
  predicate ArgsAccepted(args: seq<string>, seen: Seen)
    decreases |args|
  {
    if args == [] then true
    else if args[0] == PRINT then !seen.print_ && ArgsAccepted(args[1..], seen.(print_ := true))
    else if args[0] == PROJECT then !seen.project && ArgsAccepted(args[1..], seen.(project := true))
    else if args[0] == BACKEND then
      !seen.backend && |args| > 1 && AllowedBackend(args[1]) && ArgsAccepted(args[2..], seen.(backend := true))
    else
      && HasPrefix(args[0], BACKEND_EQ) && !seen.backend && AllowedBackend(args[0][|BACKEND_EQ|..])
      && ArgsAccepted(args[1..], seen.(backend := true))
  }

  method AcceptArgs(argv: seq<string>) returns (ok: bool)
    requires |argv| >= 2
    ensures ok <==> ArgsAccepted(argv[2..], NONE_SEEN)
  {
    var seen := NONE_SEEN;
    var i := 2;
    while i < |argv|
      invariant 2 <= i <= |argv|
      invariant ArgsAccepted(argv[2..], NONE_SEEN) <==> ArgsAccepted(argv[i..], seen)
    {
      var used;
      used, seen := AcceptOne(argv[i..], seen);
      if used == 0 {
        return false;
      }
      assert argv[i..][used..] == argv[i + used..];
      i := i + used;
    }
    return true;
  }

  /** One turn of the loop: how many arguments it uses, or none if it refuses. */
  method AcceptOne(rest: seq<string>, seen: Seen) returns (used: nat, seen': Seen)
    requires rest != []
    ensures used == 0 ==> !ArgsAccepted(rest, seen)
    ensures used > 0 ==> used <= |rest| && (ArgsAccepted(rest, seen) <==> ArgsAccepted(rest[used..], seen'))
  {
    var arg := rest[0];
    if arg == PRINT {
      return if seen.print_ then 0 else 1, seen.(print_ := true);
    } else if arg == PROJECT {
      return if seen.project then 0 else 1, seen.(project := true);
    } else if arg == BACKEND {
      return if seen.backend || |rest| < 2 || !AllowedBackend(rest[1]) then 0 else 2, seen.(backend := true);
    } else if HasPrefix(arg, BACKEND_EQ) {
      return if seen.backend || !AllowedBackend(arg[|BACKEND_EQ|..]) then 0 else 1, seen.(backend := true);
    }
    return 0, seen;
  }

  // ---------------------------------------------------------------- the language of options

  datatype Flag = Print | Project | Backend(name: string, joined: bool)

  function Spelled(f: Flag): seq<string> {
    match f
    case Print => [PRINT]
    case Project => [PROJECT]
    case Backend(name, joined) => if joined then [BACKEND_EQ + name] else [BACKEND, name]
  }

  function SpelledAll(flags: seq<Flag>): seq<string> {
    if flags == [] then [] else Spelled(flags[0]) + SpelledAll(flags[1..])
  }

  predicate SameKind(f: Flag, g: Flag) {
    (f.Print? && g.Print?) || (f.Project? && g.Project?) || (f.Backend? && g.Backend?)
  }

  /** Each kind of option at most once, in any order, and only known backends. */
  ghost predicate Proper(flags: seq<Flag>) {
    && (forall i, j | 0 <= i < j < |flags| :: !SameKind(flags[i], flags[j]))
    && (forall i | 0 <= i < |flags| && flags[i].Backend? :: AllowedBackend(flags[i].name))
  }

  predicate SeenKind(seen: Seen, f: Flag) {
    (f.Print? && seen.print_) || (f.Project? && seen.project) || (f.Backend? && seen.backend)
  }

  function Mark(seen: Seen, f: Flag): Seen {
    match f
    case Print => seen.(print_ := true)
    case Project => seen.(project := true)
    case Backend(_, _) => seen.(backend := true)
  }

  /** None of the flags is of a kind already seen. */
  ghost predicate Unseen(flags: seq<Flag>, seen: Seen) {
    forall i | 0 <= i < |flags| :: !SeenKind(seen, flags[i])
  }

  lemma HeadRead(f: Flag, rest: seq<string>, seen: Seen)
    requires f.Backend? ==> AllowedBackend(f.name)
    ensures ArgsAccepted(Spelled(f) + rest, seen) <==> !SeenKind(seen, f) && ArgsAccepted(rest, Mark(seen, f))
  {
    var args := Spelled(f) + rest;
    assert args[|Spelled(f)|..] == rest;
    if f.Backend? && f.joined {
      var text := BACKEND_EQ + f.name;
      assert text[..|BACKEND_EQ|] == BACKEND_EQ && text[|BACKEND_EQ|..] == f.name;
      assert text[9] == '=' && |BACKEND| == 9 && |PRINT| == 7 && |PROJECT| == 9;
    }
  }

  lemma {:induction false} SpelledAccepted(flags: seq<Flag>, seen: Seen)
    requires Proper(flags) && Unseen(flags, seen)
    ensures ArgsAccepted(SpelledAll(flags), seen)
  {
    if flags != [] {
      var f, rest := flags[0], flags[1..];
      forall i | 0 <= i < |rest| ensures !SeenKind(Mark(seen, f), rest[i]) {
        assert rest[i] == flags[i + 1] && !SameKind(flags[0], flags[i + 1]);
      }
      SpelledAccepted(rest, Mark(seen, f));
      HeadRead(f, SpelledAll(rest), seen);
    }
  }

  /** The flag that stands first in accepted arguments. */
  lemma HeadFlag(args: seq<string>, seen: Seen) returns (f: Flag)
    requires args != [] && ArgsAccepted(args, seen)
    ensures |Spelled(f)| <= |args| && args == Spelled(f) + args[|Spelled(f)|..]
    ensures !SeenKind(seen, f) && (f.Backend? ==> AllowedBackend(f.name))
    ensures ArgsAccepted(args[|Spelled(f)|..], Mark(seen, f))
  {
    if args[0] == PRINT {
      f := Print;
    } else if args[0] == PROJECT {
      f := Project;
    } else if args[0] == BACKEND {
      f := Backend(args[1], false);
    } else {
      f := Backend(args[0][|BACKEND_EQ|..], true);
      assert args[0] == BACKEND_EQ + f.name;
    }
  }

  lemma {:induction false} AcceptedSpelled(args: seq<string>, seen: Seen) returns (flags: seq<Flag>)
    requires ArgsAccepted(args, seen)
    ensures Proper(flags) && Unseen(flags, seen) && SpelledAll(flags) == args
    decreases |args|
  {
    flags := [];
    if args != [] {
      var f := HeadFlag(args, seen);
      var rest := AcceptedSpelled(args[|Spelled(f)|..], Mark(seen, f));
      flags := [f] + rest;
      assert flags[1..] == rest;
      forall i, j | 0 <= i < j < |flags| ensures !SameKind(flags[i], flags[j]) {
        if i == 0 {
          assert flags[j] == rest[j - 1];
        } else {
          assert flags[i] == rest[i - 1] && flags[j] == rest[j - 1];
        }
      }
    }
  }

  /** The arguments accepted are exactly the spellings of proper option lists. */
  lemma ArgsLanguage(args: seq<string>)
    ensures ArgsAccepted(args, NONE_SEEN) <==> exists flags :: Proper(flags) && SpelledAll(flags) == args
  {
    if ArgsAccepted(args, NONE_SEEN) {
      var flags := AcceptedSpelled(args, NONE_SEEN);
    }
    if flags :| Proper(flags) && SpelledAll(flags) == args {
      SpelledAccepted(flags, NONE_SEEN);
    }
  }

  /** One of the texts an option can begin with. */
  predicate OptionText(arg: string) {
    arg in {"--print", "--project", "--backend", "--backend=claude-code", "--backend=codex"}
  }

  predicate BackendText(arg: string) {
    arg in {"--backend", "--backend=claude-code", "--backend=codex"}
  }

  /** Texts as they stand: each is an option or a backend's name behind `--backend`, and none comes twice. */
  lemma OptionsOnce(args: seq<string>, i: nat, j: nat)
    requires ArgsAccepted(args, NONE_SEEN) && i < |args| && j < |args|
    ensures OptionText(args[i]) || (i > 0 && args[i - 1] == "--backend" && args[i] in {"claude-code", "codex"})
    ensures args[i] == "--backend" ==> i + 1 < |args| && args[i + 1] in {"claude-code", "codex"}
    ensures i != j ==> args[i] != args[j] && !(BackendText(args[i]) && BackendText(args[j]))
  {
    OptionAt(args, NONE_SEEN, i);
    OptionAt(args, NONE_SEEN, j);
    if i < j {
      OptionTwice(args, NONE_SEEN, i, j);
    } else if j < i {
      OptionTwice(args, NONE_SEEN, j, i);
    }
  }

  lemma JoinedName(arg: string)
    requires HasPrefix(arg, BACKEND_EQ) && AllowedBackend(arg[|BACKEND_EQ|..])
    ensures arg == "--backend=claude-code" || arg == "--backend=codex"
  {
    assert arg == BACKEND_EQ + arg[|BACKEND_EQ|..];
  }

  lemma SpelledCons(f: Flag, rest: seq<Flag>)
    ensures SpelledAll([f] + rest) == Spelled(f) + SpelledAll(rest)
  {
    assert ([f] + rest)[1..] == rest;
  }

  lemma {:induction false} SpelledConcat(a: seq<Flag>, b: seq<Flag>)
    ensures SpelledAll(a + b) == SpelledAll(a) + SpelledAll(b)
  {
    if a == [] {
      assert a + b == b;
    } else {
      var f, rest := a[0], a[1..];
      assert a == [f] + rest && a + b == [f] + (rest + b);
      SpelledConcat(rest, b);
      SpelledCons(f, rest);
      SpelledCons(f, rest + b);
      Associative(Spelled(f), SpelledAll(rest), SpelledAll(b));
    }
  }

  /** At most one option, as its text. */
  predicate OnePart(part: seq<string>, flags: seq<Flag>) {
    |flags| <= 1 && part == SpelledAll(flags) && forall f | f in flags && f.Backend? :: AllowedBackend(f.name)
  }

  lemma PartsAccepted(x: seq<Flag>, y: seq<Flag>, z: seq<Flag>, p: seq<string>, q: seq<string>, r: seq<string>)
    requires OnePart(p, x) && OnePart(q, y) && OnePart(r, z) && Apart(x, y) && Apart(x, z) && Apart(y, z)
    ensures ArgsAccepted(p + q + r, NONE_SEEN)
  {
    SpelledConcat(x, y);
    SpelledConcat(x + y, z);
    var flags := x + y + z;
    assert forall i | 0 <= i < |flags| :: flags[i] in x || flags[i] in y || flags[i] in z;
    SpelledAccepted(flags, NONE_SEEN);
  }

  /** Two options that may both be given. */
  predicate Apart(x: seq<Flag>, y: seq<Flag>) {
    forall f, g | f in x && g in y :: !SameKind(f, g) && !SameKind(g, f)
  }

  lemma AllOrders(x: seq<Flag>, y: seq<Flag>, z: seq<Flag>, p: seq<string>, q: seq<string>, r: seq<string>, args: seq<string>)
    requires OnePart(p, x) && OnePart(q, y) && OnePart(r, z) && Apart(x, y) && Apart(x, z) && Apart(y, z)
    requires args in {p + q + r, p + r + q, q + p + r, q + r + p, r + p + q, r + q + p}
    ensures ArgsAccepted(args, NONE_SEEN)
  {
    PartsAccepted(x, y, z, p, q, r);
    PartsAccepted(x, z, y, p, r, q);
    PartsAccepted(y, x, z, q, p, r);
    PartsAccepted(y, z, x, q, r, p);
    PartsAccepted(z, x, y, r, p, q);
    PartsAccepted(z, y, x, r, q, p);
  }

  /** Texts as they stand: any of the options, in any order, are accepted. */
  lemma OptionsAnyOrder(p: seq<string>, q: seq<string>, r: seq<string>, name: string, args: seq<string>)
    requires (p == [] || p == ["--print"]) && (q == [] || q == ["--project"])
    requires r == [] || r == ["--backend", name] || r == ["--backend=" + name]
    requires name == "claude-code" || name == "codex"
    requires args in {p + q + r, p + r + q, q + p + r, q + r + p, r + p + q, r + q + p}
    ensures ArgsAccepted(args, NONE_SEEN)
  {
    var x := if p == [] then [] else [Print];
    var y := if q == [] then [] else [Project];
    var z := if r == [] then [] else [Backend(name, |r| == 1)];
    assert SpelledAll([Print]) == Spelled(Print) + [] && SpelledAll([Project]) == Spelled(Project) + [];
    assert SpelledAll(z) == if r == [] then [] else Spelled(z[0]) + [];
    AllOrders(x, y, z, p, q, r, args);
  }

  /** How many arguments the first option takes. */
  function Taken(args: seq<string>): nat {
    if args != [] && args[0] == BACKEND then 2 else 1
  }

  lemma {:induction false} OptionAt(args: seq<string>, seen: Seen, i: nat)
    requires ArgsAccepted(args, seen) && i < |args|
    ensures OptionText(args[i]) || (i > 0 && args[i - 1] == BACKEND && AllowedBackend(args[i]))
    ensures args[i] == BACKEND ==> i + 1 < |args| && AllowedBackend(args[i + 1])
    ensures BackendText(args[i]) ==> !seen.backend
    ensures args[i] == PRINT ==> !seen.print_
    ensures args[i] == PROJECT ==> !seen.project
    decreases |args|
  {
    var f := HeadFlag(args, seen);
    var n := Taken(args);
    if args[0] != PRINT && args[0] != PROJECT && args[0] != BACKEND {
      JoinedName(args[0]);
    }
    if i >= n {
      assert args[n..][i - n] == args[i];
      OptionAt(args[n..], Mark(seen, f), i - n);
    }
  }

  lemma {:induction false} OptionTwice(args: seq<string>, seen: Seen, i: nat, j: nat)
    requires ArgsAccepted(args, seen) && i < j < |args|
    ensures args[i] != args[j] && !(BackendText(args[i]) && BackendText(args[j]))
    decreases |args|
  {
    var f := HeadFlag(args, seen);
    var n := Taken(args);
    if i >= n {
      assert args[n..][j - n] == args[j] && args[n..][i - n] == args[i];
      OptionTwice(args[n..], Mark(seen, f), i - n, j - n);
    } else if j >= n {
      HeadOnce(args, seen, f, n, i, j);
    }
  }

  lemma HeadOnce(args: seq<string>, seen: Seen, f: Flag, n: nat, i: nat, j: nat)
    requires i < n <= j < |args| && n == Taken(args) == |Spelled(f)| && args == Spelled(f) + args[n..]
    requires ArgsAccepted(args[n..], Mark(seen, f)) && (f.Backend? ==> AllowedBackend(f.name))
    ensures args[i] != args[j] && !(BackendText(args[i]) && BackendText(args[j]))
  {
    var rest := args[n..];
    assert rest[j - n] == args[j];
    OptionAt(rest, Mark(seen, f), j - n);
    if j > n {
      assert rest[j - n - 1] == args[j - 1];
      OptionAt(rest, Mark(seen, f), j - n - 1);
    }
    if f.Backend? && f.joined {
      JoinedName(args[0]);
    }
  }

  // ---------------------------------------------------------------- whole commands

  /** An argument list of the recognised form. */
  ghost predicate Uninstalls(argv: seq<string>) {
    && |argv| >= 2 && !IsVarAssignment(argv[0]) && Base(argv[0]) == "tiller" && argv[1] == "uninstall"
    && exists flags :: Proper(flags) && SpelledAll(flags) == argv[2..]
  }

  /** A command that is one segment, of that form. */
  ghost predicate SelfUninstall(cmd: string) {
    Accepted(cmd) && |Segments(cmd)| == 1 && FinalMode(Segments(cmd)[0]) == Unquoted && Uninstalls(Words(Segments(cmd)[0]))
  }

  method IsSelfUninstall(cmd: string) returns (ok: bool)
    ensures ok <==> SelfUninstall(cmd)
  {
    var segments;
    segments, ok := SplitSegments(cmd);
    if !ok || |segments| != 1 {
      return false;
    }
    var fields;
    fields, ok := ShellFields(segments[0]);
    if !ok || |fields| == 0 {
      return false;
    }
    ok := UninstallFields(fields);
  }

  method UninstallFields(fields: seq<string>) returns (ok: bool)
    requires fields != []
    ensures ok <==> Uninstalls(fields)
  {
    var assignment := CheckVarAssignment(fields[0]);
    if assignment || |fields| < 2 || Base(fields[0]) != "tiller" || fields[1] != "uninstall" {
      return false;
    }
    ArgsLanguage(fields[2..]);
    ok := AcceptArgs(fields);
  }

  /** Refused: what the splitter refuses, what is not one segment, and a segment that does not tokenise. */
  lemma NotUninstall(cmd: string)
    requires !Accepted(cmd) || |Segments(cmd)| != 1 || FinalMode(Segments(cmd)[0]) != Unquoted
    ensures !SelfUninstall(cmd)
  {
  }

  /**
   * A sequence of complete commands is recognised exactly if one of them is and the other has no segment.
   * The documented rule is that no separator is let through.
   */
  lemma NoChaining(a: string, sep: char, b: string)
    requires (sep == ';' || sep == '\n' || sep == '|') && FinalMode(a) == Unquoted
    ensures SelfUninstall(Sequenced(a, sep, b)) <==>
      || (Segments(a) == [] && Accepted(a) && SelfUninstall(b))
      || (Segments(b) == [] && Accepted(b) && SelfUninstall(a))
  {
    var x, y := Segments(a), Segments(b);
    SplitSequenced(a, sep, b);
    assert x == [] ==> x + y == y;
    assert y == [] ==> x + y == x;
    assert |x + y| == 1 <==> (x == [] && |y| == 1) || (y == [] && |x| == 1);
  }

  /** Plain words with single spaces between them are recognised exactly if they have the form. */
  lemma PlainUninstall(xs: seq<string>)
    requires xs != [] && forall x | x in xs :: PlainWord(x)
    ensures SelfUninstall(Join(Same, xs)) <==>
      && |xs| >= 2 && !IsVarAssignment(xs[0]) && Base(xs[0]) == "tiller" && xs[1] == "uninstall"
      && ArgsAccepted(xs[2..], NONE_SEEN)
    ensures SelfUninstall(Join(Same, xs)) <==> Uninstalls(xs)
  {
    PlainCommand(xs);
    if |xs| >= 2 {
      ArgsLanguage(xs[2..]);
    }
  }

  lemma NothingBehind(cmd: string, sep: char)
    requires IsSeparator(sep) && FinalMode(cmd) == Unquoted && |Segments(cmd)| == 1
    ensures SelfUninstall(cmd + [sep]) <==> SelfUninstall(cmd)
  {
    NothingBefore();
    NoChaining(cmd, sep, "");
    assert Sequenced(cmd, sep, "") == cmd + [sep];
  }

  /** A separator at the end of a recognised command is let through. */
  lemma TrailingSeparator(xs: seq<string>, sep: char)
    requires (sep == ';' || sep == '\n' || sep == '|') && xs != [] && forall x | x in xs :: PlainWord(x)
    ensures SelfUninstall(Join(Same, xs) + [sep]) <==> Uninstalls(xs)
  {
    PlainCommand(xs);
    PlainUninstall(xs);
    NothingBehind(Join(Same, xs), sep);
  }

  lemma TillerWords(a: string, b: string)
    requires a == "tiller" && b == "uninstall"
    ensures PlainWord(a) && PlainWord(b) && '/' !in a && '=' !in a
  {
  }

  lemma NoOptions(argv: seq<string>)
    requires |argv| == 2
    ensures exists flags :: Proper(flags) && SpelledAll(flags) == argv[2..]
  {
    assert Proper([]) && SpelledAll([]) == argv[2..];
  }

  lemma TillerForm(a: string, b: string)
    requires a == "tiller" && b == "uninstall" && '/' !in a && '=' !in a
    ensures Uninstalls([a, b])
  {
    NoSlash(a);
    NoOptions([a, b]);
  }

  lemma TwoWords(a: string, b: string)
    requires PlainWord(a) && PlainWord(b)
    ensures SelfUninstall(a + " " + b + ";") <==> Uninstalls([a, b])
  {
    var xs := [a, b];
    assert xs[..1] == [a];
    assert Join(Same, xs) == a + " " + b;
    TrailingSeparator(xs, ';');
  }

  /** Such a command: the documented rule refuses it. */
  lemma SemicolonAccepted(cmd: string)
    requires cmd == "tiller uninstall;"
    ensures SelfUninstall(cmd)
  {
    var a, b := cmd[..6], cmd[7..16];
    assert cmd == a + " " + b + ";";
    TillerWords(a, b);
    TillerForm(a, b);
    TwoWords(a, b);
  }

  /** A quoted argument list is recognised exactly if the arguments have the form. */
  lemma QuotedUninstall(xs: seq<string>)
    requires xs != [] && forall x | x in xs :: '\'' !in x && x != ""
    ensures SelfUninstall(Join(Quote, xs)) <==>
      && |xs| >= 2 && !IsVarAssignment(xs[0]) && Base(xs[0]) == "tiller" && xs[1] == "uninstall"
      && ArgsAccepted(xs[2..], NONE_SEEN)
  {
    if |xs| >= 2 {
      ArgsLanguage(xs[2..]);
    }
    QuotedCommand(xs, _ => true);
    NonEmptyExact(xs);
    UnquoteQuote(xs);
  }
}
