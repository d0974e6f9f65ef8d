/** The "show everything" command: the invocation's words with the narrowing flags removed
    (cmd/coach/report_see_all_command.go, flags.go), against the token grammar of Go's flag package. */
module SeeAllCommand {
  import opened Options
  import opened ShellWords

  // ----- registered flags -----

  datatype Kind = Bool | Value

  /** A flag set: the kind of every registered flag, and which of them only narrow the report. */
  datatype FlagSet = FlagSet(kinds: map<string, Kind>, narrowing: set<string>)

  const CODESIGNAL := FlagSet(
    map["base" := Value, "baseline" := Bool, "format" := Value, "scope" := Value, "build-target" := Value,
        "project-config" := Value, "project-language" := Value, "min-severity" := Value, "top" := Value,
        "suggest-project-config" := Bool, "output" := Value, "check-project" := Bool, "prepare-compiler" := Bool,
        "no-interactive" := Bool, "fail-on-incomplete-coverage" := Bool],
    {"min-severity", "top"})

  function Lookup(fs: FlagSet, name: string): Option<Kind> {
    if name in fs.kinds then Some(fs.kinds[name]) else None
  }

  predicate TakesValue(fs: FlagSet, name: string) {
    Lookup(fs, name) == Some(Value)
  }

  // ----- Go's flag grammar -----

  datatype Cut = Cut(before: string, after: Option<string>)

  /** `strings.Cut(s, "=")`. */
  function CutAtEquals(s: string): Cut {
    if s == "" then Cut("", None)
    else if s[0] == '=' then Cut("", Some(s[1..]))
    else var c := CutAtEquals(s[1..]); Cut([s[0]] + c.before, c.after)
  }

  datatype Binding = Binding(name: string, value: string)

  datatype Parsed = Ok(bindings: seq<Binding>, positionals: seq<string>) | Err

  /** `strconv.ParseBool` accepts these. */
  predicate BoolText(s: string) {
    s in {"1", "t", "T", "TRUE", "true", "True", "0", "f", "F", "FALSE", "false", "False"}
  }

  function Bind(b: Binding, rest: Parsed): Parsed {
    match rest case Ok(bs, ps) => Ok([b] + bs, ps) case Err => Err
  }

  /** `FlagSet.Parse`: flags up to the first token that is not one; "--" ends them and is dropped. Every
      binding is kept in order, so the last value of a flag and how often it was given are both visible. */
  function Parse(fs: FlagSet, args: seq<string>): Parsed
    decreases |args|
  {
    if args == [] then Ok([], [])
    else
      var s := args[0];
      if |s| < 2 || s[0] != '-' then Ok([], args)
      else if s == "--" then Ok([], args[1..])
      else
        var body := if s[1] == '-' then s[2..] else s[1..];
        if body == "" || body[0] == '-' || body[0] == '=' then Err
        else
          var cut := CutAtEquals(body);
          match Lookup(fs, cut.before)
          case None => Err
          case Some(Bool) =>
            var value := match cut.after case Some(v) => v case None => "true";
            if BoolText(value) then Bind(Binding(cut.before, value), Parse(fs, args[1..])) else Err
          case Some(Value) =>
            if cut.after.Some? then Bind(Binding(cut.before, cut.after.value), Parse(fs, args[1..]))
            else if |args| > 1 then Bind(Binding(cut.before, args[1]), Parse(fs, args[2..]))
            else Err
  }

  // ----- the command builder -----

  datatype Token = Positional | Flag(name: string, inline: bool)

  function TrimDash(s: string): string {
    if s != "" && s[0] == '-' then s[1..] else s
  }

  function SplitFlagToken(token: string): Token {
    if |token| < 2 || token[0] != '-' || token == "--" then Positional
    else
      var name := TrimDash(TrimDash(token));
      if name == "" || name[0] == '-' || name[0] == '=' then Positional
      else var cut := CutAtEquals(name); Flag(cut.before, cut.after.Some?)
  }

  /** How many words a flag token spans. */
  function Width(fs: FlagSet, name: string, inline: bool, args: seq<string>): nat {
    if !inline && TakesValue(fs, name) && |args| > 1 then 2 else 1
  }

  function Kept(fs: FlagSet, args: seq<string>): seq<string>
    decreases |args|
  {
    if args == [] then []
    else match SplitFlagToken(args[0])
      case Positional => args
      case Flag(name, inline) =>
        var w := Width(fs, name, inline, args);
        (if name in fs.narrowing then [] else args[..w]) + Kept(fs, args[w..])
  }

  const COMMAND := ["coach", "codesignal"]

  /** `unsafe` is the source's category filter: invalid UTF-8, or a rune in Cc, Cf, Zl or Zp. */
  function Command(args: seq<string>, unsafe: string -> bool): string {
    if exists w | w in COMMAND + Kept(CODESIGNAL, args) :: unsafe(w) then "" else Join(COMMAND + Kept(CODESIGNAL, args))
  }

  function HeadWidth(fs: FlagSet, args: seq<string>): (w: nat)
    requires args != [] && SplitFlagToken(args[0]).Flag?
    ensures 1 <= w <= |args|
  {
    var t := SplitFlagToken(args[0]);
    Width(fs, t.name, t.inline, args)
  }

  function SpanAt(fs: FlagSet, args: seq<string>, i: nat): (w: nat)
    requires i < |args| && SplitFlagToken(args[i]).Flag?
    ensures 1 <= w <= |args| - i
  {
    if !SplitFlagToken(args[i]).inline && TakesValue(fs, SplitFlagToken(args[i]).name) && i + 1 < |args| then 2 else 1
  }

  lemma KeptAt(fs: FlagSet, args: seq<string>, i: nat)
    requires i < |args|
    ensures SplitFlagToken(args[i]).Positional? ==> Kept(fs, args[i..]) == args[i..]
    ensures SplitFlagToken(args[i]).Flag? ==>
              Kept(fs, args[i..]) ==
              (if SplitFlagToken(args[i]).name in fs.narrowing then [] else args[i..i + SpanAt(fs, args, i)])
              + Kept(fs, args[i + SpanAt(fs, args, i)..])
  {
    var rest := args[i..];
    assert rest[0] == args[i];
    if SplitFlagToken(args[i]).Flag? {
      var w := HeadWidth(fs, rest);
      assert w == SpanAt(fs, args, i) && rest[..w] == args[i..i + w] && rest[w..] == args[i + w..];
    }
  }

  lemma Regroup(a: seq<string>, b: seq<string>, c: seq<string>)
    ensures a + (b + c) == (a + b) + c && a + [] == a
  {
  }

  method KeepWords(fs: FlagSet, command: seq<string>, args: seq<string>) returns (words: seq<string>)
    ensures words == command + Kept(fs, args)
  {
    words := command;
    var i := 0;
    ghost var goal := command + Kept(fs, args);
    assert args[0..] == args;
    while i < |args|
      invariant 0 <= i <= |args|
      invariant words + Kept(fs, args[i..]) == goal
    {
      KeptAt(fs, args, i);
      var token := SplitFlagToken(args[i]);
      if token.Positional? { return words + args[i..]; }
      var width := if !token.inline && TakesValue(fs, token.name) && i + 1 < |args| then 2 else 1;
      var span := if token.name in fs.narrowing then [] else args[i..i + width];
      Regroup(words, span, Kept(fs, args[i + width..]));
      words := words + span;
      i := i + width;
    }
    Regroup(words, [], []);
  }

  method SeeAll(args: seq<string>, unsafe: string -> bool) returns (line: string)
    ensures line == Command(args, unsafe)
  {
    var words := KeepWords(CODESIGNAL, COMMAND, args);
    if exists w | w in words :: unsafe(w) { return ""; }
    line := ShellJoin(words);
  }

  // ----- meaning -----

  /** The bindings of flags other than the narrowing ones, in order. */
  function Widened(fs: FlagSet, bs: seq<Binding>): seq<Binding> {
    if bs == [] then [] else (if bs[0].name in fs.narrowing then [] else [bs[0]]) + Widened(fs, bs[1..])
  }

  /** The builder's token splitter sees a flag wherever the parser does, with the same name and value. */
  lemma SplitterAgrees(token: string)
    requires |token| >= 2 && token[0] == '-' && token != "--"
    ensures var body := if token[1] == '-' then token[2..] else token[1..];
            if body == "" || body[0] == '-' || body[0] == '=' then SplitFlagToken(token) == Positional
            else SplitFlagToken(token) == Flag(CutAtEquals(body).before, CutAtEquals(body).after.Some?)
  {
  }

  function Body(token: string): string
    requires |token| >= 2
  {
    if token[1] == '-' then token[2..] else token[1..]
  }

  /** The value the flag at the head is given. */
  function HeadValue(fs: FlagSet, args: seq<string>): string
    requires args != [] && SplitFlagToken(args[0]).Flag?
  {
    var cut := CutAtEquals(Body(args[0]));
    if cut.after.Some? then cut.after.value
    else if TakesValue(fs, cut.before) && |args| > 1 then args[1]
    else "true"
  }

  /** Whether the flag at the head is known and has an acceptable value. */
  predicate HeadOk(fs: FlagSet, args: seq<string>)
    requires args != [] && SplitFlagToken(args[0]).Flag?
  {
    var t := SplitFlagToken(args[0]);
    match Lookup(fs, t.name)
    case None => false
    case Some(Bool) => BoolText(HeadValue(fs, args))
    case Some(Value) => t.inline || |args| > 1
  }

  /** The parser takes the same words as the builder's span and binds the same name. */
  lemma ParseStep(fs: FlagSet, args: seq<string>)
    requires args != [] && SplitFlagToken(args[0]).Flag?
    ensures Parse(fs, args) == if HeadOk(fs, args)
                           then Bind(Binding(SplitFlagToken(args[0]).name, HeadValue(fs, args)), Parse(fs, args[HeadWidth(fs, args)..]))
                           else Err
  {
    SplitterAgrees(args[0]);
  }

  /** A flag and its value mean the same whatever follows them. */
  lemma HeadIsLocal(fs: FlagSet, args: seq<string>, tail: seq<string>)
    requires args != [] && SplitFlagToken(args[0]).Flag? && (HeadOk(fs, args) || |args| > 1 || tail == [])
    ensures var other := args[..HeadWidth(fs, args)] + tail;
            && HeadOk(fs, other) == HeadOk(fs, args) && HeadWidth(fs, other) == HeadWidth(fs, args)
            && other[HeadWidth(fs, args)..] == tail
            && other[0] == args[0] && (HeadOk(fs, args) ==> HeadValue(fs, other) == HeadValue(fs, args))
  {
    SplitterAgrees(args[0]);
  }

  lemma BindWidens(fs: FlagSet, b: Binding, rest: Parsed)
    requires rest.Ok?
    ensures Bind(b, rest).Ok? && Bind(b, rest).positionals == rest.positionals
    ensures Bind(b, rest).bindings == [b] + rest.bindings
    ensures Widened(fs, Bind(b, rest).bindings) == (if b.name in fs.narrowing then [] else [b]) + Widened(fs, rest.bindings)
  {
    assert ([b] + rest.bindings)[1..] == rest.bindings;
  }

  ghost predicate SameMeaning(fs: FlagSet, args: seq<string>) {
    Parse(fs, args).Ok? && Parse(fs, Kept(fs, args)) == Ok(Widened(fs, Parse(fs, args).bindings), Parse(fs, args).positionals)
  }

  lemma NarrowingStep(fs: FlagSet, args: seq<string>)
    requires args != [] && SplitFlagToken(args[0]).Flag? && SplitFlagToken(args[0]).name in fs.narrowing
    requires Parse(fs, args).Ok? && SameMeaning(fs, args[HeadWidth(fs, args)..])
    ensures SameMeaning(fs, args)
  {
    ParseStep(fs, args);
    BindWidens(fs, Binding(SplitFlagToken(args[0]).name, HeadValue(fs, args)), Parse(fs, args[HeadWidth(fs, args)..]));
    assert Kept(fs, args) == Kept(fs, args[HeadWidth(fs, args)..]);
  }

  lemma OtherFlagStep(fs: FlagSet, args: seq<string>)
    requires args != [] && SplitFlagToken(args[0]).Flag? && SplitFlagToken(args[0]).name !in fs.narrowing
    requires Parse(fs, args).Ok? && SameMeaning(fs, args[HeadWidth(fs, args)..])
    ensures SameMeaning(fs, args)
  {
    var w := HeadWidth(fs, args);
    var tail := Kept(fs, args[w..]);
    var b := Binding(SplitFlagToken(args[0]).name, HeadValue(fs, args));
    ParseStep(fs, args);
    HeadIsLocal(fs, args, tail);
    ParseStep(fs, args[..w] + tail);
    BindWidens(fs, b, Parse(fs, args[w..]));
  }

  /** Removing the narrowing flags preserves the meaning of the rest: the kept words parse, to the same
      positionals and to the same bindings in the same order less those of the narrowing flags. */
  lemma {:induction false} KeptMeansTheSame(fs: FlagSet, args: seq<string>)
    requires Parse(fs, args).Ok?
    ensures Parse(fs, Kept(fs, args)) == Ok(Widened(fs, Parse(fs, args).bindings), Parse(fs, args).positionals)
    decreases |args|
  {
    if args != [] {
      if SplitFlagToken(args[0]).Positional? {
        if |args[0]| >= 2 && args[0][0] == '-' && args[0] != "--" { SplitterAgrees(args[0]); }
      } else {
        ParseStep(fs, args);
        KeptMeansTheSame(fs, args[HeadWidth(fs, args)..]);
        if SplitFlagToken(args[0]).name in fs.narrowing { NarrowingStep(fs, args); } else { OtherFlagStep(fs, args); }
      }
    }
  }

  /** The one error that removal repairs: a narrowing flag at the very end, without its value. */
  predicate DanglingNarrowing(fs: FlagSet, args: seq<string>)
    decreases |args|
  {
    && args != [] && SplitFlagToken(args[0]).Flag?
    && if SplitFlagToken(args[0]).name in fs.narrowing && !HeadOk(fs, args) then true
       else HeadOk(fs, args) && DanglingNarrowing(fs, args[HeadWidth(fs, args)..])
  }

  /** For every argument list, parsable or not: the kept words parse exactly when the original does or its
      only fault is a narrowing flag left without a value at the end. */
  lemma {:induction false} KeptParsesExactlyWhen(fs: FlagSet, args: seq<string>)
    requires forall name | name in fs.narrowing :: TakesValue(fs, name)
    ensures Parse(fs, Kept(fs, args)).Ok? <==> Parse(fs, args).Ok? || DanglingNarrowing(fs, args)
    decreases |args|
  {
    if args != [] {
      var t := SplitFlagToken(args[0]);
      if t.Flag? {
        var w := HeadWidth(fs, args);
        var tail := Kept(fs, args[w..]);
        ParseStep(fs, args);
        KeptParsesExactlyWhen(fs, args[w..]);
        if t.name in fs.narrowing {
          assert Kept(fs, args) == [] + tail == tail;
          if !HeadOk(fs, args) { assert args[w..] == []; }
        } else {
          HeadIsLocal(fs, args, tail);
          ParseStep(fs, args[..w] + tail);
        }
      }
    }
  }

  /** The printed command, read back by a shell and parsed again, is the original invocation without its
      narrowing flags. */
  lemma CommandRunsTheSame(args: seq<string>, unsafe: string -> bool)
    requires Parse(CODESIGNAL, args).Ok?
    ensures Command(args, unsafe) == "" <==> exists w | w in COMMAND + Kept(CODESIGNAL, args) :: unsafe(w)
    ensures Command(args, unsafe) != "" ==>
              && Split(Command(args, unsafe)) == Some(COMMAND + Kept(CODESIGNAL, args))
              && Parse(CODESIGNAL, Kept(CODESIGNAL, args)) ==
                 Ok(Widened(CODESIGNAL, Parse(CODESIGNAL, args).bindings), Parse(CODESIGNAL, args).positionals)
  {
    KeptMeansTheSame(CODESIGNAL, args);
    SplitUndoesJoin(COMMAND + Kept(CODESIGNAL, args));
    JoinIsEmptyOnlyForNoWords(COMMAND + Kept(CODESIGNAL, args));
  }

  /** The builder repairs exactly one fault of an invocation that does not parse. */
  lemma CommandParsesExactlyWhen(args: seq<string>)
    ensures Parse(CODESIGNAL, Kept(CODESIGNAL, args)).Ok? <==>
            Parse(CODESIGNAL, args).Ok? || DanglingNarrowing(CODESIGNAL, args)
  {
    KeptParsesExactlyWhen(CODESIGNAL, args);
  }
}
