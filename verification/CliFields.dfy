/** What each token of an argv contributes to the result of `parse_args`. */
module CliFields {
  import opened JsonText
  import opened PyText
  import opened CliFlags
  import opened CliArgs

  // ---------------------------------------------------------------------
  // The walk over the tokens
  // ---------------------------------------------------------------------

  /** A token the parser looks at, with the next one if it takes it. */
  datatype Visit = Visit(token: string, taken: Option<string>)

  function VisitOf(arg: string, next: Option<string>, runtime: bool): Visit {
    Visit(arg, if Consumes(arg, next, runtime) then next else None)
  }

  /** The tokens visited up to the separator. */
  function Visits(args: seq<string>, runtime: bool): seq<Visit>
    decreases |args|
  {
    if args == [] || args[0] == "--" then []
    else
      var v := VisitOf(args[0], NextOf(args), runtime);
      [v] + Visits(args[if v.taken.Some? then 2 else 1..], runtime)
  }

  /** What follows the separator. */
  function Trailing(args: seq<string>, runtime: bool): seq<string>
    decreases |args|
  {
    if args == [] then []
    else if args[0] == "--" then args[1..]
    else Trailing(args[if VisitOf(args[0], NextOf(args), runtime).taken.Some? then 2 else 1..], runtime)
  }

  // ---------------------------------------------------------------------
  // Reading the visits
  // ---------------------------------------------------------------------

  /** The values the flag of that name took, in order. */
  function Values(vs: seq<Visit>, name: string): seq<string> {
    if vs == [] then []
    else
      var (before, v) := (Values(vs[..|vs| - 1], name), vs[|vs| - 1]);
      if v.token == name && v.taken.Some? then before + [v.taken.value] else before
  }

  predicate Seen(vs: seq<Visit>, names: set<string>) {
    exists i :: 0 <= i < |vs| && vs[i].token in names
  }

  function LastOf<T>(xs: seq<T>): Option<T> {
    if xs == [] then None else Some(xs[|xs| - 1])
  }

  /** The last text with the property. */
  function LastWhere(xs: seq<string>, ok: string -> bool): Option<string> {
    if xs == [] then None
    else if ok(xs[|xs| - 1]) then Some(xs[|xs| - 1])
    else LastWhere(xs[..|xs| - 1], ok)
  }

  /** The number a text stands for, if it is positive and below the limit. */
  function Below(parseInt: string -> Option<int>, text: Option<string>, limit: nat): Option<nat> {
    if text.Some? && parseInt(text.value).Some? && 0 < parseInt(text.value).value < limit then
      Some(parseInt(text.value).value)
    else None
  }

  function ModeName(m: Mode): string {
    match m
    case ModeText => "text"
    case ModeJson => "json"
    case ModeRpc => "rpc"
    case ModeAcp => "acp"
    case ModeDaemon => "daemon"
  }

  function LevelName(l: Level): string {
    match l
    case LevelOff => "off"
    case LevelMinimal => "minimal"
    case LevelLow => "low"
    case LevelMedium => "medium"
    case LevelHigh => "high"
    case LevelXhigh => "xhigh"
    case LevelMax => "max"
  }

  predicate IsModeName(s: string) {
    s in {"text", "json", "rpc", "acp", "daemon"}
  }

  predicate IsLevelName(s: string) {
    s in {"off", "minimal", "low", "medium", "high", "xhigh", "max"}
  }

  predicate NotBlank(s: string) {
    !IsBlank(s)
  }

  predicate NotEmpty(s: string) {
    s != ""
  }

  /** The comma list, item by item, without the space around each. */
  ghost predicate IsListOf(ms: seq<string>, text: string) {
    exists parts :: IsTrimmedList(ms, parts) && Join(parts, ',') == text
  }

  ghost predicate IsTrimmedList(ms: seq<string>, parts: seq<string>) {
    |ms| == |parts| > 0 && forall i :: 0 <= i < |parts| ==> ',' !in parts[i] && IsTrimmed(ms[i], parts[i])
  }

  // ---------------------------------------------------------------------
  // The result, flag by flag
  // ---------------------------------------------------------------------

  /** The last value wins. */
  predicate TextsAre(t: Texts, vs: seq<Visit>) {
    && t.provider == LastOf(Values(vs, "--provider"))
    && t.model == LastOf(Values(vs, "--model"))
    && t.apiKey == LastOf(Values(vs, "--api-key"))
    && t.cwd == LastOf(Values(vs, "--cwd"))
    && t.systemPrompt == LastOf(Values(vs, "--system-prompt"))
    && t.daemonSocket == LastOf(Values(vs, "--daemon-socket"))
    && t.fork == LastOf(Values(vs, "--fork"))
    && t.sessionDir == LastOf(Values(vs, "--session-dir"))
  }

  /** All values, in order. */
  predicate ListsAre(l: Lists, vs: seq<Visit>) {
    && l.appendSystemPrompt == Values(vs, "--append-system-prompt")
    && l.skills == Values(vs, "--skill")
    && l.promptTemplates == Values(vs, "--prompt-template")
    && l.themes == Values(vs, "--theme")
    && (if l.autonomousGates.None? then Values(vs, "--autonomous-gate") == []
        else l.autonomousGates.value == Values(vs, "--autonomous-gate") != [])
  }

  /** The last value wins, also when it is no number in range. */
  predicate NumbersAre(parseInt: string -> Option<int>, m: Numbers, vs: seq<Visit>) {
    && m.autonomousGateRetries == Below(parseInt, LastOf(Values(vs, "--autonomous-gate-retries")), 0x1_0000_0000)
    && m.autonomousGateTimeoutMs ==
       Below(parseInt, LastOf(Values(vs, "--autonomous-gate-timeout-ms")), 0x1_0000_0000_0000_0000)
    && m.autonomousMaxContinuations ==
       Below(parseInt, LastOf(Values(vs, "--autonomous-max-continuations")), 0x1_0000_0000)
    && m.autonomousMaxTurns == Below(parseInt, LastOf(Values(vs, "--autonomous-max-turns")), 0x1_0000_0000)
    && m.autonomousMaxTokens ==
       Below(parseInt, LastOf(Values(vs, "--autonomous-max-tokens")), 0x1_0000_0000_0000_0000)
    && m.autonomousTimeoutMs ==
       Below(parseInt, LastOf(Values(vs, "--autonomous-timeout-ms")), 0x1_0000_0000_0000_0000)
    && m.goalTokenBudget == Below(parseInt, LastOf(Values(vs, "--goal-token-budget")), 0x1_0000_0000)
  }

  /** The last acceptable value wins. */
  ghost predicate ChoicesAre(c: Choices, vs: seq<Visit>) {
    && LastWhere(Values(vs, "--mode"), IsModeName) == (if c.mode.None? then None else Some(ModeName(c.mode.value)))
    && LastWhere(Values(vs, "--thinking"), IsLevelName) ==
       (if c.thinking.None? then None else Some(LevelName(c.thinking.value)))
    && c.goal == LastWhere(Values(vs, "--goal"), NotBlank)
    && (match LastOf(Values(vs, "--models"))
        case None => c.models.None?
        case Some(text) => c.models.Some? && IsListOf(c.models.value, text))
  }

  /** A switch is on exactly when it was visited. */
  predicate SwitchesAre(s: Switches, vs: seq<Visit>) {
    && (s.help <==> Seen(vs, {"--help", "-h"}))
    && (s.version <==> Seen(vs, {"--version", "-v"}))
    && (s.continueRun <==> Seen(vs, {"--continue", "-c"}))
    && (s.noSession <==> Seen(vs, {"--no-session"}))
    && (s.noSkills <==> Seen(vs, {"--no-skills", "-ns"}))
    && (s.noPromptTemplates <==> Seen(vs, {"--no-prompt-templates", "-np"}))
    && (s.noThemes <==> Seen(vs, {"--no-themes"}))
    && (s.noContextFiles <==> Seen(vs, {"--no-context-files", "-nc"}))
    && (s.verbose <==> Seen(vs, {"--verbose"}))
    && (s.offline <==> Seen(vs, {"--offline"}))
  }

  /** What one visit contributes. */
  function Collect<T>(vs: seq<Visit>, of: Visit -> Option<T>): seq<T> {
    if vs == [] then []
    else Collect(vs[..|vs| - 1], of) + if of(vs[|vs| - 1]).Some? then [of(vs[|vs| - 1]).value] else []
  }

  /** The selector given to `--resume`, possibly empty. */
  function ResumeOf(v: Visit): Option<string> {
    if v.token in {"--resume", "-r"} then Some(if v.taken.Some? then v.taken.value else "")
    else if "--resume=" <= v.token then Some(v.token[9..])
    else None
  }

  function SearchOf(v: Visit): Option<Option<string>> {
    if v.token == "--list-models" then Some(v.taken) else None
  }

  /** A prompt: a plain token, or what `--print` took. */
  function WordOf(v: Visit): Option<string> {
    if v.token in {"--print", "-p"} then v.taken
    else if v.token != "" && v.token[0] in {'-', '@'} then None
    else Some(v.token)
  }

  function FileOf(v: Visit): Option<string> {
    if v.token != "" && v.token[0] == '@' then Some(v.token[1..]) else None
  }

  predicate RestIs(runtime: bool, a: Args, vs: seq<Visit>) {
    && (a.resumeBare <==> "" in Collect(vs, ResumeOf))
    && a.resume == LastWhere(Collect(vs, ResumeOf), NotEmpty)
    && (a.printMode <==> Seen(vs, {"--print", "-p"}))
    && a.exportFile == (if runtime then LastOf(Values(vs, "--export")) else None)
    && a.listModels == (if runtime then LastOf(Collect(vs, SearchOf)) else None)
    && a.messages == Collect(vs, WordOf)
    && a.fileArgs == Collect(vs, FileOf)
  }

  const U32_FLAGS := {
    "--autonomous-gate-retries", "--autonomous-max-continuations", "--autonomous-max-turns", "--goal-token-budget"
  }

  const U64_FLAGS := {"--autonomous-gate-timeout-ms", "--autonomous-max-tokens", "--autonomous-timeout-ms"}

  /** What is reported about a value a flag took. */
  function ValueReport(parseInt: string -> Option<int>, flag: string, value: string): Option<Diagnostic> {
    if flag == "--mode" then if IsModeName(value) then None else Some(InvalidMode(value))
    else if flag == "--thinking" then if IsLevelName(value) then None else Some(InvalidThinking(value))
    else if flag == "--goal" then if IsBlank(value) then Some(EmptyGoal) else None
    else if flag in U32_FLAGS then
      if Below(parseInt, Some(value), 0x1_0000_0000).Some? then None else Some(NotPositive(flag, 32))
    else if flag in U64_FLAGS then
      if Below(parseInt, Some(value), 0x1_0000_0000_0000_0000).Some? then None else Some(NotPositive(flag, 64))
    else None
  }

  /** What is reported about a visit. */
  function ReportOf(parseInt: string -> Option<int>, runtime: bool, v: Visit): Option<Diagnostic> {
    if v.token in VALUE_FLAGS then
      if v.taken.None? then Some(RequiresValue(v.token)) else ValueReport(parseInt, v.token, v.taken.value)
    else if v.token == "--export" then
      if !runtime then Some(ExportRemoved) else if v.taken.None? then Some(ExportRequiresValue) else None
    else if v.token == "--list-models" then if runtime then None else Some(ListModelsRemoved)
    else if "--export=" <= v.token then Some(ExportRemoved)
    else if "--list-models=" <= v.token then Some(ListModelsRemoved)
    else if v.token != "" && v.token[0] == '-' && FlagOf(v.token).None? && !("--resume=" <= v.token) then
      Some(UnknownOption(v.token))
    else None
  }

  // ---------------------------------------------------------------------
  // One more visit
  // ---------------------------------------------------------------------

  /** What a turn does with the visit, by the kind of its flag. */
  lemma TakenIs(parseInt: string -> Option<int>, arg: string, next: Option<string>, runtime: bool, a: Args)
    ensures var (v, b, f) := (VisitOf(arg, next, runtime), Turn(parseInt, arg, next, runtime, a).0, FlagOf(arg));
            && v.token == arg
            && (f.None? ==> v.taken.None? && b == Other(arg, a))
            && (f.Some? && IsSwitch(f.value) ==>
                  && v.taken.None?
                  && b == a.(switches := Switch(f.value, a.switches),
                             autonomous := a.autonomous || f.value.Autonomous?))
            && (f.Some? && LooksAhead(f.value) ==>
                  b == LookAhead(f.value, next, runtime, a).0
                  && v.taken == if LookAhead(f.value, next, runtime, a).1 then next else None)
            && (f.Some? && TakesValue(f.value) ==>
                  b == if v.taken.Some? then WithValue(parseInt, f.value, arg, v.taken.value, BeforeValue(f.value, a))
                       else WithDiagnostic(BeforeValue(f.value, a), RequiresValue(arg)))
  {
    TurnConsumes(parseInt, arg, next, runtime, a);
    hide FlagOf, Consumes, Other, Switch, WithValue, LookAhead, WithDiagnostic;
    ConsumedExists(parseInt, arg, next, runtime, a);
  }

  lemma ValuesSnoc(vs: seq<Visit>, v: Visit, f: Flag)
    requires TakesValue(f)
    ensures Values(vs + [v], ValueName(f)) ==
            if FlagOf(v.token) == Some(f) && v.taken.Some? then Values(vs, ValueName(f)) + [v.taken.value]
            else Values(vs, ValueName(f))
  {
    hide FlagOf, ValueName;
    ValueNamed(v.token, f);
    assert (vs + [v])[..|vs|] == vs;
  }

  lemma SeenSnoc(vs: seq<Visit>, v: Visit, names: set<string>)
    ensures Seen(vs + [v], names) <==> Seen(vs, names) || v.token in names
  {
    var all := vs + [v];
    if i :| 0 <= i < |all| && all[i].token in names {
      assert i < |vs| ==> all[i] == vs[i];
    }
    if i :| 0 <= i < |vs| && vs[i].token in names {
      assert all[i] == vs[i];
    }
    assert all[|vs|] == v;
  }

  // ---------------------------------------------------------------------
  // Whole walks
  // ---------------------------------------------------------------------

  /** A relation between result and visits that every turn keeps. */
  ghost predicate IsKept(parseInt: string -> Option<int>, runtime: bool, rel: (Args, seq<Visit>) -> bool) {
    forall arg, next, a, vs :: rel(a, vs) ==> IsKeptBy(parseInt, runtime, rel, arg, next, a, vs)
  }

  predicate IsKeptBy(parseInt: string -> Option<int>, runtime: bool, rel: (Args, seq<Visit>) -> bool, arg: string,
                     next: Option<string>, a: Args, vs: seq<Visit>) {
    rel(Turn(parseInt, arg, next, runtime, a).0, vs + [VisitOf(arg, next, runtime)])
  }

  lemma OneKept(parseInt: string -> Option<int>, runtime: bool, rel: (Args, seq<Visit>) -> bool, arg: string,
                next: Option<string>, a: Args, vs: seq<Visit>)
    requires IsKept(parseInt, runtime, rel) && rel(a, vs)
    ensures rel(Turn(parseInt, arg, next, runtime, a).0, vs + [VisitOf(arg, next, runtime)])
  {
    hide Turn, VisitOf;
    assert IsKeptBy(parseInt, runtime, rel, arg, next, a, vs);
  }

  lemma OneTurn(parseInt: string -> Option<int>, args: seq<string>, runtime: bool, a: Args)
    requires args != [] && args[0] != "--"
    ensures var v := VisitOf(args[0], NextOf(args), runtime);
            var b := Turn(parseInt, args[0], NextOf(args), runtime, a).0;
            && (v.taken.Some? ==> |args| > 1)
            && var later := args[if v.taken.Some? then 2 else 1..];
               && ParseRest(parseInt, args, runtime, a) == ParseRest(parseInt, later, runtime, b)
               && Visits(args, runtime) == [v] + Visits(later, runtime)
               && Trailing(args, runtime) == Trailing(later, runtime)
  {
    hide Turn, Consumes;
    TurnConsumes(parseInt, args[0], NextOf(args), runtime, a);
    ConsumedExists(parseInt, args[0], NextOf(args), runtime, a);
  }

  lemma NoTurn(parseInt: string -> Option<int>, args: seq<string>, runtime: bool, a: Args)
    requires args == [] || args[0] == "--"
    ensures ParseRest(parseInt, args, runtime, a) == WithMessages(a, Trailing(args, runtime))
    ensures Visits(args, runtime) == []
  {
  }

  /** It holds of the whole walk, to which the parser only adds what follows
      the separator. */
  lemma {:induction false} RestKeeps(parseInt: string -> Option<int>, args: seq<string>, runtime: bool, a: Args,
                                     vs: seq<Visit>, rel: (Args, seq<Visit>) -> bool)
    returns (b: Args)
    requires IsKept(parseInt, runtime, rel) && rel(a, vs)
    ensures rel(b, vs + Visits(args, runtime))
    ensures ParseRest(parseInt, args, runtime, a) == WithMessages(b, Trailing(args, runtime))
    decreases |args|
  {
    hide Turn, Consumes, IsKept, VisitOf, ParseRest, Visits, Trailing, WithMessages;
    if args == [] || args[0] == "--" {
      NoTurn(parseInt, args, runtime, a);
      b := a;
      assert vs + [] == vs;
    } else {
      OneTurn(parseInt, args, runtime, a);
      var v := VisitOf(args[0], NextOf(args), runtime);
      OneKept(parseInt, runtime, rel, args[0], NextOf(args), a, vs);
      var later := args[if v.taken.Some? then 2 else 1..];
      b := RestKeeps(parseInt, later, runtime, Turn(parseInt, args[0], NextOf(args), runtime, a).0, vs + [v], rel);
      assert vs + [v] + Visits(later, runtime) == vs + ([v] + Visits(later, runtime));
    }
  }

  /** The visits of an argv, after the internal marker if it starts with it. */
  function Visited(args: seq<string>): seq<Visit> {
    Visits(if IsRuntime(args) then args[1..] else args, IsRuntime(args))
  }

  function After(args: seq<string>): seq<string> {
    Trailing(if IsRuntime(args) then args[1..] else args, IsRuntime(args))
  }

  /** What every turn keeps, and holds at the start, holds of the result before
      the final check and without what follows the separator. */
  lemma ParseKeeps(parseInt: string -> Option<int>, args: seq<string>, rel: (Args, seq<Visit>) -> bool)
    returns (b: Args)
    requires IsKept(parseInt, IsRuntime(args), rel) && rel(DEFAULT, [])
    ensures rel(b, Visited(args)) && Parse(parseInt, args) == Finish(WithMessages(b, After(args)))
  {
    hide IsKept, ParseRest, Visits, Trailing, Finish, WithMessages, DEFAULT, MARKER;
    var rest := if IsRuntime(args) then args[1..] else args;
    b := RestKeeps(parseInt, rest, IsRuntime(args), DEFAULT, [], rel);
    assert [] + Visits(rest, IsRuntime(args)) == Visits(rest, IsRuntime(args));
  }

  lemma FinishKeeps(b: Args, ms: seq<string>)
    ensures var p := Finish(WithMessages(b, ms));
            && SameRest(b, p) && p.messages == b.messages + ms && p.fileArgs == b.fileArgs
            && p.resumeBare == b.resumeBare && p.resume == b.resume && p.printMode == b.printMode
            && p.exportFile == b.exportFile && p.listModels == b.listModels
            && p.diagnostics ==
               b.diagnostics
               + if b.numbers.goalTokenBudget.Some? && b.choices.goal.None? then [BudgetWithoutGoal] else []
  {
  }

  // ---------------------------------------------------------------------
  // Texts
  // ---------------------------------------------------------------------

  function TextField(t: Texts, f: Flag): Option<string>
    requires IsTextFlag(f)
  {
    match f
    case Provider => t.provider
    case Model => t.model
    case ApiKey => t.apiKey
    case Cwd => t.cwd
    case SystemPrompt => t.systemPrompt
    case DaemonSocket => t.daemonSocket
    case Fork => t.fork
    case SessionDir => t.sessionDir
  }

  predicate TextIs(t: Texts, vs: seq<Visit>, f: Flag) {
    IsTextFlag(f) && TextField(t, f) == LastOf(Values(vs, ValueName(f)))
  }

  lemma TextSet(g: Flag, value: string, t: Texts, f: Flag)
    requires IsTextFlag(f)
    ensures TextField(WithText(g, value, t), f) == if f == g then Some(value) else TextField(t, f)
  {
  }

  /** Nothing but what look-ahead flags and plain tokens set, and the
      diagnostics. */
  predicate SameRest(a: Args, b: Args) {
    && a.texts == b.texts && a.lists == b.lists && a.numbers == b.numbers && a.choices == b.choices
    && a.switches == b.switches && a.autonomous == b.autonomous
  }

  lemma OtherKeeps(arg: string, a: Args)
    ensures SameRest(a, Other(arg, a))
  {
    hide StartsWith;
    if StartsWith(arg, "--resume=") {
    } else if StartsWith(arg, "--export=") {
    } else if StartsWith(arg, "--list-models=") {
    } else if StartsWith(arg, "@") {
    } else if StartsWith(arg, "-") {
    } else {
    }
  }

  lemma ResumeKeeps(next: Option<string>, runtime: bool, a: Args)
    ensures SameRest(a, LookAhead(Resume, next, runtime, a).0)
  {
    hide StartsWith;
    if next.Some? && !StartsWith(next.value, "-") && !StartsWith(next.value, "@") && next.value != "" {
    } else {
    }
  }

  lemma PrintKeeps(next: Option<string>, runtime: bool, a: Args)
    ensures SameRest(a, LookAhead(Print, next, runtime, a).0)
  {
    hide StartsWith;
  }

  lemma ExportKeeps(next: Option<string>, runtime: bool, a: Args)
    ensures SameRest(a, LookAhead(Export, next, runtime, a).0)
  {
    hide StartsWith;
    if !runtime {
    } else if next.Some? {
    } else {
    }
  }

  lemma ListModelsKeeps(next: Option<string>, runtime: bool, a: Args)
    ensures SameRest(a, LookAhead(ListModels, next, runtime, a).0)
  {
    hide StartsWith;
    if runtime {
    } else {
    }
  }

  lemma AheadKeeps(f: Flag, next: Option<string>, runtime: bool, a: Args)
    requires LooksAhead(f)
    ensures SameRest(a, LookAhead(f, next, runtime, a).0)
  {
    hide LookAhead, SameRest;
    match f
    case Resume => ResumeKeeps(next, runtime, a);
    case Print => PrintKeeps(next, runtime, a);
    case Export => ExportKeeps(next, runtime, a);
    case ListModels => ListModelsKeeps(next, runtime, a);
  }

  lemma ValueSetsText(parseInt: string -> Option<int>, f: Flag, flag: string, value: string, a: Args)
    ensures IsTextFlag(f) ==> WithValue(parseInt, f, flag, value, a) == a.(texts := WithText(f, value, a.texts))
    ensures IsListFlag(f) ==> WithValue(parseInt, f, flag, value, a) == a.(lists := WithItem(f, value, a.lists))
  {
    hide WithText, WithItem, WithNumber, WithChoice, Positive;
  }

  lemma ValueSetsNumber(parseInt: string -> Option<int>, f: Flag, flag: string, value: string, a: Args)
    requires IsNumberFlag(f)
    ensures var n := Positive(parseInt, value, Bits(f));
            WithValue(parseInt, f, flag, value, a) ==
            a.(numbers := WithNumber(f, n, a.numbers),
               diagnostics := a.diagnostics + if n.Some? then [] else [NotPositive(flag, Bits(f))])
  {
    hide WithText, WithItem, WithNumber, WithChoice, Positive;
  }

  lemma ValueSetsChoice(parseInt: string -> Option<int>, f: Flag, flag: string, value: string, a: Args)
    requires IsChoiceFlag(f)
    ensures var (choices, report) := WithChoice(f, value, a.choices);
            WithValue(parseInt, f, flag, value, a) ==
            a.(choices := choices, diagnostics := a.diagnostics + report)
  {
    hide WithText, WithItem, WithNumber, WithChoice, Positive;
  }

  lemma ValueSets(parseInt: string -> Option<int>, f: Flag, flag: string, value: string, a: Args)
    requires TakesValue(f)
    ensures var b := WithValue(parseInt, f, flag, value, a);
            && b.texts == (if IsTextFlag(f) then WithText(f, value, a.texts) else a.texts)
            && b.lists == (if IsListFlag(f) then WithItem(f, value, a.lists) else a.lists)
            && b.numbers == (if IsNumberFlag(f) then WithNumber(f, Positive(parseInt, value, Bits(f)), a.numbers)
                             else a.numbers)
            && b.choices == (if IsChoiceFlag(f) then WithChoice(f, value, a.choices).0 else a.choices)
            && b.switches == a.switches && b.autonomous == a.autonomous
  {
    OneKind(f);
    hide WithText, WithItem, WithNumber, WithChoice, WithValue, Positive;
    hide IsTextFlag, IsListFlag, IsNumberFlag, IsChoiceFlag, TakesValue, Bits;
    ValueSetsText(parseInt, f, flag, value, a);
    if IsTextFlag(f) {
    } else if IsListFlag(f) {
    } else if IsNumberFlag(f) {
      ValueSetsNumber(parseInt, f, flag, value, a);
    } else {
      ValueSetsChoice(parseInt, f, flag, value, a);
    }
  }

  /** A flag that takes a value fills one kind of field. */
  lemma OneKind(f: Flag)
    ensures TakesValue(f) ==> IsTextFlag(f) || IsListFlag(f) || IsNumberFlag(f) || IsChoiceFlag(f)
    ensures IsTextFlag(f) ==> !IsListFlag(f) && !IsNumberFlag(f) && !IsChoiceFlag(f)
    ensures IsListFlag(f) ==> !IsNumberFlag(f) && !IsChoiceFlag(f)
    ensures IsNumberFlag(f) ==> !IsChoiceFlag(f)
  {
  }

  /** Which group of fields a turn may change. */
  lemma GroupSet(parseInt: string -> Option<int>, arg: string, next: Option<string>, runtime: bool, a: Args)
    ensures var (v, b, f) := (VisitOf(arg, next, runtime), Turn(parseInt, arg, next, runtime, a).0, FlagOf(arg));
            && v.token == arg
            && b.texts == (if f.Some? && IsTextFlag(f.value) && v.taken.Some? then
                             WithText(f.value, v.taken.value, a.texts)
                           else a.texts)
            && b.lists == (if f.Some? && IsListFlag(f.value) && v.taken.Some? then
                             WithItem(f.value, v.taken.value, a.lists)
                           else a.lists)
            && b.numbers ==
               (if f.Some? && IsNumberFlag(f.value) && v.taken.Some? then
                  WithNumber(f.value, Positive(parseInt, v.taken.value, Bits(f.value)), a.numbers)
                else a.numbers)
            && b.choices == (if f.Some? && IsChoiceFlag(f.value) && v.taken.Some? then
                               WithChoice(f.value, v.taken.value, a.choices).0
                             else a.choices)
            && b.switches == (if f.Some? && IsSwitch(f.value) then Switch(f.value, a.switches) else a.switches)
            && (b.autonomous <==> a.autonomous || (f.Some? && (f.value.Autonomous? || IsAutonomous(f.value))))
  {
    hide FlagOf, Turn, VisitOf, WithText, WithItem, WithNumber, WithChoice, WithValue, Switch, Positive, LookAhead;
    hide Other;
    TakenIs(parseInt, arg, next, runtime, a);
    var v, f := VisitOf(arg, next, runtime), FlagOf(arg);
    if f.None? {
      OtherKeeps(arg, a);
    } else if IsSwitch(f.value) {
    } else if LooksAhead(f.value) {
      AheadKeeps(f.value, next, runtime, a);
    } else if v.taken.None? {
    } else {
      ValueSets(parseInt, f.value, arg, v.taken.value, BeforeValue(f.value, a));
    }
  }

  lemma TextMove(t: Texts, vs: seq<Visit>, v: Visit, f: Flag)
    requires TextIs(t, vs, f)
    ensures var g := FlagOf(v.token);
            TextIs(if g.Some? && IsTextFlag(g.value) && v.taken.Some? then WithText(g.value, v.taken.value, t) else t,
                   vs + [v], f)
  {
    hide FlagOf, ValueName, Values, WithText, TextField;
    ValuesSnoc(vs, v, f);
    var g := FlagOf(v.token);
    if g.Some? && IsTextFlag(g.value) && v.taken.Some? {
      TextSet(g.value, v.taken.value, t, f);
    }
  }

  lemma TextStep(parseInt: string -> Option<int>, runtime: bool, arg: string, next: Option<string>, a: Args,
                 vs: seq<Visit>, f: Flag)
    requires TextIs(a.texts, vs, f)
    ensures TextIs(Turn(parseInt, arg, next, runtime, a).0.texts, vs + [VisitOf(arg, next, runtime)], f)
  {
    hide FlagOf, Turn, VisitOf, WithText, WithItem, WithNumber, WithChoice, Switch, TextIs;
    GroupSet(parseInt, arg, next, runtime, a);
    TextMove(a.texts, vs, VisitOf(arg, next, runtime), f);
  }

  lemma NoText(f: Flag)
    requires IsTextFlag(f)
    ensures TextIs(DEFAULT.texts, [], f)
  {
    hide ValueName;
  }

  lemma TextEnds(parseInt: string -> Option<int>, args: seq<string>, f: Flag)
    requires IsTextFlag(f)
    ensures TextIs(Parse(parseInt, args).texts, Visited(args), f)
  {
    hide Turn, VisitOf, TextIs, Parse, Visited, After, Finish, WithMessages, DEFAULT;
    var rel := (a: Args, vs: seq<Visit>) => TextIs(a.texts, vs, f);
    forall arg, next, a: Args, vs | TextIs(a.texts, vs, f)
      ensures IsKeptBy(parseInt, IsRuntime(args), rel, arg, next, a, vs)
    {
      TextStep(parseInt, IsRuntime(args), arg, next, a, vs, f);
    }
    NoText(f);
    var b := ParseKeeps(parseInt, args, rel);
    FinishKeeps(b, After(args));
  }

  lemma TextNames()
    ensures ValueName(Provider) == "--provider" && ValueName(Model) == "--model" && ValueName(ApiKey) == "--api-key"
    ensures ValueName(Cwd) == "--cwd" && ValueName(SystemPrompt) == "--system-prompt"
    ensures ValueName(DaemonSocket) == "--daemon-socket" && ValueName(Fork) == "--fork"
    ensures ValueName(SessionDir) == "--session-dir"
  {
  }

  /** Every text field holds the last value its flag took. */
  lemma TextsEnd(parseInt: string -> Option<int>, args: seq<string>)
    ensures TextsAre(Parse(parseInt, args).texts, Visited(args))
  {
    hide Parse, Visited, Values, ValueName, LastOf;
    TextNames();
    TextEnds(parseInt, args, Provider);
    TextEnds(parseInt, args, Model);
    TextEnds(parseInt, args, ApiKey);
    TextEnds(parseInt, args, Cwd);
    TextEnds(parseInt, args, SystemPrompt);
    TextEnds(parseInt, args, DaemonSocket);
    TextEnds(parseInt, args, Fork);
    TextEnds(parseInt, args, SessionDir);
  }

  // ---------------------------------------------------------------------
  // Lists
  // ---------------------------------------------------------------------

  function ListField(l: Lists, f: Flag): seq<string>
    requires IsListFlag(f)
  {
    match f
    case AppendSystemPrompt => l.appendSystemPrompt
    case Skill => l.skills
    case PromptTemplate => l.promptTemplates
    case Theme => l.themes
    case Gate => if l.autonomousGates.None? then [] else l.autonomousGates.value
  }

  predicate ListIs(l: Lists, vs: seq<Visit>, f: Flag) {
    && IsListFlag(f) && ListField(l, f) == Values(vs, ValueName(f))
    && (l.autonomousGates.Some? ==> l.autonomousGates.value != [])
  }

  lemma ListSet(g: Flag, value: string, l: Lists, f: Flag)
    requires IsListFlag(f)
    ensures ListField(WithItem(g, value, l), f) == if f == g then ListField(l, f) + [value] else ListField(l, f)
    ensures (l.autonomousGates.Some? ==> l.autonomousGates.value != []) ==>
              var m := WithItem(g, value, l).autonomousGates; m.Some? ==> m.value != []
  {
    match g
    case AppendSystemPrompt =>
    case Skill =>
    case PromptTemplate =>
    case Theme =>
    case Gate =>
    case _ =>
  }

  lemma ListMove(l: Lists, vs: seq<Visit>, v: Visit, f: Flag)
    requires ListIs(l, vs, f)
    ensures var g := FlagOf(v.token);
            ListIs(if g.Some? && IsListFlag(g.value) && v.taken.Some? then WithItem(g.value, v.taken.value, l) else l,
                   vs + [v], f)
  {
    hide FlagOf, ValueName, Values, WithItem, ListField;
    ValuesSnoc(vs, v, f);
    var g := FlagOf(v.token);
    if g.Some? && IsListFlag(g.value) && v.taken.Some? {
      ListSet(g.value, v.taken.value, l, f);
    }
  }

  lemma ListStep(parseInt: string -> Option<int>, runtime: bool, arg: string, next: Option<string>, a: Args,
                 vs: seq<Visit>, f: Flag)
    requires ListIs(a.lists, vs, f)
    ensures ListIs(Turn(parseInt, arg, next, runtime, a).0.lists, vs + [VisitOf(arg, next, runtime)], f)
  {
    hide FlagOf, Turn, VisitOf, WithText, WithItem, WithNumber, WithChoice, Switch, ListIs;
    GroupSet(parseInt, arg, next, runtime, a);
    ListMove(a.lists, vs, VisitOf(arg, next, runtime), f);
  }

  lemma NoList(f: Flag)
    requires IsListFlag(f)
    ensures ListIs(DEFAULT.lists, [], f)
  {
    hide ValueName;
  }

  lemma ListEnds(parseInt: string -> Option<int>, args: seq<string>, f: Flag)
    requires IsListFlag(f)
    ensures ListIs(Parse(parseInt, args).lists, Visited(args), f)
  {
    hide Turn, VisitOf, ListIs, Parse, Visited, After, Finish, WithMessages, DEFAULT;
    var rel := (a: Args, vs: seq<Visit>) => ListIs(a.lists, vs, f);
    forall arg, next, a: Args, vs | ListIs(a.lists, vs, f)
      ensures IsKeptBy(parseInt, IsRuntime(args), rel, arg, next, a, vs)
    {
      ListStep(parseInt, IsRuntime(args), arg, next, a, vs, f);
    }
    NoList(f);
    var b := ParseKeeps(parseInt, args, rel);
    FinishKeeps(b, After(args));
  }

  lemma ListNames()
    ensures ValueName(AppendSystemPrompt) == "--append-system-prompt" && ValueName(Skill) == "--skill"
    ensures ValueName(PromptTemplate) == "--prompt-template" && ValueName(Theme) == "--theme"
    ensures ValueName(Gate) == "--autonomous-gate"
  {
  }

  /** Every list field holds the values its flag took, in order. */
  lemma ListsEnd(parseInt: string -> Option<int>, args: seq<string>)
    ensures ListsAre(Parse(parseInt, args).lists, Visited(args))
  {
    hide Parse, Visited, Values, ValueName;
    ListNames();
    ListEnds(parseInt, args, AppendSystemPrompt);
    ListEnds(parseInt, args, Skill);
    ListEnds(parseInt, args, PromptTemplate);
    ListEnds(parseInt, args, Theme);
    ListEnds(parseInt, args, Gate);
  }

  // ---------------------------------------------------------------------
  // Numbers
  // ---------------------------------------------------------------------

  function NumberField(m: Numbers, f: Flag): Option<nat>
    requires IsNumberFlag(f)
  {
    match f
    case GateRetries => m.autonomousGateRetries
    case GateTimeoutMs => m.autonomousGateTimeoutMs
    case MaxContinuations => m.autonomousMaxContinuations
    case MaxTurns => m.autonomousMaxTurns
    case MaxTokens => m.autonomousMaxTokens
    case TimeoutMs => m.autonomousTimeoutMs
    case GoalTokenBudget => m.goalTokenBudget
  }

  function Limit(f: Flag): nat {
    if f.GateTimeoutMs? || f.MaxTokens? || f.TimeoutMs? then 0x1_0000_0000_0000_0000 else 0x1_0000_0000
  }

  predicate NumberIs(parseInt: string -> Option<int>, m: Numbers, vs: seq<Visit>, f: Flag) {
    IsNumberFlag(f) && NumberField(m, f) == Below(parseInt, LastOf(Values(vs, ValueName(f))), Limit(f))
  }

  lemma NumberSet(g: Flag, n: Option<nat>, m: Numbers, f: Flag)
    requires IsNumberFlag(f)
    ensures NumberField(WithNumber(g, n, m), f) == if f == g then n else NumberField(m, f)
  {
  }

  lemma PositiveIs(parseInt: string -> Option<int>, value: string, f: Flag)
    ensures Positive(parseInt, value, Bits(f)) == Below(parseInt, Some(value), Limit(f))
  {
  }

  lemma NumberMove(parseInt: string -> Option<int>, m: Numbers, vs: seq<Visit>, v: Visit, f: Flag)
    requires NumberIs(parseInt, m, vs, f)
    ensures var g := FlagOf(v.token);
            NumberIs(parseInt,
                     if g.Some? && IsNumberFlag(g.value) && v.taken.Some? then
                       WithNumber(g.value, Positive(parseInt, v.taken.value, Bits(g.value)), m)
                     else m,
                     vs + [v], f)
  {
    hide FlagOf, ValueName, Values, WithNumber, NumberField, Below, Positive, Limit, Bits;
    ValuesSnoc(vs, v, f);
    var g := FlagOf(v.token);
    if g.Some? && IsNumberFlag(g.value) && v.taken.Some? {
      NumberSet(g.value, Positive(parseInt, v.taken.value, Bits(g.value)), m, f);
      PositiveIs(parseInt, v.taken.value, g.value);
    }
  }

  lemma NumberStep(parseInt: string -> Option<int>, runtime: bool, arg: string, next: Option<string>, a: Args,
                   vs: seq<Visit>, f: Flag)
    requires NumberIs(parseInt, a.numbers, vs, f)
    ensures NumberIs(parseInt, Turn(parseInt, arg, next, runtime, a).0.numbers, vs + [VisitOf(arg, next, runtime)], f)
  {
    hide FlagOf, Turn, VisitOf, WithText, WithItem, WithNumber, WithChoice, Switch, NumberIs;
    GroupSet(parseInt, arg, next, runtime, a);
    NumberMove(parseInt, a.numbers, vs, VisitOf(arg, next, runtime), f);
  }

  lemma NoNumber(parseInt: string -> Option<int>, f: Flag)
    requires IsNumberFlag(f)
    ensures NumberIs(parseInt, DEFAULT.numbers, [], f)
  {
    hide ValueName;
  }

  lemma NumberEnds(parseInt: string -> Option<int>, args: seq<string>, f: Flag)
    requires IsNumberFlag(f)
    ensures NumberIs(parseInt, Parse(parseInt, args).numbers, Visited(args), f)
  {
    hide Turn, VisitOf, NumberIs, Parse, Visited, After, Finish, WithMessages, DEFAULT;
    var rel := (a: Args, vs: seq<Visit>) => NumberIs(parseInt, a.numbers, vs, f);
    forall arg, next, a: Args, vs | NumberIs(parseInt, a.numbers, vs, f)
      ensures IsKeptBy(parseInt, IsRuntime(args), rel, arg, next, a, vs)
    {
      NumberStep(parseInt, IsRuntime(args), arg, next, a, vs, f);
    }
    NoNumber(parseInt, f);
    var b := ParseKeeps(parseInt, args, rel);
    FinishKeeps(b, After(args));
  }

  lemma NumberNames()
    ensures ValueName(GateRetries) == "--autonomous-gate-retries"
    ensures ValueName(GateTimeoutMs) == "--autonomous-gate-timeout-ms"
    ensures ValueName(MaxContinuations) == "--autonomous-max-continuations"
    ensures ValueName(MaxTurns) == "--autonomous-max-turns" && ValueName(MaxTokens) == "--autonomous-max-tokens"
    ensures ValueName(TimeoutMs) == "--autonomous-timeout-ms" && ValueName(GoalTokenBudget) == "--goal-token-budget"
  {
  }

  /** Every number field holds the last value its flag took, if that is a
      positive number in range. */
  lemma NumbersEnd(parseInt: string -> Option<int>, args: seq<string>)
    ensures NumbersAre(parseInt, Parse(parseInt, args).numbers, Visited(args))
  {
    hide Parse, Visited, Values, ValueName, LastOf, Below;
    NumberNames();
    NumberEnds(parseInt, args, GateRetries);
    NumberEnds(parseInt, args, GateTimeoutMs);
    NumberEnds(parseInt, args, MaxContinuations);
    NumberEnds(parseInt, args, MaxTurns);
    NumberEnds(parseInt, args, MaxTokens);
    NumberEnds(parseInt, args, TimeoutMs);
    NumberEnds(parseInt, args, GoalTokenBudget);
  }

  // ---------------------------------------------------------------------
  // Choices
  // ---------------------------------------------------------------------

  lemma LastWhereSnoc(xs: seq<string>, x: string, ok: string -> bool)
    ensures LastWhere(xs + [x], ok) == if ok(x) then Some(x) else LastWhere(xs, ok)
  {
    assert (xs + [x])[..|xs|] == xs;
  }

  lemma ModesAre(s: string)
    ensures ParseMode(s).Some? <==> IsModeName(s)
    ensures ParseMode(s).Some? ==> s == ModeName(ParseMode(s).value)
  {
  }

  lemma LevelsAre(s: string)
    ensures ParseLevel(s).Some? <==> IsLevelName(s)
    ensures ParseLevel(s).Some? ==> s == LevelName(ParseLevel(s).value)
  {
  }

  lemma BlankTrims(s: string)
    ensures Trim(s) == "" <==> IsBlank(s)
  {
    hide IsWhitespace, Trim;
    TrimIsTrimmed(s);
    var n: nat :| Surrounds(s, Trim(s), n);
    if Trim(s) != "" {
      assert s[n] == Trim(s)[0];
    }
  }

  lemma ListRead(text: string)
    ensures var parts := Split(text, ',');
            IsListOf(seq(|parts|, i requires 0 <= i < |parts| => Trim(parts[i])), text)
  {
    hide Trim, IsTrimmed;
    var parts := Split(text, ',');
    JoinSplit(text, ',');
    hide Split, Join;
    var ms := seq(|parts|, i requires 0 <= i < |parts| => Trim(parts[i]));
    forall i | 0 <= i < |parts|
      ensures IsTrimmed(ms[i], parts[i])
    {
      TrimIsTrimmed(parts[i]);
    }
    assert IsTrimmedList(ms, parts);
  }

  ghost predicate ModeIs(c: Choices, values: seq<string>) {
    LastWhere(values, IsModeName) == if c.mode.None? then None else Some(ModeName(c.mode.value))
  }

  ghost predicate LevelIs(c: Choices, values: seq<string>) {
    LastWhere(values, IsLevelName) == if c.thinking.None? then None else Some(LevelName(c.thinking.value))
  }

  ghost predicate GoalIs(c: Choices, values: seq<string>) {
    c.goal == LastWhere(values, NotBlank)
  }

  ghost predicate ModelsAre(c: Choices, values: seq<string>) {
    match LastOf(values)
    case None => c.models.None?
    case Some(text) => c.models.Some? && IsListOf(c.models.value, text)
  }

  lemma ModeSet(c: Choices, values: seq<string>, value: string)
    requires ModeIs(c, values)
    ensures ModeIs(WithChoice(ModeOf, value, c).0, values + [value])
  {
    hide ParseMode, LastWhere, ModeName, IsModeName;
    ModesAre(value);
    LastWhereSnoc(values, value, IsModeName);
  }

  lemma LevelSet(c: Choices, values: seq<string>, value: string)
    requires LevelIs(c, values)
    ensures LevelIs(WithChoice(Thinking, value, c).0, values + [value])
  {
    hide ParseLevel, LastWhere, LevelName, IsLevelName;
    LevelsAre(value);
    LastWhereSnoc(values, value, IsLevelName);
  }

  lemma GoalSet(c: Choices, values: seq<string>, value: string)
    requires GoalIs(c, values)
    ensures GoalIs(WithChoice(Goal, value, c).0, values + [value])
  {
    hide Trim, LastWhere;
    BlankTrims(value);
    LastWhereSnoc(values, value, NotBlank);
  }

  lemma ModelsSet(c: Choices, values: seq<string>, value: string)
    ensures ModelsAre(WithChoice(Models, value, c).0, values + [value])
  {
    hide Trim, Split, IsListOf;
    ListRead(value);
  }

  /** A choice flag changes its own field alone. */
  lemma ChoiceFrame(f: Flag, value: string, c: Choices)
    ensures var d := WithChoice(f, value, c).0;
            && (!f.ModeOf? ==> d.mode == c.mode) && (!f.Thinking? ==> d.thinking == c.thinking)
            && (!f.Goal? ==> d.goal == c.goal) && (!f.Models? ==> d.models == c.models)
  {
    hide ParseMode, ParseLevel, Split, Trim;
    match f
    case ModeOf =>
    case Thinking =>
    case Goal =>
    case Models =>
    case _ =>
  }

  ghost predicate ChoicesHold(c: Choices, vs: seq<Visit>) {
    && ModeIs(c, Values(vs, ValueName(ModeOf))) && LevelIs(c, Values(vs, ValueName(Thinking)))
    && GoalIs(c, Values(vs, ValueName(Goal))) && ModelsAre(c, Values(vs, ValueName(Models)))
  }

  lemma ChoiceMove(c: Choices, vs: seq<Visit>, v: Visit)
    requires ChoicesHold(c, vs)
    ensures var g := FlagOf(v.token);
            ChoicesHold(if g.Some? && IsChoiceFlag(g.value) && v.taken.Some? then
                          WithChoice(g.value, v.taken.value, c).0
                        else c,
                        vs + [v])
  {
    hide FlagOf, ValueName, Values, WithChoice, ModeName, LevelName, LastWhere, IsListOf;
    ValuesSnoc(vs, v, ModeOf);
    ValuesSnoc(vs, v, Thinking);
    ValuesSnoc(vs, v, Goal);
    ValuesSnoc(vs, v, Models);
    var g := FlagOf(v.token);
    if g.Some? && IsChoiceFlag(g.value) && v.taken.Some? {
      var value := v.taken.value;
      ChoiceFrame(g.value, value, c);
      match g.value
      case ModeOf => ModeSet(c, Values(vs, ValueName(ModeOf)), value);
      case Thinking => LevelSet(c, Values(vs, ValueName(Thinking)), value);
      case Goal => GoalSet(c, Values(vs, ValueName(Goal)), value);
      case Models => ModelsSet(c, Values(vs, ValueName(Models)), value);
    }
  }

  lemma ChoiceStep(parseInt: string -> Option<int>, runtime: bool, arg: string, next: Option<string>, a: Args,
                   vs: seq<Visit>)
    requires ChoicesHold(a.choices, vs)
    ensures ChoicesHold(Turn(parseInt, arg, next, runtime, a).0.choices, vs + [VisitOf(arg, next, runtime)])
  {
    hide FlagOf, Turn, VisitOf, WithText, WithItem, WithNumber, WithChoice, Switch, ChoicesHold;
    GroupSet(parseInt, arg, next, runtime, a);
    ChoiceMove(a.choices, vs, VisitOf(arg, next, runtime));
  }

  lemma NoChoice()
    ensures ChoicesHold(DEFAULT.choices, [])
  {
    hide ValueName;
  }

  lemma ChoiceNames()
    ensures ValueName(ModeOf) == "--mode" && ValueName(Thinking) == "--thinking"
    ensures ValueName(Goal) == "--goal" && ValueName(Models) == "--models"
  {
  }

  /** Mode, level and goal are the last acceptable value of their flag, and the
      models the items of the last list. */
  lemma ChoicesEnd(parseInt: string -> Option<int>, args: seq<string>)
    ensures ChoicesAre(Parse(parseInt, args).choices, Visited(args))
  {
    hide Turn, VisitOf, ChoicesHold, Parse, Visited, After, Finish, WithMessages, DEFAULT;
    var rel := (a: Args, vs: seq<Visit>) => ChoicesHold(a.choices, vs);
    forall arg, next, a: Args, vs | ChoicesHold(a.choices, vs)
      ensures IsKeptBy(parseInt, IsRuntime(args), rel, arg, next, a, vs)
    {
      ChoiceStep(parseInt, IsRuntime(args), arg, next, a, vs);
    }
    NoChoice();
    var b := ParseKeeps(parseInt, args, rel);
    FinishKeeps(b, After(args));
    ChoicesRead(Parse(parseInt, args).choices, Visited(args));
  }

  lemma ChoicesRead(c: Choices, vs: seq<Visit>)
    requires ChoicesHold(c, vs)
    ensures ChoicesAre(c, vs)
  {
    hide ValueName, Values, ModeName, LevelName, LastWhere, IsListOf;
    ChoiceNames();
  }

  // ---------------------------------------------------------------------
  // Switches
  // ---------------------------------------------------------------------

  lemma FlagSeen(vs: seq<Visit>, v: Visit, f: Flag)
    ensures Seen(vs + [v], Names(f)) <==> Seen(vs, Names(f)) || FlagOf(v.token) == Some(f)
  {
    hide FlagOf, Names, Seen;
    SeenSnoc(vs, v, Names(f));
    Named(v.token, f);
  }

  predicate SwitchesHold(s: Switches, vs: seq<Visit>) {
    && (s.help <==> Seen(vs, Names(Help)))
    && (s.version <==> Seen(vs, Names(Version)))
    && (s.continueRun <==> Seen(vs, Names(Continue)))
    && (s.noSession <==> Seen(vs, Names(NoSession)))
    && (s.noSkills <==> Seen(vs, Names(NoSkills)))
    && (s.noPromptTemplates <==> Seen(vs, Names(NoPromptTemplates)))
    && (s.noThemes <==> Seen(vs, Names(NoThemes)))
    && (s.noContextFiles <==> Seen(vs, Names(NoContextFiles)))
    && (s.verbose <==> Seen(vs, Names(Verbose)))
    && (s.offline <==> Seen(vs, Names(Offline)))
  }

  lemma SwitchMove(s: Switches, vs: seq<Visit>, v: Visit)
    requires SwitchesHold(s, vs)
    ensures var g := FlagOf(v.token);
            SwitchesHold(if g.Some? && IsSwitch(g.value) then Switch(g.value, s) else s, vs + [v])
  {
    hide FlagOf, Names, Seen;
    FlagSeen(vs, v, Help);
    FlagSeen(vs, v, Version);
    FlagSeen(vs, v, Continue);
    FlagSeen(vs, v, NoSession);
    FlagSeen(vs, v, NoSkills);
    FlagSeen(vs, v, NoPromptTemplates);
    FlagSeen(vs, v, NoThemes);
    FlagSeen(vs, v, NoContextFiles);
    FlagSeen(vs, v, Verbose);
    FlagSeen(vs, v, Offline);
  }

  lemma SwitchStep(parseInt: string -> Option<int>, runtime: bool, arg: string, next: Option<string>, a: Args,
                   vs: seq<Visit>)
    requires SwitchesHold(a.switches, vs)
    ensures SwitchesHold(Turn(parseInt, arg, next, runtime, a).0.switches, vs + [VisitOf(arg, next, runtime)])
  {
    hide FlagOf, Turn, VisitOf, WithText, WithItem, WithNumber, WithChoice, Switch, SwitchesHold;
    GroupSet(parseInt, arg, next, runtime, a);
    SwitchMove(a.switches, vs, VisitOf(arg, next, runtime));
  }

  lemma NoSwitch()
    ensures SwitchesHold(DEFAULT.switches, [])
  {
    hide Names;
  }

  lemma TwoNames()
    ensures SwitchNames(Help) == {"--help", "-h"} && SwitchNames(Version) == {"--version", "-v"}
    ensures SwitchNames(Continue) == {"--continue", "-c"} && SwitchNames(NoSkills) == {"--no-skills", "-ns"}
    ensures SwitchNames(NoPromptTemplates) == {"--no-prompt-templates", "-np"}
    ensures SwitchNames(NoContextFiles) == {"--no-context-files", "-nc"}
  {
  }

  lemma OneName()
    ensures SwitchNames(NoSession) == {"--no-session"} && SwitchNames(NoThemes) == {"--no-themes"}
    ensures SwitchNames(Verbose) == {"--verbose"} && SwitchNames(Offline) == {"--offline"}
  {
  }

  lemma SwitchesRead(s: Switches, vs: seq<Visit>)
    requires SwitchesHold(s, vs)
    ensures SwitchesAre(s, vs)
  {
    hide SwitchNames, Seen;
    TwoNames();
    OneName();
  }

  /** Every switch is on exactly when it was visited under one of its names. */
  lemma SwitchesEnd(parseInt: string -> Option<int>, args: seq<string>)
    ensures SwitchesAre(Parse(parseInt, args).switches, Visited(args))
  {
    hide Turn, VisitOf, SwitchesHold, SwitchesAre, Parse, Visited, After, Finish, WithMessages, DEFAULT;
    var rel := (a: Args, vs: seq<Visit>) => SwitchesHold(a.switches, vs);
    forall arg, next, a: Args, vs | SwitchesHold(a.switches, vs)
      ensures IsKeptBy(parseInt, IsRuntime(args), rel, arg, next, a, vs)
    {
      SwitchStep(parseInt, IsRuntime(args), arg, next, a, vs);
    }
    NoSwitch();
    var b := ParseKeeps(parseInt, args, rel);
    FinishKeeps(b, After(args));
    SwitchesRead(Parse(parseInt, args).switches, Visited(args));
  }

  const AUTONOMOUS_FLAGS := {
    "--autonomous", "--autonomous-gate", "--autonomous-gate-retries", "--autonomous-gate-timeout-ms",
    "--autonomous-max-continuations", "--autonomous-max-turns", "--autonomous-max-tokens", "--autonomous-timeout-ms"
  }

  lemma AutonomousListed(arg: string)
    requires arg in AUTONOMOUS_FLAGS
    ensures arg == "--autonomous" || AutonomousFlagOf(arg).Some?
  {
  }

  lemma AutonomousIsNamed(f: Flag)
    requires IsAutonomous(f)
    ensures AutonomousName(f) in AUTONOMOUS_FLAGS
  {
  }

  lemma AutonomousSwitch(s: string)
    ensures s in Names(Autonomous) <==> s == "--autonomous"
    ensures "--autonomous" in AUTONOMOUS_FLAGS
  {
    hide AheadNames, ValueName;
  }

  lemma AutonomousFlagsAre(arg: string)
    ensures arg in AUTONOMOUS_FLAGS <==>
            FlagOf(arg).Some? && (FlagOf(arg).value.Autonomous? || IsAutonomous(FlagOf(arg).value))
  {
    hide FlagOf, AutonomousFlagOf, AutonomousName, PlainName, SwitchNames, AheadNames, AUTONOMOUS_FLAGS;
    AutonomousSwitch(arg);
    Named(arg, Autonomous);
    FlagIsNamed(arg);
    if arg in AUTONOMOUS_FLAGS {
      AutonomousListed(arg);
      if arg != "--autonomous" {
        AutonomousFlagIsNamed(arg);
        Named(arg, AutonomousFlagOf(arg).value);
      }
    } else if FlagOf(arg).Some? && IsAutonomous(FlagOf(arg).value) {
      AutonomousIsNamed(FlagOf(arg).value);
    }
  }

  /** Autonomous mode is on exactly when one of its flags was visited, with or
      without a value. */
  lemma AutonomousEnds(parseInt: string -> Option<int>, args: seq<string>)
    ensures Parse(parseInt, args).autonomous <==> Seen(Visited(args), AUTONOMOUS_FLAGS)
  {
    hide Turn, VisitOf, Seen, Parse, Visited, After, Finish, WithMessages, AUTONOMOUS_FLAGS, FlagOf;
    hide WithText, WithItem, WithNumber, WithChoice, Switch, Bits, Positive;
    var rel := (a: Args, vs: seq<Visit>) => a.autonomous <==> Seen(vs, AUTONOMOUS_FLAGS);
    forall arg, next, a: Args, vs | rel(a, vs)
      ensures IsKeptBy(parseInt, IsRuntime(args), rel, arg, next, a, vs)
    {
      GroupSet(parseInt, arg, next, IsRuntime(args), a);
      SeenSnoc(vs, VisitOf(arg, next, IsRuntime(args)), AUTONOMOUS_FLAGS);
      AutonomousFlagsAre(arg);
    }
    SeenNothing(AUTONOMOUS_FLAGS);
    var b := ParseKeeps(parseInt, args, rel);
    FinishKeeps(b, After(args));
  }

  lemma SeenNothing(names: set<string>)
    ensures !Seen([], names)
  {
  }

  // ---------------------------------------------------------------------
  // Prompts, files and the flags that look ahead
  // ---------------------------------------------------------------------

  lemma CollectSnoc<T>(vs: seq<Visit>, v: Visit, of: Visit -> Option<T>)
    ensures Collect(vs + [v], of) == if of(v).Some? then Collect(vs, of) + [of(v).value] else Collect(vs, of)
  {
    assert (vs + [v])[..|vs|] == vs;
    assert Collect(vs, of) + [] == Collect(vs, of);
  }

  lemma ExportValues(vs: seq<Visit>, v: Visit)
    ensures Values(vs + [v], "--export") ==
            if v.token == "--export" && v.taken.Some? then Values(vs, "--export") + [v.taken.value]
            else Values(vs, "--export")
  {
    assert (vs + [v])[..|vs|] == vs;
  }

  /** The contributions of a token that is a flag. */
  lemma FlagParts(v: Visit, f: Flag)
    requires FlagOf(v.token) == Some(f)
    ensures ResumeOf(v) == if f.Resume? then Some(if v.taken.Some? then v.taken.value else "") else None
    ensures SearchOf(v) == if f.ListModels? then Some(v.taken) else None
    ensures WordOf(v) == if f.Print? then v.taken else None
    ensures FileOf(v) == None
    ensures v.token in {"--print", "-p"} <==> f.Print?
    ensures v.token == "--export" <==> f.Export?
  {
    hide FlagOf, Names;
    FlagLooks(v.token);
    NamesAre();
    Named(v.token, f);
    NotOthers(v.token, f);
  }

  lemma PlainToken(v: Visit)
    requires FlagOf(v.token).None?
    ensures v.token !in {"--print", "-p", "--resume", "-r"} && v.token != "--export" && v.token != "--list-models"
  {
    hide FlagOf, Names;
    NamesAre();
    Named(v.token, Resume);
    Named(v.token, Print);
    Named(v.token, Export);
    Named(v.token, ListModels);
  }

  predicate SameParts(a: Args, b: Args) {
    && a.resumeBare == b.resumeBare && a.resume == b.resume && a.printMode == b.printMode
    && a.exportFile == b.exportFile && a.listModels == b.listModels
    && a.messages == b.messages && a.fileArgs == b.fileArgs
  }

  /** One visit, by what it contributes. */
  lemma RestMove(runtime: bool, a: Args, b: Args, vs: seq<Visit>, v: Visit)
    requires RestIs(runtime, a, vs)
    requires b.resumeBare <==> a.resumeBare || ResumeOf(v) == Some("")
    requires b.resume == if ResumeOf(v).Some? && ResumeOf(v).value != "" then ResumeOf(v) else a.resume
    requires b.printMode <==> a.printMode || v.token in {"--print", "-p"}
    requires b.exportFile == if runtime && v.token == "--export" && v.taken.Some? then v.taken else a.exportFile
    requires b.listModels == if runtime && SearchOf(v).Some? then SearchOf(v) else a.listModels
    requires b.messages == if WordOf(v).Some? then a.messages + [WordOf(v).value] else a.messages
    requires b.fileArgs == if FileOf(v).Some? then a.fileArgs + [FileOf(v).value] else a.fileArgs
    ensures RestIs(runtime, b, vs + [v])
  {
    hide ResumeOf, SearchOf, WordOf, FileOf, Seen, Values, Collect, LastWhere;
    CollectSnoc(vs, v, ResumeOf);
    CollectSnoc(vs, v, SearchOf);
    CollectSnoc(vs, v, WordOf);
    CollectSnoc(vs, v, FileOf);
    SeenSnoc(vs, v, {"--print", "-p"});
    ExportValues(vs, v);
    if ResumeOf(v).Some? {
      LastWhereSnoc(Collect(vs, ResumeOf), ResumeOf(v).value, NotEmpty);
    }
  }

  lemma OtherParts(v: Visit)
    requires v.token !in {"--print", "-p", "--resume", "-r"} && v.token != "--list-models"
    ensures ResumeOf(v) == if StartsWith(v.token, "--resume=") then Some(v.token[9..]) else None
    ensures SearchOf(v) == None
    ensures StartsWith(v.token, "--resume=") || StartsWith(v.token, "--export=")
            || StartsWith(v.token, "--list-models=") ==>
              StartsWith(v.token, "-") && !StartsWith(v.token, "@")
    ensures FileOf(v) == if StartsWith(v.token, "@") then Some(v.token[1..]) else None
    ensures WordOf(v) == if StartsWith(v.token, "@") || StartsWith(v.token, "-") then None else Some(v.token)
  {
    DashFirst(v.token);
  }

  lemma DashFirst(s: string)
    ensures StartsWith(s, "-") <==> s != "" && s[0] == '-'
    ensures StartsWith(s, "@") <==> s != "" && s[0] == '@'
    ensures StartsWith(s, "--resume=") || StartsWith(s, "--export=") || StartsWith(s, "--list-models=") ==>
              s != "" && s[0] == '-'
  {
    assert "--resume="[0] == '-' && "--export="[0] == '-' && "--list-models="[0] == '-';
  }

  lemma OtherRest(runtime: bool, a: Args, vs: seq<Visit>, v: Visit)
    requires RestIs(runtime, a, vs) && FlagOf(v.token).None? && v.taken.None?
    ensures RestIs(runtime, Other(v.token, a), vs + [v])
  {
    hide FlagOf, RestIs;
    PlainToken(v);
    OtherParts(v);
    hide ResumeOf, SearchOf, WordOf, FileOf, StartsWith;
    var b := Other(v.token, a);
    if StartsWith(v.token, "--resume=") {
      RestMove(runtime, a, b, vs, v);
    } else if StartsWith(v.token, "--export=") {
      RestMove(runtime, a, b, vs, v);
    } else if StartsWith(v.token, "--list-models=") {
      RestMove(runtime, a, b, vs, v);
    } else if StartsWith(v.token, "@") {
      RestMove(runtime, a, b, vs, v);
    } else if StartsWith(v.token, "-") {
      RestMove(runtime, a, b, vs, v);
    } else {
      RestMove(runtime, a, b, vs, v);
    }
  }

  lemma SameRestMove(runtime: bool, a: Args, b: Args, vs: seq<Visit>, v: Visit, f: Flag)
    requires RestIs(runtime, a, vs) && FlagOf(v.token) == Some(f) && !LooksAhead(f) && SameParts(a, b)
    ensures RestIs(runtime, b, vs + [v])
  {
    hide FlagOf, RestIs, ResumeOf, SearchOf, WordOf, FileOf;
    FlagParts(v, f);
    RestMove(runtime, a, b, vs, v);
  }

  lemma AheadRest(runtime: bool, a: Args, vs: seq<Visit>, v: Visit, f: Flag, next: Option<string>)
    requires RestIs(runtime, a, vs) && FlagOf(v.token) == Some(f) && LooksAhead(f)
    requires v.taken == if LookAhead(f, next, runtime, a).1 then next else None
    ensures RestIs(runtime, LookAhead(f, next, runtime, a).0, vs + [v])
  {
    hide FlagOf, RestIs, ResumeOf, SearchOf, WordOf, FileOf, StartsWith;
    FlagParts(v, f);
    RestMove(runtime, a, LookAhead(f, next, runtime, a).0, vs, v);
  }

  /** A flag that takes a value, with or without one, touches none of these. */
  lemma ValueParts(parseInt: string -> Option<int>, f: Flag, flag: string, value: string, a: Args, d: Diagnostic)
    requires TakesValue(f)
    ensures SameParts(a, WithValue(parseInt, f, flag, value, BeforeValue(f, a)))
    ensures SameParts(a, WithDiagnostic(BeforeValue(f, a), d))
  {
    hide WithText, WithItem, WithNumber, WithChoice, WithValue, Positive;
    var b := BeforeValue(f, a);
    ValueSetsText(parseInt, f, flag, value, b);
    if IsTextFlag(f) {
    } else if IsListFlag(f) {
    } else if IsNumberFlag(f) {
      ValueSetsNumber(parseInt, f, flag, value, b);
    } else {
      ValueSetsChoice(parseInt, f, flag, value, b);
    }
  }

  lemma RestStep(parseInt: string -> Option<int>, runtime: bool, arg: string, next: Option<string>, a: Args,
                 vs: seq<Visit>)
    requires RestIs(runtime, a, vs)
    ensures RestIs(runtime, Turn(parseInt, arg, next, runtime, a).0, vs + [VisitOf(arg, next, runtime)])
  {
    hide FlagOf, Turn, VisitOf, WithValue, WithDiagnostic, BeforeValue, Switch, LookAhead, Other, RestIs;
    TakenIs(parseInt, arg, next, runtime, a);
    var v, f := VisitOf(arg, next, runtime), FlagOf(arg);
    if f.None? {
      OtherRest(runtime, a, vs, v);
    } else if LooksAhead(f.value) {
      AheadRest(runtime, a, vs, v, f.value, next);
    } else {
      if TakesValue(f.value) {
        ValueParts(parseInt, f.value, arg, if v.taken.Some? then v.taken.value else "", a, RequiresValue(arg));
      }
      SameRestMove(runtime, a, Turn(parseInt, arg, next, runtime, a).0, vs, v, f.value);
    }
  }

  lemma NoRest(runtime: bool)
    ensures RestIs(runtime, DEFAULT, [])
  {
  }

  /** Selectors, print mode, export file, model search, prompts and files, each
      from the tokens that name it. Prompts are followed by what comes after the
      separator. */
  lemma RestEnds(parseInt: string -> Option<int>, args: seq<string>)
    ensures var (p, vs) := (Parse(parseInt, args), Visited(args));
            && p.messages == Collect(vs, WordOf) + After(args)
            && RestIs(IsRuntime(args), p.(messages := Collect(vs, WordOf)), vs)
  {
    hide Turn, VisitOf, Parse, Visited, After, Finish, WithMessages, DEFAULT;
    var rel := (a: Args, vs: seq<Visit>) => RestIs(IsRuntime(args), a, vs);
    forall arg, next, a: Args, vs | RestIs(IsRuntime(args), a, vs)
      ensures IsKeptBy(parseInt, IsRuntime(args), rel, arg, next, a, vs)
    {
      RestStep(parseInt, IsRuntime(args), arg, next, a, vs);
    }
    NoRest(IsRuntime(args));
    var b := ParseKeeps(parseInt, args, rel);
    FinishKeeps(b, After(args));
  }

  // ---------------------------------------------------------------------
  // Diagnostics
  // ---------------------------------------------------------------------

  lemma ChoiceReport(f: Flag, value: string, c: Choices)
    ensures WithChoice(f, value, c).1 ==
            match f
            case ModeOf => if IsModeName(value) then [] else [InvalidMode(value)]
            case Thinking => if IsLevelName(value) then [] else [InvalidThinking(value)]
            case Goal => if IsBlank(value) then [EmptyGoal] else []
            case _ => []
  {
    ModesAre(value);
    LevelsAre(value);
    BlankTrims(value);
    hide ParseMode, ParseLevel, Split, Trim, IsModeName, IsLevelName;
  }

  lemma ChoiceNamed(flag: string, f: Flag)
    requires FlagOf(flag) == Some(f)
    ensures (flag == "--mode" <==> f.ModeOf?) && (flag == "--thinking" <==> f.Thinking?)
    ensures flag == "--goal" <==> f.Goal?
  {
    hide FlagOf, ValueName;
    ChoiceNames();
    ValueNamed(flag, ModeOf);
    ValueNamed(flag, Thinking);
    ValueNamed(flag, Goal);
  }

  lemma NumberBits(f: Flag)
    ensures IsNumberFlag(f) && Bits(f) == 32 <==>
            f == GateRetries || f == MaxContinuations || f == MaxTurns || f == GoalTokenBudget
    ensures IsNumberFlag(f) && Bits(f) == 64 <==> f == GateTimeoutMs || f == MaxTokens || f == TimeoutMs
  {
  }

  lemma U32Named(flag: string, f: Flag)
    requires FlagOf(flag) == Some(f)
    ensures flag in U32_FLAGS <==> IsNumberFlag(f) && Bits(f) == 32
  {
    hide FlagOf, ValueName, IsNumberFlag, Bits;
    NumberNames();
    NumberBits(f);
    ValueNamed(flag, GateRetries);
    ValueNamed(flag, MaxContinuations);
    ValueNamed(flag, MaxTurns);
    ValueNamed(flag, GoalTokenBudget);
  }

  lemma U64Named(flag: string, f: Flag)
    requires FlagOf(flag) == Some(f)
    ensures flag in U64_FLAGS <==> IsNumberFlag(f) && Bits(f) == 64
  {
    hide FlagOf, ValueName, IsNumberFlag, Bits;
    NumberNames();
    NumberBits(f);
    ValueNamed(flag, GateTimeoutMs);
    ValueNamed(flag, MaxTokens);
    ValueNamed(flag, TimeoutMs);
  }

  /** What is reported, by flag. */
  lemma ValueReportIs(parseInt: string -> Option<int>, f: Flag, flag: string, value: string)
    requires FlagOf(flag) == Some(f)
    ensures ValueReport(parseInt, flag, value) ==
            match f
            case ModeOf => if IsModeName(value) then None else Some(InvalidMode(value))
            case Thinking => if IsLevelName(value) then None else Some(InvalidThinking(value))
            case Goal => if IsBlank(value) then Some(EmptyGoal) else None
            case _ =>
              if IsNumberFlag(f) && Positive(parseInt, value, Bits(f)).None? then Some(NotPositive(flag, Bits(f)))
              else None
  {
    hide FlagOf, IsModeName, IsLevelName, IsBlank, U32_FLAGS, U64_FLAGS, Below, Positive;
    ChoiceNamed(flag, f);
    U32Named(flag, f);
    U64Named(flag, f);
    PositiveIs(parseInt, value, f);
  }

  function AsList<T>(x: Option<T>): seq<T> {
    if x.Some? then [x.value] else []
  }

  lemma ChoiceFlags(f: Flag)
    ensures IsChoiceFlag(f) <==> f.ModeOf? || f.Thinking? || f.Goal? || f.Models?
  {
  }

  lemma ValueReports(parseInt: string -> Option<int>, f: Flag, flag: string, value: string, a: Args)
    requires FlagOf(flag) == Some(f) && TakesValue(f)
    ensures WithValue(parseInt, f, flag, value, a).diagnostics ==
            a.diagnostics + AsList(ValueReport(parseInt, flag, value))
  {
    hide FlagOf, WithText, WithItem, WithNumber, WithChoice, WithValue, Positive, IsModeName, IsLevelName, IsBlank;
    hide ValueReport, Bits;
    ValueReportIs(parseInt, f, flag, value);
    OneKind(f);
    ChoiceFlags(f);
    hide IsTextFlag, IsListFlag, IsNumberFlag, IsChoiceFlag, TakesValue;
    assert a.diagnostics + [] == a.diagnostics;
    if IsTextFlag(f) || IsListFlag(f) {
      ValueSetsText(parseInt, f, flag, value, a);
    } else if IsNumberFlag(f) {
      ValueSetsNumber(parseInt, f, flag, value, a);
    } else {
      ValueSetsChoice(parseInt, f, flag, value, a);
      ChoiceReport(f, value, a.choices);
    }
  }

  /** The last two cases of a report: a token that is no exact flag. */
  lemma OtherReport(parseInt: string -> Option<int>, runtime: bool, v: Visit, a: Args)
    requires FlagOf(v.token).None?
    ensures Other(v.token, a).diagnostics == a.diagnostics + AsList(ReportOf(parseInt, runtime, v))
  {
    hide FlagOf, VALUE_FLAGS;
    PlainToken(v);
    ValueFlagsAre(v.token);
    DashFirst(v.token);
    assert a.diagnostics + [] == a.diagnostics;
    hide StartsWith;
    PrefixesDiffer(v.token);
    if StartsWith(v.token, "--resume=") {
    } else if StartsWith(v.token, "--export=") {
    } else if StartsWith(v.token, "--list-models=") {
    } else if StartsWith(v.token, "@") {
    } else if StartsWith(v.token, "-") {
    } else {
    }
  }

  lemma PrefixesDiffer(s: string)
    ensures "--resume=" <= s <==> StartsWith(s, "--resume=")
    ensures "--export=" <= s <==> StartsWith(s, "--export=")
    ensures "--list-models=" <= s <==> StartsWith(s, "--list-models=")
    ensures StartsWith(s, "--resume=") ==> !StartsWith(s, "--export=") && !StartsWith(s, "--list-models=")
    ensures StartsWith(s, "--export=") ==> !StartsWith(s, "--list-models=")
  {
    assert "--resume="[2] == 'r' && "--export="[2] == 'e' && "--list-models="[2] == 'l';
  }

  lemma AheadReport(parseInt: string -> Option<int>, runtime: bool, v: Visit, f: Flag, next: Option<string>, a: Args)
    requires FlagOf(v.token) == Some(f) && LooksAhead(f)
    requires v.taken == if LookAhead(f, next, runtime, a).1 then next else None
    ensures LookAhead(f, next, runtime, a).0.diagnostics == a.diagnostics + AsList(ReportOf(parseInt, runtime, v))
  {
    hide FlagOf, VALUE_FLAGS, StartsWith;
    ExactReport(parseInt, runtime, v, f);
    hide ReportOf;
    assert a.diagnostics + [] == a.diagnostics;
    match f
    case Resume =>
    case Print =>
    case Export =>
    case ListModels =>
  }

  /** An exact flag that takes no required value. */
  lemma ExactReport(parseInt: string -> Option<int>, runtime: bool, v: Visit, f: Flag)
    requires FlagOf(v.token) == Some(f) && !TakesValue(f)
    ensures ReportOf(parseInt, runtime, v) ==
            match f
            case Export =>
              if !runtime then Some(ExportRemoved) else if v.taken.None? then Some(ExportRequiresValue) else None
            case ListModels => if runtime then None else Some(ListModelsRemoved)
            case _ => None
  {
    hide FlagOf, VALUE_FLAGS, Names;
    ValueFlagsAre(v.token);
    NamesAre();
    Named(v.token, f);
    NotOthers(v.token, f);
    FlagLooks(v.token);
  }

  lemma ReportStep(parseInt: string -> Option<int>, runtime: bool, arg: string, next: Option<string>, a: Args)
    ensures Turn(parseInt, arg, next, runtime, a).0.diagnostics ==
            a.diagnostics + AsList(ReportOf(parseInt, runtime, VisitOf(arg, next, runtime)))
  {
    hide FlagOf, Turn, VisitOf, WithValue, Switch, LookAhead, Other, ReportOf;
    TakenIs(parseInt, arg, next, runtime, a);
    var v, f := VisitOf(arg, next, runtime), FlagOf(arg);
    if f.None? {
      OtherReport(parseInt, runtime, v, a);
    } else if LooksAhead(f.value) {
      AheadReport(parseInt, runtime, v, f.value, next, a);
    } else if IsSwitch(f.value) {
      ExactReport(parseInt, runtime, v, f.value);
      assert a.diagnostics + [] == a.diagnostics;
    } else {
      RequiredReport(parseInt, runtime, v, f.value);
      if v.taken.Some? {
        ValueReports(parseInt, f.value, arg, v.taken.value, BeforeValue(f.value, a));
      }
    }
  }

  lemma RequiredReport(parseInt: string -> Option<int>, runtime: bool, v: Visit, f: Flag)
    requires FlagOf(v.token) == Some(f) && TakesValue(f)
    ensures ReportOf(parseInt, runtime, v) ==
            if v.taken.None? then Some(RequiresValue(v.token)) else ValueReport(parseInt, v.token, v.taken.value)
  {
    hide FlagOf, VALUE_FLAGS, ValueReport;
    ValueFlagsAre(v.token);
  }

  /** The diagnostics are those of the visits, in order, and at the end the one
      about a budget without a goal. */
  lemma ReportsEnd(parseInt: string -> Option<int>, args: seq<string>)
    ensures var p := Parse(parseInt, args);
            p.diagnostics == Collect(Visited(args), v => ReportOf(parseInt, IsRuntime(args), v))
                             + if p.numbers.goalTokenBudget.Some? && p.choices.goal.None? then [BudgetWithoutGoal]
                               else []
  {
    hide Turn, VisitOf, Parse, Visited, After, Finish, WithMessages, Collect, ReportOf;
    var of := (v: Visit) => ReportOf(parseInt, IsRuntime(args), v);
    var rel := (a: Args, vs: seq<Visit>) => a.diagnostics == Collect(vs, of);
    forall arg, next, a: Args, vs | rel(a, vs)
      ensures IsKeptBy(parseInt, IsRuntime(args), rel, arg, next, a, vs)
    {
      ReportStep(parseInt, IsRuntime(args), arg, next, a);
      CollectSnoc(vs, VisitOf(arg, next, IsRuntime(args)), of);
      assert a.diagnostics + [] == a.diagnostics;
    }
    NothingCollected(of);
    var b := ParseKeeps(parseInt, args, rel);
    FinishKeeps(b, After(args));
  }

  lemma NothingCollected<T>(of: Visit -> Option<T>)
    ensures Collect([], of) == []
  {
  }
}
