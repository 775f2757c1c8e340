/** `parse_args`: the hand-written argv parser. */
module CliArgs {
  import opened JsonText
  import opened PyText
  import opened CliFlags

  datatype Level = LevelOff | LevelMinimal | LevelLow | LevelMedium | LevelHigh | LevelXhigh | LevelMax

  datatype Mode = ModeText | ModeJson | ModeRpc | ModeAcp | ModeDaemon

  datatype Diagnostic =
    | RequiresValue(flag: string)
    | InvalidMode(value: string)
    | InvalidThinking(value: string)
    | ExportRemoved
    | ExportRequiresValue
    | ListModelsRemoved
    | NotPositive(flag: string, bits: nat)
    | EmptyGoal
    | UnknownOption(arg: string)
    | BudgetWithoutGoal

  /** Fields set to the last value of their flag. */
  datatype Texts = Texts(
    provider: Option<string>,
    model: Option<string>,
    apiKey: Option<string>,
    cwd: Option<string>,
    systemPrompt: Option<string>,
    daemonSocket: Option<string>,
    fork: Option<string>,
    sessionDir: Option<string>)

  /** Fields that collect the values of their flag. */
  datatype Lists = Lists(
    appendSystemPrompt: seq<string>,
    skills: seq<string>,
    promptTemplates: seq<string>,
    themes: seq<string>,
    autonomousGates: Option<seq<string>>)

  datatype Numbers = Numbers(
    autonomousGateRetries: Option<nat>,
    autonomousGateTimeoutMs: Option<nat>,
    autonomousMaxContinuations: Option<nat>,
    autonomousMaxTurns: Option<nat>,
    autonomousMaxTokens: Option<nat>,
    autonomousTimeoutMs: Option<nat>,
    goalTokenBudget: Option<nat>)

  /** Fields whose flag takes only some values, or a list in one value. */
  datatype Choices = Choices(
    mode: Option<Mode>,
    thinking: Option<Level>,
    goal: Option<string>,
    models: Option<seq<string>>)

  datatype Switches = Switches(
    help: bool,
    version: bool,
    continueRun: bool,
    noSession: bool,
    noSkills: bool,
    noPromptTemplates: bool,
    noThemes: bool,
    noContextFiles: bool,
    verbose: bool,
    offline: bool)

  /** `Args`, its fields grouped by how their flags fill them. */
  datatype Args = Args(
    texts: Texts,
    lists: Lists,
    numbers: Numbers,
    choices: Choices,
    switches: Switches,
    autonomous: bool,
    resumeBare: bool,
    resume: Option<string>,
    printMode: bool,
    exportFile: Option<string>,
    listModels: Option<Option<string>>,
    messages: seq<string>,
    fileArgs: seq<string>,
    diagnostics: seq<Diagnostic>)

  const DEFAULT := Args(
    Texts(None, None, None, None, None, None, None, None),
    Lists([], [], [], [], None),
    Numbers(None, None, None, None, None, None, None),
    Choices(None, None, None, None),
    Switches(false, false, false, false, false, false, false, false, false, false),
    false, false, None, false, None, None, [], [], [])

  const MARKER := "\0prime-agent-runtime-command"

  function WithDiagnostic(a: Args, d: Diagnostic): Args {
    a.(diagnostics := a.diagnostics + [d])
  }

  function WithMessages(a: Args, ms: seq<string>): Args {
    a.(messages := a.messages + ms)
  }

  predicate StartsWith(s: string, p: string) {
    p <= s
  }

  function ParseMode(s: string): Option<Mode> {
    match s
    case "text" => Some(ModeText)
    case "json" => Some(ModeJson)
    case "rpc" => Some(ModeRpc)
    case "acp" => Some(ModeAcp)
    case "daemon" => Some(ModeDaemon)
    case _ => None
  }

  function ParseLevel(s: string): Option<Level> {
    match s
    case "off" => Some(LevelOff)
    case "minimal" => Some(LevelMinimal)
    case "low" => Some(LevelLow)
    case "medium" => Some(LevelMedium)
    case "high" => Some(LevelHigh)
    case "xhigh" => Some(LevelXhigh)
    case "max" => Some(LevelMax)
    case _ => None
  }

  // ---------------------------------------------------------------------
  // Flags
  // ---------------------------------------------------------------------

  /** A flag that takes no value turns its own field on. */
  function Switch(f: Flag, s: Switches): Switches {
    s.(help := s.help || f.Help?,
       version := s.version || f.Version?,
       continueRun := s.continueRun || f.Continue?,
       noSession := s.noSession || f.NoSession?,
       noSkills := s.noSkills || f.NoSkills?,
       noPromptTemplates := s.noPromptTemplates || f.NoPromptTemplates?,
       noThemes := s.noThemes || f.NoThemes?,
       noContextFiles := s.noContextFiles || f.NoContextFiles?,
       verbose := s.verbose || f.Verbose?,
       offline := s.offline || f.Offline?)
  }

  /** `take_required_value` */
  function RequiredValue(f: Flag, next: Option<string>): Option<string> {
    if next.None? || next.value == "--" then None
    else if f.SystemPrompt? || f.AppendSystemPrompt? then next
    else if StartsWith(next.value, if f.Goal? || f.Gate? then "--" else "-") then None
    else next
  }

  /** The autonomous value flags turn autonomous mode on even without a
      value. */
  function BeforeValue(f: Flag, a: Args): Args {
    a.(autonomous := a.autonomous || IsAutonomous(f))
  }

  /** `parse_positive_u32` and `parse_positive_u64`; `parseInt` reads the
      trimmed text as an i128. */
  function Positive(parseInt: string -> Option<int>, value: string, bits: nat): Option<nat> {
    var n := parseInt(value);
    if n.Some? && 0 < n.value < (if bits == 32 then 0x1_0000_0000 else 0x1_0000_0000_0000_0000) then
      Some(n.value)
    else None
  }

  function WithText(f: Flag, value: string, t: Texts): Texts {
    match f
    case DaemonSocket => t.(daemonSocket := Some(value))
    case Provider => t.(provider := Some(value))
    case Model => t.(model := Some(value))
    case ApiKey => t.(apiKey := Some(value))
    case Cwd => t.(cwd := Some(value))
    case SystemPrompt => t.(systemPrompt := Some(value))
    case Fork => t.(fork := Some(value))
    case SessionDir => t.(sessionDir := Some(value))
    case _ => t
  }

  function WithItem(f: Flag, value: string, l: Lists): Lists {
    match f
    case AppendSystemPrompt => l.(appendSystemPrompt := l.appendSystemPrompt + [value])
    case Skill => l.(skills := l.skills + [value])
    case PromptTemplate => l.(promptTemplates := l.promptTemplates + [value])
    case Theme => l.(themes := l.themes + [value])
    case Gate =>
      l.(autonomousGates := Some((if l.autonomousGates.Some? then l.autonomousGates.value else []) + [value]))
    case _ => l
  }

  function Bits(f: Flag): nat {
    if f.GateTimeoutMs? || f.MaxTokens? || f.TimeoutMs? then 64 else 32
  }

  /** A bad number clears the field. */
  function WithNumber(f: Flag, n: Option<nat>, m: Numbers): Numbers {
    match f
    case GateRetries => m.(autonomousGateRetries := n)
    case GateTimeoutMs => m.(autonomousGateTimeoutMs := n)
    case MaxContinuations => m.(autonomousMaxContinuations := n)
    case MaxTurns => m.(autonomousMaxTurns := n)
    case MaxTokens => m.(autonomousMaxTokens := n)
    case TimeoutMs => m.(autonomousTimeoutMs := n)
    case GoalTokenBudget => m.(goalTokenBudget := n)
    case _ => m
  }

  /** The new choices, and what is reported about a refused value. */
  function WithChoice(f: Flag, value: string, c: Choices): (Choices, seq<Diagnostic>) {
    match f
    case ModeOf =>
      if ParseMode(value).Some? then (c.(mode := ParseMode(value)), []) else (c, [InvalidMode(value)])
    case Thinking =>
      if ParseLevel(value).Some? then (c.(thinking := ParseLevel(value)), []) else (c, [InvalidThinking(value)])
    case Goal => if Trim(value) == "" then (c, [EmptyGoal]) else (c.(goal := Some(value)), [])
    case Models =>
      var parts := Split(value, ',');
      (c.(models := Some(seq(|parts|, i requires 0 <= i < |parts| => Trim(parts[i])))), [])
    case _ => (c, [])
  }

  /** `flag` is the name under which `f` was given. */
  function WithValue(parseInt: string -> Option<int>, f: Flag, flag: string, value: string, a: Args): Args {
    if IsTextFlag(f) then a.(texts := WithText(f, value, a.texts))
    else if IsListFlag(f) then a.(lists := WithItem(f, value, a.lists))
    else if IsNumberFlag(f) then
      var n := Positive(parseInt, value, Bits(f));
      var report := if n.Some? then [] else [NotPositive(flag, Bits(f))];
      a.(numbers := WithNumber(f, n, a.numbers), diagnostics := a.diagnostics + report)
    else
      var (choices, report) := WithChoice(f, value, a.choices);
      a.(choices := choices, diagnostics := a.diagnostics + report)
  }

  /** Flags that look at the next token on their own terms. The second part of
      the result says whether that token is consumed. */
  function LookAhead(f: Flag, next: Option<string>, runtime: bool, a: Args): (Args, bool) {
    match f
    case Resume =>
      if next.Some? && !StartsWith(next.value, "-") && !StartsWith(next.value, "@") && next.value != "" then
        (a.(resume := next), true)
      else (a.(resumeBare := true), next == Some(""))
    case Print =>
      var b := a.(printMode := true);
      if next.Some? && !StartsWith(next.value, "@")
        && (!StartsWith(next.value, "-") || StartsWith(next.value, "---")) then
        (b.(messages := b.messages + [next.value]), true)
      else (b, false)
    case Export =>
      if !runtime then (WithDiagnostic(a, ExportRemoved), next.Some? && !StartsWith(next.value, "-"))
      else if next.Some? then (a.(exportFile := next), true)
      else (WithDiagnostic(a, ExportRequiresValue), false)
    case ListModels =>
      var search := next.Some? && !StartsWith(next.value, "-") && !StartsWith(next.value, "@");
      if !runtime then (WithDiagnostic(a, ListModelsRemoved), search)
      else (a.(listModels := Some(if search then next else None)), search)
    case _ => (a, false)
  }

  /** Everything that is no exact flag. */
  function Other(arg: string, a: Args): Args {
    if StartsWith(arg, "--resume=") then
      var value := arg[|"--resume="|..];
      if value == "" then a.(resumeBare := true) else a.(resume := Some(value))
    else if StartsWith(arg, "--export=") then WithDiagnostic(a, ExportRemoved)
    else if StartsWith(arg, "--list-models=") then WithDiagnostic(a, ListModelsRemoved)
    else if StartsWith(arg, "@") then a.(fileArgs := a.fileArgs + [arg[1..]])
    else if StartsWith(arg, "-") then WithDiagnostic(a, UnknownOption(arg))
    else a.(messages := a.messages + [arg])
  }

  /** One turn of the loop: the new result, and whether the next token was
      consumed with this one. */
  function Turn(parseInt: string -> Option<int>, arg: string, next: Option<string>, runtime: bool,
                a: Args): (Args, bool) {
    match FlagOf(arg)
    case None => (Other(arg, a), false)
    case Some(f) =>
      if IsSwitch(f) then
        (a.(switches := Switch(f, a.switches), autonomous := a.autonomous || f.Autonomous?), false)
      else if LooksAhead(f) then LookAhead(f, next, runtime, a)
      else
        var value := RequiredValue(f, next);
        if value.None? then (WithDiagnostic(BeforeValue(f, a), RequiresValue(arg)), false)
        else (WithValue(parseInt, f, arg, value.value, BeforeValue(f, a)), true)
  }

  function NextOf(args: seq<string>): Option<string> {
    if |args| > 1 then Some(args[1]) else None
  }

  lemma ConsumedExists(parseInt: string -> Option<int>, arg: string, next: Option<string>, runtime: bool, a: Args)
    ensures Turn(parseInt, arg, next, runtime, a).1 ==> next.Some?
  {
  }

  /** The tokens left to read, from a given result. */
  function ParseRest(parseInt: string -> Option<int>, args: seq<string>, runtime: bool, a: Args): Args
    decreases |args|
  {
    if args == [] then a
    else if args[0] == "--" then WithMessages(a, args[1..])
    else
      var (b, consumed) := Turn(parseInt, args[0], NextOf(args), runtime, a);
      ConsumedExists(parseInt, args[0], NextOf(args), runtime, a);
      ParseRest(parseInt, args[if consumed then 2 else 1..], runtime, b)
  }

  function Finish(a: Args): Args {
    if a.numbers.goalTokenBudget.Some? && a.choices.goal.None? then WithDiagnostic(a, BudgetWithoutGoal) else a
  }

  predicate IsRuntime(args: seq<string>) {
    args != [] && args[0] == MARKER
  }

  function Parse(parseInt: string -> Option<int>, args: seq<string>): Args {
    Finish(ParseRest(parseInt, if IsRuntime(args) then args[1..] else args, IsRuntime(args), DEFAULT))
  }

  /** One turn of the loop, from index `i`. */
  lemma RestFrom(parseInt: string -> Option<int>, args: seq<string>, i: nat, runtime: bool, a: Args)
    requires i <= |args|
    ensures i == |args| ==> ParseRest(parseInt, args[i..], runtime, a) == a
    ensures i < |args| && args[i] == "--" ==>
              ParseRest(parseInt, args[i..], runtime, a) == WithMessages(a, args[i + 1..])
    ensures i < |args| && args[i] != "--" ==>
              var (b, consumed) := Turn(parseInt, args[i], NextOf(args[i..]), runtime, a);
              && (consumed ==> i + 1 < |args|)
              && ParseRest(parseInt, args[i..], runtime, a)
                 == ParseRest(parseInt, args[i + (if consumed then 2 else 1)..], runtime, b)
  {
    if i < |args| && args[i] != "--" {
      ConsumedExists(parseInt, args[i], NextOf(args[i..]), runtime, a);
      hide Turn;
      var (b, consumed) := Turn(parseInt, args[i], NextOf(args[i..]), runtime, a);
      var n := if consumed then 2 else 1;
      assert args[i..][n..] == args[i + n..];
    } else if i < |args| {
      assert args[i..][1..] == args[i + 1..];
    }
  }

  /** The loop with its index. */
  method ParseArgs(parseInt: string -> Option<int>, args: seq<string>) returns (result: Args)
    ensures result == Parse(parseInt, args)
  {
    hide Turn, Finish, ParseRest;
    result := DEFAULT;
    var runtime := IsRuntime(args);
    var endOfOptions := false;
    var i := if runtime then 1 else 0;
    ghost var whole := ParseRest(parseInt, args[i..], runtime, DEFAULT);
    assert args[0..] == args;
    while i < |args|
      invariant 0 <= i <= |args|
      invariant whole == if endOfOptions then WithMessages(result, args[i..])
                         else ParseRest(parseInt, args[i..], runtime, result)
    {
      var arg := args[i];
      RestFrom(parseInt, args, i, runtime, result);
      if endOfOptions {
        assert result.messages + args[i..] == result.messages + [arg] + args[i + 1..];
        result := result.(messages := result.messages + [arg]);
        i := i + 1;
      } else if arg == "--" {
        endOfOptions := true;
        i := i + 1;
      } else {
        var next := if i + 1 < |args| then Some(args[i + 1]) else None;
        assert next == NextOf(args[i..]);
        var (b, consumed) := Turn(parseInt, arg, next, runtime, result);
        result := b;
        i := i + if consumed then 2 else 1;
      }
    }
    RestFrom(parseInt, args, i, runtime, result);
    assert result.messages + args[i..] == result.messages;
    result := Finish(result);
  }

  // ---------------------------------------------------------------------
  // The separator
  // ---------------------------------------------------------------------

  /** No flag treats a following `--` as its value: it behaves as if nothing
      followed. The one exception is `--export` after the internal marker. */
  lemma SeparatorIsNoValue(parseInt: string -> Option<int>, arg: string, runtime: bool, a: Args)
    requires !(runtime && arg == "--export")
    ensures Turn(parseInt, arg, Some("--"), runtime, a) == Turn(parseInt, arg, None, runtime, a)
    ensures !Turn(parseInt, arg, None, runtime, a).1
  {
    Named(arg, Export);
    NamesAre();
    hide FlagOf, Names, WithValue, Other, Switch;
  }

  const VALUE_FLAGS := {
    "--mode", "--daemon-socket", "--provider", "--model", "--api-key", "--cwd", "--system-prompt",
    "--append-system-prompt", "--fork", "--session-dir", "--models", "--thinking", "--skill", "--prompt-template",
    "--theme", "--autonomous-gate", "--autonomous-gate-retries", "--autonomous-gate-timeout-ms",
    "--autonomous-max-continuations", "--autonomous-max-turns", "--autonomous-max-tokens", "--autonomous-timeout-ms",
    "--goal", "--goal-token-budget"
  }

  /** Whether a flag that requires a value takes `next` for it. */
  predicate Fits(flag: string, next: string) {
    && next != "--"
    && (flag in {"--system-prompt", "--append-system-prompt"}
        || !StartsWith(next, if flag in {"--goal", "--autonomous-gate"} then "--" else "-"))
  }

  /** Whether a flag that looks ahead takes what it sees. */
  predicate TakesAhead(arg: string, next: string, runtime: bool) {
    if arg in {"--print", "-p"} then
      !StartsWith(next, "@") && (!StartsWith(next, "-") || StartsWith(next, "---"))
    else if arg == "--export" then runtime || !StartsWith(next, "-")
    else arg in {"--resume", "-r", "--list-models"} && !StartsWith(next, "-") && !StartsWith(next, "@")
  }

  /** Whether a token takes the next one with it, from the tokens alone. */
  predicate Consumes(arg: string, next: Option<string>, runtime: bool) {
    next.Some? && if arg in VALUE_FLAGS then Fits(arg, next.value) else TakesAhead(arg, next.value, runtime)
  }

  lemma ListedIsValueFlag(arg: string)
    requires arg in VALUE_FLAGS
    ensures ValueFlagOf(arg).Some?
  {
  }

  lemma PlainIsListed(f: Flag)
    requires TakesValue(f) && !IsAutonomous(f)
    ensures PlainName(f) in VALUE_FLAGS
  {
  }

  lemma AutonomousIsListed(f: Flag)
    requires IsAutonomous(f)
    ensures AutonomousName(f) in VALUE_FLAGS
  {
  }

  lemma ValueFlagsAre(arg: string)
    ensures arg in VALUE_FLAGS <==> FlagOf(arg).Some? && TakesValue(FlagOf(arg).value)
  {
    hide FlagOf, ValueFlagOf, PlainName, AutonomousName, SwitchNames, AheadNames, VALUE_FLAGS;
    if arg in VALUE_FLAGS {
      ListedIsValueFlag(arg);
      ValueFlagIsNamed(arg);
      Named(arg, ValueFlagOf(arg).value);
    } else if FlagOf(arg).Some? && TakesValue(FlagOf(arg).value) {
      var f := FlagOf(arg).value;
      FlagIsNamed(arg);
      if IsAutonomous(f) {
        AutonomousIsListed(f);
      } else {
        PlainIsListed(f);
      }
    }
  }

  lemma NamesAre()
    ensures Names(Resume) == {"--resume", "-r"} && Names(Print) == {"--print", "-p"}
    ensures Names(Export) == {"--export"} && Names(ListModels) == {"--list-models"}
  {
    hide SwitchNames, ValueName;
  }

  lemma ValueNamesAre()
    ensures ValueName(SystemPrompt) == "--system-prompt" && ValueName(AppendSystemPrompt) == "--append-system-prompt"
    ensures ValueName(Goal) == "--goal" && ValueName(Gate) == "--autonomous-gate"
  {
  }

  lemma FitsIs(arg: string, f: Flag, next: Option<string>)
    requires FlagOf(arg) == Some(f) && TakesValue(f)
    ensures RequiredValue(f, next) == if next.Some? && Fits(arg, next.value) then next else None
  {
    hide FlagOf, ValueName;
    ValueNamesAre();
    ValueNamed(arg, SystemPrompt);
    ValueNamed(arg, AppendSystemPrompt);
    ValueNamed(arg, Goal);
    ValueNamed(arg, Gate);
  }

  lemma AheadConsumes(arg: string, f: Flag, next: Option<string>, runtime: bool, a: Args)
    requires FlagOf(arg) == Some(f) && LooksAhead(f)
    ensures LookAhead(f, next, runtime, a).1 <==> next.Some? && TakesAhead(arg, next.value, runtime)
  {
    hide FlagOf, Names, WithDiagnostic;
    NamesAre();
    Named(arg, f);
    NotOthers(arg, f);
  }

  lemma NotOthers(arg: string, f: Flag)
    requires FlagOf(arg) == Some(f)
    ensures !f.Resume? ==> arg !in Names(Resume)
    ensures !f.Print? ==> arg !in Names(Print)
    ensures !f.Export? ==> arg !in Names(Export)
    ensures !f.ListModels? ==> arg !in Names(ListModels)
  {
    hide FlagOf, Names;
    Named(arg, Resume);
    Named(arg, Print);
    Named(arg, Export);
    Named(arg, ListModels);
  }

  lemma NoFlagTakesNothing(arg: string, next: string, runtime: bool)
    requires FlagOf(arg).None? || !LooksAhead(FlagOf(arg).value)
    ensures !TakesAhead(arg, next, runtime)
  {
    hide FlagOf, Names, StartsWith;
    NamesAre();
    Named(arg, Resume);
    Named(arg, Print);
    Named(arg, Export);
    Named(arg, ListModels);
  }

  lemma TurnConsumes(parseInt: string -> Option<int>, arg: string, next: Option<string>, runtime: bool, a: Args)
    ensures Turn(parseInt, arg, next, runtime, a).1 <==> Consumes(arg, next, runtime)
  {
    hide FlagOf, Switch, WithValue, Other, VALUE_FLAGS, LookAhead, TakesAhead, Fits, RequiredValue, WithDiagnostic;
    ValueFlagsAre(arg);
    if FlagOf(arg).Some? {
      var f := FlagOf(arg).value;
      if LooksAhead(f) {
        AheadConsumes(arg, f, next, runtime, a);
      } else if TakesValue(f) {
        FitsIs(arg, f, next);
      }
    }
    if next.Some? && (FlagOf(arg).None? || !LooksAhead(FlagOf(arg).value)) {
      NoFlagTakesNothing(arg, next.value, runtime);
    }
  }

  /** In runtime mode the loop ends by visiting `--export` as its last token. */
  predicate EndsAtExport(args: seq<string>)
    decreases |args|
  {
    args != [] &&
    if |args| == 1 then args[0] == "--export"
    else EndsAtExport(args[if Consumes(args[0], NextOf(args), true) then 2 else 1..])
  }

  lemma {:induction false} SeparatorRest(parseInt: string -> Option<int>, args: seq<string>, ms: seq<string>,
                                         runtime: bool, a: Args)
    requires "--" !in args && !(runtime && EndsAtExport(args))
    ensures ParseRest(parseInt, args + ["--"] + ms, runtime, a) ==
            WithMessages(ParseRest(parseInt, args, runtime, a), ms)
    decreases |args|
  {
    hide Turn, Consumes;
    var all := args + ["--"] + ms;
    if args == [] {
      assert all[1..] == ms;
    } else {
      var (b, consumed) := Turn(parseInt, args[0], NextOf(args), runtime, a);
      ConsumedExists(parseInt, args[0], NextOf(args), runtime, a);
      TurnConsumes(parseInt, args[0], NextOf(args), runtime, a);
      if |args| == 1 {
        assert NextOf(all) == Some("--");
        SeparatorIsNoValue(parseInt, args[0], runtime, a);
        assert all[1..] == [] + ["--"] + ms && args[1..] == [];
        SeparatorRest(parseInt, [], ms, runtime, b);
      } else {
        var n := if consumed then 2 else 1;
        assert NextOf(all) == NextOf(args);
        assert all[n..] == args[n..] + ["--"] + ms;
        SeparatorRest(parseInt, args[n..], ms, runtime, b);
      }
    }
  }

  lemma FinishIgnoresMessages(a: Args, ms: seq<string>)
    ensures Finish(WithMessages(a, ms)) == WithMessages(Finish(a), ms)
  {
  }

  /** Separator law: what follows `--` is appended verbatim to the messages,
      and every other field and diagnostic is as if it had not been there. */
  lemma SeparatorLaw(parseInt: string -> Option<int>, args: seq<string>, ms: seq<string>)
    requires "--" !in args && !IsRuntime(args)
    ensures Parse(parseInt, args + ["--"] + ms) == WithMessages(Parse(parseInt, args), ms)
  {
    hide Turn, Finish;
    var all := args + ["--"] + ms;
    assert all[0] == if args == [] then "--" else args[0];
    MarkerIsNoSeparator();
    SeparatorRest(parseInt, args, ms, false, DEFAULT);
    FinishIgnoresMessages(ParseRest(parseInt, args, false, DEFAULT), ms);
  }

  lemma MarkerIsNoSeparator()
    ensures MARKER != "--"
  {
    assert |"--"| == 2 && |MARKER| > 2;
  }

  // ---------------------------------------------------------------------
  // The internal marker
  // ---------------------------------------------------------------------

  /** A trailing runtime `--export` swallows the separator. */
  lemma {:induction false} ExportSwallowsSeparator(parseInt: string -> Option<int>, args: seq<string>, a: Args)
    requires "--" !in args && EndsAtExport(args)
    ensures var (with, without) := (ParseRest(parseInt, args + ["--"], true, a), ParseRest(parseInt, args, true, a));
            && without.diagnostics == with.diagnostics + [ExportRequiresValue]
            && with.choices == without.choices && with.numbers == without.numbers
    decreases |args|
  {
    var all := args + ["--"];
    if |args| == 1 {
      ExportTurns(parseInt, a);
      hide Turn;
      assert all[2..] == [] && args[1..] == [];
    } else {
      hide Turn, Consumes;
      var (b, consumed) := Turn(parseInt, args[0], NextOf(args), true, a);
      ConsumedExists(parseInt, args[0], NextOf(args), true, a);
      TurnConsumes(parseInt, args[0], NextOf(args), true, a);
      var n := if consumed then 2 else 1;
      assert NextOf(all) == NextOf(args);
      assert all[n..] == args[n..] + ["--"];
      ExportSwallowsSeparator(parseInt, args[n..], b);
    }
  }

  lemma ExportTurns(parseInt: string -> Option<int>, a: Args)
    ensures Turn(parseInt, "--export", None, true, a) == (WithDiagnostic(a, ExportRequiresValue), false)
    ensures Turn(parseInt, "--export", Some("--"), true, a) == (a.(exportFile := Some("--")), true)
  {
    hide FlagOf, Names;
    NamesAre();
    Named("--export", Export);
  }

  lemma RuntimeSeparatorLaw(parseInt: string -> Option<int>, args: seq<string>, ms: seq<string>)
    requires "--" !in args && IsRuntime(args) && !EndsAtExport(args[1..])
    ensures Parse(parseInt, args + ["--"] + ms) == WithMessages(Parse(parseInt, args), ms)
  {
    hide Turn, Finish, EndsAtExport, ParseRest;
    var all := args + ["--"] + ms;
    assert all[1..] == args[1..] + ["--"] + ms;
    SeparatorRest(parseInt, args[1..], ms, true, DEFAULT);
    FinishIgnoresMessages(ParseRest(parseInt, args[1..], true, DEFAULT), ms);
  }

  /** Then even the empty tail is misread: the missing-value diagnostic is
      lost. */
  lemma ExportLosesDiagnostic(parseInt: string -> Option<int>, args: seq<string>)
    requires "--" !in args && IsRuntime(args) && EndsAtExport(args[1..])
    ensures |Parse(parseInt, args).diagnostics| == |Parse(parseInt, args + ["--"] + []).diagnostics| + 1
    ensures !Separates(parseInt, args, [])
  {
    hide Turn, Finish, EndsAtExport, ParseRest;
    var rest := args[1..];
    var all := args + ["--"] + [];
    assert all[1..] == rest + ["--"];
    ExportSwallowsSeparator(parseInt, rest, DEFAULT);
    FinishKeepsLength(ParseRest(parseInt, rest + ["--"], true, DEFAULT), ParseRest(parseInt, rest, true, DEFAULT));
  }

  /** At the smallest such argv: `--` becomes the file to export to. */
  lemma ExportTakesSeparator(parseInt: string -> Option<int>)
    ensures Parse(parseInt, [MARKER, "--export"]) == WithDiagnostic(DEFAULT, ExportRequiresValue)
    ensures Parse(parseInt, [MARKER, "--export", "--"]) == DEFAULT.(exportFile := Some("--"))
  {
    ExportTurns(parseInt, DEFAULT);
    hide Turn;
    var (short, long) := ([MARKER, "--export"], [MARKER, "--export", "--"]);
    assert short[1..] == ["--export"] && ["--export"][1..] == [];
    assert long[1..] == ["--export", "--"] && ["--export", "--"][2..] == [];
    assert |"--"| == 2 && |"--export"| == 8;
  }

  /** The law for one tail. */
  predicate Separates(parseInt: string -> Option<int>, args: seq<string>, ms: seq<string>) {
    Parse(parseInt, args + ["--"] + ms) == WithMessages(Parse(parseInt, args), ms)
  }

  lemma SeparatesUnlessExport(parseInt: string -> Option<int>, args: seq<string>, ms: seq<string>)
    requires "--" !in args && !(IsRuntime(args) && EndsAtExport(args[1..]))
    ensures Separates(parseInt, args, ms)
  {
    hide Parse, EndsAtExport, WithMessages;
    if IsRuntime(args) {
      RuntimeSeparatorLaw(parseInt, args, ms);
    } else {
      SeparatorLaw(parseInt, args, ms);
    }
  }

  /** With the marker the law holds for every tail exactly when the parser does
      not end at an `--export`. */
  lemma SeparatorLawExactly(parseInt: string -> Option<int>, args: seq<string>)
    requires "--" !in args
    ensures (forall ms :: Separates(parseInt, args, ms))
            <==> !(IsRuntime(args) && EndsAtExport(args[1..]))
  {
    hide Parse, EndsAtExport, WithMessages, Separates, DEFAULT, MARKER;
    if IsRuntime(args) && EndsAtExport(args[1..]) {
      ExportLosesDiagnostic(parseInt, args);
      assert !Separates(parseInt, args, []);
    } else {
      forall ms: seq<string>
        ensures Separates(parseInt, args, ms)
      {
        SeparatesUnlessExport(parseInt, args, ms);
      }
    }
  }

  lemma FinishKeepsLength(a: Args, b: Args)
    requires |b.diagnostics| == |a.diagnostics| + 1 && a.choices == b.choices && a.numbers == b.numbers
    ensures |Finish(b).diagnostics| == |Finish(a).diagnostics| + 1
  {
  }
}
