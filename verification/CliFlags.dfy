/** The tokens the argv parser matches exactly, as flags. */
module CliFlags {
  import opened JsonText

  datatype Flag =
    | Help | Version | Continue | NoSession | NoSkills | NoPromptTemplates | NoThemes | NoContextFiles
    | Autonomous | Verbose | Offline
    | ModeOf | DaemonSocket | Provider | Model | ApiKey | Cwd | SystemPrompt | AppendSystemPrompt | Fork
    | SessionDir | Models | Thinking | Skill | PromptTemplate | Theme | Gate | GateRetries | GateTimeoutMs
    | MaxContinuations | MaxTurns | MaxTokens | TimeoutMs | Goal | GoalTokenBudget
    | Resume | Print | Export | ListModels

  predicate IsSwitch(f: Flag) {
    f.Help? || f.Version? || f.Continue? || f.NoSession? || f.NoSkills? || f.NoPromptTemplates? || f.NoThemes? ||
    f.NoContextFiles? || f.Autonomous? || f.Verbose? || f.Offline?
  }

  predicate LooksAhead(f: Flag) {
    f.Resume? || f.Print? || f.Export? || f.ListModels?
  }

  predicate TakesValue(f: Flag) {
    !IsSwitch(f) && !LooksAhead(f)
  }

  predicate IsAutonomous(f: Flag) {
    || f.Gate? || f.GateRetries? || f.GateTimeoutMs? || f.MaxContinuations? || f.MaxTurns? || f.MaxTokens?
    || f.TimeoutMs?
  }

  predicate IsTextFlag(f: Flag) {
    f.Provider? || f.Model? || f.ApiKey? || f.Cwd? || f.SystemPrompt? || f.DaemonSocket? || f.Fork? || f.SessionDir?
  }

  predicate IsListFlag(f: Flag) {
    f.AppendSystemPrompt? || f.Skill? || f.PromptTemplate? || f.Theme? || f.Gate?
  }

  predicate IsNumberFlag(f: Flag) {
    || f.GateRetries? || f.GateTimeoutMs? || f.MaxContinuations? || f.MaxTurns? || f.MaxTokens? || f.TimeoutMs?
    || f.GoalTokenBudget?
  }

  predicate IsChoiceFlag(f: Flag) {
    f.ModeOf? || f.Thinking? || f.Goal? || f.Models?
  }

  function SwitchNames(f: Flag): set<string>
    requires IsSwitch(f)
  {
    match f
    case Help => {"--help", "-h"}
    case Version => {"--version", "-v"}
    case Continue => {"--continue", "-c"}
    case NoSession => {"--no-session"}
    case NoSkills => {"--no-skills", "-ns"}
    case NoPromptTemplates => {"--no-prompt-templates", "-np"}
    case NoThemes => {"--no-themes"}
    case NoContextFiles => {"--no-context-files", "-nc"}
    case Autonomous => {"--autonomous"}
    case Verbose => {"--verbose"}
    case Offline => {"--offline"}
  }

  function PlainName(f: Flag): string
    requires TakesValue(f) && !IsAutonomous(f)
  {
    match f
    case ModeOf => "--mode"
    case DaemonSocket => "--daemon-socket"
    case Provider => "--provider"
    case Model => "--model"
    case ApiKey => "--api-key"
    case Cwd => "--cwd"
    case SystemPrompt => "--system-prompt"
    case AppendSystemPrompt => "--append-system-prompt"
    case Fork => "--fork"
    case SessionDir => "--session-dir"
    case Models => "--models"
    case Thinking => "--thinking"
    case Skill => "--skill"
    case PromptTemplate => "--prompt-template"
    case Theme => "--theme"
    case Goal => "--goal"
    case GoalTokenBudget => "--goal-token-budget"
  }

  function AutonomousName(f: Flag): string
    requires IsAutonomous(f)
  {
    match f
    case Gate => "--autonomous-gate"
    case GateRetries => "--autonomous-gate-retries"
    case GateTimeoutMs => "--autonomous-gate-timeout-ms"
    case MaxContinuations => "--autonomous-max-continuations"
    case MaxTurns => "--autonomous-max-turns"
    case MaxTokens => "--autonomous-max-tokens"
    case TimeoutMs => "--autonomous-timeout-ms"
  }

  function ValueName(f: Flag): string
    requires TakesValue(f)
  {
    if IsAutonomous(f) then AutonomousName(f) else PlainName(f)
  }

  function AheadNames(f: Flag): set<string>
    requires LooksAhead(f)
  {
    match f
    case Resume => {"--resume", "-r"}
    case Print => {"--print", "-p"}
    case Export => {"--export"}
    case ListModels => {"--list-models"}
  }

  /** The names of a flag. */
  function Names(f: Flag): set<string> {
    if IsSwitch(f) then SwitchNames(f) else if LooksAhead(f) then AheadNames(f) else {ValueName(f)}
  }

  /** The arms of the parser's match that take no value. */
  function SwitchOf(arg: string): Option<Flag> {
    match arg
    case "--help" => Some(Help)
    case "-h" => Some(Help)
    case "--version" => Some(Version)
    case "-v" => Some(Version)
    case "--continue" => Some(Continue)
    case "-c" => Some(Continue)
    case "--no-session" => Some(NoSession)
    case "--no-skills" => Some(NoSkills)
    case "-ns" => Some(NoSkills)
    case "--no-prompt-templates" => Some(NoPromptTemplates)
    case "-np" => Some(NoPromptTemplates)
    case "--no-themes" => Some(NoThemes)
    case "--no-context-files" => Some(NoContextFiles)
    case "-nc" => Some(NoContextFiles)
    case "--autonomous" => Some(Autonomous)
    case "--verbose" => Some(Verbose)
    case "--offline" => Some(Offline)
    case _ => None
  }

  /** The arms that require a value. */
  function PlainFlagOf(arg: string): Option<Flag> {
    match arg
    case "--mode" => Some(ModeOf)
    case "--daemon-socket" => Some(DaemonSocket)
    case "--provider" => Some(Provider)
    case "--model" => Some(Model)
    case "--api-key" => Some(ApiKey)
    case "--cwd" => Some(Cwd)
    case "--system-prompt" => Some(SystemPrompt)
    case "--append-system-prompt" => Some(AppendSystemPrompt)
    case "--fork" => Some(Fork)
    case "--session-dir" => Some(SessionDir)
    case "--models" => Some(Models)
    case "--thinking" => Some(Thinking)
    case "--skill" => Some(Skill)
    case "--prompt-template" => Some(PromptTemplate)
    case "--theme" => Some(Theme)
    case "--goal" => Some(Goal)
    case "--goal-token-budget" => Some(GoalTokenBudget)
    case _ => None
  }

  /** Those that also turn autonomous mode on. */
  function AutonomousFlagOf(arg: string): Option<Flag> {
    match arg
    case "--autonomous-gate" => Some(Gate)
    case "--autonomous-gate-retries" => Some(GateRetries)
    case "--autonomous-gate-timeout-ms" => Some(GateTimeoutMs)
    case "--autonomous-max-continuations" => Some(MaxContinuations)
    case "--autonomous-max-turns" => Some(MaxTurns)
    case "--autonomous-max-tokens" => Some(MaxTokens)
    case "--autonomous-timeout-ms" => Some(TimeoutMs)
    case _ => None
  }

  function ValueFlagOf(arg: string): Option<Flag> {
    if PlainFlagOf(arg).Some? then PlainFlagOf(arg) else AutonomousFlagOf(arg)
  }

  /** The arms that look at the next token on their own terms. */
  function AheadOf(arg: string): Option<Flag> {
    match arg
    case "--resume" => Some(Resume)
    case "-r" => Some(Resume)
    case "--print" => Some(Print)
    case "-p" => Some(Print)
    case "--export" => Some(Export)
    case "--list-models" => Some(ListModels)
    case _ => None
  }

  function FlagOf(arg: string): Option<Flag> {
    if SwitchOf(arg).Some? then SwitchOf(arg)
    else if ValueFlagOf(arg).Some? then ValueFlagOf(arg)
    else AheadOf(arg)
  }

  // ---------------------------------------------------------------------
  // No two flags share a name
  // ---------------------------------------------------------------------

  /** Length, fourth character from the end and last character tell all names
      apart. */
  function ByPrint(n: nat, fourth: char, last: char): Option<Flag> {
    match n
    case 2 => if last == 'h' then Some(Help) else if last == 'v' then Some(Version) else if last == 'c' then
               Some(Continue) else if last == 'r' then Some(Resume) else Some(Print)
    case 3 => if last == 's' then Some(NoSkills) else if last == 'p' then Some(NoPromptTemplates) else
               Some(NoContextFiles)
    case 5 => Some(Cwd)
    case 6 => if last == 'p' then Some(Help) else if last == 'e' then Some(ModeOf) else if last == 'k' then Some(Fork)
               else Some(Goal)
    case 7 => if fourth == 'o' then Some(Model) else if last == 'l' then Some(Skill) else if last == 'e' then
               Some(Theme) else Some(Print)
    case 8 => if last == 's' then Some(Models) else if last == 'e' then Some(Resume) else Some(Export)
    case 9 => if last == 'n' then Some(Version) else if fourth == 'b' then Some(Verbose) else if last == 'e' then
               Some(Offline) else Some(ApiKey)
    case 10 => if last == 'e' then Some(Continue) else if last == 'r' then Some(Provider) else Some(Thinking)
    case 11 => if fourth == 'i' then Some(NoSkills) else Some(NoThemes)
    case 12 => if last == 'n' then Some(NoSession) else Some(Autonomous)
    case 13 => if last == 'r' then Some(SessionDir) else Some(ListModels)
    case 15 => if fourth == 'c' then Some(DaemonSocket) else Some(SystemPrompt)
    case 17 => if fourth == 'l' then Some(PromptTemplate) else Some(Gate)
    case 18 => Some(NoContextFiles)
    case 19 => Some(GoalTokenBudget)
    case 21 => Some(NoPromptTemplates)
    case 22 => if last == 't' then Some(AppendSystemPrompt) else Some(MaxTurns)
    case 23 => if fourth == 'k' then Some(MaxTokens) else Some(TimeoutMs)
    case 25 => Some(GateRetries)
    case 28 => Some(GateTimeoutMs)
    case 30 => Some(MaxContinuations)
    case _ => None
  }

  function PrintOf(s: string): Option<Flag> {
    ByPrint(|s|, if |s| >= 4 then s[|s| - 4] else ' ', if s != "" then s[|s| - 1] else ' ')
  }

  lemma SwitchPrint(f: Flag, s: string)
    requires IsSwitch(f) && s in SwitchNames(f)
    ensures PrintOf(s) == Some(f)
  {
  }

  lemma ValuePrint(f: Flag)
    requires TakesValue(f) && !IsAutonomous(f)
    ensures PrintOf(ValueName(f)) == Some(f)
  {
  }

  lemma AutonomousPrint(f: Flag)
    requires IsAutonomous(f)
    ensures PrintOf(ValueName(f)) == Some(f)
  {
  }

  lemma AheadPrint(f: Flag, s: string)
    requires LooksAhead(f) && s in AheadNames(f)
    ensures PrintOf(s) == Some(f)
  {
  }

  lemma NamesDiffer(f: Flag, g: Flag, s: string)
    requires s in Names(f) && s in Names(g)
    ensures f == g
  {
    hide Names, PrintOf;
    NamePrint(f, s);
    NamePrint(g, s);
  }

  lemma NamePrint(f: Flag, s: string)
    requires s in Names(f)
    ensures PrintOf(s) == Some(f)
  {
    hide SwitchNames, ValueName, AheadNames, PrintOf;
    if IsSwitch(f) {
      SwitchPrint(f, s);
    } else if LooksAhead(f) {
      AheadPrint(f, s);
    } else if IsAutonomous(f) {
      AutonomousPrint(f);
    } else {
      ValuePrint(f);
    }
  }

  lemma SwitchIsNamed(arg: string)
    ensures SwitchOf(arg).Some? ==> IsSwitch(SwitchOf(arg).value) && arg in SwitchNames(SwitchOf(arg).value)
  {
  }

  lemma PlainFlagIsPlain(arg: string)
    ensures PlainFlagOf(arg).Some? ==> TakesValue(PlainFlagOf(arg).value) && !IsAutonomous(PlainFlagOf(arg).value)
  {
  }

  lemma PlainFlagIsNamed(arg: string, f: Flag)
    requires PlainFlagOf(arg) == Some(f) && TakesValue(f) && !IsAutonomous(f)
    ensures arg in {PlainName(f)}
  {
  }

  lemma AutonomousFlagIsNamed(arg: string)
    ensures AutonomousFlagOf(arg).Some? ==>
              var f := AutonomousFlagOf(arg).value; IsAutonomous(f) && arg == AutonomousName(f)
  {
  }

  lemma ValueFlagIsNamed(arg: string)
    ensures ValueFlagOf(arg).Some? ==> TakesValue(ValueFlagOf(arg).value) && arg == ValueName(ValueFlagOf(arg).value)
  {
    hide PlainFlagOf, AutonomousFlagOf, PlainName, AutonomousName;
    PlainFlagIsPlain(arg);
    if PlainFlagOf(arg).Some? {
      PlainFlagIsNamed(arg, PlainFlagOf(arg).value);
    }
    AutonomousFlagIsNamed(arg);
  }

  lemma AheadIsNamed(arg: string)
    ensures AheadOf(arg).Some? ==> LooksAhead(AheadOf(arg).value) && arg in AheadNames(AheadOf(arg).value)
  {
  }

  lemma UnnamedSwitch(arg: string, f: Flag)
    requires SwitchOf(arg).None? && IsSwitch(f)
    ensures arg !in SwitchNames(f)
  {
  }

  lemma UnnamedPlainFlag(arg: string, f: Flag)
    requires PlainFlagOf(arg).None? && TakesValue(f) && !IsAutonomous(f)
    ensures arg != PlainName(f)
  {
  }

  lemma UnnamedAutonomousFlag(arg: string, f: Flag)
    requires AutonomousFlagOf(arg).None? && IsAutonomous(f)
    ensures arg != AutonomousName(f)
  {
  }

  lemma UnnamedValueFlag(arg: string, f: Flag)
    requires ValueFlagOf(arg).None? && TakesValue(f)
    ensures arg != ValueName(f)
  {
    hide PlainFlagOf, AutonomousFlagOf, PlainName, AutonomousName;
    if IsAutonomous(f) {
      UnnamedAutonomousFlag(arg, f);
    } else {
      UnnamedPlainFlag(arg, f);
    }
  }

  lemma UnnamedAhead(arg: string, f: Flag)
    requires AheadOf(arg).None? && LooksAhead(f)
    ensures arg !in AheadNames(f)
  {
  }

  lemma FlagIsNamed(arg: string)
    ensures FlagOf(arg).Some? ==> arg in Names(FlagOf(arg).value)
  {
    hide SwitchNames, ValueName, AheadNames, SwitchOf, ValueFlagOf, AheadOf;
    SwitchIsNamed(arg);
    ValueFlagIsNamed(arg);
    AheadIsNamed(arg);
  }

  lemma UnnamedIsNoFlag(arg: string, f: Flag)
    requires FlagOf(arg).None?
    ensures arg !in Names(f)
  {
    hide SwitchNames, ValueName, AheadNames, SwitchOf, ValueFlagOf, AheadOf;
    if IsSwitch(f) {
      UnnamedSwitch(arg, f);
    } else if LooksAhead(f) {
      UnnamedAhead(arg, f);
    } else {
      UnnamedValueFlag(arg, f);
    }
  }

  /** The match finds the flag a token names. */
  lemma Named(arg: string, f: Flag)
    ensures FlagOf(arg) == Some(f) <==> arg in Names(f)
  {
    hide FlagOf, Names;
    FlagIsNamed(arg);
    if FlagOf(arg).None? {
      UnnamedIsNoFlag(arg, f);
    } else if arg in Names(f) {
      NamesDiffer(f, FlagOf(arg).value, arg);
    }
  }

  lemma ValueNamed(arg: string, f: Flag)
    requires TakesValue(f)
    ensures FlagOf(arg) == Some(f) <==> arg == ValueName(f)
  {
    hide FlagOf, ValueName;
    Named(arg, f);
  }

  // ---------------------------------------------------------------------
  // What names look like
  // ---------------------------------------------------------------------

  /** A dash first, and no `=` where `--resume=`, `--export=` and
      `--list-models=` have theirs. */
  predicate LooksLikeFlag(s: string) {
    s != "" && s[0] == '-' && (|s| > 8 ==> s[8] != '=') && (|s| > 13 ==> s[13] != '=')
  }

  lemma SwitchLooks(f: Flag, s: string)
    requires IsSwitch(f) && s in SwitchNames(f)
    ensures LooksLikeFlag(s)
  {
  }

  lemma PlainLooks(f: Flag)
    requires TakesValue(f) && !IsAutonomous(f)
    ensures LooksLikeFlag(PlainName(f))
  {
  }

  lemma AutonomousLooks(f: Flag)
    requires IsAutonomous(f)
    ensures LooksLikeFlag(AutonomousName(f))
  {
  }

  lemma AheadLooks(f: Flag, s: string)
    requires LooksAhead(f) && s in AheadNames(f)
    ensures LooksLikeFlag(s)
  {
  }

  lemma FlagLooks(arg: string)
    requires FlagOf(arg).Some?
    ensures LooksLikeFlag(arg)
  {
    hide FlagOf, SwitchNames, AheadNames, PlainName, AutonomousName, LooksLikeFlag;
    FlagIsNamed(arg);
    var f := FlagOf(arg).value;
    if IsSwitch(f) {
      SwitchLooks(f, arg);
    } else if LooksAhead(f) {
      AheadLooks(f, arg);
    } else if IsAutonomous(f) {
      AutonomousLooks(f);
    } else {
      PlainLooks(f);
    }
  }
}
