/** The configuration that selects and parameterises a VM (include/config.h), and the selection (src/main.cpp). */
module Config {
  import opened Words
  import opened Wrappers

  datatype VmType = SingleStage | MultiStage
  datatype DataHazardMode = Ideal | StallOnly | Forwarding
  datatype BranchPredictorType = StaticNotTaken | StaticTaken | Dynamic1Bit | Dynamic2Bit | Tournament
  datatype BranchStage = BranchInEx | BranchInId

  /** The settings that choose the VM, and the numeric and assembler settings. */
  datatype Settings = Settings(
    vmType: VmType, hazard: DataHazardMode, predictor: BranchPredictorType, stage: BranchStage,
    runStepDelay: U64, executionLimit: U64, memorySize: U64, blockSize: U64,
    dataStart: U64, textStart: U64, bssStart: U64, m: bool, f: bool, d: bool)

  const DEFAULTS := Settings(SingleStage, Ideal, StaticNotTaken, BranchInEx, 300, 100, B64 - 1, 1024,
                             0x1000_0000, 0, 0x1100_0000, true, true, true)

  datatype Section = Execution | Memory | Assembler | OtherSection

  datatype Key =
    | ProcessorType | RunStepDelay | InstructionExecutionLimit | KeyDataHazardMode | BranchPredictor | KeyBranchStage
    | MemorySize | MemoryBlockSize | DataSectionStart | TextSectionStart | BssSectionStart
    | MExtension | FExtension | DExtension | OtherKey

  datatype Keyword = KwSingleStage | KwMultiStage | KwIdeal | KwStall | KwForwarding
    | KwStaticNotTaken | KwStaticTaken | KwDynamic1Bit | KwDynamic2Bit | KwTournament | KwEx | KwId | KwTrue | KwOther

  /** The text of a value, with what `stoull` makes of it in base 10 and in base 16; None where it throws. */
  datatype Value = Value(keyword: Keyword, decimal: Option<U64>, hexadecimal: Option<U64>)

  datatype Command = Command(section: Section, key: Key, value: Value)

  predicate Safe(c: Settings) {
    (c.vmType == SingleStage ==> c.hazard == Ideal)
      && (c.hazard == Ideal ==> c.predictor == StaticNotTaken && c.stage == BranchInEx)
  }

  /** The settings after a command; None when it is rejected. */
  function Modified(c: Settings, command: Command): Option<Settings> {
    match command.section
    case Execution => ModifiedExecution(c, command.key, command.value)
    case Memory => ModifiedMemory(c, command.key, command.value)
    case Assembler =>
      (match command.key
       case MExtension => Some(c.(m := command.value.keyword == KwTrue))
       case FExtension => Some(c.(f := command.value.keyword == KwTrue))
       case DExtension => Some(c.(d := command.value.keyword == KwTrue))
       case _ => None)
    case OtherSection => None
  }

  function ModifiedMemory(c: Settings, key: Key, value: Value): Option<Settings> {
    var number := if key == MemorySize || key == MemoryBlockSize then value.decimal else value.hexadecimal;
    if number.None? then None else
    match key
    case MemorySize => Some(c.(memorySize := number.value))
    case MemoryBlockSize => Some(c.(blockSize := number.value))
    case DataSectionStart => Some(c.(dataStart := number.value))
    case TextSectionStart => Some(c.(textStart := number.value))
    case BssSectionStart => Some(c.(bssStart := number.value))
    case _ => None
  }

  function ModifiedExecution(c: Settings, key: Key, value: Value): Option<Settings> {
    match key
    case ProcessorType =>
      (match value.keyword
       case KwSingleStage => Some(if c.vmType == SingleStage then c else
                                  c.(vmType := SingleStage, hazard := Ideal, predictor := StaticNotTaken,
                                    stage := BranchInEx))
       case KwMultiStage => Some(c.(vmType := MultiStage))
       case _ => None)
    case RunStepDelay => if value.decimal.None? then None else Some(c.(runStepDelay := value.decimal.value))
    case InstructionExecutionLimit =>
      if value.decimal.None? then None else Some(c.(executionLimit := value.decimal.value))
    case KeyDataHazardMode =>
      if c.vmType == SingleStage then None else
      (match value.keyword
       case KwIdeal => Some(c.(hazard := Ideal, predictor := StaticNotTaken, stage := BranchInEx))
       case KwStall => Some(c.(hazard := StallOnly, predictor := StaticNotTaken))
       case KwForwarding => Some(c.(hazard := Forwarding))
       case _ => None)
    case BranchPredictor =>
      if c.vmType == SingleStage || c.hazard == Ideal || PredictorNamed(value.keyword).None? then None
      else Some(c.(predictor := PredictorNamed(value.keyword).value))
    case KeyBranchStage =>
      if c.vmType == SingleStage || c.hazard == Ideal then None else
      (match value.keyword
       case KwEx => Some(c.(stage := BranchInEx))
       case KwId => Some(c.(stage := BranchInId))
       case _ => None)
    case _ => None
  }

  function PredictorNamed(k: Keyword): Option<BranchPredictorType> {
    match k
    case KwStaticNotTaken => Some(StaticNotTaken)
    case KwStaticTaken => Some(StaticTaken)
    case KwDynamic1Bit => Some(Dynamic1Bit)
    case KwDynamic2Bit => Some(Dynamic2Bit)
    case KwTournament => Some(Tournament)
    case _ => None
  }

  class VmConfig {
    var settings: Settings

    constructor ()
      ensures settings == DEFAULTS
    {
      settings := DEFAULTS;
    }

    method SetVmType(t: VmType)
      modifies this
      ensures settings == if t == old(settings).vmType then old(settings)
        else if t == MultiStage then old(settings).(vmType := t)
        else old(settings).(vmType := t, hazard := Ideal, predictor := StaticNotTaken, stage := BranchInEx)
    {
      if t != settings.vmType {
        settings := settings.(vmType := t);
        if t == SingleStage {
          settings := settings.(hazard := Ideal, predictor := StaticNotTaken, stage := BranchInEx);
        }
      }
    }

    /** `modifyConfig`; `ok` is false when it throws, and then nothing has changed. */
    method ModifyConfig(command: Command) returns (ok: bool)
      modifies this
      ensures var after := Modified(old(settings), command);
        ok == after.Some? && settings == if ok then after.value else old(settings)
    {
      var value := command.value;
      match command.section
      case Execution =>
        ok := ModifyExecution(command.key, value);
      case Memory =>
        var number := if command.key in {MemorySize, MemoryBlockSize} then value.decimal else value.hexadecimal;
        if number.None? { return false; }
        match command.key {
          case MemorySize => settings := settings.(memorySize := number.value);
          case MemoryBlockSize => settings := settings.(blockSize := number.value);
          case DataSectionStart => settings := settings.(dataStart := number.value);
          case TextSectionStart => settings := settings.(textStart := number.value);
          case BssSectionStart => settings := settings.(bssStart := number.value);
          case _ => return false;
        }
        ok := true;
      case Assembler =>
        var enabled := value.keyword == KwTrue;
        match command.key {
          case MExtension => settings := settings.(m := enabled);
          case FExtension => settings := settings.(f := enabled);
          case DExtension => settings := settings.(d := enabled);
          case _ => return false;
        }
        ok := true;
      case OtherSection =>
        ok := false;
    }

    method ModifyExecution(key: Key, value: Value) returns (ok: bool)
      modifies this
      ensures var after := ModifiedExecution(old(settings), key, value);
        ok == after.Some? && settings == if ok then after.value else old(settings)
    {
      match key
      case ProcessorType =>
        if value.keyword == KwSingleStage { SetVmType(SingleStage); }
        else if value.keyword == KwMultiStage { SetVmType(MultiStage); }
        else { return false; }
        ok := true;
      case RunStepDelay =>
        if value.decimal.None? { return false; }
        settings := settings.(runStepDelay := value.decimal.value);
        ok := true;
      case InstructionExecutionLimit =>
        if value.decimal.None? { return false; }
        settings := settings.(executionLimit := value.decimal.value);
        ok := true;
      case KeyDataHazardMode =>
        if settings.vmType == SingleStage { return false; }
        if value.keyword == KwIdeal {
          settings := settings.(hazard := Ideal);
          settings := settings.(predictor := StaticNotTaken, stage := BranchInEx);
        } else if value.keyword == KwStall {
          settings := settings.(hazard := StallOnly);
          settings := settings.(predictor := StaticNotTaken);
        } else if value.keyword == KwForwarding {
          settings := settings.(hazard := Forwarding);
        } else { return false; }
        ok := true;
      case BranchPredictor =>
        if settings.vmType == SingleStage { return false; }
        if settings.hazard == Ideal { return false; }
        if PredictorNamed(value.keyword).None? { return false; }
        settings := settings.(predictor := PredictorNamed(value.keyword).value);
        ok := true;
      case KeyBranchStage =>
        if settings.vmType == SingleStage { return false; }
        if settings.hazard == Ideal { return false; }
        if value.keyword == KwEx { settings := settings.(stage := BranchInEx); }
        else if value.keyword == KwId { settings := settings.(stage := BranchInId); }
        else { return false; }
        ok := true;
      case _ =>
        ok := false;
    }
  }

  // ----- all command sequences -----

  /** The settings after a sequence of commands; rejected ones change nothing. */
  function Configured(c: Settings, commands: seq<Command>): Settings
    decreases |commands|
  {
    if commands == [] then c
    else
      var before := Configured(c, commands[..|commands| - 1]);
      var after := Modified(before, commands[|commands| - 1]);
      if after.Some? then after.value else before
  }

  lemma {:induction false} StaysSafe(c: Settings, commands: seq<Command>)
    requires Safe(c)
    ensures Safe(Configured(c, commands))
    decreases |commands|
  {
    hide Safe, Modified;
    if commands != [] {
      StaysSafe(c, commands[..|commands| - 1]);
      if Modified(Configured(c, commands[..|commands| - 1]), commands[|commands| - 1]).Some? {
        CommandKeepsSafe(Configured(c, commands[..|commands| - 1]), commands[|commands| - 1]);
      }
    }
  }

  lemma CommandKeepsSafe(c: Settings, command: Command)
    requires Safe(c) && Modified(c, command).Some?
    ensures Safe(Modified(c, command).value)
  {}

  function Say(key: Key, k: Keyword): Command { Command(Execution, key, Value(k, None, None)) }

  function KeywordOf(p: BranchPredictorType): (k: Keyword)
    ensures PredictorNamed(k) == Some(p)
  {
    match p
    case StaticNotTaken => KwStaticNotTaken
    case StaticTaken => KwStaticTaken
    case Dynamic1Bit => KwDynamic1Bit
    case Dynamic2Bit => KwDynamic2Bit
    case Tournament => KwTournament
  }

  /** Commands that lead from the defaults to a safe choice of VM. */
  function Path(t: VmType, h: DataHazardMode, p: BranchPredictorType, s: BranchStage): seq<Command> {
    if t == SingleStage then []
    else if h == Ideal then [Say(ProcessorType, KwMultiStage)]
    else [Say(ProcessorType, KwMultiStage), Say(KeyDataHazardMode, if h == StallOnly then KwStall else KwForwarding),
          Say(BranchPredictor, KeywordOf(p)), Say(KeyBranchStage, if s == BranchInEx then KwEx else KwId)]
  }

  predicate Chosen(c: Settings, t: VmType, h: DataHazardMode, p: BranchPredictorType, s: BranchStage) {
    (c.vmType, c.hazard, c.predictor, c.stage) == (t, h, p, s)
  }

  lemma PathLeads(c: Settings)
    requires Safe(c)
    ensures Chosen(Configured(DEFAULTS, Path(c.vmType, c.hazard, c.predictor, c.stage)), c.vmType, c.hazard,
      c.predictor, c.stage)
  {
    var path := Path(c.vmType, c.hazard, c.predictor, c.stage);
    if c.vmType == MultiStage {
      var one := Say(ProcessorType, KwMultiStage);
      assert path[..1] == [one] && [one][..0] == [];
      assert Configured(DEFAULTS, [one]) == DEFAULTS.(vmType := MultiStage);
      if c.hazard != Ideal {
        assert path[..2][..1] == path[..1] && path[..3][..2] == path[..2] && path[..4][..3] == path[..3]
          && path[..4] == path;
        var two := Configured(DEFAULTS, path[..2]);
        assert two == DEFAULTS.(vmType := MultiStage, hazard := c.hazard);
        assert Configured(DEFAULTS, path[..3]) == two.(predictor := c.predictor);
      }
    }
  }

  /** Command sequences from the defaults reach exactly the safe choices: a single-stage machine is ideal, and an
      ideal one predicts not-taken and branches in EX. */
  lemma ReachableIff(t: VmType, h: DataHazardMode, p: BranchPredictorType, s: BranchStage)
    ensures (exists commands :: Chosen(Configured(DEFAULTS, commands), t, h, p, s))
       <==> Safe(DEFAULTS.(vmType := t, hazard := h, predictor := p, stage := s))
  {
    var c := DEFAULTS.(vmType := t, hazard := h, predictor := p, stage := s);
    hide Configured, Path;
    if Safe(c) {
      PathLeads(c);
      assert Chosen(Configured(DEFAULTS, Path(t, h, p, s)), t, h, p, s);
    }
    forall commands | Chosen(Configured(DEFAULTS, commands), t, h, p, s) ensures Safe(c) {
      StaysSafe(DEFAULTS, commands);
    }
  }

  // ----- what a command does -----

  /** What a setting holds. */
  datatype Content = TypeIs(t: VmType) | HazardIs(h: DataHazardMode) | PredictorIs(p: BranchPredictorType)
    | StageIs(s: BranchStage) | NumberIs(n: U64) | FlagIs(b: bool)

  /** The setting that a key names, and the section it belongs to. */
  function Held(c: Settings, k: Key): Option<Content> {
    match k
    case ProcessorType => Some(TypeIs(c.vmType))
    case KeyDataHazardMode => Some(HazardIs(c.hazard))
    case BranchPredictor => Some(PredictorIs(c.predictor))
    case KeyBranchStage => Some(StageIs(c.stage))
    case RunStepDelay => Some(NumberIs(c.runStepDelay))
    case InstructionExecutionLimit => Some(NumberIs(c.executionLimit))
    case MemorySize => Some(NumberIs(c.memorySize))
    case MemoryBlockSize => Some(NumberIs(c.blockSize))
    case DataSectionStart => Some(NumberIs(c.dataStart))
    case TextSectionStart => Some(NumberIs(c.textStart))
    case BssSectionStart => Some(NumberIs(c.bssStart))
    case MExtension => Some(FlagIs(c.m))
    case FExtension => Some(FlagIs(c.f))
    case DExtension => Some(FlagIs(c.d))
    case OtherKey => None
  }

  function SectionOf(k: Key): Section {
    match k
    case MemorySize => Memory
    case MemoryBlockSize => Memory
    case DataSectionStart => Memory
    case TextSectionStart => Memory
    case BssSectionStart => Memory
    case MExtension => Assembler
    case FExtension => Assembler
    case DExtension => Assembler
    case OtherKey => OtherSection
    case _ => Execution
  }

  function Numbered(n: Option<U64>): Option<Content> { if n.Some? then Some(NumberIs(n.value)) else None }

  /** What a value asks for: a word of the setting's own, `true` or anything else, or a number, in base 16 for the
      starts of sections. */
  function Asked(k: Key, v: Value): Option<Content> {
    match k
    case ProcessorType =>
      if v.keyword == KwSingleStage then Some(TypeIs(SingleStage))
      else if v.keyword == KwMultiStage then Some(TypeIs(MultiStage)) else None
    case KeyDataHazardMode =>
      if v.keyword == KwIdeal then Some(HazardIs(Ideal))
      else if v.keyword == KwStall then Some(HazardIs(StallOnly))
      else if v.keyword == KwForwarding then Some(HazardIs(Forwarding)) else None
    case BranchPredictor =>
      if v.keyword == KwStaticNotTaken then Some(PredictorIs(StaticNotTaken))
      else if v.keyword == KwStaticTaken then Some(PredictorIs(StaticTaken))
      else if v.keyword == KwDynamic1Bit then Some(PredictorIs(Dynamic1Bit))
      else if v.keyword == KwDynamic2Bit then Some(PredictorIs(Dynamic2Bit))
      else if v.keyword == KwTournament then Some(PredictorIs(Tournament)) else None
    case KeyBranchStage =>
      if v.keyword == KwEx then Some(StageIs(BranchInEx))
      else if v.keyword == KwId then Some(StageIs(BranchInId)) else None
    case RunStepDelay => Numbered(v.decimal)
    case InstructionExecutionLimit => Numbered(v.decimal)
    case MemorySize => Numbered(v.decimal)
    case MemoryBlockSize => Numbered(v.decimal)
    case DataSectionStart => Numbered(v.hexadecimal)
    case TextSectionStart => Numbered(v.hexadecimal)
    case BssSectionStart => Numbered(v.hexadecimal)
    case OtherKey => None
    case _ => Some(FlagIs(v.keyword == KwTrue))
  }

  /** Hazard mode, predictor and branch stage can be set for a multi-stage machine only, the last two not for an ideal
      one. */
  predicate Settable(c: Settings, k: Key) {
    && (k in {KeyDataHazardMode, BranchPredictor, KeyBranchStage} ==> c.vmType == MultiStage)
    && (k in {BranchPredictor, KeyBranchStage} ==> c.hazard != Ideal)
  }

  /** What setting one thing resets: going back to single-stage the hazard mode, the predictor and the stage, the ideal
      mode the last two, and stalling the predictor. */
  predicate Resets(c: Settings, asked: Content, k: Key) {
    || (asked == TypeIs(SingleStage) && c.vmType == MultiStage
      && k in {KeyDataHazardMode, BranchPredictor, KeyBranchStage})
    || (asked == HazardIs(Ideal) && k in {BranchPredictor, KeyBranchStage})
    || (asked == HazardIs(StallOnly) && k == BranchPredictor)
  }

  /** A command is accepted exactly if its key belongs to its section, can be set, and its value makes sense. */
  lemma AcceptedIff(c: Settings, command: Command)
    ensures Modified(c, command).Some? <==>
      && command.key != OtherKey && SectionOf(command.key) == command.section && Settable(c, command.key)
      && Asked(command.key, command.value).Some?
  {}

  /** It then sets what its key names to what its value asks for, puts what that resets back to its default, and changes
      nothing else. */
  lemma CommandSets(c: Settings, command: Command, k: Key)
    requires Modified(c, command).Some? && Asked(command.key, command.value).Some?
    ensures var (after, asked) := (Modified(c, command).value, Asked(command.key, command.value).value);
      Held(after, k) == if k == command.key then Some(asked) else Held(if Resets(c, asked, k) then DEFAULTS else c, k)
  {
    hide ModifiedExecution, ModifiedMemory, Held, Asked, Resets;
    if command.section == Execution { ExecutionSets(c, command.key, command.value, k); }
    else if command.section == Memory { MemorySets(c, command.key, command.value, k); }
    else { AssemblerSets(c, command, k); }
  }

  lemma ExecutionSets(c: Settings, key: Key, value: Value, k: Key)
    requires ModifiedExecution(c, key, value).Some? && Asked(key, value).Some?
    ensures var (after, asked) := (ModifiedExecution(c, key, value).value, Asked(key, value).value);
      Held(after, k) == if k == key then Some(asked) else Held(if Resets(c, asked, k) then DEFAULTS else c, k)
  {
    hide ModifiedExecution, Asked, Held, Resets;
    if key == ProcessorType { TypeSets(c, value, k); }
    else if key == KeyDataHazardMode { HazardSets(c, value, k); }
    else { ChoiceSets(c, key, value, k); }
  }

  lemma TypeSets(c: Settings, value: Value, k: Key)
    requires ModifiedExecution(c, ProcessorType, value).Some? && Asked(ProcessorType, value).Some?
    ensures var (after, asked) := (ModifiedExecution(c, ProcessorType, value).value, Asked(ProcessorType, value).value);
      Held(after, k) == if k == ProcessorType then Some(asked)
        else Held(if Resets(c, asked, k) then DEFAULTS else c, k)
  {}

  lemma HazardSets(c: Settings, value: Value, k: Key)
    requires ModifiedExecution(c, KeyDataHazardMode, value).Some? && Asked(KeyDataHazardMode, value).Some?
    ensures var (after, asked) :=
        (ModifiedExecution(c, KeyDataHazardMode, value).value, Asked(KeyDataHazardMode, value).value);
      Held(after, k) == if k == KeyDataHazardMode then Some(asked)
        else Held(if Resets(c, asked, k) then DEFAULTS else c, k)
  {}

  lemma ChoiceSets(c: Settings, key: Key, value: Value, k: Key)
    requires key != ProcessorType && key != KeyDataHazardMode
    requires ModifiedExecution(c, key, value).Some? && Asked(key, value).Some?
    ensures var (after, asked) := (ModifiedExecution(c, key, value).value, Asked(key, value).value);
      Held(after, k) == if k == key then Some(asked) else Held(if Resets(c, asked, k) then DEFAULTS else c, k)
  {}

  lemma MemorySets(c: Settings, key: Key, value: Value, k: Key)
    requires ModifiedMemory(c, key, value).Some? && Asked(key, value).Some?
    ensures var (after, asked) := (ModifiedMemory(c, key, value).value, Asked(key, value).value);
      Held(after, k) == if k == key then Some(asked) else Held(if Resets(c, asked, k) then DEFAULTS else c, k)
  {}

  lemma AssemblerSets(c: Settings, command: Command, k: Key)
    requires command.section == Assembler && Modified(c, command).Some? && Asked(command.key, command.value).Some?
    ensures var (after, asked) := (Modified(c, command).value, Asked(command.key, command.value).value);
      Held(after, k) == if k == command.key then Some(asked) else Held(if Resets(c, asked, k) then DEFAULTS else c, k)
  {}

  // ----- selection -----

  datatype Selected =
    | Rvss | Rv5s
    | Rv5sEx(predictor: BranchPredictorType, forwarding: bool) | Rv5sId(predictor: BranchPredictorType,
      forwarding: bool)

  function InitializeVm(c: Settings): Selected {
    if c.vmType == SingleStage then Rvss
    else if c.hazard == Ideal then Rv5s
    else match c.stage
      case BranchInEx => Rv5sEx(c.predictor, c.hazard == Forwarding)
      case BranchInId => Rv5sId(c.predictor, c.hazard == Forwarding)
  }

  /** The VM that a choice selects: single-stage the single-cycle VM, ideal the pipeline without hazard detection, and
      otherwise the pipeline that resolves branches in the stage chosen, forwards if that is the mode, and has the
      predictor chosen. */
  lemma SelectionIs(commands: seq<Command>)
    ensures var (c, vm) := (Configured(DEFAULTS, commands), InitializeVm(Configured(DEFAULTS, commands)));
      && (vm.Rvss? <==> c.vmType == SingleStage)
      && (vm.Rv5s? <==> c.vmType == MultiStage && c.hazard == Ideal)
      && (vm.Rv5sEx? ==> c.stage == BranchInEx && c.predictor == vm.predictor)
      && (vm.Rv5sId? ==> c.stage == BranchInId && c.predictor == vm.predictor)
      && (vm.Rv5sEx? || vm.Rv5sId? ==> c.hazard == if vm.forwarding then Forwarding else StallOnly)
  {
    hide Configured;
  }

  /** From the defaults, the VM selected determines the whole choice it was made from. */
  lemma SelectionIsFaithful(commands: seq<Command>, others: seq<Command>)
    ensures var (c, d) := (Configured(DEFAULTS, commands), Configured(DEFAULTS, others));
      InitializeVm(c) == InitializeVm(d) <==> Chosen(c, d.vmType, d.hazard, d.predictor, d.stage)
  {
    hide Configured;
    StaysSafe(DEFAULTS, commands);
    StaysSafe(DEFAULTS, others);
  }
}
