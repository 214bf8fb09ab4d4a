/**
 * `lava::NetworkConfig`: the INI-style configuration the generator reads.  The
 * loop over the file's lines keeps the current `[section]`, splits every other
 * line at its first '=' and hands key and value to the parser of that section,
 * which overwrites one field (or appends to the hidden sizes) and ignores keys
 * it does not know.  After the last line the whole configuration is validated;
 * a failed number conversion or a failed check is the exception that escapes.
 */
module NetworkConfiguration {
  import opened Wrappers
  import opened Parsing

  datatype WeightInit = Xavier | He | UniformWeights
  datatype BiasInit = Zeros | UniformBiases

  datatype Architecture = Architecture(inputSize: nat, hiddenLayers: nat, hiddenSizes: seq<nat>, outputSize: nat)
  datatype Hyperparameters = Hyperparameters(learningRate: real, batchSize: nat, activation: string, dropout: real, epochs: nat, samplesPerEpoch: nat)
  datatype Initialization = Initialization(weightInit: WeightInit, biasInit: BiasInit)
  datatype LearningRateScheduler = LearningRateScheduler(kind: string, initialLR: real, decayRate: real, decaySteps: nat, minLR: real)

  /** The four parts of a configuration, as values. */
  datatype Config = Config(architecture: Architecture, hyperparameters: Hyperparameters, initialization: Initialization, lrScheduler: LearningRateScheduler)

  /** Every exception `fromFile` and `getValue` can throw. */
  datatype ConfigError =
    | CouldNotOpen
    | NotANumber(text: string)
    | InputSizeZero
    | OutputSizeZero
    | HiddenLayersMismatch
    | LearningRateNotPositive
    | BatchSizeZero
    | DropoutOutOfRange
    | InvalidSchedulerType
    | DecayRateOutOfRange
    | DecayStepsZero
    | MinLRNegative
    | InvalidKey(section: string, key: string)

  /** The member initialisers: zero sizes and rates, the first enumerators, and the scheduler's own defaults. */
  const Defaults: Config := Config(
    Architecture(0, 0, [], 0),
    Hyperparameters(0.0, 0, [], 0.0, 0, 0),
    Initialization(Xavier, Zeros),
    LearningRateScheduler("none", 0.01, 0.95, 100, 0.0001))

  // ---------------------------------------------------------------------------
  // The section parsers, as functions on values
  // ---------------------------------------------------------------------------

  /** `std::stoul(value)`, its exception as an error. */
  function ULong(value: string): Result<nat, ConfigError>
  {
    match StoUL(value)
    case Some(n) => Ok(n)
    case None => Err(NotANumber(value))
  }

  /** `std::stod(value)`, its exception as an error. */
  function Double(value: string): Result<real, ConfigError>
  {
    match StoD(value)
    case Some(x) => Ok(x)
    case None => Err(NotANumber(value))
  }

  /** The comma-separated pieces of `hidden_sizes`, each through `std::stoul`; the first piece that is not a number is the error. */
  function HiddenSizes(pieces: seq<string>): (r: Result<seq<nat>, ConfigError>)
    ensures r.Err? ==> r.error.NotANumber?
    decreases |pieces|
  {
    if pieces == [] then Ok([])
    else
      match StoUL(pieces[0])
      case None => Err(NotANumber(pieces[0]))
      case Some(n) =>
        match HiddenSizes(pieces[1..])
        case Ok(ns) => Ok([n] + ns)
        case Err(e) => Err(e)
  }

  /** The sizes are there exactly when every piece converts, one value per piece; otherwise the error names a piece that does not. */
  lemma {:induction false} HiddenSizesConvert(pieces: seq<string>)
    ensures var r := HiddenSizes(pieces);
      (r.Ok? <==> forall i :: 0 <= i < |pieces| ==> StoUL(pieces[i]).Some?) &&
      (r.Ok? ==> |r.value| == |pieces| && forall i :: 0 <= i < |pieces| ==> StoUL(pieces[i]) == Some(r.value[i])) &&
      (r.Err? ==> exists i :: 0 <= i < |pieces| && StoUL(pieces[i]) == None && r.error == NotANumber(pieces[i]))
    decreases |pieces|
  {
    if pieces != [] && StoUL(pieces[0]).Some? {
      HiddenSizesConvert(pieces[1..]);
      var r := HiddenSizes(pieces);
      if r.Err? {
        var i :| 0 <= i < |pieces[1..]| && StoUL(pieces[1..][i]) == None && r.error == NotANumber(pieces[1..][i]);
        assert pieces[i + 1] == pieces[1..][i];
      } else {
        forall i | 0 <= i < |pieces|
          ensures StoUL(pieces[i]) == Some(r.value[i])
        {
          if i > 0 {
            assert pieces[i] == pieces[1..][i - 1];
          }
        }
      }
      if forall i :: 0 <= i < |pieces| ==> StoUL(pieces[i]).Some? {
        forall i | 0 <= i < |pieces[1..]|
          ensures StoUL(pieces[1..][i]).Some?
        {
          assert pieces[1..][i] == pieces[i + 1];
        }
      }
    }
  }

  /**
   * The sizes the `getline` loop pushes onto the hidden sizes: every piece
   * converts in order until the first that `std::stoul` refuses, whose
   * exception ends the loop after the earlier pieces are already pushed.
   */
  function Pushed(pieces: seq<string>): (r: seq<nat>)
    ensures |r| <= |pieces|
    decreases |pieces|
  {
    if pieces == [] then []
    else
      match StoUL(pieces[0])
      case None => []
      case Some(n) => [n] + Pushed(pieces[1..])
  }

  /** The pushed sizes are the conversions of the leading pieces, and the piece after them, if any, does not convert. */
  lemma {:induction false} PushedConverts(pieces: seq<string>)
    ensures var r := Pushed(pieces);
      (forall i :: 0 <= i < |r| ==> StoUL(pieces[i]) == Some(r[i])) &&
      (|r| < |pieces| ==> StoUL(pieces[|r|]).None?)
    decreases |pieces|
  {
    if pieces != [] && StoUL(pieces[0]).Some? {
      PushedConverts(pieces[1..]);
      var r := Pushed(pieces);
      forall i | 0 <= i < |r|
        ensures StoUL(pieces[i]) == Some(r[i])
      {
        if i > 0 {
          assert pieces[i] == pieces[1..][i - 1];
        }
      }
      if |r| < |pieces| {
        assert pieces[|r|] == pieces[1..][|r| - 1];
      }
    }
  }

  /** What is pushed is the whole result on success, and on failure the converted pieces before the one the error names. */
  lemma {:induction false} PushedAgrees(pieces: seq<string>)
    ensures HiddenSizes(pieces).Ok? ==> Pushed(pieces) == HiddenSizes(pieces).value && |Pushed(pieces)| == |pieces|
    ensures HiddenSizes(pieces).Err? ==>
      |Pushed(pieces)| < |pieces| && HiddenSizes(pieces).error == NotANumber(pieces[|Pushed(pieces)|])
    decreases |pieces|
  {
    if pieces != [] && StoUL(pieces[0]).Some? {
      PushedAgrees(pieces[1..]);
      var rest := Pushed(pieces[1..]);
      if HiddenSizes(pieces[1..]).Err? {
        assert pieces[1..][|rest|] == pieces[|rest| + 1];
      }
    }
  }

  /** `_parseArchitecture`: one field set from a number, or the parsed sizes appended. */
  function ArchitectureKey(a: Architecture, key: string, value: string): (r: Result<Architecture, ConfigError>)
    ensures key !in {"input_size", "hidden_layers", "hidden_sizes", "output_size"} ==> r == Ok(a)
    ensures key == "hidden_sizes" ==> match HiddenSizes(SplitOn(value, ','))
      case Ok(ns) => r == Ok(a.(hiddenSizes := a.hiddenSizes + ns))
      case Err(e) => r == Err(e)
  {
    if key == "input_size" then
      match ULong(value) case Ok(n) => Ok(a.(inputSize := n)) case Err(e) => Err(e)
    else if key == "hidden_layers" then
      match ULong(value) case Ok(n) => Ok(a.(hiddenLayers := n)) case Err(e) => Err(e)
    else if key == "hidden_sizes" then
      match HiddenSizes(SplitOn(value, ',')) case Ok(ns) => Ok(a.(hiddenSizes := a.hiddenSizes + ns)) case Err(e) => Err(e)
    else if key == "output_size" then
      match ULong(value) case Ok(n) => Ok(a.(outputSize := n)) case Err(e) => Err(e)
    else Ok(a)
  }

  /**
   * The architecture `_parseArchitecture` leaves behind, also when it throws:
   * a failed single-number key assigns nothing, but a failed `hidden_sizes`
   * piece comes after the earlier pieces were pushed.
   */
  function ArchitectureAfter(a: Architecture, key: string, value: string): (r: Architecture)
    ensures ArchitectureKey(a, key, value).Ok? ==> r == ArchitectureKey(a, key, value).value
    ensures ArchitectureKey(a, key, value).Err? && key != "hidden_sizes" ==> r == a
    ensures ArchitectureKey(a, key, value).Err? ==> r == a.(hiddenSizes := r.hiddenSizes)
    ensures key == "hidden_sizes" ==> r.hiddenSizes == a.hiddenSizes + Pushed(SplitOn(value, ','))
  {
    PushedAgrees(SplitOn(value, ','));
    if key == "hidden_sizes" then a.(hiddenSizes := a.hiddenSizes + Pushed(SplitOn(value, ',')))
    else match ArchitectureKey(a, key, value) case Ok(a') => a' case Err(_) => a
  }

  /** `_parseHyperparameters`: one field set from a number, or the activation name kept as written. */
  function HyperparameterKey(h: Hyperparameters, key: string, value: string): (r: Result<Hyperparameters, ConfigError>)
    ensures key !in {"learning_rate", "batch_size", "activation", "dropout", "epochs", "samples_per_epoch"} ==> r == Ok(h)
    ensures key == "activation" ==> r == Ok(h.(activation := value))
  {
    if key == "learning_rate" then
      match Double(value) case Ok(x) => Ok(h.(learningRate := x)) case Err(e) => Err(e)
    else if key == "batch_size" then
      match ULong(value) case Ok(n) => Ok(h.(batchSize := n)) case Err(e) => Err(e)
    else if key == "activation" then Ok(h.(activation := value))
    else if key == "dropout" then
      match Double(value) case Ok(x) => Ok(h.(dropout := x)) case Err(e) => Err(e)
    else if key == "epochs" then
      match ULong(value) case Ok(n) => Ok(h.(epochs := n)) case Err(e) => Err(e)
    else if key == "samples_per_epoch" then
      match ULong(value) case Ok(n) => Ok(h.(samplesPerEpoch := n)) case Err(e) => Err(e)
    else Ok(h)
  }

  /** `_parseInitialization`: a recognised name selects an enumerator; any other key or value changes nothing. */
  function InitializationKey(z: Initialization, key: string, value: string): (r: Initialization)
    ensures r.biasInit != z.biasInit ==> key == "bias_init" && value in {"zeros", "uniform"}
    ensures r.weightInit != z.weightInit ==> key == "weight_init" && value in {"xavier", "he", "uniform"}
  {
    if key == "weight_init" then
      if value == "xavier" then z.(weightInit := Xavier)
      else if value == "he" then z.(weightInit := He)
      else if value == "uniform" then z.(weightInit := UniformWeights)
      else z
    else if key == "bias_init" then
      if value == "zeros" then z.(biasInit := Zeros)
      else if value == "uniform" then z.(biasInit := UniformBiases)
      else z
    else z
  }

  /** `_parseLRScheduler`: one field set from a number, or the scheduler type kept as written. */
  function SchedulerKey(s: LearningRateScheduler, key: string, value: string): (r: Result<LearningRateScheduler, ConfigError>)
    ensures key !in {"type", "initial_lr", "decay_rate", "decay_steps", "min_lr"} ==> r == Ok(s)
    ensures key == "type" ==> r == Ok(s.(kind := value))
  {
    if key == "type" then Ok(s.(kind := value))
    else if key == "initial_lr" then
      match Double(value) case Ok(x) => Ok(s.(initialLR := x)) case Err(e) => Err(e)
    else if key == "decay_rate" then
      match Double(value) case Ok(x) => Ok(s.(decayRate := x)) case Err(e) => Err(e)
    else if key == "decay_steps" then
      match ULong(value) case Ok(n) => Ok(s.(decaySteps := n)) case Err(e) => Err(e)
    else if key == "min_lr" then
      match Double(value) case Ok(x) => Ok(s.(minLR := x)) case Err(e) => Err(e)
    else Ok(s)
  }

  /**
   * `_parseKeyValue`: the parser of the current section; a key under any other
   * section is ignored.  Only the section's own part of the configuration can
   * change, and an error is always a number that did not convert.
   */
  function KeyValue(c: Config, section: string, key: string, value: string): (r: Result<Config, ConfigError>)
    ensures section !in {"architecture", "hyperparameters", "initialization", "lr_scheduler"} ==> r == Ok(c)
    ensures r.Ok? && section != "architecture" ==> r.value.architecture == c.architecture
    ensures r.Ok? && section != "hyperparameters" ==> r.value.hyperparameters == c.hyperparameters
    ensures r.Ok? && section != "initialization" ==> r.value.initialization == c.initialization
    ensures r.Ok? && section != "lr_scheduler" ==> r.value.lrScheduler == c.lrScheduler
    ensures r.Err? ==> r.error.NotANumber?
    ensures section == "initialization" ==> r.Ok?
  {
    if section == "architecture" then
      match ArchitectureKey(c.architecture, key, value) case Ok(a) => Ok(c.(architecture := a)) case Err(e) => Err(e)
    else if section == "hyperparameters" then
      match HyperparameterKey(c.hyperparameters, key, value) case Ok(h) => Ok(c.(hyperparameters := h)) case Err(e) => Err(e)
    else if section == "initialization" then
      Ok(c.(initialization := InitializationKey(c.initialization, key, value)))
    else if section == "lr_scheduler" then
      match SchedulerKey(c.lrScheduler, key, value) case Ok(s) => Ok(c.(lrScheduler := s)) case Err(e) => Err(e)
    else Ok(c)
  }

  /**
   * The configuration `_parseKeyValue` leaves behind, also when it throws:
   * the updated one on success; on an error the old one, except for the
   * hidden sizes pushed before a failing `hidden_sizes` piece.
   */
  function ConfigAfter(c: Config, section: string, key: string, value: string): (r: Config)
    ensures KeyValue(c, section, key, value).Ok? ==> r == KeyValue(c, section, key, value).value
    ensures KeyValue(c, section, key, value).Err? && !(section == "architecture" && key == "hidden_sizes") ==> r == c
    ensures KeyValue(c, section, key, value).Err? ==>
      r == c.(architecture := c.architecture.(hiddenSizes := r.architecture.hiddenSizes)) &&
      c.architecture.hiddenSizes <= r.architecture.hiddenSizes
  {
    if section == "architecture" then c.(architecture := ArchitectureAfter(c.architecture, key, value))
    else match KeyValue(c, section, key, value) case Ok(c') => c' case Err(_) => c
  }

  // ---------------------------------------------------------------------------
  // The line loop and the validation, as functions on values
  // ---------------------------------------------------------------------------

  /** `line.substr(1, line.find(']') - 1)`: the text after '[' up to the first ']', or to the end when there is none. */
  function SectionName(line: string): (name: string)
    requires |line| > 0 && line[0] == '['
    ensures name <= line[1..] && ']' !in name
    ensures |name| + 1 < |line| ==> line[|name| + 1] == ']'
  {
    var close := IndexOf(line, ']');
    line[1..close]
  }

  /** One line of the loop: skipped, a new section, a key and value, or (without '=') nothing. */
  function Step(section: string, c: Config, line: string): Result<(string, Config), ConfigError>
  {
    if line == [] || line[0] == '#' then Ok((section, c))
    else if line[0] == '[' then Ok((SectionName(line), c))
    else
      var pos := IndexOf(line, '=');
      if pos == |line| then Ok((section, c))
      else
        match KeyValue(c, section, line[..pos], line[pos + 1..])
        case Ok(c') => Ok((section, c'))
        case Err(e) => Err(e)
  }

  /** The loop from line i on, with the section and configuration reached so far. */
  function LoadFrom(lines: seq<string>, i: nat, section: string, c: Config): Result<Config, ConfigError>
    requires i <= |lines|
    decreases |lines| - i
  {
    if i == |lines| then Ok(c)
    else
      match Step(section, c, lines[i])
      case Ok((s', c')) => LoadFrom(lines, i + 1, s', c')
      case Err(e) => Err(e)
  }

  /** What `_validate` demands of a configuration. */
  predicate Conforms(c: Config)
  {
    var a := c.architecture;
    var h := c.hyperparameters;
    var s := c.lrScheduler;
    a.inputSize > 0 && a.outputSize > 0 && a.hiddenLayers == |a.hiddenSizes| &&
    h.learningRate > 0.0 && h.batchSize > 0 && 0.0 <= h.dropout < 1.0 &&
    (s.kind == "none" || s.kind == "exponential") &&
    0.0 < s.decayRate <= 1.0 && s.decaySteps > 0 && s.minLR >= 0.0
  }

  /** `_validate`: the first check that fails, in the order they are written. */
  function Validate(c: Config): (r: Option<ConfigError>)
    ensures r == None <==> Conforms(c)
    ensures r.Some? ==> !r.value.NotANumber? && !r.value.InvalidKey? && r.value != CouldNotOpen
    ensures r == Some(BatchSizeZero) ==> (c.architecture.inputSize > 0 && c.architecture.outputSize > 0 &&
      c.architecture.hiddenLayers == |c.architecture.hiddenSizes| && c.hyperparameters.learningRate > 0.0)
  {
    var a := c.architecture;
    var h := c.hyperparameters;
    var s := c.lrScheduler;
    if a.inputSize == 0 then Some(InputSizeZero)
    else if a.outputSize == 0 then Some(OutputSizeZero)
    else if a.hiddenLayers != |a.hiddenSizes| then Some(HiddenLayersMismatch)
    else if h.learningRate <= 0.0 then Some(LearningRateNotPositive)
    else if h.batchSize == 0 then Some(BatchSizeZero)
    else if h.dropout < 0.0 || h.dropout >= 1.0 then Some(DropoutOutOfRange)
    else if s.kind != "none" && s.kind != "exponential" then Some(InvalidSchedulerType)
    else if s.decayRate <= 0.0 || s.decayRate > 1.0 then Some(DecayRateOutOfRange)
    else if s.decaySteps == 0 then Some(DecayStepsZero)
    else if s.minLR < 0.0 then Some(MinLRNegative)
    else None
  }

  /** `fromFile`: no file is an error; otherwise the loop from the defaults and no section, then validation. */
  function FromLines(file: Option<seq<string>>): (r: Result<Config, ConfigError>)
    ensures r.Ok? ==> Conforms(r.value)
  {
    match file
    case None => Err(CouldNotOpen)
    case Some(lines) =>
      match LoadFrom(lines, 0, [], Defaults)
      case Err(e) => Err(e)
      case Ok(c) => if Validate(c).Some? then Err(Validate(c).value) else Ok(c)
  }

  /** A value of `getValue`, before `std::to_string` renders the numbers. */
  datatype Setting = Text(text: string) | Fraction(x: real) | Whole(n: nat)

  /** `getValue`: four scheduler keys can be read back; any other section or key is an error naming both. */
  function GetSetting(c: Config, section: string, key: string): (r: Result<Setting, ConfigError>)
    ensures r.Ok? <==> section == "lr_scheduler" && key in {"type", "decay_rate", "decay_steps", "min_lr"}
    ensures r.Err? ==> r.error == InvalidKey(section, key)
  {
    var s := c.lrScheduler;
    if section == "lr_scheduler" && key == "type" then Ok(Text(s.kind))
    else if section == "lr_scheduler" && key == "decay_rate" then Ok(Fraction(s.decayRate))
    else if section == "lr_scheduler" && key == "decay_steps" then Ok(Whole(s.decaySteps))
    else if section == "lr_scheduler" && key == "min_lr" then Ok(Fraction(s.minLR))
    else Err(InvalidKey(section, key))
  }

  // ---------------------------------------------------------------------------
  // Properties of the line loop
  // ---------------------------------------------------------------------------

  /** A header `[name]...` selects the section `name`, whatever follows the bracket. */
  lemma SectionOfHeader(name: string, rest: string)
    requires ']' !in name
    ensures SectionName(['['] + name + [']'] + rest) == name
  {
    var line := ['['] + name + [']'] + rest;
    forall i | 0 <= i < |name| + 1
      ensures line[i] != ']'
    {
      if i > 0 {
        assert line[i] == name[i - 1];
      }
    }
    IndexOfFirst(line, ']', |name| + 1);
    assert line[1..|name| + 1] == name;
  }

  /** A `key=value` line hands the parser the text before its first '=' and everything after it. */
  lemma KeyValueLine(section: string, c: Config, key: string, value: string)
    requires key != [] && key[0] != '#' && key[0] != '[' && '=' !in key
    ensures Step(section, c, key + ['='] + value) ==
      match KeyValue(c, section, key, value) case Ok(c') => Ok((section, c')) case Err(e) => Err(e)
  {
    var line := key + ['='] + value;
    assert line[0] == key[0];
    forall i | 0 <= i < |key|
      ensures line[i] != '='
    {
      assert line[i] == key[i];
    }
    IndexOfFirst(line, '=', |key|);
    assert line[..|key|] == key && line[|key| + 1..] == value;
  }

  /** Lines without '=' that are not headers leave the section and the configuration alone. */
  lemma PlainLineIgnored(section: string, c: Config, line: string)
    requires line == [] || line[0] != '['
    requires '=' !in line
    ensures Step(section, c, line) == Ok((section, c))
  {
    if line != [] && line[0] != '#' {
      assert IndexOf(line, '=') == |line|;
    }
  }

  /** The loop over a longer file continues from where the loop over its first lines stopped. */
  lemma {:induction false} LoadAppend(lines: seq<string>, more: seq<string>, i: nat, section: string, c: Config)
    requires i <= |lines|
    ensures LoadFrom(lines + more, i, section, c) ==
      match LoadPrefix(lines, i, section, c)
      case Ok((s', c')) => LoadFrom(more, 0, s', c')
      case Err(e) => Err(e)
    decreases |lines| - i
  {
    if i == |lines| {
      assert (lines + more)[i..] == more;
      LoadShift(lines + more, more, i, 0, section, c);
    } else {
      assert (lines + more)[i] == lines[i];
      match Step(section, c, lines[i])
      case Ok((s', c')) => LoadAppend(lines, more, i + 1, s', c');
      case Err(e) =>
    }
  }

  /** The loop from line i on, keeping the final section. */
  function LoadPrefix(lines: seq<string>, i: nat, section: string, c: Config): Result<(string, Config), ConfigError>
    requires i <= |lines|
    decreases |lines| - i
  {
    if i == |lines| then Ok((section, c))
    else
      match Step(section, c, lines[i])
      case Ok((s', c')) => LoadPrefix(lines, i + 1, s', c')
      case Err(e) => Err(e)
  }

  /** The loop only sees the lines from i on. */
  lemma {:induction false} LoadShift(lines: seq<string>, tail: seq<string>, i: nat, j: nat, section: string, c: Config)
    requires i <= |lines| && j <= |tail| && lines[i..] == tail[j..]
    ensures LoadFrom(lines, i, section, c) == LoadFrom(tail, j, section, c)
    decreases |lines| - i
  {
    if i < |lines| {
      assert lines[i] == lines[i..][0] == tail[j..][0] == tail[j];
      assert lines[i + 1..] == lines[i..][1..];
      assert tail[j + 1..] == tail[j..][1..];
      match Step(section, c, lines[i])
      case Ok((s', c')) => LoadShift(lines, tail, i + 1, j + 1, s', c');
      case Err(e) =>
    }
  }

  /** An empty file leaves the defaults, which fail the first check. */
  lemma EmptyFileRejected()
    ensures FromLines(Some([])) == Err(InputSizeZero)
  {
  }

  /** Setting a scheduler key and reading it back gives the value written, converted. */
  lemma SchedulerRoundTrip(c: Config, key: string, value: string)
    requires key in {"type", "decay_rate", "decay_steps", "min_lr"}
    requires KeyValue(c, "lr_scheduler", key, value).Ok?
    ensures var r := GetSetting(KeyValue(c, "lr_scheduler", key, value).value, "lr_scheduler", key);
      r == if key == "type" then Ok(Text(value))
        else if key == "decay_steps" then Ok(Whole(StoUL(value).value))
        else Ok(Fraction(StoD(value).value))
  {
  }

  // ---------------------------------------------------------------------------
  // The object
  // ---------------------------------------------------------------------------

  /** The configuration object: its four parts are updated in place, key by key. */
  class NetworkConfig {
    var architecture: Architecture
    var hyperparameters: Hyperparameters
    var initialization: Initialization
    var lrScheduler: LearningRateScheduler

    /** The object's value. */
    function Value(): Config
      reads this
    {
      Config(architecture, hyperparameters, initialization, lrScheduler)
    }

    constructor()
      ensures Value() == Defaults
    {
      architecture := Defaults.architecture;
      hyperparameters := Defaults.hyperparameters;
      initialization := Defaults.initialization;
      lrScheduler := Defaults.lrScheduler;
    }

    /**
     * `hidden_sizes` on the object: the `getline` loop pushes each piece as it
     * converts it, so on a piece that does not convert the earlier pieces stay
     * pushed.
     */
    method ParseHiddenSizes(value: string) returns (err: Option<ConfigError>)
      modifies this
      ensures match HiddenSizes(SplitOn(value, ','))
        case Ok(ns) => err == None && Value() == old(Value()).(architecture := old(architecture).(hiddenSizes := old(architecture.hiddenSizes) + ns))
        case Err(e) => (err == Some(e) &&
          Value() == old(Value()).(architecture := old(architecture).(hiddenSizes := old(architecture.hiddenSizes) + Pushed(SplitOn(value, ',')))))
    {
      var pieces := SplitOn(value, ',');
      err := PushSizes(pieces);
      PushedAgrees(pieces);
    }

    /** The `getline(ss, size, ',')` loop itself: each piece pushed as soon as `std::stoul` converts it. */
    method PushSizes(pieces: seq<string>) returns (err: Option<ConfigError>)
      modifies this
      ensures architecture == old(architecture).(hiddenSizes := old(architecture.hiddenSizes) + Pushed(pieces))
      ensures hyperparameters == old(hyperparameters) && initialization == old(initialization) && lrScheduler == old(lrScheduler)
      ensures err == if |Pushed(pieces)| < |pieces| then Some(NotANumber(pieces[|Pushed(pieces)|])) else None
    {
      ghost var a0 := architecture;
      ghost var done: seq<nat> := [];
      var i := 0;
      assert pieces[0..] == pieces;
      while i < |pieces|
        invariant i <= |pieces| && |done| == i
        invariant Pushed(pieces) == done + Pushed(pieces[i..])
        invariant architecture == a0.(hiddenSizes := a0.hiddenSizes + done)
        invariant hyperparameters == old(hyperparameters) && initialization == old(initialization) && lrScheduler == old(lrScheduler)
      {
        var n := StoUL(pieces[i]);
        PushedStep(pieces, i, done);
        if n.None? {
          return Some(NotANumber(pieces[i]));
        }
        assert (a0.hiddenSizes + done) + [n.value] == a0.hiddenSizes + (done + [n.value]);
        architecture := architecture.(hiddenSizes := architecture.hiddenSizes + [n.value]);
        done := done + [n.value];
        i := i + 1;
      }
      PushedEnd(pieces, done);
      return None;
    }

    /** `_parseArchitecture` on the object. */
    method ParseArchitecture(key: string, value: string) returns (err: Option<ConfigError>)
      modifies this
      ensures match ArchitectureKey(old(architecture), key, value)
        case Ok(a) => err == None && Value() == old(Value()).(architecture := a)
        case Err(e) => err == Some(e) && Value() == old(Value()).(architecture := ArchitectureAfter(old(architecture), key, value))
    {
      err := None;
      if key == "input_size" {
        var n := StoUL(value);
        if n.None? { return Some(NotANumber(value)); }
        architecture := architecture.(inputSize := n.value);
      } else if key == "hidden_layers" {
        var n := StoUL(value);
        if n.None? { return Some(NotANumber(value)); }
        architecture := architecture.(hiddenLayers := n.value);
      } else if key == "hidden_sizes" {
        err := ParseHiddenSizes(value);
      } else if key == "output_size" {
        var n := StoUL(value);
        if n.None? { return Some(NotANumber(value)); }
        architecture := architecture.(outputSize := n.value);
      }
    }

    /** `_parseHyperparameters` on the object. */
    method ParseHyperparameters(key: string, value: string) returns (err: Option<ConfigError>)
      modifies this
      ensures match HyperparameterKey(old(hyperparameters), key, value)
        case Ok(h) => err == None && Value() == old(Value()).(hyperparameters := h)
        case Err(e) => err == Some(e) && Value() == old(Value())
    {
      err := None;
      if key == "learning_rate" {
        var x := StoD(value);
        if x.None? { return Some(NotANumber(value)); }
        hyperparameters := hyperparameters.(learningRate := x.value);
      } else if key == "batch_size" {
        var n := StoUL(value);
        if n.None? { return Some(NotANumber(value)); }
        hyperparameters := hyperparameters.(batchSize := n.value);
      } else if key == "activation" {
        hyperparameters := hyperparameters.(activation := value);
      } else if key == "dropout" {
        var x := StoD(value);
        if x.None? { return Some(NotANumber(value)); }
        hyperparameters := hyperparameters.(dropout := x.value);
      } else if key == "epochs" {
        var n := StoUL(value);
        if n.None? { return Some(NotANumber(value)); }
        hyperparameters := hyperparameters.(epochs := n.value);
      } else if key == "samples_per_epoch" {
        var n := StoUL(value);
        if n.None? { return Some(NotANumber(value)); }
        hyperparameters := hyperparameters.(samplesPerEpoch := n.value);
      }
    }

    /** `_parseInitialization` on the object. */
    method ParseInitialization(key: string, value: string)
      modifies this
      ensures Value() == old(Value()).(initialization := InitializationKey(old(initialization), key, value))
    {
      if key == "weight_init" {
        if value == "xavier" {
          initialization := initialization.(weightInit := Xavier);
        } else if value == "he" {
          initialization := initialization.(weightInit := He);
        } else if value == "uniform" {
          initialization := initialization.(weightInit := UniformWeights);
        }
      } else if key == "bias_init" {
        if value == "zeros" {
          initialization := initialization.(biasInit := Zeros);
        } else if value == "uniform" {
          initialization := initialization.(biasInit := UniformBiases);
        }
      }
    }

    /** `_parseLRScheduler` on the object. */
    method ParseLRScheduler(key: string, value: string) returns (err: Option<ConfigError>)
      modifies this
      ensures match SchedulerKey(old(lrScheduler), key, value)
        case Ok(s) => err == None && Value() == old(Value()).(lrScheduler := s)
        case Err(e) => err == Some(e) && Value() == old(Value())
    {
      err := None;
      if key == "type" {
        lrScheduler := lrScheduler.(kind := value);
      } else if key == "initial_lr" {
        var x := StoD(value);
        if x.None? { return Some(NotANumber(value)); }
        lrScheduler := lrScheduler.(initialLR := x.value);
      } else if key == "decay_rate" {
        var x := StoD(value);
        if x.None? { return Some(NotANumber(value)); }
        lrScheduler := lrScheduler.(decayRate := x.value);
      } else if key == "decay_steps" {
        var n := StoUL(value);
        if n.None? { return Some(NotANumber(value)); }
        lrScheduler := lrScheduler.(decaySteps := n.value);
      } else if key == "min_lr" {
        var x := StoD(value);
        if x.None? { return Some(NotANumber(value)); }
        lrScheduler := lrScheduler.(minLR := x.value);
      }
    }

    /** `_parseKeyValue` on the object. */
    method ParseKeyValue(section: string, key: string, value: string) returns (err: Option<ConfigError>)
      modifies this
      ensures match KeyValue(old(Value()), section, key, value)
        case Ok(c) => err == None && Value() == c
        case Err(e) => err == Some(e) && Value() == ConfigAfter(old(Value()), section, key, value)
    {
      err := None;
      if section == "architecture" {
        err := ParseArchitecture(key, value);
      } else if section == "hyperparameters" {
        err := ParseHyperparameters(key, value);
      } else if section == "initialization" {
        ParseInitialization(key, value);
      } else if section == "lr_scheduler" {
        err := ParseLRScheduler(key, value);
      }
    }

    /** `_validate` on the object. */
    method CheckValid() returns (err: Option<ConfigError>)
      ensures err == Validate(Value())
    {
      if architecture.inputSize == 0 {
        return Some(InputSizeZero);
      }
      if architecture.outputSize == 0 {
        return Some(OutputSizeZero);
      }
      if architecture.hiddenLayers != |architecture.hiddenSizes| {
        return Some(HiddenLayersMismatch);
      }
      if hyperparameters.learningRate <= 0.0 {
        return Some(LearningRateNotPositive);
      }
      if hyperparameters.batchSize == 0 {
        return Some(BatchSizeZero);
      }
      if hyperparameters.dropout < 0.0 || hyperparameters.dropout >= 1.0 {
        return Some(DropoutOutOfRange);
      }
      if lrScheduler.kind != "none" && lrScheduler.kind != "exponential" {
        return Some(InvalidSchedulerType);
      }
      if lrScheduler.decayRate <= 0.0 || lrScheduler.decayRate > 1.0 {
        return Some(DecayRateOutOfRange);
      }
      if lrScheduler.decaySteps == 0 {
        return Some(DecayStepsZero);
      }
      if lrScheduler.minLR < 0.0 {
        return Some(MinLRNegative);
      }
      return None;
    }

    /** `getValue` on the object. */
    function GetValue(section: string, key: string): (r: Result<Setting, ConfigError>)
      reads this
      ensures r == GetSetting(Value(), section, key)
    {
      if section == "lr_scheduler" && key == "type" then Ok(Text(lrScheduler.kind))
      else if section == "lr_scheduler" && key == "decay_rate" then Ok(Fraction(lrScheduler.decayRate))
      else if section == "lr_scheduler" && key == "decay_steps" then Ok(Whole(lrScheduler.decaySteps))
      else if section == "lr_scheduler" && key == "min_lr" then Ok(Fraction(lrScheduler.minLR))
      else Err(InvalidKey(section, key))
    }
  }

  /** Pushing piece i either ends the pushes there or moves one piece on. */
  lemma PushedStep(pieces: seq<string>, i: nat, done: seq<nat>)
    requires i < |pieces| && Pushed(pieces) == done + Pushed(pieces[i..])
    ensures StoUL(pieces[i]).None? ==> Pushed(pieces) == done
    ensures StoUL(pieces[i]).Some? ==> Pushed(pieces) == (done + [StoUL(pieces[i]).value]) + Pushed(pieces[i + 1..])
  {
    assert pieces[i..][0] == pieces[i] && pieces[i..][1..] == pieces[i + 1..];
    if StoUL(pieces[i]).None? {
      assert done + [] == done;
    } else {
      assert done + ([StoUL(pieces[i]).value] + Pushed(pieces[i + 1..])) == (done + [StoUL(pieces[i]).value]) + Pushed(pieces[i + 1..]);
    }
  }

  /** After the last piece every piece is pushed. */
  lemma PushedEnd(pieces: seq<string>, done: seq<nat>)
    requires Pushed(pieces) == done + Pushed(pieces[|pieces|..])
    ensures Pushed(pieces) == done
  {
    assert pieces[|pieces|..] == [];
    assert done + [] == done;
  }

  /** `fromFile` over the file's lines, None when it cannot be opened: the object it returns holds the loaded configuration. */
  method FromFile(file: Option<seq<string>>) returns (r: Result<NetworkConfig, ConfigError>)
    ensures r.Err? ==> FromLines(file) == Err(r.error)
    ensures r.Ok? ==> fresh(r.value) && FromLines(file) == Ok(r.value.Value())
  {
    var config := new NetworkConfig();
    if file.None? {
      return Err(CouldNotOpen);
    }
    var lines := file.value;
    var currentSection: string := [];
    var i := 0;
    while i < |lines|
      invariant i <= |lines|
      invariant LoadFrom(lines, 0, [], Defaults) == LoadFrom(lines, i, currentSection, config.Value())
    {
      var line := lines[i];
      if line == [] || line[0] == '#' {
      } else if line[0] == '[' {
        currentSection := SectionName(line);
      } else {
        var pos := IndexOf(line, '=');
        if pos < |line| {
          var err := config.ParseKeyValue(currentSection, line[..pos], line[pos + 1..]);
          if err.Some? {
            return Err(err.value);
          }
        }
      }
      i := i + 1;
    }
    var err := config.CheckValid();
    if err.Some? {
      return Err(err.value);
    }
    return Ok(config);
  }
}
