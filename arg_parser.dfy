/**
 * `ArgParser`: the command lines of the generator and the analyzer.  `argv`
 * is the whole argument vector, program name first, so `argc` is `|argv|`.
 */
module ArgParsing {
  import opened Wrappers
  import opened Parsing

  /** The `runtime_error`s the two parsers throw. */
  datatype ArgError =
    | GeneratorUsage
    | InvalidNetworkCount
    | AnalyzerUsage
    | MissingMode
    | MissingFiles

  /** `AnalyzerArgs`: the mode flags and the three file names. */
  datatype AnalyzerArgs = AnalyzerArgs(isPredictMode: bool, isTrainMode: bool, loadFile: string, inputFile: string, saveFile: string)

  /** A count argument that `std::stoi` reads as a positive number. */
  predicate PositiveCount(s: string)
  {
    StoI(s).Some? && StoI(s).value > 0
  }

  /** The config file of pair k: argv[2k + 1]. */
  function FileArg(argv: seq<string>, k: nat): string
    requires 2 * k + 1 < |argv|
  {
    argv[2 * k + 1]
  }

  /** The count of pair k: argv[2k + 2]. */
  function CountArg(argv: seq<string>, k: nat): string
    requires 2 * k + 2 < |argv|
  {
    argv[2 * k + 2]
  }

  /** Pair k as the parser stores it: the file name and the converted count. */
  function Pair(argv: seq<string>, k: nat): (string, int)
    requires 2 * k + 2 < |argv| && PositiveCount(CountArg(argv, k))
  {
    (FileArg(argv, k), StoI(CountArg(argv, k)).value)
  }

  /** Every count of an odd-length argument vector is a positive number. */
  predicate CountsPositive(argv: seq<string>)
  {
    forall k: nat :: k < |argv| && 2 * k + 2 < |argv| ==> PositiveCount(CountArg(argv, k))
  }

  /**
   * `parseGeneratorArgs`: an odd argc of at least 3, then the pairs
   * (config file, number of networks) in argument order; a count that does not
   * convert or is not positive is "Invalid number of networks".
   */
  method ParseGeneratorArgs(argv: seq<string>) returns (r: Result<seq<(string, int)>, ArgError>)
    ensures (|argv| < 3 || |argv| % 2 != 1) <==> r == Err(GeneratorUsage)
    ensures r.Ok? <==> |argv| >= 3 && |argv| % 2 == 1 && CountsPositive(argv)
    ensures r.Err? ==> r.error == GeneratorUsage || r.error == InvalidNetworkCount
    ensures r.Ok? ==> 2 * |r.value| + 1 == |argv| && forall k :: 0 <= k < |r.value| ==> r.value[k] == Pair(argv, k)
  {
    if |argv| < 3 || |argv| % 2 != 1 {
      return Err(GeneratorUsage);
    }
    r := ReadPairs(argv, |argv| / 2);
  }

  /** The body of the loop for pair k: the file name, and `std::stoi` on the count with its positivity check. */
  method ReadPair(argv: seq<string>, k: nat) returns (p: Option<(string, int)>)
    requires 2 * k + 2 < |argv|
    ensures p.Some? <==> PositiveCount(CountArg(argv, k))
    ensures p.Some? ==> p.value == Pair(argv, k)
  {
    var configFile := argv[2 * k + 1];
    var nbNetworks := StoI(argv[2 * k + 2]);
    if nbNetworks.None? || nbNetworks.value <= 0 {
      return None;
    }
    return Some((configFile, nbNetworks.value));
  }

  /** The `for (i = 1; i < argc; i += 2)` loop of `parseGeneratorArgs`. */
  method ReadPairs(argv: seq<string>, ghost pairs: nat) returns (r: Result<seq<(string, int)>, ArgError>)
    requires |argv| == 2 * pairs + 1
    ensures r.Ok? <==> CountsPositive(argv)
    ensures r.Err? ==> r.error == InvalidNetworkCount
    ensures r.Ok? ==> 2 * |r.value| + 1 == |argv| && forall k :: 0 <= k < |r.value| ==> r.value[k] == Pair(argv, k)
  {
    var configs: seq<(string, int)> := [];
    var i := 1;
    while i < |argv|
      invariant 2 * |configs| + 1 == i <= |argv|
      invariant Stored(argv, configs)
    {
      var pair := ReadPair(argv, |configs|);
      if pair.None? {
        return Err(InvalidNetworkCount);
      }
      StoredSnoc(argv, configs, pair.value);
      configs := configs + [pair.value];
      i := i + 2;
    }
    StoredAll(argv, configs);
    return Ok(configs);
  }

  /** The pairs read so far are the first |configs| pairs of the vector, each with a positive count. */
  ghost predicate Stored(argv: seq<string>, configs: seq<(string, int)>)
  {
    2 * |configs| < |argv| &&
    forall k :: 0 <= k < |configs| ==> PositiveCount(CountArg(argv, k)) && configs[k] == Pair(argv, k)
  }

  /** One more pair read keeps the loop's invariant. */
  lemma StoredSnoc(argv: seq<string>, configs: seq<(string, int)>, p: (string, int))
    requires Stored(argv, configs) && 2 * |configs| + 2 < |argv|
    requires PositiveCount(CountArg(argv, |configs|)) && p == Pair(argv, |configs|)
    ensures Stored(argv, configs + [p])
  {
    var c := configs + [p];
    forall k | 0 <= k < |c|
      ensures PositiveCount(CountArg(argv, k)) && c[k] == Pair(argv, k)
    {
      if k < |configs| {
        assert c[k] == configs[k];
      }
    }
  }

  /** Once every pair has been read, every count was positive. */
  lemma StoredAll(argv: seq<string>, configs: seq<(string, int)>)
    requires Stored(argv, configs) && 2 * |configs| + 1 == |argv|
    ensures CountsPositive(argv)
    ensures forall k :: 0 <= k < |configs| ==> configs[k] == Pair(argv, k)
  {
    forall k: nat | k < |argv| && 2 * k + 2 < |argv|
      ensures PositiveCount(CountArg(argv, k))
    {
      assert k < |configs|;
    }
  }

  /**
   * `parseAnalyzerArgs`: argc of at least 4; `--predict` or `--train` first;
   * after `--train`, `--save F` is taken only when two more arguments follow
   * it; then the load file and the input file.
   */
  method ParseAnalyzerArgs(argv: seq<string>) returns (r: Result<AnalyzerArgs, ArgError>)
    ensures |argv| < 4 <==> r == Err(AnalyzerUsage)
    ensures |argv| >= 4 ==> (argv[1] != "--predict" && argv[1] != "--train" <==> r == Err(MissingMode))
    ensures r == Err(MissingFiles) <==> |argv| == 5 && argv[1] == "--train" && argv[2] == "--save"
    ensures r.Ok? ==> r.value.isPredictMode == (argv[1] == "--predict") && r.value.isTrainMode == !r.value.isPredictMode
    ensures r.Ok? ==> var saving := argv[1] == "--train" && 4 < |argv| && argv[2] == "--save";
      var i := if saving then 4 else 2;
      i + 1 < |argv| &&
      r.value.saveFile == (if saving then argv[3] else []) &&
      r.value.loadFile == argv[i] && r.value.inputFile == argv[i + 1]
  {
    if |argv| < 4 {
      return Err(AnalyzerUsage);
    }
    var args := AnalyzerArgs(false, false, [], [], []);
    var i := 1;
    if argv[i] == "--predict" {
      args := args.(isPredictMode := true);
      i := i + 1;
    } else if argv[i] == "--train" {
      args := args.(isTrainMode := true);
      i := i + 1;
      if i + 2 < |argv| && argv[i] == "--save" {
        args := args.(saveFile := argv[i + 1]);
        i := i + 2;
      }
    } else {
      return Err(MissingMode);
    }
    if i + 1 >= |argv| {
      return Err(MissingFiles);
    }
    args := args.(loadFile := argv[i], inputFile := argv[i + 1]);
    return Ok(args);
  }
}
