/**
 * `tools/print_configs.py`: the script that writes the experiments' configuration
 * files.  `print_config` turns a dictionary of experiment settings into the
 * `key = value` lines the toolkit's drivers read, and the `print_*` drivers loop over
 * data sets, regularisation values and capping levels, naming every file after the
 * settings it holds.
 *
 * A dictionary is modelled by the keys `print_config` looks at, each present or not;
 * a missing key it indexes is a `KeyError`.  A file is its list of lines.
 */
module ConfigPrinter {
  import opened Results
  import opened Text
  import Factories
  import Optimizers
  import Vectors

  // ---------------------------------------------------------------- the settings dictionary

  /** The keys of an experiment's dictionary that `print_config` reads. */
  datatype Dict = Dict(
    data: Option<string>, dir: Option<string>, alg: Option<string>, wl: Option<string>,
    ref: Option<string>, eps: Option<string>, nuN: Option<string>, nu: Option<string>,
    eta: Option<string>, opt: Option<string>, maxIter: Option<string>, boosterType: Option<string>)

  const NoKeys: Dict := Dict(None, None, None, None, None, None, None, None, None, None, None, None)

  /** `config[key]`. */
  function Get(v: Option<string>): (r: Result<string>)
    ensures r.Ok? <==> v.Some?
    ensures r.Ok? ==> r.value == v.value
    ensures r.Err? ==> r.error == PyException("KeyError")
  {
    match v
    case Some(s) => Ok(s)
    case None => Err(PyException("KeyError"))
  }

  /** The keys every call indexes: the data set, the algorithm, the weak learner, the
      reflexive flag and the results directory, and the tolerance and the capping name
      whenever `eta` is given or the algorithm is not AdaBoost. */
  predicate Required(d: Dict)
  {
    && d.data.Some? && d.alg.Some? && d.dir.Some? && d.wl.Some? && d.ref.Some?
    && (d.eta.Some? || d.alg.value != "ada" ==> d.eps.Some? && d.nuN.Some?)
  }

  /** The fields joined with dots, as the `%s.%s…` file-name formats do. */
  function Dotted(fields: seq<string>): string
  {
    if |fields| == 0 then ""
    else if |fields| == 1 then fields[0]
    else fields[0] + "." + Dotted(fields[1..])
  }

  // ---------------------------------------------------------------- what one file holds

  /** The value written under each key, `None` where the key is not written. */
  datatype Printed = Printed(
    trainFile: string, testFile: string, validFile: string, outputFile: string,
    oracleType: string, reflexive: string, maxIter: string,
    eps: Option<string>, eta: Option<string>, nu: Option<string>, binary: Option<string>,
    boosterType: Option<string>, optimizerType: Option<string>)

  /** The `oracle_type` a weak-learner abbreviation stands for. */
  function OracleFor(wl: string): (t: string)
    ensures wl == "ds" <==> t == "decisionstump"
    ensures wl == "rd" <==> t == "rawdata"
    ensures t in {"decisionstump", "rawdata", "svm"}
  {
    if wl == "ds" then "decisionstump" else if wl == "rd" then "rawdata" else "svm"
  }

  /** `fields` name a file after `d`: the data set, algorithm, weak learner and reflexive
      flag, then the tolerance and capping name (unless AdaBoost without `eta`), then
      `eta` and `opt` when given. */
  predicate NamedBy(d: Dict, fields: seq<string>)
    requires Required(d)
  {
    && |fields| == (if d.eta.Some? && d.opt.Some? then 8 else if d.eta.Some? then 7
                    else if d.alg == Some("ada") then 4 else 6)
    && fields[..4] == [d.data.value, d.alg.value, d.wl.value, d.ref.value]
    && (|fields| > 4 ==> fields[4..6] == [d.eps.value, d.nuN.value])
    && (|fields| > 6 ==> fields[6] == d.eta.value)
    && (|fields| > 7 ==> fields[7] == d.opt.value)
  }

  /** The settings naming the output file: with `eta` the long form (with the optimizer
      when `opt` is given), the short form for AdaBoost, the middle one otherwise. */
  function OutputFields(d: Dict): (r: Result<seq<string>>)
    ensures r.Ok? <==> Required(d)
    ensures r.Err? ==> r.error == PyException("KeyError")
    ensures r.Ok? ==> NamedBy(d, r.value)
  {
    if d.eta.Some? then
      var dir :- Get(d.dir);
      var data :- Get(d.data);
      var alg :- Get(d.alg);
      var wl :- Get(d.wl);
      var ref :- Get(d.ref);
      var eps :- Get(d.eps);
      var nuN :- Get(d.nuN);
      var eta := d.eta.value;
      if d.opt.Some? then Ok([data, alg, wl, ref, eps, nuN, eta, d.opt.value])
      else Ok([data, alg, wl, ref, eps, nuN, eta])
    else
      var alg :- Get(d.alg);
      if alg == "ada" then
        var dir :- Get(d.dir);
        var data :- Get(d.data);
        var wl :- Get(d.wl);
        var ref :- Get(d.ref);
        Ok([data, alg, wl, ref])
      else
        var dir :- Get(d.dir);
        var data :- Get(d.data);
        var wl :- Get(d.wl);
        var ref :- Get(d.ref);
        var eps :- Get(d.eps);
        var nuN :- Get(d.nuN);
        Ok([data, alg, wl, ref, eps, nuN])
  }

  /**
   * `print_config`: the values it writes, key by key, or the `KeyError` of the first
   * missing key it indexes.  `eps` gets a "0." in front and `eta` a ".0" behind; the
   * iteration cap defaults to 1000, `nu` to 1.0 and the optimizer to "tao".
   */
  function PrintConfig(d: Dict): (r: Result<Printed>)
    ensures r.Ok? <==> Required(d)
    ensures r.Err? ==> r.error == PyException("KeyError")
    ensures r.Ok? ==> (r.value.reflexive == "true" <==> d.ref == Some("t"))
    ensures r.Ok? ==> r.value.oracleType == OracleFor(d.wl.value)
    ensures r.Ok? ==> (r.value.eps.Some? <==> d.alg != Some("ada"))
    ensures r.Ok? ==> (r.value.nu.Some? <==> d.alg != Some("ada"))
    ensures r.Ok? ==> (r.value.eta.Some? <==> d.eta.Some?)
    ensures r.Ok? ==> (r.value.binary.Some? <==> d.alg.value in {"bin", "erlp"})
    ensures r.Ok? ==> (r.value.optimizerType.Some? <==> d.alg.value in {"bin", "erlp"})
    ensures r.Ok? ==> r.value.boosterType == d.boosterType
  {
    var data :- Get(d.data);
    var fields :- OutputFields(d);
    // every key indexed below was indexed for the output file's name
    var dir, wl, ref, alg := d.dir.value, d.wl.value, d.ref.value, d.alg.value;
    Ok(Printed(
      "../data/" + data + ".train",
      "../data/" + data + ".test",
      "../data/" + data + ".valid",
      "../results/" + dir + "/" + Dotted(fields) + ".output",
      OracleFor(wl),
      if ref == "t" then "true" else "false",
      d.maxIter.GetOr("1000"),
      if alg != "ada" then Some(if d.eps.Some? then "0." + d.eps.value else "0.01") else None,
      if d.eta.Some? then Some(d.eta.value + ".0") else None,
      if alg != "ada" then Some(d.nu.GetOr("1.0")) else None,
      if alg == "bin" then Some("true") else if alg == "erlp" then Some("false") else None,
      d.boosterType,
      if alg == "bin" || alg == "erlp" then Some(d.opt.GetOr("tao")) else None))
  }

  /** The 0.01 default of `eps` is never written: whenever the tolerance is written the
      key was already indexed for the output file's name. */
  lemma EpsDefaultUnreachable(d: Dict)
    requires PrintConfig(d).Ok?
    ensures PrintConfig(d).value.eps.Some? ==> PrintConfig(d).value.eps == Some("0." + d.eps.value)
    ensures PrintConfig(d).value.eps != Some("0.01") || d.eps == Some("01")
  {
    var p := PrintConfig(d).value;
    if p.eps == Some("0.01") {
      assert ("0." + d.eps.value)[2..] == d.eps.value;
    }
  }

  // ---------------------------------------------------------------- the lines of the file

  const TrainKey: string := "train_file"
  const TestKey: string := "test_file"
  const ValidKey: string := "valid_file"
  const OutputKey: string := "output_file"
  const OracleKey: string := "oracle_type"
  const ReflexiveKey: string := "reflexive"
  const MaxIterKey: string := "max_iter"
  const EpsKey: string := "eps"
  const EtaKey: string := "eta"
  const NuKey: string := "nu"
  const BinaryKey: string := "binary"
  const BoosterKey: string := "booster_type"
  const OptimizerKey: string := "optimizer_type"

  /** A `#` comment line. */
  function Comment(text: string): (c: string)
    ensures |c| > 0 && c[0] == '#'
  {
    "# " + text
  }

  /** One `key = value` line. */
  function Line(key: string, value: string): string
  {
    key + " = " + value
  }

  /** The comment lines, a setting and (when `gap`) an empty line, when the value is written. */
  function Optional(comments: seq<string>, key: string, v: Option<string>, gap: bool): seq<string>
  {
    match v
    case None => []
    case Some(s) => Comments(comments) + [Line(key, s)] + (if gap then [""] else [])
  }

  function Comments(texts: seq<string>): (cs: seq<string>)
    ensures |cs| == |texts|
    ensures forall k :: 0 <= k < |cs| ==> cs[k] == Comment(texts[k])
  {
    seq(|texts|, k requires 0 <= k < |texts| => Comment(texts[k]))
  }

  const TrainComment: string := "Read training data from this file (LIBSVM format)"
  const TestComment: string := "Read testing data from this file (LIBSVM format)"
  const ValidComment: string := "Read validation data from this file (LIBSVM format)"
  const OutputComment: string := "Dump all results and output into this file"
  const OracleComments: seq<string> :=
    ["What kind of oracle to use", "Possible values are rawdata, decisionstump, or svm"]
  const ReflexiveComment: string := "Should the weak learner set the reflexive flag?"
  const MaxIterComment: string := "Maximum number of iterations of boosting"
  const EpsComment: string := "Epsilon tolerance"
  const EtaComment: string := "Regularization Parameter"
  const NuComment: string := "nu for softening. Actually 1/nu is used in the code"
  const BinaryComment: string := "binary boost or normal ERLPBoost"
  const BoosterComments: seq<string> :=
    ["type of boosting algorithm", "choices are ERLPBoost, AdaBoost, Corrective, and LPBoost"]
  const OptimizerComments: seq<string> :=
    ["What kind of optimizer to use", "Possible values are tao, hz, pg and cd"]

  /** The lines every file starts with, up to the iteration cap. */
  function Always(p: Printed): seq<string>
  {
    [Comment("Configuration file for erlpboost"), ""]
    + Optional([TrainComment], TrainKey, Some(p.trainFile), true)
    + Optional([TestComment], TestKey, Some(p.testFile), true)
    + Optional([ValidComment], ValidKey, Some(p.validFile), true)
    + Optional([OutputComment], OutputKey, Some(p.outputFile), true)
    + Optional(OracleComments, OracleKey, Some(p.oracleType), true)
    + Optional([ReflexiveComment], ReflexiveKey, Some(p.reflexive), true)
    + Optional([MaxIterComment], MaxIterKey, Some(p.maxIter), true)
  }

  /** The whole file, in the order `print_config` writes it; the empty line after the
      booster type is written whether or not the booster type is. */
  function Render(p: Printed): seq<string>
  {
    Always(p)
    + Optional([EpsComment], EpsKey, p.eps, true)
    + Optional([EtaComment], EtaKey, p.eta, true)
    + Optional([NuComment], NuKey, p.nu, true)
    + Optional([BinaryComment], BinaryKey, p.binary, true)
    + Optional(BoosterComments, BoosterKey, p.boosterType, false)
    + [""]
    + Optional(OptimizerComments, OptimizerKey, p.optimizerType, false)
  }

  // ---------------------------------------------------------------- reading the file back

  /** A line read as a setting: blank lines and `#` comments are none; otherwise the
      leading word is the key, and what follows the ` = ` after it is the value. */
  function ParseLine(line: string): Option<(string, string)>
  {
    if IsBlank(line) || line[0] == '#' then None
    else
      var n := WordLength(line);
      if n + 3 <= |line| && line[n..n + 3] == " = " then Some((line[..n], line[n + 3..])) else None
  }

  /** The settings of a file; a key written twice keeps its last value. */
  function ReadBack(lines: seq<string>): map<string, string>
  {
    if |lines| == 0 then map[]
    else
      var m := ReadBack(lines[..|lines| - 1]);
      match ParseLine(lines[|lines| - 1])
      case None => m
      case Some(kv) => m[kv.0 := kv.1]
  }

  /** The map with the value written under the key, when there is one. */
  function Put(m: map<string, string>, key: string, v: Option<string>): map<string, string>
  {
    if v.Some? then m[key := v.value] else m
  }

  /** The settings a printed file holds: the seven always written, then the optional
      ones that are, in the order of the file. */
  function Settings(p: Printed): map<string, string>
  {
    var m := Put(Put(Put(Fixed(p), EpsKey, p.eps), EtaKey, p.eta), NuKey, p.nu);
    Put(Put(Put(m, BinaryKey, p.binary), BoosterKey, p.boosterType), OptimizerKey, p.optimizerType)
  }

  /** The settings every printed file holds. */
  function Fixed(p: Printed): map<string, string>
  {
    map[TrainKey := p.trainFile, TestKey := p.testFile, ValidKey := p.validFile,
        OutputKey := p.outputFile, OracleKey := p.oracleType, ReflexiveKey := p.reflexive,
        MaxIterKey := p.maxIter]
  }

  lemma {:induction false} SettingLine(key: string, value: string)
    requires IsKey(key)
    ensures ParseLine(Line(key, value)) == Some((key, value))
  {
    var line := Line(key, value);
    assert line == key + (" = " + value);
    WordLengthOfWord(key, " = " + value);
    assert !IsSpace(line[0]);
    assert line[..|key|] == key;
    assert line[|key|..|key| + 3] == " = ";
    assert line[|key| + 3..] == value;
  }

  /** A key the reader can take back off its line: one word, not a comment. */
  predicate IsKey(k: string)
  {
    IsWord(k) && k[0] != '#'
  }

  lemma KeysAreKeys()
    ensures IsKey(TrainKey) && IsKey(TestKey) && IsKey(ValidKey) && IsKey(OutputKey)
    ensures IsKey(OracleKey) && IsKey(ReflexiveKey) && IsKey(MaxIterKey) && IsKey(EpsKey)
    ensures IsKey(EtaKey) && IsKey(NuKey) && IsKey(BinaryKey) && IsKey(BoosterKey) && IsKey(OptimizerKey)
  {
  }

  /** Comment lines and empty lines add nothing to what was read before them. */
  lemma {:induction false} CommentsReadNothing(x: seq<string>, cs: seq<string>)
    requires forall k :: 0 <= k < |cs| ==> |cs[k]| == 0 || cs[k][0] == '#'
    ensures ReadBack(x + cs) == ReadBack(x)
    decreases |cs|
  {
    if |cs| == 0 {
      assert x + cs == x;
    } else {
      var cs' := cs[..|cs| - 1];
      assert (x + cs)[..|x + cs| - 1] == x + cs';
      assert (x + cs)[|x + cs| - 1] == cs[|cs| - 1];
      CommentsReadNothing(x, cs');
    }
  }

  /** An optional block puts its setting, if written, over what was read before it. */
  lemma {:induction false} OptionalReadsBack(x: seq<string>, comments: seq<string>, key: string, v: Option<string>, gap: bool)
    requires IsKey(key)
    ensures ReadBack(x + Optional(comments, key, v, gap)) == Put(ReadBack(x), key, v)
  {
    if v.None? {
      assert x + Optional(comments, key, v, gap) == x;
    } else {
      var cs := Comments(comments);
      var line := Line(key, v.value);
      var tail := if gap then [""] else [];
      CommentsReadNothing(x, cs);
      SettingLine(key, v.value);
      assert (x + cs + [line])[..|x + cs + [line]| - 1] == x + cs;
      assert ReadBack(x + cs + [line]) == ReadBack(x)[key := v.value];
      CommentsReadNothing(x + cs + [line], tail);
      assert x + Optional(comments, key, v, gap) == x + cs + [line] + tail;
    }
  }

  lemma {:induction false} AlwaysReadsBack(p: Printed)
    ensures ReadBack(Always(p)) == Fixed(p)
  {
    KeysAreKeys();
    var head := [Comment("Configuration file for erlpboost"), ""];
    CommentsReadNothing([], head);
    assert [] + head == head;
    var b1 := Optional([TrainComment], TrainKey, Some(p.trainFile), true);
    var b2 := Optional([TestComment], TestKey, Some(p.testFile), true);
    var b3 := Optional([ValidComment], ValidKey, Some(p.validFile), true);
    var b4 := Optional([OutputComment], OutputKey, Some(p.outputFile), true);
    var b5 := Optional(OracleComments, OracleKey, Some(p.oracleType), true);
    var b6 := Optional([ReflexiveComment], ReflexiveKey, Some(p.reflexive), true);
    var b7 := Optional([MaxIterComment], MaxIterKey, Some(p.maxIter), true);
    OptionalReadsBack(head, [TrainComment], TrainKey, Some(p.trainFile), true);
    OptionalReadsBack(head + b1, [TestComment], TestKey, Some(p.testFile), true);
    OptionalReadsBack(head + b1 + b2, [ValidComment], ValidKey, Some(p.validFile), true);
    OptionalReadsBack(head + b1 + b2 + b3, [OutputComment], OutputKey, Some(p.outputFile), true);
    OptionalReadsBack(head + b1 + b2 + b3 + b4, OracleComments, OracleKey, Some(p.oracleType), true);
    OptionalReadsBack(head + b1 + b2 + b3 + b4 + b5, [ReflexiveComment], ReflexiveKey, Some(p.reflexive), true);
    OptionalReadsBack(head + b1 + b2 + b3 + b4 + b5 + b6, [MaxIterComment], MaxIterKey, Some(p.maxIter), true);
    assert Always(p) == head + b1 + b2 + b3 + b4 + b5 + b6 + b7;
  }

  /** A printed file reads back as exactly the settings written into it. */
  lemma {:induction false} RenderReadsBack(p: Printed)
    ensures ReadBack(Render(p)) == Settings(p)
  {
    KeysAreKeys();
    AlwaysReadsBack(p);
    var a := Always(p);
    var b1 := Optional([EpsComment], EpsKey, p.eps, true);
    var b2 := Optional([EtaComment], EtaKey, p.eta, true);
    var b3 := Optional([NuComment], NuKey, p.nu, true);
    var b4 := Optional([BinaryComment], BinaryKey, p.binary, true);
    var b5 := Optional(BoosterComments, BoosterKey, p.boosterType, false);
    OptionalReadsBack(a, [EpsComment], EpsKey, p.eps, true);
    OptionalReadsBack(a + b1, [EtaComment], EtaKey, p.eta, true);
    OptionalReadsBack(a + b1 + b2, [NuComment], NuKey, p.nu, true);
    OptionalReadsBack(a + b1 + b2 + b3, [BinaryComment], BinaryKey, p.binary, true);
    OptionalReadsBack(a + b1 + b2 + b3 + b4, BoosterComments, BoosterKey, p.boosterType, false);
    CommentsReadNothing(a + b1 + b2 + b3 + b4 + b5, [""]);
    OptionalReadsBack(a + b1 + b2 + b3 + b4 + b5 + [""], OptimizerComments, OptimizerKey, p.optimizerType, false);
  }

  /** The value a map holds under a key, or its absence. */
  predicate Holds(m: map<string, string>, key: string, v: Option<string>)
  {
    (key in m <==> v.Some?) && (v.Some? ==> m[key] == v.value)
  }

  /** The value written under a key, or `None`; keys are looked up from the end of the
      file, so a key written twice would give its last value. */
  function WrittenUnder(p: Printed, key: string): Option<string>
  {
    if key == OptimizerKey then p.optimizerType
    else if key == BoosterKey then p.boosterType
    else if key == BinaryKey then p.binary
    else if key == NuKey then p.nu
    else if key == EtaKey then p.eta
    else if key == EpsKey then p.eps
    else if key == MaxIterKey then Some(p.maxIter)
    else if key == ReflexiveKey then Some(p.reflexive)
    else if key == OracleKey then Some(p.oracleType)
    else if key == OutputKey then Some(p.outputFile)
    else if key == ValidKey then Some(p.validFile)
    else if key == TestKey then Some(p.testFile)
    else if key == TrainKey then Some(p.trainFile)
    else None
  }

  /** Each key of a printed file holds exactly the value written under it. */
  lemma SettingsAt(p: Printed, key: string)
    ensures Holds(Settings(p), key, WrittenUnder(p, key))
  {
    FixedAt(p, key);
  }

  lemma FixedAt(p: Printed, key: string)
    ensures key in {EpsKey, EtaKey, NuKey, BinaryKey, BoosterKey, OptimizerKey} ==> key !in Fixed(p)
    ensures key !in {EpsKey, EtaKey, NuKey, BinaryKey, BoosterKey, OptimizerKey} ==>
      Holds(Fixed(p), key, WrittenUnder(p, key))
  {
  }

  // ---------------------------------------------------------------- read by the toolkit

  /** The file's settings as the toolkit's configuration holds them, every value a string. */
  function AsConfig(m: map<string, string>): (cfg: Factories.Config)
    ensures forall k :: k in m <==> k in cfg
    ensures forall k :: k in m ==> cfg[k] == Factories.Text(m[k])
  {
    map k | k in m :: Factories.Text(m[k])
  }

  /** The configuration the toolkit reads from the file printed for `d`. */
  function Loaded(d: Dict): Factories.Config
    requires PrintConfig(d).Ok?
  {
    AsConfig(ReadBack(Render(PrintConfig(d).value)))
  }

  /** Every printed `oracle_type` names an oracle the toolkit builds: a decision stump
      for "ds", the raw features for "rd" and an SVM for anything else. */
  lemma PrintedOracleBuilds(d: Dict, data: seq<Vectors.Sparse>, labels: seq<int>, transposed: bool)
    requires PrintConfig(d).Ok?
    ensures Factories.NewOracleInstance(Loaded(d), data, labels, transposed).Ok?
    ensures Factories.OracleName(Factories.NewOracleInstance(Loaded(d), data, labels, transposed).value)
      == OracleFor(d.wl.value)
  {
    var p := PrintConfig(d).value;
    RenderReadsBack(p);
    SettingsAt(p, OracleKey);
    Factories.OracleNameRoundTrip(Loaded(d), data, labels, transposed);
  }

  /** A file printed for the ERLPBoost algorithms without an `opt` names the "tao"
      optimizer, which the toolkit rejects unless built with TAO; for every other
      algorithm no optimizer is named and the toolkit falls back to L-BFGS-B. */
  lemma PrintedOptimizer(d: Dict, n: nat, transposed: bool, eta: real, nu: real, epsilon: real, binary: bool)
    requires PrintConfig(d).Ok?
    ensures d.alg.value in {"bin", "erlp"} && d.opt.None? ==>
      Factories.NewOptimizerInstance(Loaded(d), n, transposed, eta, nu, epsilon, binary)
        == Err(InvalidArgument(Factories.NoTao))
    ensures d.alg.value !in {"bin", "erlp"} ==>
      Factories.NewOptimizerInstance(Loaded(d), n, transposed, eta, nu, epsilon, binary)
        == Ok(Factories.OptimizerChoice(Factories.Lbfgsb, Optimizers.NewOptimizer(n, transposed, eta, nu, epsilon, binary)))
  {
    var p := PrintConfig(d).value;
    RenderReadsBack(p);
    SettingsAt(p, OptimizerKey);
    if d.alg.value !in {"bin", "erlp"} {
      Factories.OptimizerNameRoundTrip(Loaded(d), Factories.Lbfgsb, n, transposed, eta, nu, epsilon, binary);
    }
  }

  // ---------------------------------------------------------------- the drivers

  /** One file a driver prints: the directory and the name fields of its path, and the
      dictionary it passes to `print_config`. */
  datatype Job = Job(dir: string, fields: seq<string>, dict: Dict)

  /** `../config/<dir>/<fields>.conf`, the path a driver prints a job to. */
  function ConfPath(j: Job): string
  {
    "../config/" + j.dir + "/" + Dotted(j.fields) + ".conf"
  }

  const DataSets: seq<string> := ["news20", "real-sim", "astro-ph", "a9a", "rcv1", "german", "diabetes"]
  /** The training-set size of each data set, scaled by the capping fraction for `nu`. */
  const TrainingSizes: seq<nat> := [15960, 43385, 56913, 29305, 418584, 600, 460]
  const Etas: seq<string> := ["1", "2", "5", "10", "20", "50", "100", "200", "500", "1000", "2000", "3000"]
  const CapNames: seq<string> := ["1", "2", "3", "4", "5", "6", "7", "8", "9"]

  /** The capping setting of the `(n, i)`-th job: `nus[n] * Ns[i]`, shown as Python shows
      a float (`show`). */
  function Capped(n: nat, i: nat, show: real -> string): string
    requires n < 9 && i < 7
  {
    show((n + 1) as real / 10.0 * TrainingSizes[i] as real)
  }

  /** `print_lp`: LPBoost, one file per data set (mode 0) or per capping level and data
      set (mode 1). */
  function LpJobs(wl: string, eps: string, mode: int, show: real -> string): (js: seq<Job>)
    ensures |js| == if mode == 0 then 7 else if mode == 1 then 63 else 0
  {
    var base := NoKeys.(wl := Some(wl), dir := Some("lp"), eps := Some(eps), nuN := Some("nc"),
                        nu := Some("1.0"), alg := Some("lp"), boosterType := Some("LPBoost"), ref := Some("t"));
    if mode == 0 then
      seq(7, i requires 0 <= i < 7 =>
        Job("lp", [DataSets[i], "lp", wl, "t", eps, "nc"], base.(data := Some(DataSets[i]))))
    else if mode == 1 then
      seq(63, k requires 0 <= k < 63 =>
        var n, i := k / 7, k % 7;
        Job("lp", [DataSets[i], "lp", wl, "t", eps, CapNames[n]],
            base.(data := Some(DataSets[i]), nuN := Some(CapNames[n]), nu := Some(Capped(n, i, show)))))
    else []
  }

  /** `print_ada`: AdaBoost with an iteration cap, `'50000'` when none is passed, one
      file per data set. */
  function AdaJobs(wl: string, maxIter: Option<string>): (js: seq<Job>)
    ensures |js| == 7
    ensures forall k :: 0 <= k < |js| ==> js[k].dict.maxIter == Some(maxIter.GetOr("50000"))
  {
    var base := NoKeys.(dir := Some("ada"), ref := Some("t"), boosterType := Some("AdaBoost"),
                        alg := Some("ada"), wl := Some(wl), maxIter := Some(maxIter.GetOr("50000")));
    seq(7, i requires 0 <= i < 7 => Job("ada", [DataSets[i], "ada", wl, "t"], base.(data := Some(DataSets[i]))))
  }

  /** `print_corrective`: the corrective booster with the default `eta` (mode 0), each
      `eta` (mode 1) or each capping level (mode 2). */
  function CorrectiveJobs(wl: string, eps: string, maxIter: string, mode: int, show: real -> string): (js: seq<Job>)
    ensures |js| == if mode == 0 then 7 else if mode == 1 then 84 else if mode == 2 then 63 else 0
  {
    var base := NoKeys.(dir := Some("corr"), eps := Some(eps), nuN := Some("nc"), alg := Some("corr"),
                        wl := Some(wl), maxIter := Some(maxIter), boosterType := Some("Corrective"), ref := Some("t"));
    if mode == 0 then
      seq(7, i requires 0 <= i < 7 =>
        Job("corr", [DataSets[i], "corr", wl, "t", eps, "nc"], base.(data := Some(DataSets[i]))))
    else if mode == 1 then
      seq(84, k requires 0 <= k < 84 =>
        var i, e := k / 12, k % 12;
        Job("corr", [DataSets[i], "corr", wl, "t", eps, "nc", Etas[e]],
            base.(data := Some(DataSets[i]), eta := Some(Etas[e]))))
    else if mode == 2 then
      seq(63, k requires 0 <= k < 63 =>
        var n, i := k / 7, k % 7;
        Job("corr", [DataSets[i], "corr", wl, "t", eps, CapNames[n]],
            base.(data := Some(DataSets[i]), nuN := Some(CapNames[n]), nu := Some(Capped(n, i, show)))))
    else []
  }

  /** `print_erlp`: ERLPBoost (binary or not) with the default `eta`, each `eta`, or each
      capping level; the configuration directory is named after the algorithm. */
  function ErlpJobs(wl: string, eps: string, binary: bool, mode: int, show: real -> string): (js: seq<Job>)
    ensures |js| == if mode == 0 then 7 else if mode == 1 then 84 else if mode == 2 then 63 else 0
  {
    var alg := if binary then "bin" else "erlp";
    var base := NoKeys.(dir := Some(alg), alg := Some(alg), eps := Some(eps), nuN := Some("nc"),
                        wl := Some(wl), maxIter := Some("1000"), ref := Some("t"));
    if mode == 0 then
      seq(7, i requires 0 <= i < 7 =>
        Job(alg, [DataSets[i], alg, wl, "t", eps, "nc"], base.(data := Some(DataSets[i]))))
    else if mode == 1 then
      seq(84, k requires 0 <= k < 84 =>
        var i, e := k / 12, k % 12;
        Job(alg, [DataSets[i], alg, wl, "t", eps, "nc", Etas[e]],
            base.(data := Some(DataSets[i]), eta := Some(Etas[e]))))
    else if mode == 2 then
      seq(63, k requires 0 <= k < 63 =>
        var n, i := k / 7, k % 7;
        Job(alg, [DataSets[i], alg, wl, "t", eps, CapNames[n]],
            base.(data := Some(DataSets[i]), nuN := Some(CapNames[n]), nu := Some(Capped(n, i, show)))))
    else []
  }

  /** `print_opt`: ERLPBoost with a named optimizer on real-sim, one file per `eta`. */
  function OptJobs(wl: string, eps: string, binary: bool, opt: string): (js: seq<Job>)
    ensures |js| == 12
  {
    var alg := if binary then "bin" else "erlp";
    var base := NoKeys.(alg := Some(alg), opt := Some(opt), dir := Some("opt"), eps := Some(eps),
                        nuN := Some("nc"), wl := Some(wl), maxIter := Some("1000"), data := Some("real-sim"),
                        ref := Some("t"));
    seq(12, e requires 0 <= e < 12 =>
      Job("opt", ["real-sim", alg, wl, "t", eps, "nc", Etas[e], opt], base.(eta := Some(Etas[e]))))
  }

  /** The script's main block: the corrective files of modes 1 and 2 for the stump and
      raw-data learners. */
  function MainJobs(show: real -> string): seq<Job>
  {
    CorrectiveJobs("ds", "01", "10000", 1, show) + CorrectiveJobs("rd", "01", "10000", 1, show)
    + CorrectiveJobs("ds", "01", "10000", 2, show) + CorrectiveJobs("rd", "01", "10000", 2, show)
  }

  /** A job prints without a `KeyError`, and its results go to the file named like its
      configuration: same directory, same fields. */
  predicate Agrees(j: Job)
  {
    PrintConfig(j.dict).Ok? && PrintConfig(j.dict).value.outputFile == "../results/" + j.dir + "/" + Dotted(j.fields) + ".output"
  }

  /** A job whose dictionary holds its directory and its name fields under the keys the
      output name is built from agrees. */
  lemma {:induction false} NamedAfterFields(j: Job)
    requires Required(j.dict) && j.dict.dir == Some(j.dir)
    requires NamedBy(j.dict, j.fields)
    ensures Agrees(j)
  {
    var f := OutputFields(j.dict).value;
    assert f == j.fields by {
      assert |f| == |j.fields|;
      forall i | 0 <= i < |f| ensures f[i] == j.fields[i] {
        if i < 4 {
          assert f[i] == f[..4][i] && j.fields[i] == j.fields[..4][i];
        } else if i < 6 {
          assert f[i] == f[4..6][i - 4] && j.fields[i] == j.fields[4..6][i - 4];
        }
      }
    }
  }

  lemma {:induction false} LpAgrees(wl: string, eps: string, mode: int, show: real -> string)
    ensures forall k :: 0 <= k < |LpJobs(wl, eps, mode, show)| ==> Agrees(LpJobs(wl, eps, mode, show)[k])
  {
    var js := LpJobs(wl, eps, mode, show);
    forall k | 0 <= k < |js| ensures Agrees(js[k]) {
      NamedAfterFields(js[k]);
    }
  }

  lemma {:induction false} AdaAgrees(wl: string, maxIter: Option<string>)
    ensures forall k :: 0 <= k < |AdaJobs(wl, maxIter)| ==> Agrees(AdaJobs(wl, maxIter)[k])
  {
    var js := AdaJobs(wl, maxIter);
    forall k | 0 <= k < |js| ensures Agrees(js[k]) {
      NamedAfterFields(js[k]);
    }
  }

  lemma {:induction false} CorrectiveAgrees(wl: string, eps: string, maxIter: string, mode: int, show: real -> string)
    ensures forall k :: 0 <= k < |CorrectiveJobs(wl, eps, maxIter, mode, show)| ==>
      Agrees(CorrectiveJobs(wl, eps, maxIter, mode, show)[k])
  {
    var js := CorrectiveJobs(wl, eps, maxIter, mode, show);
    forall k | 0 <= k < |js| ensures Agrees(js[k]) {
      NamedAfterFields(js[k]);
    }
  }

  lemma {:induction false} ErlpAgrees(wl: string, eps: string, binary: bool, mode: int, show: real -> string)
    ensures forall k :: 0 <= k < |ErlpJobs(wl, eps, binary, mode, show)| ==>
      Agrees(ErlpJobs(wl, eps, binary, mode, show)[k])
  {
    var js := ErlpJobs(wl, eps, binary, mode, show);
    forall k | 0 <= k < |js| ensures Agrees(js[k]) {
      NamedAfterFields(js[k]);
    }
  }

  lemma {:induction false} OptAgrees(wl: string, eps: string, binary: bool, opt: string)
    ensures forall k :: 0 <= k < |OptJobs(wl, eps, binary, opt)| ==> Agrees(OptJobs(wl, eps, binary, opt)[k])
  {
    var js := OptJobs(wl, eps, binary, opt);
    forall k | 0 <= k < |js| ensures Agrees(js[k]) {
      NamedAfterFields(js[k]);
    }
  }

  /** Every file the main block prints names its results file after itself. */
  lemma {:induction false} MainAgrees(show: real -> string)
    ensures |MainJobs(show)| == 294
    ensures forall k :: 0 <= k < |MainJobs(show)| ==> Agrees(MainJobs(show)[k])
  {
    CorrectiveAgrees("ds", "01", "10000", 1, show);
    CorrectiveAgrees("rd", "01", "10000", 1, show);
    CorrectiveAgrees("ds", "01", "10000", 2, show);
    CorrectiveAgrees("rd", "01", "10000", 2, show);
  }

  /** The booster types the LPBoost, AdaBoost and corrective drivers print are ones the
      toolkit knows. */
  lemma {:induction false} DriverBoosters(wl: string, eps: string, maxIter: string, mode: int, show: real -> string)
    ensures forall k :: 0 <= k < |LpJobs(wl, eps, mode, show)| ==>
      LpJobs(wl, eps, mode, show)[k].dict.boosterType == Some("LPBoost")
    ensures forall k :: 0 <= k < |AdaJobs(wl, Some(maxIter))| ==>
      AdaJobs(wl, Some(maxIter))[k].dict.boosterType == Some("AdaBoost")
    ensures forall k :: 0 <= k < |AdaJobs(wl, None)| ==> AdaJobs(wl, None)[k].dict.boosterType == Some("AdaBoost")
    ensures forall k :: 0 <= k < |CorrectiveJobs(wl, eps, maxIter, mode, show)| ==>
      CorrectiveJobs(wl, eps, maxIter, mode, show)[k].dict.boosterType == Some("Corrective")
    ensures {"LPBoost", "AdaBoost", "Corrective"} <= Factories.BoosterNames
  {
  }

  /** The ERLPBoost drivers print no booster type, and their files ask for the "tao"
      optimizer, which the toolkit rejects unless built with TAO. */
  lemma {:induction false} ErlpAsksForTao(wl: string, eps: string, binary: bool, mode: int, show: real -> string)
    ensures forall k :: 0 <= k < |ErlpJobs(wl, eps, binary, mode, show)| ==>
      var d := ErlpJobs(wl, eps, binary, mode, show)[k].dict;
      d.boosterType.None? && PrintConfig(d).Ok? && PrintConfig(d).value.optimizerType == Some("tao")
  {
    var js := ErlpJobs(wl, eps, binary, mode, show);
    forall k | 0 <= k < |js|
      ensures js[k].dict.boosterType.None? && PrintConfig(js[k].dict).Ok?
      ensures PrintConfig(js[k].dict).value.optimizerType == Some("tao")
    {
      NamedAfterFields(js[k]);
    }
  }
}
