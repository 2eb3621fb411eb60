/**
 * The three factories (src/boosters/boosters_factory.cpp,
 * src/oracles/oracles_factory.cpp, src/optimizers/optimizers_factory.cpp): read a
 * configuration and build the booster, the oracle or the optimizer it names.
 *
 * A configuration maps keys to values already converted to the type the reader
 * asks for; a key holding a value of another kind reads as missing.  The
 * logarithm in the default eta, tKlBoost's `compute_nu`/`compute_eta`, and whether
 * the LP solver was compiled in are parameters.  The log lines are not modelled.
 */
module Factories {
  import opened Results
  import opened Vectors
  import opened Boosting
  import Optimizers
  import Erlp
  import LpBoosting
  import Corrective
  import RawDataOracle
  import SvmOracle
  import StumpOracle

  datatype Value = Text(s: string) | Number(x: real) | Whole(i: int) | Flag(b: bool)

  type Config = map<string, Value>

  // ---------------------------------------------------------------- messages

  const NoTao: string := "You must compile with TAO support enabled to use TAO\nSee readme.text for details\n"
  const UnknownOptimizer: string := "Received an unknown value for optimizer_type"
  const UnknownOracle: string := "Received an unknown value for oracle_type"
  const NoOracle: string := "new_booster_instance requires an initialized oracle"
  const NoClp: string := "You must compile with COIN-OR LP solver support enabled to use LPBoost\nSee readme.text for details\n"
  const UnknownBooster: string := "Received an unknown value for booster_type"

  // ---------------------------------------------------------------- reading the configuration

  /** `readInto(t, key, default)` for a string. */
  function ReadText(cfg: Config, key: string, default: string): (s: string)
    ensures key in cfg && cfg[key].Text? ==> s == cfg[key].s
    ensures !(key in cfg && cfg[key].Text?) ==> s == default
  {
    if key in cfg && cfg[key].Text? then cfg[key].s else default
  }

  /** `readInto(t, key, default)` for a double. */
  function ReadNumber(cfg: Config, key: string, default: real): (x: real)
    ensures key in cfg && cfg[key].Number? ==> x == cfg[key].x
    ensures !(key in cfg && cfg[key].Number?) ==> x == default
  {
    if key in cfg && cfg[key].Number? then cfg[key].x else default
  }

  /** `readInto(t, key, default)` for an int; without a default the variable keeps its value. */
  function ReadWhole(cfg: Config, key: string, default: int): (i: int)
    ensures key in cfg && cfg[key].Whole? ==> i == cfg[key].i
    ensures !(key in cfg && cfg[key].Whole?) ==> i == default
  {
    if key in cfg && cfg[key].Whole? then cfg[key].i else default
  }

  /** `readInto(t, key, default)` for a bool. */
  function ReadFlag(cfg: Config, key: string, default: bool): (b: bool)
    ensures key in cfg && cfg[key].Flag? ==> b == cfg[key].b
    ensures !(key in cfg && cfg[key].Flag?) ==> b == default
  {
    if key in cfg && cfg[key].Flag? then cfg[key].b else default
  }

  /** A value written under a key is what the readers of its kind read back, whatever the default. */
  lemma ReadsWhatWasWritten(cfg: Config, key: string, v: Value, d: Value)
    ensures v.Text? ==> ReadText(cfg[key := v], key, if d.Text? then d.s else "") == v.s
    ensures v.Number? ==> ReadNumber(cfg[key := v], key, if d.Number? then d.x else 0.0) == v.x
    ensures v.Whole? ==> ReadWhole(cfg[key := v], key, if d.Whole? then d.i else 0) == v.i
    ensures v.Flag? ==> ReadFlag(cfg[key := v], key, d.Flag? && d.b) == v.b
  {
  }

  /** Writing one key changes what no other key reads. */
  lemma OtherKeysRead(cfg: Config, key: string, v: Value, other: string, ds: string, dx: real, di: int, db: bool)
    requires other != key
    ensures ReadText(cfg[key := v], other, ds) == ReadText(cfg, other, ds)
    ensures ReadNumber(cfg[key := v], other, dx) == ReadNumber(cfg, other, dx)
    ensures ReadWhole(cfg[key := v], other, di) == ReadWhole(cfg, other, di)
    ensures ReadFlag(cfg[key := v], other, db) == ReadFlag(cfg, other, db)
  {
  }

  // ---------------------------------------------------------------- optimizers

  datatype OptimizerKind = ProjectedGradient | ZhangAndHager | Lbfgsb | CoordinateDescent

  /** What `new_optimizer_instance` builds: the kind, and the state every optimizer's
      constructor sets up through `AbstractOptimizer`'s. */
  datatype OptimizerChoice = OptimizerChoice(kind: OptimizerKind, settings: Optimizers.Optimizer)

  /** The `optimizer_type` naming each kind. */
  function OptimizerName(k: OptimizerKind): string
  {
    match k
    case ProjectedGradient => "pg"
    case ZhangAndHager => "hz"
    case Lbfgsb => "lbfgsb"
    case CoordinateDescent => "cd"
  }

  /** The kind an `optimizer_type` names, if any. */
  function NamedOptimizer(typ: string): (k: Option<OptimizerKind>)
    ensures k.Some? <==> typ in {"pg", "hz", "lbfgsb", "cd"}
    ensures k.Some? ==> OptimizerName(k.value) == typ
  {
    if typ == "pg" then Some(ProjectedGradient)
    else if typ == "hz" then Some(ZhangAndHager)
    else if typ == "lbfgsb" then Some(Lbfgsb)
    else if typ == "cd" then Some(CoordinateDescent)
    else None
  }

  /**
   * `new_optimizer_instance`: `optimizer_type` (by default "lbfgsb") picks the kind,
   * every kind is built with the same arguments; "tao" is an invalid argument (TAO
   * support is not compiled in) and any other name a runtime error.
   */
  function NewOptimizerInstance(cfg: Config, n: nat, transposed: bool, eta: real, nu: real, epsilon: real, binary: bool)
    : (r: Result<OptimizerChoice>)
    ensures r.Ok? <==> ReadText(cfg, "optimizer_type", "lbfgsb") in {"pg", "hz", "lbfgsb", "cd"}
    ensures r.Ok? ==> OptimizerName(r.value.kind) == ReadText(cfg, "optimizer_type", "lbfgsb")
    ensures r.Ok? ==> r.value.settings == Optimizers.NewOptimizer(n, transposed, eta, nu, epsilon, binary)
    ensures r.Err? ==> (r.error.InvalidArgument? <==> ReadText(cfg, "optimizer_type", "lbfgsb") == "tao")
    ensures r.Err? ==> r.error.InvalidArgument? || r.error.RuntimeError?
  {
    var typ := ReadText(cfg, "optimizer_type", "lbfgsb");
    if typ == "tao" then
      Err(InvalidArgument(NoTao))
    else
      match NamedOptimizer(typ)
      case Some(k) => Ok(OptimizerChoice(k, Optimizers.NewOptimizer(n, transposed, eta, nu, epsilon, binary)))
      case None => Err(RuntimeError(UnknownOptimizer))
  }

  /** Naming a kind builds that kind, and a configuration without the key builds L-BFGS-B. */
  lemma OptimizerNameRoundTrip(cfg: Config, k: OptimizerKind, n: nat, transposed: bool, eta: real, nu: real, epsilon: real, binary: bool)
    ensures NewOptimizerInstance(cfg["optimizer_type" := Text(OptimizerName(k))], n, transposed, eta, nu, epsilon, binary)
      == Ok(OptimizerChoice(k, Optimizers.NewOptimizer(n, transposed, eta, nu, epsilon, binary)))
    ensures "optimizer_type" !in cfg ==>
      NewOptimizerInstance(cfg, n, transposed, eta, nu, epsilon, binary)
        == Ok(OptimizerChoice(Lbfgsb, Optimizers.NewOptimizer(n, transposed, eta, nu, epsilon, binary)))
  {
    var r := NewOptimizerInstance(cfg["optimizer_type" := Text(OptimizerName(k))], n, transposed, eta, nu, epsilon, binary);
    assert OptimizerName(r.value.kind) == OptimizerName(k);
  }

  // ---------------------------------------------------------------- oracles

  /** The three oracles `new_oracle_instance` can build. */
  datatype OracleChoice =
    | RawDataChoice(raw: RawDataOracle.RawData)
    | SvmChoice(svm: SvmOracle.Svm)
    | StumpChoice(stump: StumpOracle.Oracle)

  /**
   * `new_oracle_instance`: `reflexive` (false when missing) and `oracle_type` (empty
   * when missing) are read; "rawdata" and "svm" get the data, labels, `transposed`
   * and `reflexive`, and "decisionstump" gets `reflexive` as its `less_than`.  Any
   * other name, the missing one included, is a runtime error.
   */
  function NewOracleInstance(cfg: Config, data: seq<Sparse>, labels: seq<int>, transposed: bool): (r: Result<OracleChoice>)
    ensures r.Ok? <==> ReadText(cfg, "oracle_type", "") in {"rawdata", "svm", "decisionstump"}
    ensures r.Err? ==> r.error.RuntimeError?
    ensures r.Ok? && r.value.RawDataChoice? ==>
      r.value.raw == RawDataOracle.RawData(data, labels, transposed, ReadFlag(cfg, "reflexive", false))
    ensures r.Ok? && r.value.SvmChoice? ==>
      r.value.svm == SvmOracle.Svm(data, labels, transposed, ReadFlag(cfg, "reflexive", false))
    ensures r.Ok? && r.value.StumpChoice? ==>
      r.value.stump == StumpOracle.NewOracle(data, labels, ReadFlag(cfg, "reflexive", false))
  {
    var reflexive := ReadFlag(cfg, "reflexive", false);
    var typ := ReadText(cfg, "oracle_type", "");
    if typ == "rawdata" then Ok(RawDataChoice(RawDataOracle.RawData(data, labels, transposed, reflexive)))
    else if typ == "svm" then Ok(SvmChoice(SvmOracle.Svm(data, labels, transposed, reflexive)))
    else if typ == "decisionstump" then Ok(StumpChoice(StumpOracle.NewOracle(data, labels, reflexive)))
    else Err(RuntimeError(UnknownOracle))
  }

  /** The `oracle_type` naming each kind of oracle. */
  function OracleName(o: OracleChoice): string
  {
    match o
    case RawDataChoice(_) => "rawdata"
    case SvmChoice(_) => "svm"
    case StumpChoice(_) => "decisionstump"
  }

  /** The oracle built is the one named, and a configuration without `oracle_type` builds none. */
  lemma OracleNameRoundTrip(cfg: Config, data: seq<Sparse>, labels: seq<int>, transposed: bool)
    ensures NewOracleInstance(cfg, data, labels, transposed).Ok? ==>
      OracleName(NewOracleInstance(cfg, data, labels, transposed).value) == ReadText(cfg, "oracle_type", "")
    ensures "oracle_type" !in cfg ==> NewOracleInstance(cfg, data, labels, transposed).Err?
  {
  }

  // ---------------------------------------------------------------- boosters

  /** tKlBoost's `compute_nu(D)` and `compute_eta(n, epsilon, D)`. */
  datatype TklRules = TklRules(nu: real -> real, eta: (nat, real, real) -> real)

  /**
   * The boosters `new_booster_instance` can build.  tKlBoost and AdaBoost are kept
   * as their constructor arguments; the others as the model's own boosters.
   */
  datatype Booster =
    | ErlpBooster(erlp: Erlp.Erlp, kind: OptimizerKind)
    | TklBooster(epsilon: real, capitalDee: real, binary: bool, solver: OptimizerChoice)
    | LpBooster(lp: LpBoosting.LpBoost)
    | AdaBooster(n: nat)
    | CorrectiveBooster(corrective: Corrective.Corrective)

  /** A booster with the iteration bound and the display frequency `AbstractBooster` keeps. */
  datatype Built = Built(maxIterations: int, displayEvery: nat, booster: Booster)

  /** The `booster_type` names of ERLPBoost. */
  const KlNames: set<string> := {"ERLPBoost", "ErlpBoost", "KlBoost"}

  /** Every `booster_type` the factory accepts. */
  const BoosterNames: set<string> := KlNames + {"tKlBoost", "LPBoost", "AdaBoost", "Corrective"}

  /** `eta` as ERLPBoost and Corrective read it: the configured value, or `DefaultEta`. */
  function EtaOf(cfg: Config, binary: bool, logRatio: real, epsilon: real): real
    requires ("eta" in cfg && cfg["eta"].Number?) || epsilon != 0.0
  {
    if "eta" in cfg && cfg["eta"].Number? then cfg["eta"].x else DefaultEta(binary, logRatio, epsilon)
  }

  /**
   * The configurations whose booster the reals can hold: with eta left to its
   * default, ERLPBoost and Corrective divide by epsilon, and LPBoost's column bound
   * divides by nu.
   */
  predicate Representable(cfg: Config)
  {
    var typ := ReadText(cfg, "booster_type", "ERLPBoost");
    && (typ in KlNames || typ == "Corrective" ==> ("eta" in cfg && cfg["eta"].Number?) || ReadNumber(cfg, "eps", 0.001) != 0.0)
    && (typ == "LPBoost" ==> ReadNumber(cfg, "nu", 1.0) != 0.0)
  }

  /** The ERLPBoost and tKlBoost branch, after the booster type has been read. */
  function NewKlBooster(cfg: Config, n: nat, typ: string, logRatio: real, tkl: TklRules): (r: Result<Booster>)
    requires typ in KlNames || typ == "tKlBoost"
    requires typ in KlNames ==> ("eta" in cfg && cfg["eta"].Number?) || ReadNumber(cfg, "eps", 0.001) != 0.0
  {
    var epsilon := ReadNumber(cfg, "eps", 0.001);
    var nu := ReadNumber(cfg, "nu", 1.0);
    var binary := ReadFlag(cfg, "binary", false);
    var dee := ReadNumber(cfg, "D", 1.0 / 7.0);
    if typ == "tKlBoost" then
      var opt :- NewOptimizerInstance(cfg, n, true, tkl.eta(n, epsilon, dee), tkl.nu(dee), epsilon, binary);
      Ok(TklBooster(epsilon, dee, binary, opt))
    else
      var eta := EtaOf(cfg, binary, logRatio, epsilon);
      var opt :- NewOptimizerInstance(cfg, n, true, eta, nu, epsilon, binary);
      Ok(ErlpBooster(Erlp.NewErlp(n, epsilon, nu, eta, binary, opt.settings), opt.kind))
  }

  /**
   * `new_booster_instance`: no oracle is a runtime error; otherwise `booster_type`
   * (by default "ERLPBoost") picks the booster, `max_iter` (0 when missing) bounds
   * the iterations, `eps` and `nu` default to 0.001 and 1.  LPBoost without the LP
   * solver compiled in is an invalid argument; an unknown name is a runtime error,
   * and so is an unknown `optimizer_type` for the two boosters that build an
   * optimizer.
   */
  function NewBoosterInstance(cfg: Config, n: nat, oracle: Option<OracleChoice>, useClp: bool, logRatio: real, tkl: TklRules)
    : (r: Result<Built>)
    requires Representable(cfg)
    ensures oracle.None? ==> r.Err? && r.error.RuntimeError?
    ensures oracle.Some? && ReadText(cfg, "booster_type", "ERLPBoost") !in BoosterNames ==> r.Err? && r.error.RuntimeError?
    ensures r.Ok? ==> oracle.Some? && ReadText(cfg, "booster_type", "ERLPBoost") in BoosterNames
    ensures r.Ok? ==> r.value.maxIterations == ReadWhole(cfg, "max_iter", 0)
    ensures r.Ok? ==> (r.value.booster.ErlpBooster? <==> ReadText(cfg, "booster_type", "ERLPBoost") in KlNames)
    ensures r.Ok? ==> (r.value.booster.LpBooster? <==> ReadText(cfg, "booster_type", "ERLPBoost") == "LPBoost")
    ensures r.Ok? ==> (r.value.booster.CorrectiveBooster? <==> ReadText(cfg, "booster_type", "ERLPBoost") == "Corrective")
    ensures r.Ok? ==> (r.value.displayEvery == if r.value.booster.AdaBooster? then 250 else 10)
    ensures oracle.Some? && ReadText(cfg, "booster_type", "ERLPBoost") == "LPBoost" ==>
      (r.Ok? <==> useClp) && (r.Err? ==> r.error.InvalidArgument?)
  {
    if oracle.None? then Err(RuntimeError(NoOracle))
    else
      var typ := ReadText(cfg, "booster_type", "ERLPBoost");
      var maxIterations := ReadWhole(cfg, "max_iter", 0);
      if typ in KlNames || typ == "tKlBoost" then
        var b :- NewKlBooster(cfg, n, typ, logRatio, tkl);
        Ok(Built(maxIterations, 10, b))
      else if typ == "LPBoost" then
        if !useClp then
          Err(InvalidArgument(NoClp))
        else
          Ok(Built(maxIterations, 10, LpBooster(LpBoosting.NewLpBoost(n, ReadNumber(cfg, "eps", 0.001), ReadNumber(cfg, "nu", 1.0)))))
      else if typ == "AdaBoost" then Ok(Built(maxIterations, 250, AdaBooster(n)))
      else if typ == "Corrective" then
        var epsilon := ReadNumber(cfg, "eps", 0.001);
        var nu := ReadNumber(cfg, "nu", 1.0);
        var linesearch := ReadFlag(cfg, "linesearch", false);
        var eta := EtaOf(cfg, false, logRatio, epsilon);
        Ok(Built(maxIterations, 10, CorrectiveBooster(Corrective.NewCorrective(n, epsilon, nu, eta, linesearch))))
      else Err(RuntimeError(UnknownBooster))
  }

  /**
   * With no keys but the oracle's, the factory builds ERLPBoost with epsilon 0.001,
   * nu 1, the plain relative entropy, the default eta and an L-BFGS-B optimizer set
   * up with the same values on the transposed data.
   */
  lemma DefaultBoosterIsErlp(n: nat, oracle: OracleChoice, useClp: bool, logRatio: real, tkl: TklRules)
    ensures var eta := DefaultEta(false, logRatio, 0.001);
      NewBoosterInstance(map[], n, Some(oracle), useClp, logRatio, tkl)
        == Ok(Built(0, 10, ErlpBooster(
             Erlp.NewErlp(n, 0.001, 1.0, eta, false, Optimizers.NewOptimizer(n, true, eta, 1.0, 0.001, false)), Lbfgsb)))
  {
  }

  /**
   * ERLPBoost and its optimizer agree: the optimizer holds the booster's eta, nu,
   * epsilon and variant, works on the transposed data, and has one dual variable
   * per example (one in all for the binary variant).
   */
  lemma ErlpSharesSettings(cfg: Config, n: nat, oracle: Option<OracleChoice>, useClp: bool, logRatio: real, tkl: TklRules)
    requires Representable(cfg)
    requires NewBoosterInstance(cfg, n, oracle, useClp, logRatio, tkl).Ok?
    requires NewBoosterInstance(cfg, n, oracle, useClp, logRatio, tkl).value.booster.ErlpBooster?
    ensures var b := NewBoosterInstance(cfg, n, oracle, useClp, logRatio, tkl).value.booster.erlp;
      && b.solver.eta == b.eta && b.solver.nu == b.nu && b.solver.epsilon == b.gap.epsilon
      && b.solver.binary == b.binary && b.solver.transposed && b.solver.dim == n
      && |b.dist| == n && |b.solver.x| == (if b.binary then 1 else n)
  {
  }

  /** ERLPBoost and tKlBoost fail, with the optimizer factory's error, on an unknown `optimizer_type`. */
  lemma UnknownOptimizerFails(cfg: Config, n: nat, oracle: OracleChoice, useClp: bool, logRatio: real, tkl: TklRules)
    requires Representable(cfg)
    requires ReadText(cfg, "booster_type", "ERLPBoost") in KlNames + {"tKlBoost"}
    requires ReadText(cfg, "optimizer_type", "lbfgsb") !in {"pg", "hz", "lbfgsb", "cd"}
    ensures NewBoosterInstance(cfg, n, Some(oracle), useClp, logRatio, tkl).Err?
    ensures NewBoosterInstance(cfg, n, Some(oracle), useClp, logRatio, tkl).error.InvalidArgument?
      <==> ReadText(cfg, "optimizer_type", "lbfgsb") == "tao"
  {
  }
}
