/**
 * The analysis dispatcher of backend/app/econometrics.py: `perform_analysis`
 * routes a method name to one of four estimator wrappers after checking that
 * the keyword arguments that method needs are present, and each wrapper fixes
 * how the regression design is assembled and which label the result carries.
 *
 * The estimators themselves (statsmodels OLS, linearmodels IV2SLS, PanelOLS,
 * RandomEffects) are one injected function from a dataset and a `Call` to a
 * fit or a failure; `Plan` is everything the dispatcher decides before it.
 */
module Econometrics {
  import opened Common
  import Strings

  /** A keyword-argument value as callers pass it: None, a str, or a list of str. */
  datatype Arg = PyNone | PyStr(s: string) | PyList(items: seq<string>)

  /** The `**kwargs` bag: presence of a key is what the checks test. */
  type Kwargs = map<string, Arg>

  /** The four branches of the if/elif chain. */
  datatype Branch = OlsBranch | TslsBranch | FeBranch | ReBranch

  /** One regressor handed to an estimator: the intercept `sm.add_constant` adds, one column, or a whole selection `df[arg]`. */
  datatype Term = Constant | Column(name: Arg) | Columns(selection: Arg)

  datatype Effects = EntityFixed | RandomEffects

  /** Which estimator is called, on which columns. */
  datatype Call =
    | OlsFit(dependent: Arg, exog: seq<Term>)
    | TslsFit(dependent: Arg, exog: seq<Term>, endog: Arg, instruments: Arg)
    | PanelFit(effects: Effects, entity: Arg, time: Arg, dependent: Arg, exog: seq<Term>)

  /** Why no result is returned. */
  datatype Failure =
    | OlsRequires                                 // ValueError, econometrics.py:76
    | Requires(methodName: string, param: string) // ValueError, econometrics.py:86, 97, 108
    | UnknownMethod(methodName: string)           // ValueError, econometrics.py:117
    | ConcatTypeError(operandType: string)        // TypeError from `[base_var] + control_vars`, econometrics.py:9
    | EstimatorFailed(reason: string)             // any exception raised inside the estimator library

  /** What an estimator reports. */
  datatype Fit = Fit(params: map<string, real>, pvalues: map<string, real>, rSquared: real, summary: string)

  /** The five-key dictionary every wrapper returns. */
  datatype AnalysisResult = AnalysisResult(
    methodLabel: string,
    params: map<string, real>,
    pvalues: map<string, real>,
    rSquared: real,
    summary: string)

  const TslsRequired: seq<string> := ["dependent_var", "base_var", "instrument_vars"]
  const PanelRequired: seq<string> := ["dependent_var", "exog_vars", "entity", "time"]
  const KnownMethods: set<string> := {"ols", "2sls", "fe", "re"}

  function Route(lowered: string): Option<Branch>
  {
    if lowered == "ols" then Some(OlsBranch)
    else if lowered == "2sls" then Some(TslsBranch)
    else if lowered == "fe" then Some(FeBranch)
    else if lowered == "re" then Some(ReBranch)
    else None
  }

  /** `kwargs.get(key, default)`. */
  function Get(kw: Kwargs, key: string, default: Arg): Arg
  {
    if key in kw then kw[key] else default
  }

  /**
   * The `for param in [...]: if param not in kwargs: raise` check: the index of
   * the first required name that is not a key, or None when all are keys.
   */
  function FirstMissing(required: seq<string>, kw: Kwargs): (r: Option<nat>)
    ensures r.Some? ==> r.value < |required| && required[r.value] !in kw
    ensures r.Some? ==> forall j :: 0 <= j < r.value ==> required[j] in kw
    ensures r.None? <==> forall j :: 0 <= j < |required| ==> required[j] in kw
  {
    if required == [] then None
    else if required[0] !in kw then Some(0)
    else
      match FirstMissing(required[1..], kw)
      case None => None
      case Some(i) => Some(i + 1)
  }

  function ColumnsOf(names: seq<string>): (r: seq<Term>)
    ensures |r| == |names|
  {
    seq(|names|, i requires 0 <= i < |names| => Column(PyStr(names[i])))
  }

  /** `perform_ols_analysis` up to the estimator: `add_constant(df[[base_var] + control_vars])`. */
  function OlsCall(dependent: Arg, base: Arg, controls: Arg): Result<Call, Failure>
  {
    match controls
    case PyList(cs) => Ok(OlsFit(dependent, [Constant, Column(base)] + ColumnsOf(cs)))
    case PyNone => Err(ConcatTypeError("NoneType"))
    case PyStr(_) => Err(ConcatTypeError("str"))
  }

  /** `perform_fe_analysis` / `perform_re_analysis` after the FE/RE check. */
  function PanelPlan(effects: Effects, methodName: string, kw: Kwargs): Result<Call, Failure>
  {
    match FirstMissing(PanelRequired, kw)
    case Some(i) => Err(Requires(methodName, PanelRequired[i]))
    case None =>
      assert PanelRequired[0] in kw && PanelRequired[1] in kw;
      assert PanelRequired[2] in kw && PanelRequired[3] in kw;
      Ok(PanelFit(effects, kw["entity"], kw["time"], kw["dependent_var"], [Constant, Columns(kw["exog_vars"])]))
  }

  /** `perform_2sls_analysis` after the 2SLS check; `control_vars` defaults to the empty list. */
  function TslsPlan(kw: Kwargs): Result<Call, Failure>
  {
    match FirstMissing(TslsRequired, kw)
    case Some(i) => Err(Requires("2SLS", TslsRequired[i]))
    case None =>
      assert TslsRequired[0] in kw && TslsRequired[1] in kw && TslsRequired[2] in kw;
      Ok(TslsFit(kw["dependent_var"], [Constant, Columns(Get(kw, "control_vars", PyList([])))],
                 kw["base_var"], kw["instrument_vars"]))
  }

  /** `perform_analysis` up to the estimator call: the call it makes, or the exception it raises first. */
  function Plan(methodName: string, kw: Kwargs): Result<Call, Failure>
  {
    match Route(Strings.Lower(methodName))
    case None => Err(UnknownMethod(methodName))
    case Some(OlsBranch) =>
      if "dependent_var" !in kw || "base_var" !in kw then Err(OlsRequires)
      else OlsCall(kw["dependent_var"], kw["base_var"], Get(kw, "control_vars", PyList([])))
    case Some(TslsBranch) => TslsPlan(kw)
    case Some(FeBranch) => PanelPlan(EntityFixed, "FE", kw)
    case Some(ReBranch) => PanelPlan(RandomEffects, "RE", kw)
  }

  /** The fixed `"method"` value of each wrapper's result. */
  function Label(c: Call): string
  {
    match c
    case OlsFit(_, _) => "OLS"
    case TslsFit(_, _, _, _) => "2SLS"
    case PanelFit(EntityFixed, _, _, _, _) => "Fixed Effects"
    case PanelFit(RandomEffects, _, _, _, _) => "Random Effects"
  }

  /**
   * `perform_analysis(df, method, **kwargs)`: the estimator runs only on a
   * planned call; its report is copied into the result under the call's label.
   */
  function PerformAnalysis<D>(df: D, methodName: string, kw: Kwargs, estimate: (D, Call) -> Result<Fit, string>)
    : (r: Result<AnalysisResult, Failure>)
    ensures Plan(methodName, kw).Err? ==> r == Err(Plan(methodName, kw).error)
    ensures r.Ok? ==> Plan(methodName, kw).Ok? && r.value.methodLabel == Label(Plan(methodName, kw).value)
    ensures r.Ok? ==> r.value.methodLabel in {"OLS", "2SLS", "Fixed Effects", "Random Effects"}
    ensures Plan(methodName, kw).Ok? ==>
      match estimate(df, Plan(methodName, kw).value)
      case Err(reason) => r == Err(EstimatorFailed(reason))
      case Ok(fit) => r.Ok? && r.value.params == fit.params && r.value.pvalues == fit.pvalues
                      && r.value.rSquared == fit.rSquared && r.value.summary == fit.summary
  {
    match Plan(methodName, kw)
    case Err(e) => Err(e)
    case Ok(call) =>
      match estimate(df, call)
      case Err(reason) => Err(EstimatorFailed(reason))
      case Ok(fit) => Ok(AnalysisResult(Label(call), fit.params, fit.pvalues, fit.rSquared, fit.summary))
  }

  predicate MissingParam(r: Result<Call, Failure>)
  {
    r.Err? && (r.error.OlsRequires? || r.error.Requires?)
  }

  /** "OLS", "ols" and "Ols" take the same branch: only the lower-cased name decides. */
  lemma DispatchIgnoresCase(m1: string, m2: string, kw: Kwargs)
    requires Strings.Lower(m1) == Strings.Lower(m2)
    requires Strings.Lower(m1) in KnownMethods
    ensures Plan(m1, kw) == Plan(m2, kw)
  {
  }

  lemma MixedCaseOls(kw: Kwargs)
    ensures Plan("OLS", kw) == Plan("ols", kw) == Plan("Ols", kw)
  {
    assert Strings.Lower("OLS") == "ols";
    assert Strings.Lower("Ols") == "ols";
    assert Strings.Lower("ols") == "ols";
  }

  /** A name that does not lower-case to one of the four is rejected, naming it as given, whatever the arguments. */
  lemma UnknownMethodRejected(methodName: string, kw: Kwargs)
    ensures Plan(methodName, kw) == Err(UnknownMethod(methodName)) <==> Strings.Lower(methodName) !in KnownMethods
  {
  }

  /** OLS: both names must be keys; `control_vars` defaults to the empty list and must be a list. */
  lemma OlsValidation(methodName: string, kw: Kwargs)
    requires Strings.Lower(methodName) == "ols"
    ensures Plan(methodName, kw) == Err(OlsRequires) <==> "dependent_var" !in kw || "base_var" !in kw
    ensures "dependent_var" in kw && "base_var" in kw && "control_vars" !in kw ==>
      Plan(methodName, kw) == Ok(OlsFit(kw["dependent_var"], [Constant, Column(kw["base_var"])]))
    ensures "dependent_var" in kw && "base_var" in kw && "control_vars" in kw && kw["control_vars"].PyList? ==>
      Plan(methodName, kw) == Ok(OlsFit(kw["dependent_var"],
                                    [Constant, Column(kw["base_var"])] + ColumnsOf(kw["control_vars"].items)))
    ensures "dependent_var" in kw && "base_var" in kw && "control_vars" in kw && kw["control_vars"] == PyNone ==>
      Plan(methodName, kw) == Err(ConcatTypeError("NoneType"))
    ensures "dependent_var" in kw && "base_var" in kw && "control_vars" in kw && kw["control_vars"].PyStr? ==>
      Plan(methodName, kw) == Err(ConcatTypeError("str"))
  {
    if "dependent_var" in kw && "base_var" in kw && "control_vars" !in kw {
      assert [Constant, Column(kw["base_var"])] + ColumnsOf([]) == [Constant, Column(kw["base_var"])];
    }
  }

  /** 2SLS: the names are checked in order and the error names the first absent one. */
  lemma TslsValidation(methodName: string, kw: Kwargs, i: nat)
    requires Strings.Lower(methodName) == "2sls"
    requires i < |TslsRequired|
    ensures Plan(methodName, kw) == Err(Requires("2SLS", TslsRequired[i])) <==>
      TslsRequired[i] !in kw && forall j :: 0 <= j < i ==> TslsRequired[j] in kw
  {
    var r := FirstMissing(TslsRequired, kw);
    if r.Some? && r.value != i {
      assert TslsRequired[r.value] != TslsRequired[i];
    }
  }

  /** 2SLS design: constant plus `control_vars` (default empty) exogenous, `base_var` endogenous, `instrument_vars` instruments. */
  lemma TslsAssembly(methodName: string, kw: Kwargs)
    requires Strings.Lower(methodName) == "2sls"
    requires "dependent_var" in kw && "base_var" in kw && "instrument_vars" in kw
    ensures Plan(methodName, kw) == Ok(TslsFit(kw["dependent_var"], [Constant, Columns(Get(kw, "control_vars", PyList([])))],
                                           kw["base_var"], kw["instrument_vars"]))
    ensures "control_vars" !in kw ==> Plan(methodName, kw).value.exog == [Constant, Columns(PyList([]))]
  {
    assert forall j :: 0 <= j < |TslsRequired| ==> TslsRequired[j] in kw;
  }

  /** FE and RE: all four names are checked in order, `exog_vars` included, and the error names the first absent one. */
  lemma PanelValidation(methodName: string, kw: Kwargs, i: nat)
    requires Strings.Lower(methodName) in {"fe", "re"}
    requires i < |PanelRequired|
    ensures Plan(methodName, kw) == Err(Requires(if Strings.Lower(methodName) == "fe" then "FE" else "RE", PanelRequired[i])) <==>
      PanelRequired[i] !in kw && forall j :: 0 <= j < i ==> PanelRequired[j] in kw
  {
    var r := FirstMissing(PanelRequired, kw);
    if r.Some? && r.value != i {
      assert PanelRequired[r.value] != PanelRequired[i];
    }
  }

  /** FE and RE without `exog_vars` never reach an estimator. */
  lemma PanelRequiresExog(methodName: string, kw: Kwargs)
    requires Strings.Lower(methodName) in {"fe", "re"}
    requires "exog_vars" !in kw
    ensures MissingParam(Plan(methodName, kw))
  {
    assert PanelRequired[1] == "exog_vars";
  }

  /** FE/RE design: indexed by (entity, time), constant plus `exog_vars`, within or random effects by branch. */
  lemma PanelAssembly(methodName: string, kw: Kwargs)
    requires Strings.Lower(methodName) in {"fe", "re"}
    requires "dependent_var" in kw && "exog_vars" in kw && "entity" in kw && "time" in kw
    ensures Plan(methodName, kw) == Ok(PanelFit(if Strings.Lower(methodName) == "fe" then EntityFixed else RandomEffects,
                                            kw["entity"], kw["time"], kw["dependent_var"],
                                            [Constant, Columns(kw["exog_vars"])]))
  {
    assert forall j :: 0 <= j < |PanelRequired| ==> PanelRequired[j] in kw;
  }

  /**
   * The checks look at keys only: giving a present key the value None (or any
   * other value) never turns a passing check into a failing one, nor back.
   */
  lemma PresenceNotValue(methodName: string, kw: Kwargs, key: string, v: Arg)
    requires key in kw
    ensures MissingParam(Plan(methodName, kw[key := v])) <==> MissingParam(Plan(methodName, kw))
    ensures MissingParam(Plan(methodName, kw)) ==> Plan(methodName, kw[key := v]) == Plan(methodName, kw)
  {
    var kw' := kw[key := v];
    assert kw'.Keys == kw.Keys;
    match Route(Strings.Lower(methodName))
    case None =>
    case Some(OlsBranch) =>
    case Some(TslsBranch) => FirstMissingKeysOnly(TslsRequired, kw, kw');
    case Some(FeBranch) => FirstMissingKeysOnly(PanelRequired, kw, kw');
    case Some(ReBranch) => FirstMissingKeysOnly(PanelRequired, kw, kw');
  }

  lemma {:induction false} FirstMissingKeysOnly(required: seq<string>, kw: Kwargs, kw': Kwargs)
    requires kw.Keys == kw'.Keys
    ensures FirstMissing(required, kw) == FirstMissing(required, kw')
  {
    if required != [] {
      FirstMissingKeysOnly(required[1..], kw, kw');
    }
  }

  /** When validation fails nothing is estimated: the outcome is the same whatever the estimator does. */
  lemma FailsBeforeEstimation<D>(df: D, methodName: string, kw: Kwargs,
                                 e1: (D, Call) -> Result<Fit, string>, e2: (D, Call) -> Result<Fit, string>)
    requires Plan(methodName, kw).Err?
    ensures PerformAnalysis(df, methodName, kw, e1) == PerformAnalysis(df, methodName, kw, e2) == Err(Plan(methodName, kw).error)
  {
  }

  /** Every successful call carries the fixed label of its branch. */
  lemma ResultLabel<D>(df: D, methodName: string, kw: Kwargs, estimate: (D, Call) -> Result<Fit, string>)
    requires PerformAnalysis(df, methodName, kw, estimate).Ok?
    ensures var lbl := PerformAnalysis(df, methodName, kw, estimate).value.methodLabel;
      match Strings.Lower(methodName)
      case "ols" => lbl == "OLS"
      case "2sls" => lbl == "2SLS"
      case "fe" => lbl == "Fixed Effects"
      case "re" => lbl == "Random Effects"
      case _ => false
  {
  }
}
