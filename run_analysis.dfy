/**
 * The `/run-analysis/` handler (backend/app/main.py:138-173): it collects the
 * metric names a request mentions, rejects names the metric table does not
 * know, turns the table around into indicator code -> metric name for the
 * data source, and calls the dispatcher with the method value and seven
 * keywords: dependent_var, base_var, control_vars, instrument_vars,
 * exog_vars, entity and time. The countries and years go to the data source.
 *
 * The metric table (`METRIC_MAP`, from a module that is not part of this
 * model) is a parameter, as are the data source and the estimator.
 */
module AnalysisEndpoint {
  import opened Common
  import Strings
  import Schemas
  import Econometrics

  /** How the handler ends without a response body. */
  datatype RunFailure =
    | NamesTypeError                                // `names.update(None)` raises TypeError: status 500
    | UnknownMetrics(unknown: set<string>)          // HTTPException(400, "Unknown metrics: ..."), main.py:151
    | FetchFailed(reason: string)                   // an exception out of `fetch_world_bank_data`: status 500
    | AnalysisFailed(failure: Econometrics.Failure) // an exception out of `perform_analysis`: status 500
    | ResponseRejected(methodLabel: string)         // the result fails `RunAnalysisResponse` validation: status 500

  function Status(f: RunFailure): int
  {
    if f.UnknownMetrics? then 400 else 500
  }

  /** Python truthiness of an optional str. */
  predicate Truthy(s: Option<string>)
  {
    s.Some? && s.value != ""
  }

  function Elements(xs: seq<string>): set<string>
  {
    set x | x in xs
  }

  /** The dependent metric, and the base metric when it is truthy. */
  function LeadingNames(req: Schemas.RunAnalysisRequest): set<string>
  {
    if Truthy(req.baseMetric) then {req.dependentMetric, req.baseMetric.value} else {req.dependentMetric}
  }

  /** The set main.py:141-146 builds, or None where `names.update(None)` raises. */
  function RequestedNames(req: Schemas.RunAnalysisRequest): Option<set<string>>
  {
    if req.controlMetrics.None? || req.instrumentMetrics.None? || req.exogMetrics.None? then None
    else Some(LeadingNames(req)
              + Elements(req.controlMetrics.value)
              + Elements(req.instrumentMetrics.value)
              + Elements(req.exogMetrics.value))
  }

  /** main.py:141-146, step by step on a local set. */
  method CollectNames(req: Schemas.RunAnalysisRequest) returns (names: Option<set<string>>)
    ensures names == RequestedNames(req)
  {
    var acc := {req.dependentMetric};
    if Truthy(req.baseMetric) {
      acc := acc + {req.baseMetric.value};
    }
    assert acc == LeadingNames(req);
    if req.controlMetrics.None? {
      return None;
    }
    acc := acc + Elements(req.controlMetrics.value);
    if req.instrumentMetrics.None? {
      return None;
    }
    acc := acc + Elements(req.instrumentMetrics.value);
    if req.exogMetrics.None? {
      return None;
    }
    acc := acc + Elements(req.exogMetrics.value);
    return Some(acc);
  }

  /**
   * What the collected set holds: the dependent metric, a truthy base metric,
   * every listed metric, and nothing else. An absent list is a failure, not
   * an empty list.
   */
  lemma NamesContents(req: Schemas.RunAnalysisRequest)
    ensures RequestedNames(req).None? <==>
      req.controlMetrics.None? || req.instrumentMetrics.None? || req.exogMetrics.None?
    ensures RequestedNames(req).Some? ==>
      var names := RequestedNames(req).value;
      && req.dependentMetric in names
      && (Truthy(req.baseMetric) ==> req.baseMetric.value in names)
      && (forall x :: x in req.controlMetrics.value ==> x in names)
      && (forall x :: x in req.instrumentMetrics.value ==> x in names)
      && (forall x :: x in req.exogMetrics.value ==> x in names)
      && (forall n :: n in names ==>
            n == req.dependentMetric || (Truthy(req.baseMetric) && n == req.baseMetric.value)
            || n in req.controlMetrics.value || n in req.instrumentMetrics.value || n in req.exogMetrics.value)
  {
  }

  /** An empty base metric is left out unless another field names it. */
  lemma FalsyBaseLeftOut(req: Schemas.RunAnalysisRequest)
    requires RequestedNames(req).Some? && req.baseMetric.Some? && !Truthy(req.baseMetric)
    requires req.baseMetric.value != req.dependentMetric
    requires req.baseMetric.value !in req.controlMetrics.value
    requires req.baseMetric.value !in req.instrumentMetrics.value
    requires req.baseMetric.value !in req.exogMetrics.value
    ensures req.baseMetric.value !in RequestedNames(req).value
  {
  }

  /** The indicator codes of a set of metric names. */
  function Image(names: set<string>, metricMap: map<string, string>): set<string>
  {
    set n | n in names && n in metricMap :: metricMap[n]
  }

  predicate InjectiveOn(names: set<string>, metricMap: map<string, string>)
  {
    forall a, b :: a in names && b in names && a in metricMap && b in metricMap && metricMap[a] == metricMap[b] ==> a == b
  }

  /**
   * `{METRIC_MAP[n]: n for n in names}`: the set is walked in an order Python
   * does not fix, and a later name overwrites an earlier one with the same code.
   */
  method BuildIndicators(names: set<string>, metricMap: map<string, string>) returns (indicators: map<string, string>)
    requires names <= metricMap.Keys
    ensures indicators.Keys == Image(names, metricMap)
    ensures forall c :: c in indicators ==> indicators[c] in names && metricMap[indicators[c]] == c
    ensures InjectiveOn(names, metricMap) ==>
      forall n :: n in names ==> metricMap[n] in indicators && indicators[metricMap[n]] == n
  {
    indicators := map[];
    var rest := names;
    while rest != {}
      invariant rest <= names
      invariant indicators.Keys == Image(names - rest, metricMap)
      invariant forall c :: c in indicators ==> indicators[c] in names - rest && metricMap[indicators[c]] == c
      decreases rest
    {
      var n :| n in rest;
      ImageAdd(names - rest, n, metricMap);
      assert names - (rest - {n}) == (names - rest) + {n};
      indicators := indicators[metricMap[n] := n];
      rest := rest - {n};
    }
    assert names - rest == names;
    if InjectiveOn(names, metricMap) {
      forall n | n in names ensures metricMap[n] in indicators && indicators[metricMap[n]] == n {
        assert metricMap[n] in Image(names, metricMap);
      }
    }
  }

  lemma ImageAdd(done: set<string>, n: string, metricMap: map<string, string>)
    requires n in metricMap
    ensures Image(done + {n}, metricMap) == Image(done, metricMap) + {metricMap[n]}
  {
  }

  /** The keyword arguments main.py:162-172 passes: every key, always, with None for an absent field. */
  function RequestKwargs(req: Schemas.RunAnalysisRequest): (kw: Econometrics.Kwargs)
    ensures kw.Keys == {"dependent_var", "base_var", "control_vars", "instrument_vars", "exog_vars", "entity", "time"}
  {
    map[
      "dependent_var" := Econometrics.PyStr(req.dependentMetric),
      "base_var" := StrArg(req.baseMetric),
      "control_vars" := ListArg(req.controlMetrics),
      "instrument_vars" := ListArg(req.instrumentMetrics),
      "exog_vars" := ListArg(req.exogMetrics),
      "entity" := StrArg(req.entity),
      "time" := StrArg(req.time)]
  }

  function StrArg(v: Option<string>): Econometrics.Arg
  {
    if v.Some? then Econometrics.PyStr(v.value) else Econometrics.PyNone
  }

  function ListArg(v: Option<seq<string>>): Econometrics.Arg
  {
    if v.Some? then Econometrics.PyList(v.value) else Econometrics.PyNone
  }

  function BranchOf(m: Schemas.MethodEnum): Econometrics.Branch
  {
    match m
    case OLS => Econometrics.OlsBranch
    case TSLS => Econometrics.TslsBranch
    case FE => Econometrics.FeBranch
    case RE => Econometrics.ReBranch
  }

  /** Each selector value, lower-cased, selects one dispatcher branch, and no two values share one. */
  lemma EnumSelectsOneBranch(m: Schemas.MethodEnum, m': Schemas.MethodEnum)
    ensures Econometrics.Route(Strings.Lower(Schemas.Value(m))) == Some(BranchOf(m))
    ensures BranchOf(m) == BranchOf(m') ==> m == m'
  {
    assert Strings.Lower("OLS") == "ols";
    assert Strings.Lower("2SLS") == "2sls";
    assert Strings.Lower("FE") == "fe";
    assert Strings.Lower("RE") == "re";
  }

  /**
   * Once the names are collected the dispatcher's checks always pass: every
   * key is passed, with None where the request left a field out, so the call
   * is planned with those None values.
   */
  lemma HandlerPassesValidation(req: Schemas.RunAnalysisRequest)
    requires RequestedNames(req).Some?
    ensures var kw := RequestKwargs(req);
      Econometrics.Plan(Schemas.Value(req.analysisMethod), kw) ==
        match req.analysisMethod
        case OLS => Ok(Econometrics.OlsFit(kw["dependent_var"],
                        [Econometrics.Constant, Econometrics.Column(kw["base_var"])]
                        + Econometrics.ColumnsOf(req.controlMetrics.value)))
        case TSLS => Ok(Econometrics.TslsFit(kw["dependent_var"],
                         [Econometrics.Constant, Econometrics.Columns(kw["control_vars"])],
                         kw["base_var"], kw["instrument_vars"]))
        case FE => Ok(Econometrics.PanelFit(Econometrics.EntityFixed, kw["entity"], kw["time"], kw["dependent_var"],
                       [Econometrics.Constant, Econometrics.Columns(kw["exog_vars"])]))
        case RE => Ok(Econometrics.PanelFit(Econometrics.RandomEffects, kw["entity"], kw["time"], kw["dependent_var"],
                       [Econometrics.Constant, Econometrics.Columns(kw["exog_vars"])]))
  {
    var kw := RequestKwargs(req);
    var name := Schemas.Value(req.analysisMethod);
    EnumSelectsOneBranch(req.analysisMethod, req.analysisMethod);
    match req.analysisMethod
    case OLS =>
      Econometrics.OlsValidation(name, kw);
    case TSLS =>
      Econometrics.TslsAssembly(name, kw);
    case FE =>
      Econometrics.PanelAssembly(name, kw);
    case RE =>
      Econometrics.PanelAssembly(name, kw);
  }

  /** The label the dispatcher attaches is a selector value exactly for OLS and 2SLS, and then it is the requested one. */
  lemma HandlerLabel(req: Schemas.RunAnalysisRequest)
    requires RequestedNames(req).Some?
    ensures Econometrics.Plan(Schemas.Value(req.analysisMethod), RequestKwargs(req)).Ok?
    ensures var lbl := Econometrics.Label(Econometrics.Plan(Schemas.Value(req.analysisMethod), RequestKwargs(req)).value);
      && (lbl in {"OLS", "2SLS", "FE", "RE"} <==> req.analysisMethod in {Schemas.OLS, Schemas.TSLS})
      && (req.analysisMethod in {Schemas.OLS, Schemas.TSLS} ==> lbl == Schemas.Value(req.analysisMethod))
  {
    HandlerPassesValidation(req);
  }

  /**
   * The end of `run_analysis` once the data is fetched: the dispatcher's
   * result, validated against the response model. The panel labels fail
   * that validation, so FE and RE end in a server error whenever the
   * estimator succeeds.
   */
  function Respond<D>(req: Schemas.RunAnalysisRequest, df: D,
                      estimate: (D, Econometrics.Call) -> Result<Econometrics.Fit, string>)
    : (r: Result<Schemas.RunAnalysisResponse, RunFailure>)
    requires RequestedNames(req).Some?
    ensures r.Err? ==> r.error.AnalysisFailed? || r.error.ResponseRejected?
    ensures r.Err? && r.error.AnalysisFailed? ==> r.error.failure.EstimatorFailed?
    ensures r.Err? && r.error.ResponseRejected? <==>
      req.analysisMethod in {Schemas.FE, Schemas.RE} && !(r.Err? && r.error.AnalysisFailed?)
    ensures req.analysisMethod in {Schemas.FE, Schemas.RE} ==> r.Err?
    ensures r.Ok? ==> r.value.analysisMethod == req.analysisMethod
    ensures var call := Econometrics.Plan(Schemas.Value(req.analysisMethod), RequestKwargs(req)).value;
      r == match estimate(df, call)
           case Err(e) => Err(AnalysisFailed(Econometrics.EstimatorFailed(e)))
           case Ok(fit) =>
             if req.analysisMethod in {Schemas.FE, Schemas.RE} then Err(ResponseRejected(Econometrics.Label(call)))
             else Ok(Schemas.RunAnalysisResponse(req.analysisMethod, fit.params, fit.pvalues, Some(fit.rSquared), fit.summary))
  {
    HandlerLabel(req);
    Schemas.ParseValueRoundTrip(req.analysisMethod);
    match Econometrics.PerformAnalysis(df, Schemas.Value(req.analysisMethod), RequestKwargs(req), estimate)
    case Err(f) => Err(AnalysisFailed(f))
    case Ok(res) =>
      match Schemas.ValidateResponse(res.methodLabel, res.params, res.pvalues, Some(res.rSquared), res.summary)
      case None => Err(ResponseRejected(res.methodLabel))
      case Some(resp) => Ok(resp)
  }

  /**
   * `run_analysis` from the request on: name collection, the unknown-name
   * check, the inverted table, the data fetch, the dispatcher, and the
   * validation of the returned dictionary against the response model.
   */
  method RunAnalysis<D>(req: Schemas.RunAnalysisRequest, metricMap: map<string, string>,
                        fetch: (map<string, string>, seq<string>, int, int) -> Result<D, string>,
                        estimate: (D, Econometrics.Call) -> Result<Econometrics.Fit, string>)
    returns (r: Result<Schemas.RunAnalysisResponse, RunFailure>)
    ensures RequestedNames(req).None? ==> r == Err(NamesTypeError)
    ensures RequestedNames(req).Some? && !(RequestedNames(req).value <= metricMap.Keys) ==>
      r == Err(UnknownMetrics(RequestedNames(req).value - metricMap.Keys)) && Status(r.error) == 400
    ensures RequestedNames(req).Some? && RequestedNames(req).value <= metricMap.Keys ==>
      exists indicators: map<string, string> ::
        && indicators.Keys == Image(RequestedNames(req).value, metricMap)
        && (forall c :: c in indicators ==> indicators[c] in RequestedNames(req).value && metricMap[indicators[c]] == c)
        && r == match fetch(indicators, req.countries, req.startYear, req.endYear)
                case Err(e) => Err(FetchFailed(e))
                case Ok(df) => Respond(req, df, estimate)
    ensures r.Err? && r.error.AnalysisFailed? ==> r.error.failure.EstimatorFailed?
    ensures r.Err? && r.error.ResponseRejected? <==>
      RequestedNames(req).Some? && RequestedNames(req).value <= metricMap.Keys
      && req.analysisMethod in {Schemas.FE, Schemas.RE}
      && !(r.Err? && (r.error.FetchFailed? || r.error.AnalysisFailed?))
    ensures req.analysisMethod in {Schemas.FE, Schemas.RE} ==> r.Err?
    ensures r.Ok? ==> r.value.analysisMethod == req.analysisMethod
  {
    var names := CollectNames(req);
    if names.None? {
      return Err(NamesTypeError);
    }
    var unknown := names.value - metricMap.Keys;
    if unknown != {} {
      return Err(UnknownMetrics(unknown));
    }
    assert forall n :: n in names.value ==> n in metricMap.Keys by {
      forall n | n in names.value ensures n in metricMap.Keys {
        assert n !in unknown;
      }
    }
    var indicators := BuildIndicators(names.value, metricMap);
    var fetched := fetch(indicators, req.countries, req.startYear, req.endYear);
    match fetched {
      case Err(e) =>
        r := Err(FetchFailed(e));
      case Ok(df) =>
        r := Respond(req, df, estimate);
    }
  }
}
