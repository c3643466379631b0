/**
 * The request and response shapes of the analysis endpoint (backend/app/schemas.py):
 * the closed method selector, the request body with its optional fields that
 * default to None, and the response whose `method` must be a selector value.
 */
module Schemas {
  import opened Common

  /** `MethodEnum`: exactly four selector values. */
  datatype MethodEnum = OLS | TSLS | FE | RE

  function Value(m: MethodEnum): string
  {
    match m
    case OLS => "OLS"
    case TSLS => "2SLS"
    case FE => "FE"
    case RE => "RE"
  }

  /** Validation of a string into `MethodEnum`: only an exact member value is accepted. */
  function ParseMethod(s: string): (r: Option<MethodEnum>)
    ensures r.Some? ==> Value(r.value) == s
    ensures r.None? ==> forall m: MethodEnum :: Value(m) != s
  {
    if s == "OLS" then Some(OLS)
    else if s == "2SLS" then Some(TSLS)
    else if s == "FE" then Some(FE)
    else if s == "RE" then Some(RE)
    else None
  }

  /** Every selector value parses back to itself, so the value set is closed and the values distinct. */
  lemma ParseValueRoundTrip(m: MethodEnum)
    ensures ParseMethod(Value(m)) == Some(m)
  {
  }

  /** A JSON value as a request body can carry it. */
  datatype Json = JNull | JStr(s: string) | JInt(i: int) | JStrList(items: seq<string>) | JOther

  /** `RunAnalysisRequest`. */
  datatype RunAnalysisRequest = RunAnalysisRequest(
    countries: seq<string>,
    analysisMethod: MethodEnum,
    dependentMetric: string,
    baseMetric: Option<string>,
    controlMetrics: Option<seq<string>>,
    instrumentMetrics: Option<seq<string>>,
    exogMetrics: Option<seq<string>>,
    entity: Option<string>,
    time: Option<string>,
    startYear: int,
    endYear: int)

  /** The keys of a request body the model knows; any other key is ignored. */
  datatype Field =
    | Countries | MethodField | DependentMetric | StartYear | EndYear
    | BaseMetric | ControlMetrics | InstrumentMetrics | ExogMetrics | Entity | Time

  /** The JSON key of each field. */
  function Key(f: Field): string
  {
    match f
    case Countries => "countries"
    case MethodField => "method"
    case DependentMetric => "dependent_metric"
    case StartYear => "start_year"
    case EndYear => "end_year"
    case BaseMetric => "base_metric"
    case ControlMetrics => "control_metrics"
    case InstrumentMetrics => "instrument_metrics"
    case ExogMetrics => "exog_metrics"
    case Entity => "entity"
    case Time => "time"
  }

  /** A request body: the JSON values under the known keys. */
  type Body = map<Field, Json>

  const RequiredFields: set<Field> := {Countries, MethodField, DependentMetric, StartYear, EndYear}
  const OptionalFields: set<Field> := {BaseMetric, ControlMetrics, InstrumentMetrics, ExogMetrics, Entity, Time}

  predicate IsStr(v: Json) { v.JStr? }
  predicate IsStrList(v: Json) { v.JStrList? }
  predicate IsInt(v: Json) { v.JInt? }
  predicate IsMethod(v: Json) { v.JStr? && ParseMethod(v.s).Some? }

  /** Whether the value under `f` satisfies the declared type of that field. */
  predicate FieldValid(body: Body, f: Field)
  {
    match f
    case Countries => f in body && IsStrList(body[f])
    case MethodField => f in body && IsMethod(body[f])
    case DependentMetric => f in body && IsStr(body[f])
    case StartYear => f in body && IsInt(body[f])
    case EndYear => f in body && IsInt(body[f])
    case BaseMetric => f !in body || body[f].JNull? || IsStr(body[f])
    case Entity => f !in body || body[f].JNull? || IsStr(body[f])
    case Time => f !in body || body[f].JNull? || IsStr(body[f])
    case _ => f !in body || body[f].JNull? || IsStrList(body[f])
  }

  /** The fields the body fails on. */
  function InvalidFields(body: Body): set<Field>
  {
    set f: Field | !FieldValid(body, f)
  }

  function OptStr(body: Body, f: Field): Option<string>
  {
    if f in body && body[f].JStr? then Some(body[f].s) else None
  }

  function OptStrList(body: Body, f: Field): Option<seq<string>>
  {
    if f in body && body[f].JStrList? then Some(body[f].items) else None
  }

  /**
   * Validation of a request body: a required field must be present with its
   * type; an optional field may be absent or null, and is then None.
   */
  function ParseRequest(body: Body): (r: Result<RunAnalysisRequest, set<Field>>)
    ensures r.Err? ==> r.error != {} && forall f :: f in r.error ==> !FieldValid(body, f)
    ensures r.Err? ==> forall f: Field :: !FieldValid(body, f) ==> f in r.error
    ensures r.Ok? ==> forall f: Field :: FieldValid(body, f)
  {
    var bad := InvalidFields(body);
    if bad != {} then Err(bad)
    else
      assert forall f: Field :: FieldValid(body, f) by {
        forall f: Field ensures FieldValid(body, f) {
          assert f !in bad;
        }
      }
      assert FieldValid(body, Countries) && FieldValid(body, MethodField) && FieldValid(body, DependentMetric);
      assert FieldValid(body, StartYear) && FieldValid(body, EndYear);
      Ok(RunAnalysisRequest(
        body[Countries].items,
        ParseMethod(body[MethodField].s).value,
        body[DependentMetric].s,
        OptStr(body, BaseMetric),
        OptStrList(body, ControlMetrics),
        OptStrList(body, InstrumentMetrics),
        OptStrList(body, ExogMetrics),
        OptStr(body, Entity),
        OptStr(body, Time),
        body[StartYear].i,
        body[EndYear].i))
  }

  /** A missing required field fails validation, and the failure names it. */
  lemma RequiredFieldMissing(body: Body, f: Field)
    requires f in RequiredFields && f !in body
    ensures ParseRequest(body).Err? && f in ParseRequest(body).error
  {
    assert !FieldValid(body, f);
    assert f in InvalidFields(body);
  }

  /** An optional field left out of an accepted body is None in the request. */
  lemma OptionalFieldDefaults(body: Body)
    requires ParseRequest(body).Ok?
    ensures BaseMetric !in body ==> ParseRequest(body).value.baseMetric == None
    ensures ControlMetrics !in body ==> ParseRequest(body).value.controlMetrics == None
    ensures InstrumentMetrics !in body ==> ParseRequest(body).value.instrumentMetrics == None
    ensures ExogMetrics !in body ==> ParseRequest(body).value.exogMetrics == None
    ensures Entity !in body ==> ParseRequest(body).value.entity == None
    ensures Time !in body ==> ParseRequest(body).value.time == None
  {
  }

  /**
   * What an accepted body's values become: every non-null value reappears
   * under its key in the request's own JSON body, and every optional field
   * that is absent or null is None there.
   */
  lemma ParseRequestValues(body: Body)
    requires ParseRequest(body).Ok?
    ensures var r := ParseRequest(body).value;
      forall f :: f in body && !body[f].JNull? ==> f in Encode(r) && Encode(r)[f] == body[f]
    ensures var r := ParseRequest(body).value;
      forall f :: f in OptionalFields && (f !in body || body[f].JNull?) ==> f in Encode(r) && Encode(r)[f] == JNull
  {
    var r := ParseRequest(body).value;
    ParseValueRoundTrip(r.analysisMethod);
    forall f | f in body && !body[f].JNull? ensures f in Encode(r) && Encode(r)[f] == body[f] {
      assert FieldValid(body, f);
      match f
      case MethodField =>
        assert ParseMethod(body[f].s).Some?;
      case _ =>
    }
    forall f | f in OptionalFields && (f !in body || body[f].JNull?) ensures f in Encode(r) && Encode(r)[f] == JNull {
    }
  }

  /** No two fields share a JSON key. */
  lemma KeysDistinct(f: Field, g: Field)
    ensures Key(f) == Key(g) ==> f == g
  {
  }

  function OptStrJson(v: Option<string>): Json
  {
    if v.Some? then JStr(v.value) else JNull
  }

  function OptStrListJson(v: Option<seq<string>>): Json
  {
    if v.Some? then JStrList(v.value) else JNull
  }

  /** The JSON body a client sends for a request (None fields sent as null). */
  function Encode(req: RunAnalysisRequest): Body
  {
    map[
      Countries := JStrList(req.countries),
      MethodField := JStr(Value(req.analysisMethod)),
      DependentMetric := JStr(req.dependentMetric),
      BaseMetric := OptStrJson(req.baseMetric),
      ControlMetrics := OptStrListJson(req.controlMetrics),
      InstrumentMetrics := OptStrListJson(req.instrumentMetrics),
      ExogMetrics := OptStrListJson(req.exogMetrics),
      Entity := OptStrJson(req.entity),
      Time := OptStrJson(req.time),
      StartYear := JInt(req.startYear),
      EndYear := JInt(req.endYear)]
  }

  /** Validating the body of a request gives back that request. */
  lemma EncodeParseRoundTrip(req: RunAnalysisRequest)
    ensures ParseRequest(Encode(req)) == Ok(req)
  {
    ParseValueRoundTrip(req.analysisMethod);
    EncodeValid(req);
    EncodeOptional(req);
  }

  /** Every field of an encoded request has its declared type. */
  lemma EncodeValid(req: RunAnalysisRequest)
    ensures InvalidFields(Encode(req)) == {}
  {
    var body := Encode(req);
    ParseValueRoundTrip(req.analysisMethod);
    forall f: Field ensures FieldValid(body, f) {
    }
  }

  /** The optional fields read back as they were, None included. */
  lemma EncodeOptional(req: RunAnalysisRequest)
    ensures var body := Encode(req);
      && OptStr(body, BaseMetric) == req.baseMetric
      && OptStr(body, Entity) == req.entity
      && OptStr(body, Time) == req.time
      && OptStrList(body, ControlMetrics) == req.controlMetrics
      && OptStrList(body, InstrumentMetrics) == req.instrumentMetrics
      && OptStrList(body, ExogMetrics) == req.exogMetrics
  {
  }

  /** `RunAnalysisResponse`. */
  datatype RunAnalysisResponse = RunAnalysisResponse(
    analysisMethod: MethodEnum,
    params: map<string, real>,
    pvalues: map<string, real>,
    rSquared: Option<real>,
    summary: string)

  /**
   * Validation of a handler's return value against `RunAnalysisResponse`: the
   * `method` label must be a selector value; anything else is a validation error.
   */
  function ValidateResponse(methodLabel: string, params: map<string, real>, pvalues: map<string, real>,
                            rSquared: Option<real>, summary: string): (r: Option<RunAnalysisResponse>)
    ensures r.Some? <==> methodLabel in {"OLS", "2SLS", "FE", "RE"}
    ensures r.Some? ==> Value(r.value.analysisMethod) == methodLabel && r.value.params == params
                        && r.value.pvalues == pvalues && r.value.rSquared == rSquared
                        && r.value.summary == summary
  {
    match ParseMethod(methodLabel)
    case None => None
    case Some(m) => Some(RunAnalysisResponse(m, params, pvalues, rSquared, summary))
  }

  /** The panel labels the estimators report are not selector values, so a response carrying them is rejected. */
  lemma PanelLabelsRejected(params: map<string, real>, pvalues: map<string, real>, rSquared: Option<real>, summary: string)
    ensures ValidateResponse("Fixed Effects", params, pvalues, rSquared, summary).None?
    ensures ValidateResponse("Random Effects", params, pvalues, rSquared, summary).None?
  {
  }
}
