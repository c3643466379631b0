# Econometric analysis backend: dispatcher, analysis endpoint, upload cleanup, popular studies

This project models the request-handling core of a FastAPI backend for econometric studies and proves properties of that model in Dafny.

- **Schemas** (`schemas.dfy`) covers two things:
  - the closed method selector `MethodEnum`, whose values are "OLS", "2SLS", "FE" and "RE";
  - validation of the analysis request, whose optional fields default to None, and of the analysis response, whose `method` must be a selector value.
- **Econometrics** (`econometrics.dfy`) covers `perform_analysis`:
  - It lower-cases the method name.
  - It picks one of four branches.
  - It checks that the keyword arguments that branch needs are present as keys.
  - It assembles the regression design the wrapper hands to its estimator: the column selection, the added constant, and the panel index.
  - It attaches the label the wrapper reports.
  - The estimators themselves are one injected function.
- **AnalysisEndpoint** (`run_analysis.dfy`) covers the `/run-analysis/` handler:
  - collecting the metric names;
  - rejecting unknown names with status 400;
  - inverting the metric table into indicator code → metric name;
  - passing the countries and years to the data source;
  - calling the dispatcher with the method value and seven keywords (dependent_var, base_var, control_vars, instrument_vars, exog_vars, entity, time);
  - validating the returned dictionary against the response model.
- **UploadCleanup** (`upload.dfy`) covers the loop in `upload_dataset` that turns float NaN values, and strings that read "nan", into None.
- **Popularity** (`popularity.dfy`) covers `popular_studies`:
  - Every stored study is grouped under a canonical key: method, dependent metric, base metric and the sorted metric list.
  - The groups are counted in a `Counter`.
  - The `top_n` most common groups are returned with their counts.
- **Strings** (`strings.dfy`) holds the string operations the above rely on:
  - Python's `strip` over its whitespace set;
  - ASCII `lower`;
  - code-point ordering;
  - `sorted` on a list of strings.
- **Common** (`common.dfy`) holds `Option` and `Result`.

A consequence proved here: the estimators label panel results "Fixed Effects" and "Random Effects". Those labels are not `MethodEnum` values. So an FE or RE request never yields a response: when the estimator succeeds, response validation rejects the result (`AnalysisEndpoint.RunAnalysis`, `Schemas.PanelLabelsRejected`).

## Model

| member | source | states |
|---|---|---|
| Schemas.ParseMethod | backend/app/schemas.py:30-34 | A string validates as a method selector exactly when it equals one of the four values, and it then denotes that value. |
| Schemas.ParseValueRoundTrip | backend/app/schemas.py:30-34 | Every selector value parses back to itself, so the four values are distinct. |
| Schemas.ParseRequest | backend/app/schemas.py:37-55 | A body is accepted only if every field has its declared type. A rejection names exactly the failing fields, and there is at least one. |
| Schemas.RequiredFieldMissing | backend/app/schemas.py:38-40 | A body missing countries, method, dependent_metric, start_year or end_year is rejected, and the rejection names that field. |
| Schemas.OptionalFieldDefaults | backend/app/schemas.py:43-52 | An optional field absent from an accepted body is None in the request. |
| Schemas.ParseRequestValues | backend/app/schemas.py:37-55 | For any accepted body, the request's values are the body's: each non-null value reappears under its key in the request's JSON form, and each absent or null optional field is None. |
| Schemas.EncodeParseRoundTrip | backend/app/schemas.py:37-55 | Validating the JSON body of any request gives back that same request, None fields included. |
| Schemas.ValidateResponse | backend/app/schemas.py:58-63 | A result validates as a response if and only if its method label is a selector value. Every other field is copied unchanged. |
| Schemas.PanelLabelsRejected | backend/app/schemas.py:58-59 | Results labelled "Fixed Effects" or "Random Effects" fail response validation. |
| Econometrics.FirstMissing | backend/app/econometrics.py:84-86 | Returns the index of the first required name that is not a key, with all earlier names present. Returns None exactly when all are present. |
| Econometrics.PerformAnalysis | backend/app/econometrics.py:65-117 | A failed check is returned as is, without calling the estimator. A success carries the label of its branch, which is one of the four wrapper labels. Otherwise the estimator's fit, or its failure, is passed through. |
| Econometrics.DispatchIgnoresCase | backend/app/econometrics.py:73 | Two method names that lower-case to the same known method are dispatched identically. |
| Econometrics.MixedCaseOls | backend/app/econometrics.py:73-74 | "OLS", "ols" and "Ols" select the same branch with the same outcome. |
| Econometrics.UnknownMethodRejected | backend/app/econometrics.py:116-117 | A name is rejected as unknown, quoted as given, if and only if its lower-case form is none of ols, 2sls, fe, re. |
| Econometrics.OlsValidation | backend/app/econometrics.py:74-82 | OLS fails its check iff dependent_var or base_var is not a key.<br>An absent control_vars means no controls.<br>A control list gives the constant, then the base column, then the controls in order.<br>A None or str control value is the TypeError of the wrapper's list concatenation at econometrics.py:9, naming that type. |
| Econometrics.TslsValidation | backend/app/econometrics.py:83-86 | 2SLS fails naming required parameter i iff that is the first of dependent_var, base_var, instrument_vars that is missing. |
| Econometrics.TslsAssembly | backend/app/econometrics.py:22-27 | With the required keys present, 2SLS is called as follows:<br>- the exogenous design is the constant plus the control_vars selection, which defaults to the empty list;<br>- base_var is endogenous;<br>- instrument_vars are the instruments. |
| Econometrics.PanelValidation | backend/app/econometrics.py:94-108 | FE/RE fails naming required parameter i iff that is the first of dependent_var, exog_vars, entity, time that is missing. The message names "FE" or "RE" by branch. |
| Econometrics.PanelRequiresExog | backend/app/econometrics.py:95-97 | A panel call without exog_vars always fails with a missing-parameter error. |
| Econometrics.PanelAssembly | backend/app/econometrics.py:37-55 | With the required keys present, the panel estimator is indexed by (entity, time), with the constant plus exog_vars as regressors. It uses entity fixed effects for fe and random effects for re. |
| Econometrics.PresenceNotValue | backend/app/econometrics.py:73-115 | Replacing the value of a key that is present never changes whether a missing-parameter error is raised, nor which one. The checks look at presence, not value. |
| Econometrics.FirstMissingKeysOnly | backend/app/econometrics.py:84-86 | The first missing parameter depends only on the set of keys. |
| Econometrics.FailsBeforeEstimation | backend/app/econometrics.py:65-117 | When a check fails, the result does not depend on the estimator: no estimator is run. |
| Econometrics.ResultLabel | backend/app/econometrics.py:8-62 | A successful analysis is labelled by the lower-cased method name: "OLS", "2SLS", "Fixed Effects" or "Random Effects". |
| UploadCleanup.CleanRecords | backend/app/main.py:98-109 | One cleaned row per record, in order; each is the record with every missing marker replaced by None. |
| UploadCleanup.CleanKeepsColumns | backend/app/main.py:101-108 | A cleaned row has the same column names as the record, in the same order. |
| UploadCleanup.CleanValueRule | backend/app/main.py:103-108 | A value becomes None exactly when it is a float NaN or a string whose stripped, lower-cased text is "nan". Every other value is kept unchanged. |
| UploadCleanup.CleanIdempotent | backend/app/main.py:103-108 | Cleaning a cleaned row changes nothing. |
| UploadCleanup.PaddedNanIsMissing | backend/app/main.py:105 | "nan" in any letter case, padded on both sides by any Python whitespace, is a missing marker. |
| UploadCleanup.NanExamples | backend/app/main.py:103-106 | " NaN " and a float NaN are both replaced. |
| UploadCleanup.KeptExamples | backend/app/main.py:103-108 | "banana" and a finite float are kept. |
| AnalysisEndpoint.CollectNames | backend/app/main.py:141-146 | Computes the requested-name set; None where `names.update(None)` raises. |
| AnalysisEndpoint.NamesContents | backend/app/main.py:141-146 | The set exists iff all three lists are present. It then holds the dependent metric, a non-empty base metric and every listed metric, and nothing else. |
| AnalysisEndpoint.FalsyBaseLeftOut | backend/app/main.py:142-143 | An empty base metric is not collected unless another field names it. |
| AnalysisEndpoint.BuildIndicators | backend/app/main.py:153 | The keys of the inverted table are exactly the codes of the names, and each code maps back to a name that has that code. When the table is one-to-one on the names, every name is recovered from its code. |
| AnalysisEndpoint.EnumSelectsOneBranch | backend/app/main.py:164 | Each selector value, lower-cased, selects its own dispatcher branch, and distinct values select distinct branches. |
| AnalysisEndpoint.HandlerPassesValidation | backend/app/main.py:162-172 | Once names are collected, every dispatcher check passes, because every keyword is passed, as None when absent. The exact estimator call for each method is given. |
| AnalysisEndpoint.HandlerLabel | backend/app/main.py:162-173 | The dispatcher's label is a selector value iff the method is OLS or 2SLS, and it is then the requested value. |
| AnalysisEndpoint.Respond | backend/app/main.py:162-173 | The outcome is fixed by the estimator's result on the planned call:<br>- an estimator error e gives an analysis failure carrying e;<br>- a fit for OLS or 2SLS gives a response with the requested method and the fit's params, p-values, R² and summary;<br>- a fit for FE or RE is rejected by response validation, naming the panel label. |
| AnalysisEndpoint.RunAnalysis | backend/app/main.py:138-173 | It ends in one of these outcomes:<br>- a TypeError when a metric list is None;<br>- status 400 naming exactly the unknown metrics;<br>- otherwise the data source is called with an inverted table (its keys are exactly the names' codes, each mapping back to a name with that code) and the request's countries and years; its failure ends the request, and its data goes to `Respond`, which decides the rest. |
| Strings.StripPadded | backend/app/main.py:105 | `strip` removes exactly the whitespace padding around a core that starts and ends with non-space characters. |
| Strings.SortCanonical | backend/app/main.py:213 | Two lists sort to the same list iff they are permutations of each other. |
| Popularity.SameGroup | backend/app/main.py:209-214 | Two studies share a group key iff they agree on method, dependent metric and base metric, and their metric lists are permutations of each other. A missing list is the same as an empty list. |
| Popularity.PopularStudies | backend/app/main.py:205-217 | The counting loop followed by `most_common` yields the top groups of the tally of the records' keys. |
| Popularity.TalliedKeys | backend/app/main.py:208-215 | Every counted group occurs at least once, and no group is counted twice. |
| Popularity.TalliedTotal | backend/app/main.py:208-215 | The counts add up to the number of studies. |
| Popularity.MostCommon | backend/app/main.py:217 | Returns min(n, number of groups) entries, none when n ≤ 0. They are drawn from the tally, ordered by count from largest, and no omitted group outnumbers a kept one. |
| Popularity.PopularCounts | backend/app/main.py:217-223 | Every answered group has a count of at least 1, equal to the number of studies with that key. |
| Popularity.PopularOmitted | backend/app/main.py:217-223 | A study whose group is not answered belongs to a group no larger than any answered group. |
| Popularity.PopularBounds | backend/app/main.py:203-217 | At most `top_n` groups are answered, and none when `top_n` ≤ 0. The answer is ordered by count, and the counts add up to at most the number of studies. |

## Left out

- The estimators (statsmodels OLS, linearmodels IV2SLS, PanelOLS and RandomEffects) are not modelled. Nor is pandas column selection inside the wrappers. Both are one injected function from the data and the planned call to a fit or an error.
  - Missing columns, singular designs and similar failures are that function's errors.
  - `add_constant`'s rule of skipping a constant that is already present is part of that function as well.
- econometrics.py:118-158 is dead code and is not modelled. It follows the if/elif/else of `perform_analysis`, whose every branch returns or raises. It holds a string literal (118-124) and a second copy of the dispatch without the presence checks (125-158).
- `METRIC_MAP` comes from backend/app/indicator_map.py, which is not part of this model. The handler takes the table as a parameter.
- `fetch_world_bank_data` (network access, and its pandas post-processing in world_bank.py) is a parameter of `AnalysisEndpoint.RunAnalysis` that returns the data or an error; which inputs make it fail is not modelled. As written, world_bank.py:22-23 renames the `country` column and then reads `df["country"]`, which would make every call fail; the model leaves that to the parameter.
- Database access is replaced by sequences of records given as inputs: the stored studies for popular studies, and the parsed rows for the upload.
- Popularity.PopularStudies: the stored studies are an input sequence. As written, main.py:205 queries `models.StudyResult`, which models.py does not define (it defines `Study`, with differently named columns), so that line would raise AttributeError and end every `/popular-studies/` call with status 500. The model describes the grouping and counting the handler evidently intends. The default `top_n = 10` (main.py:204) is the caller's choice of `topN` and is not modelled.
- Authentication, JWT handling, registration and the other endpoints are not modelled, because they lie outside the analysis and upload paths. The same goes for the ORM models and the frontend.
- File parsing (CSV/Excel into records) is not modelled, nor is storing the cleaned rows. Only the cleanup loop is.
- Strings.Lower: only ASCII letters are lower-cased. Python's `str.lower` also folds non-ASCII letters.
  - This affects the method name only when a non-ASCII letter lowers into one of ols, 2sls, fe, re. No such letter exists, so the dispatch decision is unaffected.
  - It affects the "nan" test in the same way.
- Schemas.ParseRequest: request validation models only the declared types.
  - Pydantic's coercions are not modelled, for example a numeric string accepted as an int.
  - Keys outside the request model are ignored.
  - The rejection is reported as the set of failing fields, not pydantic's error list.
- Popularity.PopularStudies: the `json.dumps(..., sort_keys=True)` group key is represented by its four fields.
  - This serialisation is one-to-one, so the grouping is the same.
  - The `**json.loads(key)` answer is the entry's key fields plus its count.
- Popularity.MostCommon: ties are broken by first-insertion order, because the model uses a stable sort. No lemma states that tie order.
- AnalysisEndpoint.BuildIndicators: when two names share one indicator code, the name that survives depends on Python's set iteration order. The contract states only that one of them does. Full inversion is stated for a table that is one-to-one on the names.
- UploadCleanup.CleanRecords: a cell is a float (NaN, infinite or finite), an int, a bool, a str, None or an opaque other value. Floating-point values beyond NaN/not-NaN are not modelled.
- AnalysisEndpoint.Respond: an estimator's params, p-values and R² are modelled as finite reals. A NaN or infinite value in a fit is not modelled, for example the NaN p-values statsmodels reports when no residual degrees of freedom remain. Neither is what JSON rendering then does with it: a server error or null, depending on library versions.
- The FastAPI status codes are modelled only as 400 for unknown metrics and 500 for every exception.
