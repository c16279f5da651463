# Kibana: table pivot, field predicates, index-pattern validation, OIDC implicit flow, y-axis scale rules

A Dafny model of five small pieces of Kibana, with proofs of what their code
and their test suites promise.

- **Table pivot processor** (`table_pivot.dfy`, module `TablePivot`). This is the
  `pivot` request processor of the time-series table visualization. It
  rewrites the search request document in place.
  - Without a pivot field, it installs a `match_all` filter.
  - With a pivot field, it installs a `terms` aggregation.
  - When the table is sorted, it orders the terms in one of three ways: by
    document count, by a synthetic `<metric id>-SORT` aggregation, or by key.
  - It then hands the same document to the next processor.

  The document is a class whose field is a map from dotted paths to values.
  `overwrite` is a method of that class. The processor is a method proved
  against a function (`Pivoted`) that gives the document after the run. The
  imported helpers `getBucketsPath`, `bucketTransform` and `basicAggs` are
  parameters.
- **Field predicates** (`field_utils.dfy`, module `FieldUtils`). These are
  `isFilterable` and `isNestedField`. The filterable-types list from the
  field-types library is a parameter.
- **Index-pattern validation** (`index_pattern_validation.dfy`, module
  `IndexPatternValidation`). This is `validateDataView` as its test suite
  describes it. It returns an error map holding a key only for a check that
  fails. The list of illegal characters is a parameter.
- **OpenID Connect implicit flow** (`oidc_implicit_flow.dfy`, module
  `OidcImplicitFlow`, and `uri_component.dfy`, module `UriComponent`). This is
  the login, relay and callback handshake of OpenID Connect Core 1.0, section
  3.2, as the integration test pins it down.
  - Percent-encoding follows section 2.1 of RFC 3986, as `encodeURIComponent`
    does it, with UTF-8 and upper-case hex digits.
  - Query strings are decoded with `+` as a space.
  - The browser is a class with a location and a cookie jar.
- **Y-axis scale rules** (`axis_scale.dfy`, module `AxisScale`). These are the
  rules the vislib y-axis tests state:
  - the axis configuration, changed in place with `set`;
  - `validateAxisExtents` and `validateUserExtents`;
  - `logDomain`;
  - `getD3Scale` by name;
  - the domain and range of the y scale.

  Numbers are exact reals.

`wrappers.dfy` holds the `Option` and `Result` types.

## Model

Source paths are relative to the repository root.

| member | source | states |
|---|---|---|
| FieldUtils.IsFilterable | src/plugins/data/common/index_patterns/fields/utils.ts:14-20 | `isFilterable`: a field is filterable when it is `_id`, when it is scripted, or when it is searchable and its type is a filterable type. The three lemmas below state each case. |
| FieldUtils.IsNestedField | src/plugins/data/common/index_patterns/fields/utils.ts:22-24 | `isNestedField`: a field is nested when it has a sub-type with a `nested` part. `NestedFieldIff` states each case. |
| FieldUtils.IdFieldIsFilterable | src/plugins/data/common/index_patterns/fields/utils.ts:16 | A field named `_id` is filterable whatever its other attributes. |
| FieldUtils.ScriptedFieldIsFilterable | src/plugins/data/common/index_patterns/fields/utils.ts:17 | A scripted field is filterable whatever its type or searchability. |
| FieldUtils.OrdinaryFieldFilterableIff | src/plugins/data/common/index_patterns/fields/utils.ts:14-20 | A field that is neither `_id` nor scripted is filterable if and only if it is searchable and its type is in the filterable-types set. |
| FieldUtils.UnsearchableFieldNotFilterable | src/plugins/data/common/index_patterns/fields/utils.ts:14-20 | A non-searchable, non-scripted field not named `_id` is never filterable. |
| FieldUtils.NestedFieldIff | src/plugins/data/common/index_patterns/fields/utils.ts:22-24 | A missing sub-type gives false. A sub-type with a `nested` part gives true, whatever its `multi` part. A sub-type without one gives false. |
| IndexPatternValidation.IllegalCharactersIn | src/plugins/data/common/index_patterns/lib/validate_index_pattern.test.ts:20-25 | A character is found if and only if it is listed as illegal and occurs in the pattern. Nothing is found if and only if no illegal character occurs. The result has no repeats when the list has none. |
| IndexPatternValidation.ValidateDataView | src/plugins/data/common/index_patterns/lib/validate_index_pattern.test.ts:15-29 | The contains-spaces key is present if and only if the pattern has a space, and its value is `true`. The illegal-characters key is present if and only if an illegal character occurs, and its value lists those characters. |
| IndexPatternValidation.SpaceIsReported | src/plugins/data/common/index_patterns/lib/validate_index_pattern.test.ts:15-18 | A pattern with a space has the contains-spaces error set to true. |
| IndexPatternValidation.OnlyIllegalCharacterFound | src/plugins/data/common/index_patterns/lib/validate_index_pattern.test.ts:20-25 | When `c` is the only listed character in the pattern, and the list has no repeats, exactly `[c]` is found. |
| IndexPatternValidation.TrailingIllegalCharacterReported | src/plugins/data/common/index_patterns/lib/validate_index_pattern.test.ts:20-25 | For each illegal character `c`, `"pattern" + c` reports the illegal-characters list `[c]`. |
| IndexPatternValidation.CleanIffNoErrors | src/plugins/data/common/index_patterns/lib/validate_index_pattern.test.ts:27-29 | The error map is empty if and only if the pattern has no space and no illegal character. |
| IndexPatternValidation.MyPatternIsClean | src/plugins/data/common/index_patterns/lib/validate_index_pattern.test.ts:27-29 | When `my-pattern-*` gives an empty error map, as the test expects, neither `-` nor `*` nor any other of its characters is on the illegal list. |
| TablePivot.Overwritten | src/plugins/vis_type_timeseries/server/lib/vis_data/request_processors/table/pivot.ts:20 | After `overwrite(doc, path, value)`, the path holds the value. Nothing below the path is left. Every key outside the path keeps its presence and value. |
| TablePivot.RequestDoc.Overwrite | src/plugins/vis_type_timeseries/server/lib/vis_data/request_processors/table/pivot.ts:20 | Updates the document in place to `Overwritten` of its old contents. |
| TablePivot.FindSeries | src/plugins/vis_type_timeseries/server/lib/vis_data/request_processors/table/pivot.ts:23 | `find` gives the first series whose id equals the sort column. No earlier series matches. The result is past the end when none matches. |
| TablePivot.ReplaceFirst | src/plugins/vis_type_timeseries/server/lib/vis_data/request_processors/table/pivot.ts:30 | `replace` with a string pattern: the first occurrence of the pattern is replaced. `ReplaceFirstAtIndexOf` and `IndexOfIsFirst` state where that occurrence is. |
| TablePivot.IndexOfIsFirst | src/plugins/vis_type_timeseries/server/lib/vis_data/request_processors/table/pivot.ts:30 | The occurrence `replace` acts on is the first one. None lies before it, and with no result there is none at all. |
| TablePivot.ReplaceFirstAtIndexOf | src/plugins/vis_type_timeseries/server/lib/vis_data/request_processors/table/pivot.ts:30 | `replace` with a string pattern splices the replacement in at the first occurrence. Without an occurrence, the string is unchanged. |
| TablePivot.SortMetric | src/plugins/vis_type_timeseries/server/lib/vis_data/request_processors/table/pivot.ts:23-24 | `last(series.metrics)` of the series `find` gives: there is one exactly when the first series whose id is the sort column exists and has metrics. It is then that series with its last metric. When no series has the sort column's id, there is none. |
| TablePivot.ChooseOrder | src/plugins/vis_type_timeseries/server/lib/vis_data/request_processors/table/pivot.ts:25-36 | The ordering branch: by count only when the sort metric is `count`; by a metric only when it is a non-count basic aggregation of the series the sort column names; by key when there is no sort metric. |
| TablePivot.PivotPlan | src/plugins/vis_type_timeseries/server/lib/vis_data/request_processors/table/pivot.ts:19-41 | The overwrites the processor makes, in order: one to four of them, each to `terms.field`, `terms.size`, `terms.order`, `aggs.pivot.aggs` or `match_all`. It stops before `next` only for a sorted pivot table. |
| TablePivot.Pivoted | src/plugins/vis_type_timeseries/server/lib/vis_data/request_processors/table/pivot.ts:16-44 | The document after the run. Every key outside `aggs.pivot.terms`, `aggs.pivot.aggs` and the `match_all` filter keeps its presence and value. |
| TablePivot.Pivot | src/plugins/vis_type_timeseries/server/lib/vis_data/request_processors/table/pivot.ts:16-44 | The document is changed in place to `Pivoted` of its old contents, and the same document is passed to `next`. `next`'s result is returned whenever the run completes. Otherwise the result is the missing-transform error. |
| TablePivot.NoPivotIdInstallsMatchAll | src/plugins/vis_type_timeseries/server/lib/vis_data/request_processors/table/pivot.ts:39-41 | Without a pivot field, `match_all` becomes `{}`. Every other key, and everything under `aggs.pivot.terms`, is untouched. |
| TablePivot.PivotIdInstallsTerms | src/plugins/vis_type_timeseries/server/lib/vis_data/request_processors/table/pivot.ts:19-21 | With a pivot field, `terms.field` is the pivot field and `terms.size` is the pivot row count. The `match_all` filter is untouched. |
| TablePivot.UnsortedPivotWritesNoOrder | src/plugins/vis_type_timeseries/server/lib/vis_data/request_processors/table/pivot.ts:22 | With a pivot field and no sort, only `terms.field` and `terms.size` change. No `order` or `aggs.pivot.aggs` entry is written. |
| TablePivot.CountMetricOrdersByCount | src/plugins/vis_type_timeseries/server/lib/vis_data/request_processors/table/pivot.ts:23-26 | When the sorted column's last metric is `count`, the order is `{_count: sort.order}`. `aggs.pivot.aggs` and every key outside `terms.field`, `terms.size` and `terms.order` are untouched. |
| TablePivot.BasicMetricOrdersBySortAgg | src/plugins/vis_type_timeseries/server/lib/vis_data/request_processors/table/pivot.ts:27-32 | For a basic, non-count metric, the order maps the rewritten bucket path to `sort.order`. `aggs.pivot.aggs` maps `<id>-SORT` to the bucket transform of the metric. Every key outside those two paths, `terms.field` and `terms.size` is untouched. |
| TablePivot.SortBucketPathReplacesFirstId | src/plugins/vis_type_timeseries/server/lib/vis_data/request_processors/table/pivot.ts:28-30 | The order key is the bucket path with its first occurrence of the metric id replaced by `<id>-SORT`. |
| TablePivot.OtherwiseOrdersByKey | src/plugins/vis_type_timeseries/server/lib/vis_data/request_processors/table/pivot.ts:33-36 | With no matching series, no metric, or a metric that is neither `count` nor basic, the order is `{_key: sort.order}`, with `asc` when the order is absent. `aggs.pivot.aggs` and every key outside `terms.field`, `terms.size` and `terms.order` are untouched. |
| TablePivot.CompletesIffTransformFound | src/plugins/vis_type_timeseries/server/lib/vis_data/request_processors/table/pivot.ts:29-32 | The processor stops before `next` if and only if the sort needs a bucket transform that the table lacks. It always completes when every basic aggregation has one. |
| UriComponent.Encode | x-pack/test/security_api_integration/tests/oidc/implicit_flow/oidc_auth.ts:88-90 | `encodeURIComponent`: unreserved characters stay, every other character becomes `%XX` for each of its UTF-8 bytes, with upper-case hex digits. `EncodeChars`, `EncodeUnreserved`, `EncodeAppend` and `EncodeDecodeRoundTrip` state its properties. |
| UriComponent.Decode | x-pack/test/security_api_integration/tests/oidc/implicit_flow/oidc_auth.ts:76-79 | Decoding a query-string value: `%XX` is a byte, `+` is a space, and the bytes are read as UTF-8. `EncodeDecodeRoundTrip` states that it inverts `Encode`. |
| UriComponent.Utf8RoundTrip | x-pack/test/security_api_integration/tests/oidc/implicit_flow/oidc_auth.ts:88-90 | Decoding UTF-8 gives back any encoded string. |
| UriComponent.EncodeChars | x-pack/test/security_api_integration/tests/oidc/implicit_flow/oidc_auth.ts:77-79 | `encodeURIComponent` output holds only unreserved characters and `%`. So it has no `#`, `&`, `=` or `?`, and stays one query value. |
| UriComponent.EncodeDecodeRoundTrip | x-pack/test/security_api_integration/tests/oidc/implicit_flow/oidc_auth.ts:88-90 | Decoding a query value gives back exactly what `encodeURIComponent` encoded. |
| OidcImplicitFlow.ParamHere | x-pack/test/security_api_integration/tests/oidc/implicit_flow/oidc_auth.ts:31-32 | The first `name=value` parameter of a query is read back as the decoded value. |
| OidcImplicitFlow.ParamSkip | x-pack/test/security_api_integration/tests/oidc/implicit_flow/oidc_auth.ts:84 | A parameter with another name is passed over. |
| OidcImplicitFlow.UrlParts | x-pack/test/security_api_integration/tests/oidc/implicit_flow/oidc_auth.ts:31-32 | In `prefix?query#fragment`, the query and the fragment are found as written. |
| OidcImplicitFlow.RedirectTarget | x-pack/test/security_api_integration/tests/oidc/implicit_flow/oidc_auth.ts:31-32 | The URL a capture URL returns to: its decoded `next` query parameter followed by its fragment, or none without `next`. `RedirectTargetOfCaptureURL` states it for every capture URL of the test's shape. |
| OidcImplicitFlow.RedirectTargetOfCaptureURL | x-pack/test/security_api_integration/tests/oidc/implicit_flow/oidc_auth.ts:132-135 | The redirect target of a capture URL is its `next` parameter, decoded once, followed by the capture URL's fragment. |
| OidcImplicitFlow.RelayTarget | x-pack/test/security_api_integration/tests/oidc/implicit_flow/oidc_auth.ts:76-79 | The relay script's target: the callback path with the current href, percent-encoded, as `authenticationResponseURI`. `RelayRoundTrip` states that the callback reads the href back. |
| OidcImplicitFlow.RelayRoundTrip | x-pack/test/security_api_integration/tests/oidc/implicit_flow/oidc_auth.ts:76-79 | The relay URL carries the whole current href, fragment included, in `authenticationResponseURI`, and the callback reads it back exactly. The relay URL has no fragment left. |
| OidcImplicitFlow.AuthenticationResponseParams | x-pack/test/security_api_integration/tests/oidc/implicit_flow/oidc_auth.ts:84 | The ID token and the state of the identity provider's response are read back from its fragment. |
| OidcImplicitFlow.RelayPage | x-pack/test/security_api_integration/tests/oidc/implicit_flow/oidc_auth.ts:67-74 | The relay page is a 200 served as `text/html; charset=utf-8`, with `private, no-cache, no-store, must-revalidate` and the fixed CSP. |
| OidcImplicitFlow.LoginFailedPage | x-pack/test/security_api_integration/tests/oidc/implicit_flow/oidc_auth.ts:92-97 | A failure is a 401 with the fixed CSP, sets no cookie, and its body contains "We couldn&#x27;t log you in". |
| OidcImplicitFlow.SameContentSecurityPolicy | x-pack/test/security_api_integration/tests/oidc/implicit_flow/oidc_auth.ts:72-74 | The relay page and the failure page carry the same CSP. |
| OidcImplicitFlow.Login | x-pack/test/security_api_integration/tests/oidc/implicit_flow/oidc_auth.ts:24-38 | Login always answers 200. The request and the handshake cookie carry the issued state and nonce. The cookie carries the capture URL's redirect target, or the default location when it has none. |
| OidcImplicitFlow.CallbackAccepted | x-pack/test/security_api_integration/tests/oidc/implicit_flow/oidc_auth.ts:100-135 | The callback's checks: the handshake cookie is sent, the response URI is present, its fragment's `state` equals the cookie's, and its `id_token` verifies and carries the cookie's nonce. `Callback` and `HandshakeOutcome` state their effect. |
| OidcImplicitFlow.Callback | x-pack/test/security_api_integration/tests/oidc/implicit_flow/oidc_auth.ts:119-144 | The status is 302 if and only if the cookie is there, the state matches, and the ID token carries the nonce. A 302 goes to the recorded URL and sets exactly one cookie: `sid`, non-empty, path `/`, httpOnly. Anything else, including a missing cookie, gets the failure page. |
| OidcImplicitFlow.HandshakeOutcome | x-pack/test/security_api_integration/tests/oidc/implicit_flow/oidc_auth.ts:100-135 | After login and the relay, the callback with the cookie succeeds if and only if the returned state is the issued one and the ID token carries the issued nonce. It then redirects to the login's return URL: the redirect target, or the default location. |
| OidcImplicitFlow.UserAgent.LogIn | x-pack/test/security_api_integration/tests/oidc/implicit_flow/oidc_auth.ts:24-38 | Login stores the handshake cookie. The location and the session cookie are unchanged. |
| OidcImplicitFlow.UserAgent.Navigate | x-pack/test/security_api_integration/tests/oidc/implicit_flow/oidc_auth.ts:53-54 | The browser's location becomes the identity provider's response URL. The cookies are unchanged. |
| OidcImplicitFlow.UserAgent.RunRelayScript | x-pack/test/security_api_integration/tests/oidc/implicit_flow/oidc_auth.ts:55-58 | `location.replace` sets the location to the relay URL of the old location. |
| OidcImplicitFlow.UserAgent.RequestCallback | x-pack/test/security_api_integration/tests/oidc/implicit_flow/oidc_auth.ts:119-144 | The response is `Callback` for the current location, with or without the handshake cookie. A 302 stores the session cookie and moves to the redirect location. A failure changes nothing. |
| OidcImplicitFlow.RunImplicitFlow | x-pack/test/security_api_integration/tests/oidc/implicit_flow/oidc_auth.ts:82-135 | A browser ends with a session cookie if and only if the handshake cookie was sent, the state matched and the nonce matched. It is then at the initiating URL's redirect target, or at the default location. |
| AxisScale.AxisConfig.Get | src/plugins/vis_types/vislib/public/vislib/lib/axis/y_axis.test.js:234-235 | A configuration value is present exactly when its path is set. |
| AxisScale.AxisConfig.Set | src/plugins/vis_types/vislib/public/vislib/lib/axis/y_axis.test.js:234-235 | `axisConfig.set` changes the one path in place. |
| AxisScale.AxisConfig.IsPercentage | src/plugins/vis_types/vislib/public/vislib/lib/axis/y_axis.test.js:250 | The axis is in percentage mode when `scale.mode` is `percentage`. `ValidateUserExtents` states its effect. |
| AxisScale.AxisConfig.IsUserDefined | src/plugins/vis_types/vislib/public/vislib/lib/axis/y_axis.test.js:235-251 | User extents are on when `scale.setYExtents` is `true`. `ValidateUserExtents` states its effect. |
| AxisScale.ValidateAxisExtents | src/plugins/vis_types/vislib/public/vislib/lib/axis/y_axis.test.js:271-289 | The extents are accepted if and only if min < max. `min == max` and `min > max` are each rejected with their own error. |
| AxisScale.AxisExtentsOfTests | src/plugins/vis_types/vislib/public/vislib/lib/axis/y_axis.test.js:272-288 | (12, 12) and (30, 10) are rejected. |
| AxisScale.ValidateUserExtents | src/plugins/vis_types/vislib/public/vislib/lib/axis/y_axis.test.js:240-268 | It succeeds if and only if every extent is a number, keeping the length. In percentage mode with user extents on, each result is the extent divided by 100; otherwise each result is the extent itself. A failure names the first extent that does not parse: text the parser rejects, with every extent before it parsed. |
| AxisScale.NonNumericExtentRejected | src/plugins/vis_types/vislib/public/vislib/lib/axis/y_axis.test.js:240-247 | Text that does not parse is rejected wherever it stands. |
| AxisScale.UserExtentsOfTests | src/plugins/vis_types/vislib/public/vislib/lib/axis/y_axis.test.js:231-268 | For the axis the user-defined-values cases set up: the domain `["Not a number", 12]` is rejected, 20 and 50 come back unchanged, and after setting percentage mode and user extents, 20 and 80 become 0.2 and 0.8. |
| AxisScale.LogDomain | src/plugins/vis_types/vislib/public/vislib/lib/axis/y_axis.test.js:311-327 | The domain is accepted if and only if min >= 0 and max > 0. The lower bound is min raised to at least 1, and the upper bound is max. |
| AxisScale.LogDomainOfTests | src/plugins/vis_types/vislib/public/vislib/lib/axis/y_axis.test.js:312-327 | (-10, -5), (-10, 5) and (0, -5) are rejected. (0, 200) gives a lower bound of 1. |
| AxisScale.ScaleName | src/plugins/vis_types/vislib/public/vislib/lib/axis/y_axis.test.js:293-301 | No name, or an empty one, means `linear`. `square root` means `sqrt`. Any other name is itself. |
| AxisScale.GetD3Scale | src/plugins/vis_types/vislib/public/vislib/lib/axis/y_axis.test.js:292-308 | It succeeds if and only if d3 has a scale by the resolved name, and then gives that scale. Otherwise it fails with that name. |
| AxisScale.D3ScaleOfTests | src/plugins/vis_types/vislib/public/vislib/lib/axis/y_axis.test.js:292-308 | `linear`, `log`, `square root` and no name are accepted. `square` is rejected. |
| AxisScale.MinWithZero | src/plugins/vis_types/vislib/public/vislib/lib/axis/y_axis.test.js:190-207 | The bottom of the domain is at most 0, at most every value, and either 0 or one of the values. |
| AxisScale.MaxWithZero | src/plugins/vis_types/vislib/public/vislib/lib/axis/y_axis.test.js:173-187 | The top of the domain is at least 0, at least every value, and either 0 or one of the values. |
| AxisScale.GetYScale | src/plugins/vis_types/vislib/public/vislib/lib/axis/y_axis.test.js:143-229 | The domain contains 0 and every value. The range runs from the height to 0. |
| AxisScale.YScaleDomainTight | src/plugins/vis_types/vislib/public/vislib/lib/axis/y_axis.test.js:181-228 | The top is positive if and only if some value is positive. The bottom is negative if and only if some value is negative. |

## Left out

- AxisScale.AxisConfig.Set: the configuration is a flat map from dotted paths. Setting a path does not clear or change the paths below it, such as `scale.mode` under `scale`, as setting a nested object would.
- AxisScale.UserExtentsOfTests: the non-number test at y_axis.test.js:245 passes `min` and `max` as two arguments where `validateUserExtents` takes one domain array. The test only expects a throw, which may come from the argument not being an array. The model reads that case as the domain `["Not a number", 12]`.
- AxisScale.ParseExtent: the axis's number parser is a parameter, since its code is not part of this model; which text it accepts, and how, is left to that parameter. The tests pass only integer extents and one non-numeric string. A numeric extent is passed through unchanged.
- **Nested documents in `overwrite`:** the request document is a flat map from dotted paths. Merging into objects stored at an ancestor path is not modelled.
- **`$` patterns in `replace`:** `String.prototype.replace` is modelled with a literal replacement string. `$` substitution patterns in the metric id are not modelled.
- **How often `next` runs:** `next` is a pure function of the document's contents. That it is called exactly once, and on the same object, is not observable in the model. The processor passes the document it updated in place.
- **Helper internals:** `getBucketsPath`, `bucketTransform`, `basicAggs` and `getFilterableKbnTypeNames` are parameters. Their own code is not part of this model.
- **Unseen implementations:** the code of `validateDataView` and of `AxisScale` is not part of this model. Both are modelled from what their tests assert.
  - The illegal-character list is a parameter.
  - `logDomain` with a maximum of exactly 0 is rejected. No test covers that case.
- **Crypto, randomness and page scripts:** ID-token signature checking is the parameter `idTokenNonce`. State, nonce and session-id generation are parameters. That the `sid` cookie's value is non-empty follows from the session id's type, which assumes the session store never issues an empty id; the model does not prove it. The relay script's run under JSDOM is the method `UserAgent.RunRelayScript`.
- **Backend user lookup:** `/internal/security/me` and its user and realm data are not modelled.
- **Sanitising the redirect target:** the server's check that `next` is an internal URL is not modelled. Without `next`, login returns to `defaultTarget`, a parameter standing for the server's root under its base path.
- **Lone surrogates:** `encodeURIComponent` throws on lone UTF-16 surrogates. Dafny characters are Unicode scalar values, so this case cannot arise.
- **The tests' literal URLs:** the general round trips are proved for all inputs (`RedirectTargetOfCaptureURL`, `RelayRoundTrip`, `EncodeDecodeRoundTrip`). The literals themselves are not: that the relay URL of the test's href equals the expected literal, or that the capture URL's `next` is the encoding of its path, is not evaluated character by character. `AuthenticationResponse` percent-encodes the ID token and the state, where the test puts them into the URL as written (`$someothervalue`, for one), so `HandshakeOutcome` describes the test's URLs only where those values are made of unreserved characters; the decoded values are the same either way.
- UriComponent.Decode: a value whose percent-escapes are not valid UTF-8 gives `None`. Kibana's query parsers substitute replacement characters instead.
- **Axis rendering:** `render`, `draw`, tick formatting, `tickScale` and `yMax` are DOM, d3 or floating-point behaviour.
- **Time and ordinal scales:** `getD3Scale` returns d3's time and ordinal scales for time and ordinal axes. That dispatch is not modelled.
- **The y domain:** it is the exact extent including 0. d3's rounding of the domain to nice values is not modelled.
- **NaN and floats:** numbers are exact reals, so there is no NaN. A non-number arises only from text that does not parse.
