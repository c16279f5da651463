/**
 * The `pivot` request processor of the time-series table visualization
 * (src/plugins/vis_type_timeseries/server/lib/vis_data/request_processors/table/pivot.ts).
 *
 * The processor rewrites the search request document in place: without a
 * pivot field it installs a match-all filter; with one it installs a `terms`
 * aggregation and, when the table is sorted, an ordering for it. It then
 * hands the same document to the next processor.
 *
 * The document is a map from dotted paths to values. The helpers the
 * processor imports (`getBucketsPath`, `bucketTransform`, `basicAggs`) are
 * parameters of the model.
 */
module TablePivot {
  import opened Wrappers

  /** A value stored in the request document. */
  datatype Value =
    | Undefined
    | Str(s: string)
    | Num(n: int)
    | Obj(fields: map<string, Value>)

  /** A metric of a series: its id and its aggregation type (`count`, `avg`, ...). */
  datatype Metric = Metric(id: string, metricType: string)

  datatype Series = Series(id: string, metrics: seq<Metric>)

  /** The panel attributes the processor reads; an absent `pivot_id` is `None`. */
  datatype Panel = Panel(pivotId: Option<string>, pivotRows: Value, series: seq<Series>)

  /** The table's sort state: the column (a series id) and `asc` / `desc`, either possibly absent. */
  datatype Sort = Sort(column: Option<string>, order: Option<string>)

  /**
   * The imported helpers: the list of basic aggregation types, the table of
   * bucket transforms by aggregation type, and `getBucketsPath`.
   */
  datatype Helpers = Helpers(
    basicAggs: set<string>,
    bucketTransform: map<string, Metric -> Value>,
    bucketsPath: (string, seq<Metric>) -> string)

  /**
   * The processor stops with this error when the transform table has no
   * entry for a basic aggregation type: calling the missing entry throws.
   */
  datatype PivotError = BucketTransformNotAFunction(metricType: string)

  const TERMS_FIELD: string := "aggs.pivot.terms.field"
  const TERMS_SIZE: string := "aggs.pivot.terms.size"
  const TERMS_ORDER: string := "aggs.pivot.terms.order"
  const TERMS: string := "aggs.pivot.terms"
  const PIVOT_AGGS: string := "aggs.pivot.aggs"
  const MATCH_ALL: string := "aggs.pivot.filter.match_all"
  const COUNT: string := "count"
  const SORT_SUFFIX: string := "-SORT"

  // ---------------------------------------------------------------------
  // Paths and `overwrite`
  // ---------------------------------------------------------------------

  /** `key` is `path` itself or a path below it. */
  predicate Within(key: string, path: string)
  {
    key == path || path + "." <= key
  }

  /**
   * The document after `overwrite(doc, path, value)`: the value at `path`
   * replaces whatever was there, including everything below it.
   */
  function Overwritten(entries: map<string, Value>, path: string, v: Value): (r: map<string, Value>)
    ensures path in r && r[path] == v
    ensures forall k :: k in r && Within(k, path) ==> k == path
    ensures forall k :: !Within(k, path) ==> (k in r <==> k in entries)
    ensures forall k :: !Within(k, path) && k in entries ==> r[k] == entries[k]
  {
    (map k | k in entries && !Within(k, path) :: entries[k])[path := v]
  }

  /** Two paths that differ at a position both have are disjoint: no key lies within both. */
  lemma DisjointPaths(a: string, b: string, i: nat)
    requires i < |a| && i < |b| && a[i] != b[i]
    ensures forall k :: !(Within(k, a) && Within(k, b))
  {
    forall k | Within(k, a)
      ensures !Within(k, b)
    {
      assert k[i] == a[i];
    }
  }

  /** The document after a sequence of overwrites, applied in order. */
  function ApplyWrites(entries: map<string, Value>, writes: seq<(string, Value)>): map<string, Value>
    decreases |writes|
  {
    if writes == [] then entries
    else ApplyWrites(Overwritten(entries, writes[0].0, writes[0].1), writes[1..])
  }

  // ---------------------------------------------------------------------
  // String helpers: `String.prototype.replace` with a string pattern
  // ---------------------------------------------------------------------

  /** `pat` occurs in `s` at position `i`. */
  predicate OccursAt(s: string, pat: string, i: nat)
  {
    i + |pat| <= |s| && s[i..i + |pat|] == pat
  }

  /** The position of the first occurrence of `pat` in `s` (`indexOf`), if any. */
  function IndexOf(s: string, pat: string): (r: Option<nat>)
    ensures r.Some? ==> OccursAt(s, pat, r.value)
    decreases |s|
  {
    if OccursAt(s, pat, 0) then Some(0)
    else if s == [] then None
    else
      match IndexOf(s[1..], pat)
      case None => None
      case Some(i) =>
        assert s[i + 1..i + 1 + |pat|] == s[1..][i..i + |pat|];
        Some(i + 1)
  }

  /** `IndexOf` finds the first occurrence: none lies before it, and without a result there is none at all. */
  lemma {:induction false} IndexOfIsFirst(s: string, pat: string)
    ensures IndexOf(s, pat).Some? ==> forall j :: 0 <= j < IndexOf(s, pat).value ==> !OccursAt(s, pat, j)
    ensures IndexOf(s, pat).None? ==> forall j :: 0 <= j <= |s| ==> !OccursAt(s, pat, j)
    decreases |s|
  {
    if OccursAt(s, pat, 0) || s == [] {
    } else {
      IndexOfIsFirst(s[1..], pat);
      forall j | 1 <= j <= |s|
        ensures OccursAt(s, pat, j) == OccursAt(s[1..], pat, j - 1)
      {
        OccursAtTail(s, pat, j);
      }
      match IndexOf(s[1..], pat)
      case None =>
        assert IndexOf(s, pat) == None;
      case Some(i) =>
        assert IndexOf(s, pat) == Some(i + 1);
    }
  }

  /** An occurrence after the head of `s` is an occurrence in its tail one position earlier. */
  lemma OccursAtTail(s: string, pat: string, j: nat)
    requires 1 <= j <= |s|
    ensures OccursAt(s, pat, j) == OccursAt(s[1..], pat, j - 1)
  {
    if j + |pat| <= |s| {
      var here, there := s[j..j + |pat|], s[1..][j - 1..j - 1 + |pat|];
      assert forall m :: 0 <= m < |pat| ==> here[m] == s[j + m] == there[m];
      assert here == there;
    }
  }

  /**
   * `s.replace(pat, rep)` with a string pattern: the first occurrence of
   * `pat` is replaced by `rep`; without one, `s` is returned unchanged.
   */
  function ReplaceFirst(s: string, pat: string, rep: string): string
    decreases |s|
  {
    if OccursAt(s, pat, 0) then rep + s[|pat|..]
    else if s == [] then s
    else [s[0]] + ReplaceFirst(s[1..], pat, rep)
  }

  /** `ReplaceFirst` splices `rep` in at the position `IndexOf` finds, and changes nothing when there is none. */
  lemma {:induction false} ReplaceFirstAtIndexOf(s: string, pat: string, rep: string)
    ensures IndexOf(s, pat).None? ==> ReplaceFirst(s, pat, rep) == s
    ensures IndexOf(s, pat).Some? ==>
      var i := IndexOf(s, pat).value;
      ReplaceFirst(s, pat, rep) == s[..i] + rep + s[i + |pat|..]
    decreases |s|
  {
    if OccursAt(s, pat, 0) {
      assert IndexOf(s, pat) == Some(0);
      assert s[..0] + rep + s[|pat|..] == rep + s[|pat|..];
    } else if s != [] {
      var t := s[1..];
      ReplaceFirstAtIndexOf(t, pat, rep);
      match IndexOf(t, pat)
      case None =>
        assert IndexOf(s, pat) == None;
        assert ReplaceFirst(s, pat, rep) == [s[0]] + t;
      case Some(i) =>
        ReplaceFirstShift(s, pat, rep, i);
    }
  }

  /** An occurrence found in the tail of `s` is replaced in `s` one position further on. */
  lemma ReplaceFirstShift(s: string, pat: string, rep: string, i: nat)
    requires !OccursAt(s, pat, 0) && s != []
    requires IndexOf(s[1..], pat) == Some(i)
    requires ReplaceFirst(s[1..], pat, rep) == s[1..][..i] + rep + s[1..][i + |pat|..]
    ensures IndexOf(s, pat) == Some(i + 1)
    ensures ReplaceFirst(s, pat, rep) == s[..i + 1] + rep + s[i + 1 + |pat|..]
  {
    assert ReplaceFirst(s, pat, rep) == [s[0]] + ReplaceFirst(s[1..], pat, rep);
    SpliceAfterHead(s, i, |pat|, rep);
  }

  /** Splicing into the tail of `s` is splicing into `s` one position further on. */
  lemma SpliceAfterHead(s: string, i: nat, n: nat, rep: string)
    requires 1 + i + n <= |s|
    ensures [s[0]] + (s[1..][..i] + rep + s[1..][i + n..]) == s[..i + 1] + rep + s[i + 1 + n..]
  {
    assert [s[0]] + s[1..][..i] == s[..i + 1];
    assert s[1..][i + n..] == s[i + 1 + n..];
  }

  // ---------------------------------------------------------------------
  // The ordering decision
  // ---------------------------------------------------------------------

  /** `if (panel.pivot_id)`: an absent or empty pivot field is falsy. */
  predicate HasPivotId(panel: Panel)
  {
    panel.pivotId.Some? && panel.pivotId.value != ""
  }

  /** The index of the first series whose id equals the sort column (`Array.prototype.find`), or `|series|`. */
  function FindSeries(series: seq<Series>, column: Option<string>): (k: nat)
    ensures k <= |series|
    ensures k < |series| ==> column == Some(series[k].id)
    ensures forall j :: 0 <= j < k ==> column != Some(series[j].id)
    decreases |series|
  {
    if series == [] then 0
    else if column == Some(series[0].id) then 0
    else 1 + FindSeries(series[1..], column)
  }

  /** `last(series.metrics)` for the series the sort column names, when there is one. */
  function SortMetric(panel: Panel, sort: Sort): (r: Option<(Series, Metric)>)
    ensures r.Some? ==>
      && r.value.0 in panel.series
      && sort.column == Some(r.value.0.id)
      && |r.value.0.metrics| > 0
      && r.value.1 == r.value.0.metrics[|r.value.0.metrics| - 1]
    ensures (forall s :: s in panel.series ==> sort.column != Some(s.id)) ==> r.None?
    ensures var k := FindSeries(panel.series, sort.column);
      && (r.Some? <==> k < |panel.series| && |panel.series[k].metrics| > 0)
      && (r.Some? ==> r.value.0 == panel.series[k])
  {
    var k := FindSeries(panel.series, sort.column);
    if k < |panel.series| && |panel.series[k].metrics| > 0 then
      var s := panel.series[k];
      Some((s, s.metrics[|s.metrics| - 1]))
    else None
  }

  /** The three ordering strategies of a sorted pivot table. */
  datatype OrderStrategy =
    | ByCount
    | ByMetric(series: Series, metric: Metric)
    | ByKey

  function ChooseOrder(panel: Panel, sort: Sort, basicAggs: set<string>): (r: OrderStrategy)
    ensures r.ByCount? ==> SortMetric(panel, sort).Some? && SortMetric(panel, sort).value.1.metricType == COUNT
    ensures r.ByMetric? ==>
      && sort.column == Some(r.series.id)
      && r.metric in r.series.metrics
      && r.metric.metricType != COUNT
      && r.metric.metricType in basicAggs
    ensures SortMetric(panel, sort).None? ==> r.ByKey?
  {
    match SortMetric(panel, sort)
    case Some((s, m)) =>
      if m.metricType == COUNT then ByCount
      else if m.metricType in basicAggs then ByMetric(s, m)
      else ByKey
    case None => ByKey
  }

  /** The value written for `sort.order`, which may be absent. */
  function OrderValue(order: Option<string>): Value
  {
    match order
    case Some(o) => Str(o)
    case None => Undefined
  }

  /** `get(sort, 'order', 'asc')`: the sort order, `asc` when absent. */
  function OrderOrAsc(order: Option<string>): string
  {
    match order
    case Some(o) => o
    case None => "asc"
  }

  /** The key of the synthetic sort aggregation of a metric. */
  function SortAggKey(metric: Metric): string
  {
    metric.id + SORT_SUFFIX
  }

  /** The bucket path of the metric with its id (first occurrence) replaced by the sort aggregation's key. */
  function SortBucketPath(helpers: Helpers, series: Series, metric: Metric): string
  {
    ReplaceFirst(helpers.bucketsPath(metric.id, series.metrics), metric.id, SortAggKey(metric))
  }

  /**
   * What the processor does: the overwrites it makes, in order, and whether
   * it goes on to call `next` (it does not when the transform it needs is
   * missing, after the order has been written).
   */
  datatype Plan = Plan(writes: seq<(string, Value)>, completes: bool)

  /** The paths the processor writes to. */
  predicate PlanPath(path: string)
  {
    path == TERMS_FIELD || path == TERMS_SIZE || path == TERMS_ORDER || path == PIVOT_AGGS || path == MATCH_ALL
  }

  function PivotPlan(panel: Panel, sort: Option<Sort>, helpers: Helpers): (p: Plan)
    ensures forall i :: 0 <= i < |p.writes| ==> PlanPath(p.writes[i].0)
    ensures 1 <= |p.writes| <= 4
    ensures !p.completes ==> HasPivotId(panel) && sort.Some?
  {
    if !HasPivotId(panel) then
      Plan([(MATCH_ALL, Obj(map[]))], true)
    else
      var terms := [(TERMS_FIELD, Str(panel.pivotId.value)), (TERMS_SIZE, panel.pivotRows)];
      match sort
      case None => Plan(terms, true)
      case Some(srt) =>
        match ChooseOrder(panel, srt, helpers.basicAggs)
        case ByCount =>
          Plan(terms + [(TERMS_ORDER, Obj(map["_count" := OrderValue(srt.order)]))], true)
        case ByKey =>
          Plan(terms + [(TERMS_ORDER, Obj(map["_key" := Str(OrderOrAsc(srt.order))]))], true)
        case ByMetric(s, m) =>
          var order := (TERMS_ORDER, Obj(map[SortBucketPath(helpers, s, m) := OrderValue(srt.order)]));
          if m.metricType in helpers.bucketTransform then
            Plan(terms + [order, (PIVOT_AGGS, Obj(map[SortAggKey(m) := helpers.bucketTransform[m.metricType](m)]))], true)
          else
            Plan(terms + [order], false)
  }

  /** The document after the processor has run on `entries`. */
  function Pivoted(entries: map<string, Value>, panel: Panel, sort: Option<Sort>, helpers: Helpers): (r: map<string, Value>)
    ensures forall k :: !Within(k, TERMS) && !Within(k, PIVOT_AGGS) && !Within(k, MATCH_ALL) ==> AgreeAt(r, entries, k)
  {
    var writes := PivotPlan(panel, sort, helpers).writes;
    PathsApart();
    forall k | !Within(k, TERMS) && !Within(k, PIVOT_AGGS) && !Within(k, MATCH_ALL)
      ensures AgreeAt(ApplyWrites(entries, writes), entries, k)
    {
      ApplyWritesFrame(entries, writes, k);
    }
    ApplyWrites(entries, writes)
  }

  // ---------------------------------------------------------------------
  // The document and the processor
  // ---------------------------------------------------------------------

  /** The request document, updated in place by `overwrite`. */
  class RequestDoc {
    var entries: map<string, Value>

    constructor (entries: map<string, Value>)
      ensures this.entries == entries
    {
      this.entries := entries;
    }

    /** `overwrite(doc, path, value)`. */
    method Overwrite(path: string, v: Value)
      modifies this
      ensures entries == Overwritten(old(entries), path, v)
    {
      entries := Overwritten(entries, path, v);
    }
  }

  /**
   * `pivot({ req, panel })(next)(doc)`. The next processor is a function of
   * the document's contents; its result is returned. `sort` is
   * `req.body.state.sort`.
   */
  method Pivot<R(==)>(panel: Panel, sort: Option<Sort>, helpers: Helpers, next: map<string, Value> -> R, doc: RequestDoc)
    returns (result: Result<R, PivotError>)
    modifies doc
    ensures doc.entries == Pivoted(old(doc.entries), panel, sort, helpers)
    ensures PivotPlan(panel, sort, helpers).completes ==> result == Ok(next(doc.entries))
    ensures !PivotPlan(panel, sort, helpers).completes ==> result.Err?
  {
    ghost var e0 := doc.entries;
    ghost var writes: seq<(string, Value)> := [];
    if HasPivotId(panel) {
      Write(doc, e0, writes, TERMS_FIELD, Str(panel.pivotId.value));
      writes := writes + [(TERMS_FIELD, Str(panel.pivotId.value))];
      Write(doc, e0, writes, TERMS_SIZE, panel.pivotRows);
      writes := writes + [(TERMS_SIZE, panel.pivotRows)];
      if sort.Some? {
        var srt := sort.value;
        match ChooseOrder(panel, srt, helpers.basicAggs)
        case ByCount =>
          Write(doc, e0, writes, TERMS_ORDER, Obj(map["_count" := OrderValue(srt.order)]));
          writes := writes + [(TERMS_ORDER, Obj(map["_count" := OrderValue(srt.order)]))];
        case ByMetric(series, m) =>
          var sortAggKey := SortAggKey(m);
          var bucketPath := ReplaceFirst(helpers.bucketsPath(m.id, series.metrics), m.id, sortAggKey);
          Write(doc, e0, writes, TERMS_ORDER, Obj(map[bucketPath := OrderValue(srt.order)]));
          writes := writes + [(TERMS_ORDER, Obj(map[bucketPath := OrderValue(srt.order)]))];
          if m.metricType !in helpers.bucketTransform {
            assert writes == PivotPlan(panel, sort, helpers).writes;
            return Err(BucketTransformNotAFunction(m.metricType));
          }
          var fn := helpers.bucketTransform[m.metricType];
          Write(doc, e0, writes, PIVOT_AGGS, Obj(map[sortAggKey := fn(m)]));
          writes := writes + [(PIVOT_AGGS, Obj(map[sortAggKey := fn(m)]))];
        case ByKey =>
          Write(doc, e0, writes, TERMS_ORDER, Obj(map["_key" := Str(OrderOrAsc(srt.order))]));
          writes := writes + [(TERMS_ORDER, Obj(map["_key" := Str(OrderOrAsc(srt.order))]))];
      }
    } else {
      Write(doc, e0, writes, MATCH_ALL, Obj(map[]));
      writes := writes + [(MATCH_ALL, Obj(map[]))];
    }
    assert writes == PivotPlan(panel, sort, helpers).writes;
    result := Ok(next(doc.entries));
  }

  /** One `overwrite` call of the processor, extending the record of the writes made so far. */
  method Write(doc: RequestDoc, ghost e0: map<string, Value>, ghost writes: seq<(string, Value)>, path: string, v: Value)
    requires doc.entries == ApplyWrites(e0, writes)
    modifies doc
    ensures doc.entries == ApplyWrites(e0, writes + [(path, v)])
  {
    doc.Overwrite(path, v);
    ApplyWritesSnoc(e0, writes, (path, v));
  }

  /** Applying one more write after a sequence of writes. */
  lemma {:induction false} ApplyWritesSnoc(entries: map<string, Value>, writes: seq<(string, Value)>, w: (string, Value))
    ensures ApplyWrites(entries, writes + [w]) == Overwritten(ApplyWrites(entries, writes), w.0, w.1)
    decreases |writes|
  {
    if writes == [] {
      assert [w][1..] == [];
    } else {
      assert (writes + [w])[1..] == writes[1..] + [w];
      ApplyWritesSnoc(Overwritten(entries, writes[0].0, writes[0].1), writes[1..], w);
    }
  }

  // ---------------------------------------------------------------------
  // What the processor does to the document
  // ---------------------------------------------------------------------

  /** `d` and `e` agree at `k`: both lack it, or both hold the same value. */
  predicate AgreeAt(d: map<string, Value>, e: map<string, Value>, k: string)
  {
    (k in d <==> k in e) && (k in e ==> d[k] == e[k])
  }

  /** A key within none of the written paths keeps its value. */
  lemma {:induction false} ApplyWritesFrame(entries: map<string, Value>, writes: seq<(string, Value)>, k: string)
    requires forall i :: 0 <= i < |writes| ==> !Within(k, writes[i].0)
    ensures AgreeAt(ApplyWrites(entries, writes), entries, k)
    decreases |writes|
  {
    if writes != [] {
      var next := Overwritten(entries, writes[0].0, writes[0].1);
      assert !Within(k, writes[0].0);
      ApplyWritesFrame(next, writes[1..], k);
    }
  }

  /** A written path holds the value written last to it, when no later write covers it. */
  lemma {:induction false} ApplyWritesAt(entries: map<string, Value>, writes: seq<(string, Value)>, i: nat)
    requires i < |writes|
    requires forall j :: i < j < |writes| ==> !Within(writes[i].0, writes[j].0)
    ensures writes[i].0 in ApplyWrites(entries, writes)
    ensures ApplyWrites(entries, writes)[writes[i].0] == writes[i].1
    decreases |writes|
  {
    var next := Overwritten(entries, writes[0].0, writes[0].1);
    if i == 0 {
      ApplyWritesFrame(next, writes[1..], writes[0].0);
    } else {
      ApplyWritesAt(next, writes[1..], i - 1);
    }
  }

  /** The paths the processor writes lie apart from each other, except `terms` above its three entries. */
  lemma PathsApart()
    ensures forall k :: !(Within(k, TERMS_FIELD) && Within(k, TERMS_SIZE))
    ensures forall k :: !(Within(k, TERMS_FIELD) && Within(k, TERMS_ORDER))
    ensures forall k :: !(Within(k, TERMS_SIZE) && Within(k, TERMS_ORDER))
    ensures forall k :: !(Within(k, TERMS) && Within(k, PIVOT_AGGS))
    ensures forall k :: !(Within(k, TERMS) && Within(k, MATCH_ALL))
    ensures forall k :: !(Within(k, PIVOT_AGGS) && Within(k, MATCH_ALL))
    ensures forall k :: Within(k, TERMS_FIELD) || Within(k, TERMS_SIZE) || Within(k, TERMS_ORDER) ==> Within(k, TERMS)
  {
    DisjointPaths(TERMS_FIELD, TERMS_SIZE, 17);
    DisjointPaths(TERMS_FIELD, TERMS_ORDER, 17);
    DisjointPaths(TERMS_SIZE, TERMS_ORDER, 17);
    DisjointPaths(TERMS, PIVOT_AGGS, 11);
    DisjointPaths(TERMS, MATCH_ALL, 11);
    DisjointPaths(PIVOT_AGGS, MATCH_ALL, 11);
    forall k | Within(k, TERMS_FIELD) || Within(k, TERMS_SIZE) || Within(k, TERMS_ORDER)
      ensures Within(k, TERMS)
    {
      assert TERMS + "." <= TERMS_FIELD && TERMS + "." <= TERMS_SIZE && TERMS + "." <= TERMS_ORDER;
    }
  }

  /**
   * Without a pivot field the only write is an empty `match_all` filter:
   * every key outside it, in particular everything under `aggs.pivot.terms`,
   * is left as it was.
   */
  lemma NoPivotIdInstallsMatchAll(entries: map<string, Value>, panel: Panel, sort: Option<Sort>, helpers: Helpers)
    requires !HasPivotId(panel)
    ensures var d := Pivoted(entries, panel, sort, helpers);
      && MATCH_ALL in d && d[MATCH_ALL] == Obj(map[])
      && (forall k :: !Within(k, MATCH_ALL) ==> AgreeAt(d, entries, k))
      && (forall k :: Within(k, TERMS) ==> AgreeAt(d, entries, k))
    ensures PivotPlan(panel, sort, helpers).completes
  {
    var writes := PivotPlan(panel, sort, helpers).writes;
    ApplyWritesAt(entries, writes, 0);
    PathsApart();
    forall k | !Within(k, MATCH_ALL)
      ensures AgreeAt(Pivoted(entries, panel, sort, helpers), entries, k)
    {
      ApplyWritesFrame(entries, writes, k);
    }
  }

  /** With a pivot field the field and the size come first; only the order and the sort aggregation follow. */
  lemma PivotPlanStartsWithTerms(panel: Panel, sort: Option<Sort>, helpers: Helpers)
    requires HasPivotId(panel)
    ensures var w := PivotPlan(panel, sort, helpers).writes;
      && 2 <= |w|
      && w[0] == (TERMS_FIELD, Str(panel.pivotId.value))
      && w[1] == (TERMS_SIZE, panel.pivotRows)
      && forall j :: 2 <= j < |w| ==> w[j].0 == TERMS_ORDER || w[j].0 == PIVOT_AGGS
  {
  }

  /** With a pivot field, the `terms` aggregation gets the pivot field and the pivot row count. */
  lemma PivotIdInstallsTerms(entries: map<string, Value>, panel: Panel, sort: Option<Sort>, helpers: Helpers)
    requires HasPivotId(panel)
    ensures var d := Pivoted(entries, panel, sort, helpers);
      && TERMS_FIELD in d && d[TERMS_FIELD] == Str(panel.pivotId.value)
      && TERMS_SIZE in d && d[TERMS_SIZE] == panel.pivotRows
      && (forall k :: Within(k, MATCH_ALL) ==> AgreeAt(d, entries, k))
  {
    var writes := PivotPlan(panel, sort, helpers).writes;
    PathsApart();
    PivotPlanStartsWithTerms(panel, sort, helpers);
    ApplyWritesAt(entries, writes, 0);
    ApplyWritesAt(entries, writes, 1);
    forall k | Within(k, MATCH_ALL)
      ensures AgreeAt(Pivoted(entries, panel, sort, helpers), entries, k)
    {
      ApplyWritesFrame(entries, writes, k);
    }
  }

  /**
   * With a pivot field and no sort, only the field and the size are written:
   * no `order` and no `aggs.pivot.aggs` entry.
   */
  lemma UnsortedPivotWritesNoOrder(entries: map<string, Value>, panel: Panel, helpers: Helpers)
    requires HasPivotId(panel)
    ensures var d := Pivoted(entries, panel, None, helpers);
      forall k :: !Within(k, TERMS_FIELD) && !Within(k, TERMS_SIZE) ==> AgreeAt(d, entries, k)
    ensures PivotPlan(panel, None, helpers).completes
  {
    var writes := PivotPlan(panel, None, helpers).writes;
    forall k | !Within(k, TERMS_FIELD) && !Within(k, TERMS_SIZE)
      ensures AgreeAt(Pivoted(entries, panel, None, helpers), entries, k)
    {
      ApplyWritesFrame(entries, writes, k);
    }
  }

  /** When the sorted column's last metric is `count`, the terms are ordered by document count. */
  lemma CountMetricOrdersByCount(entries: map<string, Value>, panel: Panel, srt: Sort, helpers: Helpers, s: Series, m: Metric)
    requires HasPivotId(panel)
    requires SortMetric(panel, srt) == Some((s, m)) && m.metricType == COUNT
    ensures var d := Pivoted(entries, panel, Some(srt), helpers);
      && TERMS_ORDER in d && d[TERMS_ORDER] == Obj(map["_count" := OrderValue(srt.order)])
      && (forall k :: Within(k, PIVOT_AGGS) ==> AgreeAt(d, entries, k))
      && (forall k :: !Within(k, TERMS_FIELD) && !Within(k, TERMS_SIZE) && !Within(k, TERMS_ORDER) ==> AgreeAt(d, entries, k))
    ensures PivotPlan(panel, Some(srt), helpers).completes
  {
    var writes := PivotPlan(panel, Some(srt), helpers).writes;
    assert |writes| == 3 && writes[2].0 == TERMS_ORDER;
    ApplyWritesAt(entries, writes, 2);
    PathsApart();
    forall k | Within(k, PIVOT_AGGS) || (!Within(k, TERMS_FIELD) && !Within(k, TERMS_SIZE) && !Within(k, TERMS_ORDER))
      ensures AgreeAt(Pivoted(entries, panel, Some(srt), helpers), entries, k)
    {
      ApplyWritesFrame(entries, writes, k);
    }
  }

  /**
   * When the sorted column's last metric is a basic aggregation other than
   * `count`, the terms are ordered by a synthetic `<id>-SORT` aggregation,
   * reached through the metric's bucket path with its id replaced, and that
   * aggregation is installed under `aggs.pivot.aggs`.
   */
  lemma BasicMetricOrdersBySortAgg(entries: map<string, Value>, panel: Panel, srt: Sort, helpers: Helpers, s: Series, m: Metric)
    requires HasPivotId(panel)
    requires SortMetric(panel, srt) == Some((s, m))
    requires m.metricType != COUNT && m.metricType in helpers.basicAggs
    requires m.metricType in helpers.bucketTransform
    ensures var d := Pivoted(entries, panel, Some(srt), helpers);
      && TERMS_ORDER in d
      && d[TERMS_ORDER] == Obj(map[SortBucketPath(helpers, s, m) := OrderValue(srt.order)])
      && PIVOT_AGGS in d
      && d[PIVOT_AGGS] == Obj(map[m.id + "-SORT" := helpers.bucketTransform[m.metricType](m)])
      && (forall k :: !Within(k, TERMS_FIELD) && !Within(k, TERMS_SIZE) && !Within(k, TERMS_ORDER) && !Within(k, PIVOT_AGGS)
            ==> AgreeAt(d, entries, k))
    ensures PivotPlan(panel, Some(srt), helpers).completes
  {
    var writes := PivotPlan(panel, Some(srt), helpers).writes;
    assert |writes| == 4 && writes[2].0 == TERMS_ORDER && writes[3].0 == PIVOT_AGGS;
    PathsApart();
    ApplyWritesAt(entries, writes, 2);
    ApplyWritesAt(entries, writes, 3);
    forall k | !Within(k, TERMS_FIELD) && !Within(k, TERMS_SIZE) && !Within(k, TERMS_ORDER) && !Within(k, PIVOT_AGGS)
      ensures AgreeAt(Pivoted(entries, panel, Some(srt), helpers), entries, k)
    {
      ApplyWritesFrame(entries, writes, k);
    }
  }

  /**
   * The bucket path used as the order key is the helper's bucket path with
   * the first occurrence of the metric id replaced by `<id>-SORT`.
   */
  lemma SortBucketPathReplacesFirstId(helpers: Helpers, s: Series, m: Metric)
    ensures var path := helpers.bucketsPath(m.id, s.metrics);
      match IndexOf(path, m.id)
      case None => SortBucketPath(helpers, s, m) == path
      case Some(i) => SortBucketPath(helpers, s, m) == path[..i] + m.id + "-SORT" + path[i + |m.id|..]
  {
    ReplaceFirstAtIndexOf(helpers.bucketsPath(m.id, s.metrics), m.id, SortAggKey(m));
  }

  /**
   * When no series matches the sort column, it has no metrics, or its last
   * metric is neither `count` nor a basic aggregation, the terms are ordered
   * by key, ascending unless the sort says otherwise.
   */
  lemma OtherwiseOrdersByKey(entries: map<string, Value>, panel: Panel, srt: Sort, helpers: Helpers)
    requires HasPivotId(panel)
    requires SortMetric(panel, srt).None?
      || (SortMetric(panel, srt).value.1.metricType != COUNT
          && SortMetric(panel, srt).value.1.metricType !in helpers.basicAggs)
    ensures var d := Pivoted(entries, panel, Some(srt), helpers);
      && TERMS_ORDER in d
      && d[TERMS_ORDER] == Obj(map["_key" := Str(if srt.order.Some? then srt.order.value else "asc")])
      && (forall k :: Within(k, PIVOT_AGGS) ==> AgreeAt(d, entries, k))
      && (forall k :: !Within(k, TERMS_FIELD) && !Within(k, TERMS_SIZE) && !Within(k, TERMS_ORDER) ==> AgreeAt(d, entries, k))
    ensures PivotPlan(panel, Some(srt), helpers).completes
  {
    var writes := PivotPlan(panel, Some(srt), helpers).writes;
    assert |writes| == 3 && writes[2].0 == TERMS_ORDER;
    ApplyWritesAt(entries, writes, 2);
    PathsApart();
    forall k | Within(k, PIVOT_AGGS) || (!Within(k, TERMS_FIELD) && !Within(k, TERMS_SIZE) && !Within(k, TERMS_ORDER))
      ensures AgreeAt(Pivoted(entries, panel, Some(srt), helpers), entries, k)
    {
      ApplyWritesFrame(entries, writes, k);
    }
  }

  /**
   * The processor always reaches `next` when every basic aggregation type
   * has a bucket transform; otherwise it stops exactly when the sort needs
   * a missing one.
   */
  lemma CompletesIffTransformFound(panel: Panel, sort: Option<Sort>, helpers: Helpers)
    ensures !PivotPlan(panel, sort, helpers).completes <==>
      HasPivotId(panel) && sort.Some?
      && ChooseOrder(panel, sort.value, helpers.basicAggs).ByMetric?
      && ChooseOrder(panel, sort.value, helpers.basicAggs).metric.metricType !in helpers.bucketTransform
    ensures helpers.basicAggs <= helpers.bucketTransform.Keys ==> PivotPlan(panel, sort, helpers).completes
  {
  }
}
