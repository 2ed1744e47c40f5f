/** `evalmetrics` and `getprojectionhistory`: timeseries tables. A reply's
    payload is modelled by the column labels `json_normalize` gives its
    `result`; chunk tables are joined side by side, so their labels concatenate. */
module Metrics {
  import opened Wrappers
  import opened Strings
  import opened Api
  import opened Columns
  import opened Batching
  import Seqs

  /** The `spec` of an evalmetrics body; only `ids` and `expressions` are rewritten. */
  datatype MetricSpec = MetricSpec(ids: seq<string>, expressions: seq<string>, startDate: string, endDate: string, interval: string)

  /** The data lake's evalmetrics endpoint, as a function of the spec sent. */
  type MetricServer = MetricSpec -> Reply<seq<string>>

  /** The spec of the request for one batch: the caller's spec with that batch's slices. */
  function Request(spec: MetricSpec, b: Batch<string>): MetricSpec {
    spec.(ids := b.ids, expressions := b.expressions)
  }

  /** The specs sent for the batches of `plan`, in order. */
  function Requests(spec: MetricSpec, plan: seq<Batch<string>>): (r: seq<MetricSpec>)
    ensures |r| == |plan|
    ensures forall k :: 0 <= k < |plan| ==> r[k] == Request(spec, plan[k])
  {
    Seqs.Map((b: Batch<string>) => Request(spec, b), plan)
  }

  /** The payload each request of the plan would get back. */
  function Payloads(server: MetricServer, spec: MetricSpec, plan: seq<Batch<string>>): seq<seq<string>> {
    seq(|plan|, k requires 0 <= k < |plan| => server(Request(spec, plan[k])).payload)
  }

  /** What running `plan` in order yields: the joined columns of every chunk,
      or the error of the first failing request and nothing else. */
  function Gather(server: MetricServer, spec: MetricSpec, plan: seq<Batch<string>>): (r: Result<seq<string>, Error>)
    ensures r.Success? <==> forall k :: 0 <= k < |plan| ==> server(Request(spec, plan[k])).status == StatusOk
    decreases |plan|
  {
    if |plan| == 0 then Success([])
    else
      var init := plan[..|plan| - 1];
      var last := plan[|plan| - 1];
      assert forall k :: 0 <= k < |init| ==> init[k] == plan[k];
      match Gather(server, spec, init)
      case Failure(e) => Failure(e)
      case Success(acc) =>
        match ReadDataJson(server(Request(spec, last)))
        case Failure(e) => Failure(e)
        case Success(columns) => Success(acc + columns)
  }

  /** On success the result is every chunk's columns, side by side in request order. */
  lemma {:induction false} GatherColumns(server: MetricServer, spec: MetricSpec, plan: seq<Batch<string>>)
    requires Gather(server, spec, plan).Success?
    ensures Gather(server, spec, plan).value == Seqs.Flatten(Payloads(server, spec, plan))
    decreases |plan|
  {
    if |plan| > 0 {
      var init := plan[..|plan| - 1];
      var last := server(Request(spec, plan[|plan| - 1])).payload;
      GatherColumns(server, spec, init);
      assert Payloads(server, spec, plan) == Payloads(server, spec, init) + [last];
      Seqs.FlattenConcat(Payloads(server, spec, init), [last]);
      assert Seqs.Flatten([last]) == last;
    }
  }

  /** A failing request aborts the whole call with its error: no columns of
      the earlier chunks survive. */
  lemma {:induction false} GatherFirstFailure(server: MetricServer, spec: MetricSpec, plan: seq<Batch<string>>, k: nat)
    requires k < |plan|
    requires server(Request(spec, plan[k])).status != StatusOk
    requires forall j :: 0 <= j < k ==> server(Request(spec, plan[j])).status == StatusOk
    ensures Gather(server, spec, plan) == Failure(ReadDataJson(server(Request(spec, plan[k]))).error)
    decreases |plan|
  {
    var init := plan[..|plan| - 1];
    if k < |plan| - 1 {
      GatherFirstFailure(server, spec, init, k);
    } else {
      assert Gather(server, spec, init).Success?;
    }
  }

  /** One more successful request extends the joined columns by its payload. */
  lemma GatherStep(server: MetricServer, spec: MetricSpec, plan: seq<Batch<string>>, n: nat, columns: seq<string>)
    requires n < |plan|
    requires Gather(server, spec, plan[..n]) == Success(columns)
    requires server(Request(spec, plan[n])).status == StatusOk
    ensures Gather(server, spec, plan[..n + 1]) == Success(columns + server(Request(spec, plan[n])).payload)
  {
    assert plan[..n + 1][..n] == plan[..n];
  }

  lemma RequestsStep(spec: MetricSpec, plan: seq<Batch<string>>, n: nat)
    requires n < |plan|
    ensures Requests(spec, plan[..n + 1]) == Requests(spec, plan[..n]) + [Request(spec, plan[n])]
  {
  }

  lemma RequestsPrefix(spec: MetricSpec, plan: seq<Batch<string>>, n: nat)
    requires n <= |plan|
    ensures forall k :: 0 <= k < n ==> Requests(spec, plan[..n])[k] == Request(spec, plan[k])
  {
  }

  /** What the loops of `EvalAll` have established after `sent`: the requests
      so far are the first ones of the plan, all succeeded, and `columns` joins
      their payloads. */
  ghost predicate Progress(server: MetricServer, spec: MetricSpec, sent: seq<MetricSpec>, columns: seq<string>) {
    var plan := Plan(spec.ids, spec.expressions);
    && |sent| <= |plan|
    && sent == Requests(spec, plan[..|sent|])
    && (forall k :: 0 <= k < |sent| ==> server(sent[k]).status == StatusOk)
    && Gather(server, spec, plan[..|sent|]) == Success(columns)
  }

  /** The `get_all` branch of `evalmetrics`: nested loops over the id slices
      (outer) and the expression slices (inner, in `EvalIdSlice`). */
  method EvalAll(server: MetricServer, spec: MetricSpec) returns (r: Result<seq<string>, Error>, sent: seq<MetricSpec>)
    ensures r == Gather(server, spec, Plan(spec.ids, spec.expressions))
    ensures |sent| <= |Plan(spec.ids, spec.expressions)|
    ensures forall k :: 0 <= k < |sent| ==> sent[k] == Request(spec, Plan(spec.ids, spec.expressions)[k])
    ensures r.Success? ==> |sent| == |Plan(spec.ids, spec.expressions)|
    ensures r.Failure? ==> 0 < |sent| && server(sent[|sent| - 1]).status != StatusOk
    ensures forall k :: 0 <= k < |sent| - 1 ==> server(sent[k]).status == StatusOk
  {
    var ids := spec.ids;
    ghost var plan := Plan(ids, spec.expressions);
    ghost var m := |Chunks(spec.expressions, ExpressionsPerCall)|;
    ghost var rows := |Chunks(ids, IdsPerCall)|;
    ChunksCount(ids, IdsPerCall);
    var columns: seq<string> := [];
    sent := [];
    var idsStart := 0;
    ghost var i := 0;
    while idsStart < |ids|
      invariant idsStart == IdsPerCall * i
      invariant i <= rows
      invariant |sent| == i * m
      invariant Progress(server, spec, sent, columns)
      decreases |ids| - idsStart
    {
      var row;
      row, sent := EvalIdSlice(server, spec, idsStart, i, sent, columns);
      if row.Failure? {
        RequestsPrefix(spec, plan, |sent|);
        return row, sent;
      }
      columns := row.value;
      MulSucc(i, m);
      idsStart := idsStart + IdsPerCall;
      i := i + 1;
    }
    assert plan[..|sent|] == plan;
    RequestsPrefix(spec, plan, |sent|);
    r := Success(columns);
  }

  /** A successful request for the next batch of the plan keeps `Progress`. */
  lemma ProgressStep(server: MetricServer, spec: MetricSpec, sent: seq<MetricSpec>, columns: seq<string>, request: MetricSpec)
    requires Progress(server, spec, sent, columns)
    requires |sent| < |Plan(spec.ids, spec.expressions)|
    requires request == Request(spec, Plan(spec.ids, spec.expressions)[|sent|])
    requires server(request).status == StatusOk
    ensures Progress(server, spec, sent + [request], columns + server(request).payload)
  {
    var plan := Plan(spec.ids, spec.expressions);
    RequestsStep(spec, plan, |sent|);
    GatherStep(server, spec, plan, |sent|, columns);
  }

  /** A failing request for the next batch of the plan ends the call with its error. */
  lemma {:induction false} ProgressFailure(server: MetricServer, spec: MetricSpec, sent: seq<MetricSpec>, columns: seq<string>, request: MetricSpec)
    requires Progress(server, spec, sent, columns)
    requires |sent| < |Plan(spec.ids, spec.expressions)|
    requires request == Request(spec, Plan(spec.ids, spec.expressions)[|sent|])
    requires server(request).status != StatusOk
    ensures Gather(server, spec, Plan(spec.ids, spec.expressions)) == Failure(ReadDataJson(server(request)).error)
    ensures sent + [request] == Requests(spec, Plan(spec.ids, spec.expressions)[..|sent| + 1])
  {
    var plan := Plan(spec.ids, spec.expressions);
    RequestsStep(spec, plan, |sent|);
    forall k | 0 <= k < |sent| ensures server(Request(spec, plan[k])).status == StatusOk {
      assert sent[k] == Requests(spec, plan[..|sent|])[k];
    }
    GatherFirstFailure(server, spec, plan, |sent|);
  }

  /** The spec the loops build at positions `(10 * i, 4 * j)` is the request
      for batch `i * m + j` of the plan. */
  lemma BatchRequest(spec: MetricSpec, i: nat, j: nat, n: nat)
    requires IdsPerCall * i < |spec.ids| && ExpressionsPerCall * j < |spec.expressions|
    requires n == i * |Chunks(spec.expressions, ExpressionsPerCall)| + j
    ensures n < |Plan(spec.ids, spec.expressions)|
    ensures spec.(ids := spec.ids[IdsPerCall * i .. Seqs.Min(IdsPerCall * i + IdsPerCall, |spec.ids|)],
                  expressions := spec.expressions[ExpressionsPerCall * j .. Seqs.Min(ExpressionsPerCall * j + ExpressionsPerCall, |spec.expressions|)])
            == Request(spec, Plan(spec.ids, spec.expressions)[n])
  {
    PlanAt(spec.ids, spec.expressions, i, j);
  }

  /** The inner loop of `evalmetrics`: the id slice starting at `idsStart`
      against every expression slice in turn. */
  method EvalIdSlice(server: MetricServer, spec: MetricSpec, idsStart: nat, ghost i: nat,
                     sent0: seq<MetricSpec>, columns0: seq<string>)
    returns (r: Result<seq<string>, Error>, sent: seq<MetricSpec>)
    requires idsStart == IdsPerCall * i < |spec.ids|
    requires |sent0| == i * |Chunks(spec.expressions, ExpressionsPerCall)|
    requires Progress(server, spec, sent0, columns0)
    ensures r.Success? ==> |sent| == |sent0| + |Chunks(spec.expressions, ExpressionsPerCall)|
    ensures r.Success? ==> Progress(server, spec, sent, r.value)
    ensures r.Failure? ==> r == Gather(server, spec, Plan(spec.ids, spec.expressions))
    ensures r.Failure? ==>
      && 0 < |sent| <= |Plan(spec.ids, spec.expressions)|
      && sent == Requests(spec, Plan(spec.ids, spec.expressions)[..|sent|])
      && server(sent[|sent| - 1]).status != StatusOk
    ensures r.Failure? ==> forall k :: 0 <= k < |sent| - 1 ==> server(sent[k]).status == StatusOk
  {
    var expressions := spec.expressions;
    var ids := spec.ids;
    ghost var plan := Plan(ids, expressions);
    ghost var m := |Chunks(expressions, ExpressionsPerCall)|;
    var columns := columns0;
    sent := sent0;
    var expressionsStart := 0;
    ghost var j := 0;
    ChunksCount(expressions, ExpressionsPerCall);
    while expressionsStart < |expressions|
      invariant expressionsStart == ExpressionsPerCall * j
      invariant j <= m
      invariant |sent| == |sent0| + j
      invariant Progress(server, spec, sent, columns)
      decreases |expressions| - expressionsStart
    {
      var request := spec.(ids := ids[idsStart .. Seqs.Min(idsStart + IdsPerCall, |ids|)],
                           expressions := expressions[expressionsStart .. Seqs.Min(expressionsStart + ExpressionsPerCall, |expressions|)]);
      BatchRequest(spec, i, j, |sent|);
      var json := ReadDataJson(server(request));
      if json.Failure? {
        ProgressFailure(server, spec, sent, columns, request);
        RequestsPrefix(spec, plan, |sent| + 1);
      } else {
        ProgressStep(server, spec, sent, columns, request);
      }
      sent := sent + [request];
      var payload :- json;
      columns := columns + payload;
      expressionsStart := expressionsStart + ExpressionsPerCall;
      j := j + 1;
    }
    r := Success(columns);
  }

  /** The column clean-up both branches of `evalmetrics` share: optionally keep
      the `dates|data|missing` columns, then keep one `dates` column. The
      result is `"dates"` followed by every label without `dates` (under
      `remove_meta`: every such label with `data` or `missing`), in table order. */
  function MetricFrame(raw: Result<seq<string>, Error>, removeMeta: bool): (r: Result<seq<string>, Error>)
    ensures raw.Failure? ==> r == raw
    ensures raw.Success? ==> (r.Failure? <==> forall c :: c in raw.value ==> !Contains(c, "dates"))
    ensures r.Failure? && raw.Success? ==> r.error == NoDatesColumn
    ensures raw.Success? && r.Success? && removeMeta ==> r.value == ["dates"] + Seqs.Filter(raw.value, IsMetricValue)
    ensures raw.Success? && r.Success? && !removeMeta ==> r.value == ["dates"] + Seqs.Filter(raw.value, LacksDates)
  {
    var columns :- raw;
    var kept := if removeMeta then KeepMetricColumns(columns) else columns;
    KeptDatesColumns(columns, kept);
    var r := SelectDates(kept);
    if r.Success? && removeMeta then
      Seqs.FilterFilter(columns, IsMetricColumn, LacksDates, IsMetricValue);
      r
    else r
  }

  /** The clean-up is idempotent: a cleaned table passes through it unchanged. */
  lemma MetricFrameIdempotent(raw: Result<seq<string>, Error>, removeMeta: bool)
    requires MetricFrame(raw, removeMeta).Success?
    ensures MetricFrame(MetricFrame(raw, removeMeta), removeMeta) == MetricFrame(raw, removeMeta)
  {
    if removeMeta {
      var tail := Seqs.Filter(raw.value, IsMetricValue);
      forall i | 0 <= i < |tail| ensures IsMetricValue(tail[i]) {
        assert tail[i] in tail;
      }
      MetricTableFixed(tail);
    } else {
      var tail := Seqs.Filter(raw.value, LacksDates);
      forall i | 0 <= i < |tail| ensures LacksDates(tail[i]) {
        assert tail[i] in tail;
      }
      RawTableFixed(tail);
    }
  }

  /** `"dates"` followed by labels the `remove_meta` clean-up keeps is left as it is. */
  lemma MetricTableFixed(tail: seq<string>)
    requires forall i :: 0 <= i < |tail| ==> IsMetricValue(tail[i])
    ensures MetricFrame(Success(["dates"] + tail), true) == Success(["dates"] + tail)
  {
    var out := ["dates"] + tail;
    DatesLabel();
    assert out[0] == "dates" && HasDates(out[0]);
    var r := MetricFrame(Success(out), true);
    assert r.Success?;
    Seqs.FilterConcat(["dates"], tail, IsMetricValue);
    assert Seqs.Filter(["dates"], IsMetricValue) == [];
    Seqs.FilterKeepsAll(tail, IsMetricValue);
    assert Seqs.Filter(out, IsMetricValue) == tail;
  }

  /** `"dates"` followed by labels without `dates` is left as it is. */
  lemma RawTableFixed(tail: seq<string>)
    requires forall i :: 0 <= i < |tail| ==> LacksDates(tail[i])
    ensures MetricFrame(Success(["dates"] + tail), false) == Success(["dates"] + tail)
  {
    var out := ["dates"] + tail;
    DatesLabel();
    assert out[0] == "dates" && HasDates(out[0]);
    var r := MetricFrame(Success(out), false);
    assert r.Success?;
    Seqs.FilterConcat(["dates"], tail, LacksDates);
    assert Seqs.Filter(["dates"], LacksDates) == [];
    Seqs.FilterKeepsAll(tail, LacksDates);
    assert Seqs.Filter(out, LacksDates) == tail;
  }

  /** `evalmetrics(typename, body, get_all, remove_meta)`. */
  method EvalMetrics(server: MetricServer, spec: MetricSpec, getAll: bool, removeMeta: bool)
    returns (r: Result<seq<string>, Error>, sent: seq<MetricSpec>)
    ensures !getAll ==> sent == [spec]
    ensures getAll ==> |sent| <= |Plan(spec.ids, spec.expressions)|
    ensures getAll ==> forall k :: 0 <= k < |sent| ==> sent[k] == Request(spec, Plan(spec.ids, spec.expressions)[k])
    ensures getAll && Gather(server, spec, Plan(spec.ids, spec.expressions)).Success? ==> |sent| == |Plan(spec.ids, spec.expressions)|
    ensures getAll && Gather(server, spec, Plan(spec.ids, spec.expressions)).Failure? ==> 0 < |sent| && server(sent[|sent| - 1]).status != StatusOk
    ensures getAll ==> forall k :: 0 <= k < |sent| - 1 ==> server(sent[k]).status == StatusOk
    ensures r == MetricFrame(if getAll then Gather(server, spec, Plan(spec.ids, spec.expressions)) else ReadDataJson(server(spec)), removeMeta)
  {
    var raw;
    if getAll {
      raw, sent := EvalAll(server, spec);
    } else {
      sent := [spec];
      raw := ReadDataJson(server(spec));
    }
    r := MetricFrame(raw, removeMeta);
  }

  /** The column clean-up of `getprojectionhistory`: optionally keep the
      `dates|data|missing|expr` columns, keep one `dates` column, and remove
      `.value` from every label. */
  function ProjectionFrame(raw: Result<seq<string>, Error>, removeMeta: bool): (r: Result<seq<string>, Error>)
    ensures raw.Failure? ==> r == raw
    ensures raw.Success? ==> (r.Failure? <==> forall c :: c in raw.value ==> !Contains(c, "dates"))
    ensures r.Failure? && raw.Success? ==> r.error == NoDatesColumn
    ensures raw.Success? && r.Success? && removeMeta ==>
      r.value == ["dates"] + Seqs.Map(StripValue, Seqs.Filter(raw.value, IsProjectionValue))
    ensures raw.Success? && r.Success? && !removeMeta ==>
      r.value == ["dates"] + Seqs.Map(StripValue, Seqs.Filter(raw.value, LacksDates))
  {
    var columns :- raw;
    var kept := if removeMeta then KeepProjectionColumns(columns) else columns;
    KeptDatesColumns(columns, kept);
    var selected :- SelectDates(kept);
    StrippedSelection(Seqs.Filter(kept, LacksDates));
    if removeMeta then
      Seqs.FilterFilter(columns, IsProjectionColumn, LacksDates, IsProjectionValue);
      Success(Seqs.Map(StripValue, selected))
    else
      Success(Seqs.Map(StripValue, selected))
  }

  /** The filter before the selection never removes a `dates` column. */
  lemma KeptDatesColumns(columns: seq<string>, kept: seq<string>)
    requires forall c :: c in kept ==> c in columns
    requires forall c :: c in columns && HasDates(c) ==> c in kept
    ensures SelectDates(kept).Failure? <==> forall c :: c in columns ==> !Contains(c, "dates")
  {
  }

  /** `getprojectionhistory(body, remove_meta)`: one request with the body as given. */
  function ProjectionHistory<B>(server: B -> Reply<seq<string>>, body: B, removeMeta: bool): (r: Result<seq<string>, Error>)
    ensures server(body).status != StatusOk ==> r.Failure? && r.error == ReadDataJson(server(body)).error
    ensures server(body).status == StatusOk ==> (r.Failure? <==> forall c :: c in server(body).payload ==> !Contains(c, "dates"))
    ensures server(body).status == StatusOk && r.Success? && removeMeta ==>
      r.value == ["dates"] + Seqs.Map(StripValue, Seqs.Filter(server(body).payload, IsProjectionValue))
    ensures server(body).status == StatusOk && r.Success? && !removeMeta ==>
      r.value == ["dates"] + Seqs.Map(StripValue, Seqs.Filter(server(body).payload, LacksDates))
  {
    ProjectionFrame(ReadDataJson(server(body)), removeMeta)
  }

  /** The `.value` strip leaves the `dates` label alone and acts on the rest label by label. */
  lemma StrippedSelection(rest: seq<string>)
    ensures Seqs.Map(StripValue, ["dates"] + rest) == ["dates"] + Seqs.Map(StripValue, rest)
  {
    DatesLabel();
    var lhs := Seqs.Map(StripValue, ["dates"] + rest);
    var rhs := ["dates"] + Seqs.Map(StripValue, rest);
    forall k | 0 <= k < |lhs| ensures lhs[k] == rhs[k] {
      if k > 0 {
        assert (["dates"] + rest)[k] == rest[k - 1];
      }
    }
  }

  /** When no label contains `.value`, the projection history keeps exactly
      the labels the `dates` selection chose. */
  lemma ProjectionWithoutValueLabels<B>(server: B -> Reply<seq<string>>, body: B, removeMeta: bool)
    requires server(body).status == StatusOk
    requires forall c :: c in server(body).payload ==> !Contains(c, ".value")
    ensures ProjectionHistory(server, body, removeMeta) == SelectDates(if removeMeta then KeepProjectionColumns(server(body).payload) else server(body).payload)
  {
    var columns := server(body).payload;
    var kept := if removeMeta then KeepProjectionColumns(columns) else columns;
    var sel := SelectDates(kept);
    if sel.Success? {
      DatesLabel();
      SelectDatesTail(kept);
      StripNothing(sel.value);
    }
  }

  /** Labels without `.value` pass through the strip unchanged. */
  lemma StripNothing(labels: seq<string>)
    requires forall k :: 0 <= k < |labels| ==> !Contains(labels[k], ".value")
    ensures Seqs.Map(StripValue, labels) == labels
  {
  }
}
