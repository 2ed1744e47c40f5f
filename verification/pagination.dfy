/** `fetch`: non-timeseries records, either one page as the caller asked or,
    with `get_all`, every page the server has, 2000 records at a time. */
module Pagination {
  import opened Wrappers
  import opened Api
  import Columns
  import Seqs

  /** The fixed page size of the `get_all` loop. */
  const PageSize := 2000

  /** The `spec` of a fetch body; only `limit` and `offset` are ever rewritten. */
  datatype FetchSpec = FetchSpec(filter: Option<string>, includes: Option<string>, limit: Option<int>, offset: Option<int>)

  /** The payload of a fetch reply: the records and the continuation flag.
      `hasMore` is None when the key is absent from the reply. */
  datatype Page<Row> = Page(objs: seq<Row>, hasMore: Option<bool>)

  /** The data lake's fetch endpoint, as a function of the spec sent. */
  type Server<!Row> = FetchSpec -> Reply<Page<Row>>

  /** A table: its column labels and its rows, which the model keeps opaque. */
  datatype Frame<Row> = Frame(columns: seq<string>, rows: seq<Row>)

  /** The spec of the k-th request of the `get_all` loop. */
  function PageRequest(spec: FetchSpec, k: nat): FetchSpec {
    spec.(limit := Some(PageSize), offset := Some(PageSize * k))
  }

  /** The loop goes on after a reply only when it is a 200 that says `hasMore`. */
  predicate Continues<Row>(reply: Reply<Page<Row>>) {
    reply.status == StatusOk && reply.payload.hasMore == Some(true)
  }

  /** The k-th request of the loop is its last one. */
  predicate Stops<Row>(server: Server<Row>, spec: FetchSpec, k: nat) {
    !Continues(server(PageRequest(spec, k)))
  }

  /** The records of the first `n` pages, in order. */
  function Collected<Row>(server: Server<Row>, spec: FetchSpec, n: nat): seq<Row> {
    if n == 0 then [] else Collected(server, spec, n - 1) + server(PageRequest(spec, n - 1)).payload.objs
  }

  /** The reply to the last request sent. */
  function LastReply<Row>(server: Server<Row>, sent: seq<FetchSpec>): Reply<Page<Row>>
    requires 0 < |sent|
  {
    server(sent[|sent| - 1])
  }

  /** The `get_all` loop. It terminates only on a server that eventually
      stops; `bound` is a page on which it does (the loop itself does not
      know it). */
  method FetchAll<Row>(server: Server<Row>, spec: FetchSpec, ghost bound: nat)
    returns (r: Result<seq<Row>, Error>, sent: seq<FetchSpec>)
    requires Stops(server, spec, bound)
    ensures 0 < |sent| <= bound + 1
    ensures forall k :: 0 <= k < |sent| ==> sent[k] == PageRequest(spec, k)
    ensures forall k :: 0 <= k < |sent| - 1 ==> !Stops(server, spec, k)
    ensures 0 < |sent| && Stops(server, spec, |sent| - 1)
    ensures 0 < |sent| && (r.Success? <==> LastReply(server, sent).status == StatusOk && LastReply(server, sent).payload.hasMore == Some(false))
    ensures r.Success? ==> r.value == Collected(server, spec, |sent|)
    ensures r.Failure? && 0 < |sent| && LastReply(server, sent).status != StatusOk ==> r == ReadDataJson(LastReply(server, sent)).PropagateFailure()
    ensures r.Failure? && 0 < |sent| && LastReply(server, sent).status == StatusOk ==> r.error == MissingKey("hasMore")
  {
    var hasMore := true;
    var offset := 0;
    var limit := PageSize;
    var rows: seq<Row> := [];
    sent := [];
    while hasMore
      invariant offset == PageSize * |sent|
      invariant forall k :: 0 <= k < |sent| ==> sent[k] == PageRequest(spec, k)
      invariant hasMore ==> |sent| <= bound && forall k :: 0 <= k < |sent| ==> !Stops(server, spec, k)
      invariant !hasMore ==> 0 < |sent| <= bound + 1 && Stops(server, spec, |sent| - 1)
      invariant !hasMore ==> forall k :: 0 <= k < |sent| - 1 ==> !Stops(server, spec, k)
      invariant !hasMore ==> server(sent[|sent| - 1]).status == StatusOk && server(sent[|sent| - 1]).payload.hasMore == Some(false)
      invariant rows == Collected(server, spec, |sent|)
      decreases if hasMore then bound + 1 - |sent| else 0
    {
      var request := spec.(limit := Some(limit), offset := Some(offset));
      sent := sent + [request];
      var page :- ReadDataJson(server(request));
      rows := rows + page.objs;
      match page.hasMore {
        case None =>
          return Failure(MissingKey("hasMore")), sent;
        case Some(more) =>
          hasMore := more;
      }
      offset := offset + limit;
    }
    r := Success(rows);
  }

  /** `fetch(typename, body, get_all, remove_meta)`. The column labels that
      `json_normalize` derives from the records are given as `normalize`. */
  method Fetch<Row>(server: Server<Row>, spec: FetchSpec, getAll: bool, removeMeta: bool,
                    normalize: seq<Row> -> seq<string>, ghost bound: nat)
    returns (r: Result<Frame<Row>, Error>, sent: seq<FetchSpec>)
    requires getAll ==> Stops(server, spec, bound)
    ensures !getAll ==> sent == [spec]
    ensures !getAll ==> (r.Success? <==> server(spec).status == StatusOk)
    ensures !getAll && r.Success? ==> r.value.rows == server(spec).payload.objs
    ensures getAll ==> 0 < |sent| && Stops(server, spec, |sent| - 1)
    ensures getAll ==> forall k :: 0 <= k < |sent| - 1 ==> !Stops(server, spec, k)
    ensures getAll ==> forall k :: 0 <= k < |sent| ==> sent[k] == PageRequest(spec, k)
    ensures getAll ==> 0 < |sent| && (r.Success? <==> LastReply(server, sent).status == StatusOk && LastReply(server, sent).payload.hasMore == Some(false))
    ensures getAll && r.Success? ==> r.value.rows == Collected(server, spec, |sent|)
    ensures !getAll && r.Failure? ==> r.error == ReadDataJson(server(spec)).error
    ensures getAll && r.Failure? && 0 < |sent| && LastReply(server, sent).status != StatusOk ==> r.error == ReadDataJson(LastReply(server, sent)).error
    ensures getAll && r.Failure? && 0 < |sent| && LastReply(server, sent).status == StatusOk ==> r.error == MissingKey("hasMore")
    ensures r.Success? && removeMeta ==> r.value.columns == Columns.DropMeta(normalize(r.value.rows))
    ensures r.Success? && !removeMeta ==> r.value.columns == normalize(r.value.rows)
  {
    var rows: seq<Row>;
    if getAll {
      var all;
      all, sent := FetchAll(server, spec, bound);
      rows :- all;
    } else {
      sent := [spec];
      var page :- ReadDataJson(server(spec));
      rows := page.objs;
    }
    var columns := normalize(rows);
    if removeMeta {
      columns := Columns.DropMeta(columns);
    }
    r := Success(Frame(columns, rows));
  }

  /** A data lake holding `store` and paging it as the fetch endpoint does:
      the records from `offset` up to `offset + limit`, with `hasMore` set
      when records remain after them. */
  function StoreReply<Row>(store: seq<Row>, s: FetchSpec): Reply<Page<Row>> {
    var offset := if s.offset.Some? && 0 <= s.offset.value then s.offset.value else 0;
    var limit := if s.limit.Some? && 0 <= s.limit.value then s.limit.value else PageSize;
    var lo := Seqs.Min(offset, |store|);
    var hi := Seqs.Min(offset + limit, |store|);
    Reply(StatusOk, Page(store[lo..hi], Some(offset + limit < |store|)), None)
  }

  function StoreServer<Row>(store: seq<Row>): Server<Row> {
    s => StoreReply(store, s)
  }

  /** After `n` pages the loop holds exactly the first `2000 * n` records. */
  lemma {:induction false} StorePrefix<Row>(store: seq<Row>, spec: FetchSpec, n: nat)
    ensures Collected(StoreServer(store), spec, n) == store[..Seqs.Min(PageSize * n, |store|)]
  {
    if n > 0 {
      StorePrefix(store, spec, n - 1);
      var request := PageRequest(spec, n - 1);
      assert request.offset == Some(PageSize * (n - 1)) && request.limit == Some(PageSize);
      var lo := Seqs.Min(PageSize * (n - 1), |store|);
      var hi := Seqs.Min(PageSize * (n - 1) + PageSize, |store|);
      assert hi == Seqs.Min(PageSize * n, |store|);
      assert StoreServer(store)(request) == StoreReply(store, request);
      assert StoreReply(store, request).payload.objs == store[lo..hi];
      assert store[..lo] + store[lo..hi] == store[..hi];
    }
  }

  /** The k-th request is the last exactly when the store ends within its page. */
  lemma StoreStops<Row>(store: seq<Row>, spec: FetchSpec, k: nat)
    ensures Stops(StoreServer(store), spec, k) <==> |store| <= PageSize * (k + 1)
  {
    assert StoreServer(store)(PageRequest(spec, k)) == StoreReply(store, PageRequest(spec, k));
  }

  /** Pagination completeness: whenever the loop stops on this server, it has
      collected every stored record exactly once and in order. */
  lemma StoreFetchComplete<Row>(store: seq<Row>, spec: FetchSpec, k: nat)
    requires Stops(StoreServer(store), spec, k)
    ensures Collected(StoreServer(store), spec, k + 1) == store
  {
    StoreStops(store, spec, k);
    StorePrefix(store, spec, k + 1);
  }

  /** The loop does stop on this server: the last request is number
      `ceil(|store| / 2000) - 1` (counting from 0), or number 0 for an empty
      store, and every request before it continues. */
  lemma StoreTerminates<Row>(store: seq<Row>, spec: FetchSpec)
    ensures Stops(StoreServer(store), spec, StoreLastPage(|store|))
    ensures forall k :: 0 <= k < StoreLastPage(|store|) ==> !Stops(StoreServer(store), spec, k)
    ensures StoreLastPage(|store|) + 1 == if |store| == 0 then 1 else (|store| + PageSize - 1) / PageSize
  {
    var last := StoreLastPage(|store|);
    StoreStops(store, spec, last);
    forall k | 0 <= k < last
      ensures !Stops(StoreServer(store), spec, k)
    {
      StoreStops(store, spec, k);
    }
  }

  /** The index of the page a store of `n` records ends in. */
  function StoreLastPage(n: nat): nat {
    if n == 0 then 0 else (n - 1) / PageSize
  }
}
