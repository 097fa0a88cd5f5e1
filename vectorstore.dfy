/**
  The vector-store adapter (`MilvusOperator` in app/utils/milvus_operator.py):
  metric validation and connection settings, the per-`database_collection`
  instance cache, the search-result formatting, and the id filter used by
  `query_by_ids` and `delete_by_ids`. The store itself is a collaborator: its
  search, query, delete and release calls are function parameters.
 */
module VectorStore {
  import opened Wrappers
  import opened Strings
  import opened Sorting

  type Vector = seq<int>

  // ---------------------------------------------------------------------------
  // Construction
  // ---------------------------------------------------------------------------

  const ValidMetricTypes: set<string> := {"L2", "IP"}
  const DefaultMetricType: string := "IP"

  datatype OpError =
    | InvalidMetricType(metricType: string)  // ValueError from the constructor
    | ConnectionFailed                       // ConnectionError from `_connect`

  datatype OperatorConfig = OperatorConfig(database: string, collName: string, metricType: string, host: string, port: string)

  /** `value or os.getenv(name, default)`: an absent or empty argument falls back to the environment, then to the default. */
  function Setting(given: Option<string>, env: map<string, string>, name: string, default: string): string {
    if given.Some? && given.value != "" then given.value
    else if name in env then env[name]
    else default
  }

  /** The checks and assignments of `MilvusOperator.__init__` before `_connect`. */
  function Configure(database: string, collection: string, metricType: string,
                     host: Option<string>, port: Option<string>, env: map<string, string>): (r: Result<OperatorConfig, OpError>)
    ensures r.Ok? <==> metricType in ValidMetricTypes
    ensures r.Err? ==> r.error == InvalidMetricType(metricType)
    ensures r.Ok? ==> r.value.database == database && r.value.collName == collection && r.value.metricType == metricType
    ensures r.Ok? && host.Some? && host.value != "" ==> r.value.host == host.value
    ensures r.Ok? && (host.None? || host.value == "") && "MILVUS_HOST" !in env ==> r.value.host == "127.0.0.1"
    ensures r.Ok? && port.Some? && port.value != "" ==> r.value.port == port.value
    ensures r.Ok? && (port.None? || port.value == "") && "MILVUS_PORT" !in env ==> r.value.port == "19530"
  {
    if metricType !in ValidMetricTypes then Err(InvalidMetricType(metricType))
    else Ok(OperatorConfig(database, collection, metricType,
                           Setting(host, env, "MILVUS_HOST", "127.0.0.1"), Setting(port, env, "MILVUS_PORT", "19530")))
  }

  /** A constructed operator; its settings never change after `__init__`. */
  class Operator {
    const config: OperatorConfig

    constructor(config: OperatorConfig)
      ensures this.config == config
    {
      this.config := config;
    }
  }

  /** `f"{database}_{collection}"`, the key of the instance cache. */
  function InstanceKey(database: string, collection: string): string {
    database + "_" + collection
  }

  /** The key is not injective: a database name ending in `_b` collides with a collection name starting with `b_`. */
  lemma InstanceKeyCollision(a: string, b: string, c: string)
    ensures InstanceKey(a + "_" + b, c) == InstanceKey(a, b + "_" + c)
  {
  }

  lemma InstanceKeyCollisionExample()
    ensures ("a_b", "c") != ("a", "b_c") && InstanceKey("a_b", "c") == InstanceKey("a", "b_c")
  {
    InstanceKeyCollision("a", "b", "c");
  }

  /** The class-level `_instances` dictionary. */
  class Registry {
    var instances: map<string, Operator>

    constructor()
      ensures instances == map[]
    {
      instances := map[];
    }

    /**
      `MilvusOperator.get_instance(database, collection, metric_type, **kwargs)`:
      a cached operator is returned as it is, whatever metric or settings are
      passed now; otherwise one is constructed (`connectOk` is the outcome of
      `_connect`) and cached only when construction succeeds.
     */
    method GetInstance(database: string, collection: string, metricType: string,
                       host: Option<string>, port: Option<string>, env: map<string, string>, connectOk: bool)
      returns (r: Result<Operator, OpError>)
      modifies this
      ensures var key := InstanceKey(database, collection);
              key in old(instances) ==> r == Ok(old(instances)[key]) && instances == old(instances)
      ensures var key := InstanceKey(database, collection);
              key !in old(instances) ==>
                match Configure(database, collection, metricType, host, port, env)
                case Err(e) => r == Err(e) && instances == old(instances)
                case Ok(c) =>
                  if !connectOk then r == Err(ConnectionFailed) && instances == old(instances)
                  else r.Ok? && fresh(r.value) && r.value.config == c && instances == old(instances)[key := r.value]
    {
      var key := InstanceKey(database, collection);
      if key in instances {
        return Ok(instances[key]);
      }
      var c := Configure(database, collection, metricType, host, port, env);
      if c.Err? {
        return Err(c.error);
      }
      if !connectOk {
        return Err(ConnectionFailed);
      }
      var op := new Operator(c.value);
      instances := instances[key := op];
      return Ok(op);
    }
  }

  // ---------------------------------------------------------------------------
  // Search
  // ---------------------------------------------------------------------------

  /** The entity fields of a hit: `hit.entity.get('video_id')`, `hit.entity.get('at_seconds')`. */
  datatype HitFields = HitFields(videoId: Option<string>, atSeconds: Option<int>)

  /** One hit of one query; `entity` is `None` when the hit has no `entity` attribute. Distances stand as integers. */
  datatype Hit = Hit(id: int, distance: int, entity: Option<HitFields>)

  /** A formatted entity: `m_id`, `distance`, and `video_id`/`at_seconds` when the hit had an entity. */
  datatype Entity = Entity(mId: int, distance: int, fields: Option<HitFields>)

  function ToEntity(h: Hit): (e: Entity)
    ensures e.mId == h.id && e.distance == h.distance && e.fields == h.entity
  {
    Entity(h.id, h.distance, h.entity)
  }

  function Distance(e: Entity): int {
    e.distance
  }

  function Entities(hits: seq<Hit>): (r: seq<Entity>)
    ensures |r| == |hits| && forall k :: 0 <= k < |hits| ==> r[k] == ToEntity(hits[k])
  {
    if hits == [] then [] else Entities(hits[..|hits| - 1]) + [ToEntity(hits[|hits| - 1])]
  }

  /** The entities of every hit of every query, query by query. */
  function AllHits(results: seq<seq<Hit>>): seq<Entity> {
    if results == [] then [] else AllHits(results[..|results| - 1]) + Entities(results[|results| - 1])
  }

  function HitCount(results: seq<seq<Hit>>): nat {
    if results == [] then 0 else HitCount(results[..|results| - 1]) + |results[|results| - 1]|
  }

  /** What `_format_search_results` returns. */
  function FormattedResults(results: seq<seq<Hit>>): seq<Entity> {
    if results == [] || results[0] == [] then [] else Sort(AllHits(results), Distance)
  }

  /** `_format_search_results(results)`: nested append loops, then the in-place sort by distance. */
  method FormatSearchResults(results: seq<seq<Hit>>) returns (entityList: seq<Entity>)
    ensures entityList == FormattedResults(results)
  {
    entityList := [];
    if results != [] && results[0] != [] {
      var i := 0;
      while i < |results|
        invariant 0 <= i <= |results|
        invariant entityList == AllHits(results[..i])
      {
        var hits := results[i];
        var j := 0;
        while j < |hits|
          invariant 0 <= j <= |hits|
          invariant entityList == AllHits(results[..i]) + Entities(hits[..j])
        {
          entityList := entityList + [ToEntity(hits[j])];
          assert hits[..j + 1][..j] == hits[..j];
          j := j + 1;
        }
        assert hits[..j] == hits;
        assert results[..i + 1][..i] == results[..i];
        i := i + 1;
      }
      assert results[..i] == results;
      entityList := Sort(entityList, Distance);
    }
  }

  lemma {:induction false} AllHitsLength(results: seq<seq<Hit>>)
    ensures |AllHits(results)| == HitCount(results)
  {
    if results != [] {
      AllHitsLength(results[..|results| - 1]);
    }
  }

  /**
    Non-empty results become a permutation of all hits of all queries, sorted
    by ascending distance, with hits of equal distance in query order. Under
    the `IP` metric, where a larger value means more similar, the least
    similar hit therefore comes first.
   */
  lemma FormattedResultsCorrect(results: seq<seq<Hit>>, d: int)
    requires results != [] && results[0] != []
    ensures var r := FormattedResults(results);
            SortedBy(r, Distance)
            && multiset(r) == multiset(AllHits(results))
            && |r| == HitCount(results)
            && WithKey(r, Distance, d) == WithKey(AllHits(results), Distance, d)
  {
    SortCorrect(AllHits(results), Distance);
    SortStable(AllHits(results), Distance, d);
    AllHitsLength(results);
  }

  /** An empty first query empties the result, whatever the other queries returned. */
  lemma EmptyFirstQueryGivesNothing(results: seq<seq<Hit>>)
    requires results == [] || results[0] == []
    ensures FormattedResults(results) == []
  {
  }

  const DefaultSearchLimit: nat := 5
  const DefaultSearchFields: seq<string> := ["m_id", "video_id", "at_seconds"]

  /** The arguments `search_data` passes to `collection.search`. */
  datatype SearchRequest = SearchRequest(data: seq<Vector>, metricType: string, limit: nat,
                                         expr: Option<string>, outputFields: seq<string>)

  function SearchRequestFor(op: OperatorConfig, embedding: Vector, limit: nat,
                            outputFields: Option<seq<string>>, expr: Option<string>): (q: SearchRequest)
    ensures q.data == [embedding] && q.metricType == op.metricType && q.limit == limit && q.expr == expr
    ensures outputFields.None? || outputFields.value == [] ==> q.outputFields == DefaultSearchFields
  {
    SearchRequest([embedding], op.metricType, limit, expr,
                  if outputFields.None? || outputFields.value == [] then DefaultSearchFields else outputFields.value)
  }

  /**
    `search_data`: `search(q)` is `None` when loading or searching raised, and
    then the result is empty; releasing the collection afterwards never
    changes the result, since its errors are swallowed.
   */
  function SearchData(op: OperatorConfig, embedding: Vector, limit: nat, outputFields: Option<seq<string>>,
                      expr: Option<string>, search: SearchRequest -> Option<seq<seq<Hit>>>): (r: seq<Entity>)
    ensures search(SearchRequestFor(op, embedding, limit, outputFields, expr)).None? ==> r == []
    ensures search(SearchRequestFor(op, embedding, limit, outputFields, expr)).Some? ==>
              r == FormattedResults(search(SearchRequestFor(op, embedding, limit, outputFields, expr)).value)
  {
    match search(SearchRequestFor(op, embedding, limit, outputFields, expr))
    case None => []
    case Some(results) => FormattedResults(results)
  }

  /**
    A successful search whose first query has hits returns exactly those hits,
    flattened and sorted ascending by distance.
   */
  lemma SearchDataSorted(op: OperatorConfig, embedding: Vector, limit: nat, outputFields: Option<seq<string>>,
                         expr: Option<string>, search: SearchRequest -> Option<seq<seq<Hit>>>)
    requires var res := search(SearchRequestFor(op, embedding, limit, outputFields, expr));
             res.Some? && res.value != [] && res.value[0] != []
    ensures var res := search(SearchRequestFor(op, embedding, limit, outputFields, expr)).value;
            var r := SearchData(op, embedding, limit, outputFields, expr, search);
            SortedBy(r, Distance) && multiset(r) == multiset(AllHits(res))
  {
    var res := search(SearchRequestFor(op, embedding, limit, outputFields, expr)).value;
    FormattedResultsCorrect(res, 0);
  }

  /** When the store honours the limit for the single query it is sent, at most `limit` entities come back. */
  lemma SearchAtMostLimit(op: OperatorConfig, embedding: Vector, limit: nat, outputFields: Option<seq<string>>,
                          expr: Option<string>, search: SearchRequest -> Option<seq<seq<Hit>>>)
    requires var res := search(SearchRequestFor(op, embedding, limit, outputFields, expr));
             res.Some? ==> |res.value| <= 1 && forall k :: 0 <= k < |res.value| ==> |res.value[k]| <= limit
    ensures |SearchData(op, embedding, limit, outputFields, expr, search)| <= limit
  {
    var res := search(SearchRequestFor(op, embedding, limit, outputFields, expr));
    if res.Some? && res.value != [] && res.value[0] != [] {
      SortCorrect(AllHits(res.value), Distance);
      AllHitsLength(res.value);
      assert res.value[..0] == [];
    }
  }

  // ---------------------------------------------------------------------------
  // Insert, query and delete
  // ---------------------------------------------------------------------------

  datatype StoreOp = InsertOp | QueryOp | DeleteOp

  datatype StoreError =
    | OperationFailed(op: StoreOp)  // the generic Exception wrapping the store's error
    | ReleaseFailed                 // `collection.release()` raised in `finally`
    | CollectionUnbound             // `Collection(...)` raised, so `finally` finds no `collection`

  /** `insert_data`: any failure of `Collection(...)` or `insert` is re-raised wrapped. */
  function InsertData(inserted: bool): (r: Option<StoreError>)
    ensures r.None? <==> inserted
    ensures r.Some? ==> r.value == OperationFailed(InsertOp)
  {
    if inserted then None else Some(OperationFailed(InsertOp))
  }

  /** `str(id)` for every id. */
  function IdTexts(ids: seq<int>): (r: seq<string>)
    ensures |r| == |ids| && forall k :: 0 <= k < |ids| ==> r[k] == IntToString(ids[k])
  {
    if ids == [] then [] else [IntToString(ids[0])] + IdTexts(ids[1..])
  }

  const FilterPrefix: string := "m_id in ["
  const IdSeparator: string := ", "

  /** `f'm_id in [{", ".join(str(id) for id in ids)}]'`: the ids unquoted. */
  function IdFilter(ids: seq<int>): (f: string)
    ensures |f| >= |FilterPrefix| + 1 && f[..|FilterPrefix|] == FilterPrefix && f[|f| - 1] == ']'
  {
    FilterPrefix + Join(IdTexts(ids), IdSeparator) + "]"
  }

  function ParseAll(parts: seq<string>): (r: Option<seq<int>>)
    ensures r.Some? ==> |r.value| == |parts|
  {
    if parts == [] then Some([])
    else match (ParseInt(parts[0]), ParseAll(parts[1..]))
      case (Some(x), Some(xs)) => Some([x] + xs)
      case _ => None
  }

  /** Reads an id list back from a filter expression. */
  function IdsOfFilter(f: string): Option<seq<int>> {
    if |f| >= |FilterPrefix| + 1 && f[..|FilterPrefix|] == FilterPrefix && f[|f| - 1] == ']' then
      var inner := f[|FilterPrefix|..|f| - 1];
      if inner == "" then Some([]) else ParseAll(Split(inner, IdSeparator))
    else None
  }

  lemma {:induction false} ParseAllTexts(ids: seq<int>)
    ensures ParseAll(IdTexts(ids)) == Some(ids)
  {
    if ids != [] {
      ParseAllTexts(ids[1..]);
      ParseIntOfString(ids[0]);
      assert IdTexts(ids)[1..] == IdTexts(ids[1..]);
      assert [ids[0]] + ids[1..] == ids;
    }
  }

  /** The filter names exactly the given ids, in order: reading it back gives them. */
  lemma IdFilterRoundTrip(ids: seq<int>)
    ensures IdsOfFilter(IdFilter(ids)) == Some(ids)
  {
    var texts := IdTexts(ids);
    var f := IdFilter(ids);
    assert f[|FilterPrefix|..|f| - 1] == Join(texts, IdSeparator);
    if ids != [] {
      forall k | 0 <= k < |texts| ensures IdSeparator[0] !in texts[k] {
        assert IsDigit(IdSeparator[0]) == false;
      }
      SplitJoin(texts, IdSeparator);
      ParseAllTexts(ids);
      assert |Join(texts, IdSeparator)| >= 1 by {
        JoinLength(texts, IdSeparator);
        assert TotalLength(texts) >= |texts[0]|;
      }
    }
  }

  /**
    `query_by_ids(ids, output_fields)`: `query(expr, fields, limit)` is `None`
    when loading or querying raised. The limit is the number of ids asked for.
   */
  function QueryByIds<R>(ids: seq<int>, outputFields: Option<seq<string>>, collectionOk: bool,
                         query: (string, seq<string>, nat) -> Option<seq<R>>, releaseOk: bool): (r: Result<seq<R>, StoreError>)
    ensures var fields := if outputFields.None? || outputFields.value == [] then ["m_id", "embedding", "video_id"] else outputFields.value;
            (r.Ok? <==> collectionOk && query(IdFilter(ids), fields, |ids|).Some? && releaseOk)
            && (r.Ok? ==> r.value == query(IdFilter(ids), fields, |ids|).value)
    ensures !collectionOk ==> r == Err(CollectionUnbound)
    ensures collectionOk && !releaseOk ==> r == Err(ReleaseFailed)
  {
    if !collectionOk then Err(CollectionUnbound)
    else
      var fields := if outputFields.None? || outputFields.value == [] then ["m_id", "embedding", "video_id"] else outputFields.value;
      var outcome := query(IdFilter(ids), fields, |ids|);
      if !releaseOk then Err(ReleaseFailed)
      else if outcome.None? then Err(OperationFailed(QueryOp))
      else Ok(outcome.value)
  }

  /** `delete_by_ids(ids)`: deletes by the same filter; errors as for `query_by_ids`. */
  function DeleteByIds(ids: seq<int>, collectionOk: bool, delete: string -> bool, releaseOk: bool): (r: Option<StoreError>)
    ensures r.None? <==> collectionOk && delete(IdFilter(ids)) && releaseOk
    ensures !collectionOk ==> r == Some(CollectionUnbound)
    ensures collectionOk && !releaseOk ==> r == Some(ReleaseFailed)
    ensures collectionOk && releaseOk && !delete(IdFilter(ids)) ==> r == Some(OperationFailed(DeleteOp))
  {
    if !collectionOk then Some(CollectionUnbound)
    else if !releaseOk then Some(ReleaseFailed)
    else if !delete(IdFilter(ids)) then Some(OperationFailed(DeleteOp))
    else None
  }
}
