// The lazy result set (`QuerySet`, query.py:58-693): builder methods return modified copies,
// and `count`, indexing and slicing run the query on the server only when they need to,
// keeping the fetched window of results in a cache keyed by absolute position.
module QuerySets {
  import opened Wrappers
  import opened Text
  import opened Literals
  import opened FieldDefs
  import opened ReturnClasses
  import opened QueryModel
  import Compiler
  import opened XqueryBuilder
  import Filters
  import opened Projections
  import Returns

  /** One result as the server returns it; wrapping it in the model class is not modelled. */
  type Item = string

  /** `default_chunk_size`. */
  const DefaultChunkSize: int := 100

  // ---------------------------------------------------------------------------------------
  // The server.

  /** What one query call answers: the session id, the total hit count and the window of items. */
  datatype Response = Response(session: int, hits: int, items: seq<Item>)

  /** The items from the 1-based position `start`, at most `howMany` of them. */
  function Window(res: seq<Item>, start: int, howMany: int): (w: seq<Item>)
    requires start >= 1
    ensures |w| <= |res|
    ensures forall j :: 0 <= j < |w| ==> start - 1 + j < |res| && w[j] == res[start - 1 + j]
  {
    var lo := start - 1;
    if lo >= |res| || howMany <= 0 then [] else res[lo..Min(lo + howMany, |res|)]
  }

  /** `dict(enumerate(items, start=from))`: each item under its position counted from `from`. */
  function Enumerated(items: seq<Item>, from: int): map<int, Item>
  {
    if |items| == 0 then map[] else Enumerated(items[1..], from + 1)[from := items[0]]
  }

  /**
   * A window cached by `_runQuery` holds exactly the positions the server returned, each
   * under its absolute 0-based index and with the result found there.
   */
  lemma CachedWindow(res: seq<Item>, start: int, howMany: int)
    requires start >= 1
    ensures var c := Enumerated(Window(res, start, howMany), start - 1);
            && (forall i :: i in c <==> start - 1 <= i < |res| && i < start - 1 + howMany)
            && (forall i :: i in c ==> c[i] == res[i])
  {
    var w := Window(res, start, howMany);
    var c := Enumerated(w, start - 1);
    EnumeratedKeys(w, start - 1);
    forall i ensures i in c <==> start - 1 <= i < |res| && i < start - 1 + howMany {
      if start - 1 <= i < |res| && i < start - 1 + howMany {
        assert |w| == Min(start - 1 + howMany, |res|) - (start - 1);
      }
    }
  }

  lemma {:induction false} EnumeratedKeys(items: seq<Item>, from: int)
    ensures forall i :: i in Enumerated(items, from) <==> from <= i < from + |items|
    ensures forall i :: i in Enumerated(items, from) ==> Enumerated(items, from)[i] == items[i - from]
    decreases |items|
  {
    if |items| > 0 {
      EnumeratedKeys(items[1..], from + 1);
    }
  }

  /**
   * The eXist server as the query set sees it: the full result list it gives for each query
   * text, and the result sessions it holds open, each with the query text it was opened for.
   */
  class Database {
    const answer: string -> seq<Item>
    var sessions: map<int, string>
    var nextSession: int

    ghost predicate Valid()
      reads this`sessions, this`nextSession
    {
      forall id :: id in sessions ==> id < nextSession
    }

    constructor (answer: string -> seq<Item>)
      ensures Valid() && this.answer == answer && sessions == map[]
    {
      this.answer := answer;
      sessions := map[];
      nextSession := 0;
    }

    /**
     * `query(text, start, how_many, cache=True)` without a session, which opens a new one,
     * or `query(..., session=id)`, which reads the results the session holds.  A start
     * before the first result and an unknown session are rejected.
     */
    method Query(text: string, start: int, howMany: int, session: Option<int>) returns (r: Result<Response>)
      requires Valid()
      modifies this
      ensures Valid()
      ensures start < 1 ==> r.Failure? && sessions == old(sessions) && nextSession == old(nextSession)
      ensures start >= 1 && session.None? ==>
                var id := old(nextSession);
                && sessions == old(sessions)[id := text] && nextSession == id + 1
                && r == Success(Response(id, |answer(text)|, Window(answer(text), start, howMany)))
      ensures start >= 1 && session.Some? ==>
                && sessions == old(sessions) && nextSession == old(nextSession)
                && r == if session.value in sessions
                        then Success(Response(session.value, |answer(sessions[session.value])|,
                                              Window(answer(sessions[session.value]), start, howMany)))
                        else Failure(ServerError("unknown session"))
    {
      if start < 1 {
        return Failure(ServerError("start"));
      }
      if session.None? {
        var id := nextSession;
        sessions := sessions[id := text];
        nextSession := nextSession + 1;
        var res := answer(text);
        return Success(Response(id, |res|, Window(res, start, howMany)));
      }
      var id := session.value;
      if id !in sessions {
        return Failure(ServerError("unknown session"));
      }
      var res := answer(sessions[id]);
      r := Success(Response(id, |res|, Window(res, start, howMany)));
    }

    /** `query(release=id)`. */
    method Release(id: int)
      requires Valid()
      modifies this`sessions
      ensures Valid() && sessions == old(sessions) - {id}
    {
      sessions := sessions - {id};
    }
  }

  /** Changing only the shared `where_fields` list changes only that entry of the state. */
  lemma OverWhere(a: QueryState, w: seq<string>, w': seq<string>, r: seq<string>, x: seq<Option<string>>, c: int)
    ensures Over(a, w', r, x, c) == Over(a, w, r, x, c).(whereFields := w')
  {
  }

  /** Changing only the shared `raw_fields` list changes only that entry of the state. */
  lemma OverRaw(a: QueryState, w: seq<string>, r: seq<string>, r': seq<string>, x: seq<Option<string>>, c: int)
    ensures Over(a, w, r', x, c) == Over(a, w, r, x, c).(rawFields := r')
  {
  }

  /** Every cached entry is the result at its position in `res`. */
  ghost predicate CacheHolds(cache: map<int, Item>, res: seq<Item>)
  {
    forall i :: i in cache ==> 0 <= i < |res| && cache[i] == res[i]
  }

  /** The text of the query the builder assembles, or its failure. */
  function QueryText(st: QueryState, parse: string -> XPath.Expr): Result<string>
  {
    Compiler.GetQuery(st, parse).query
  }

  /** `dict(d)`: each key with the value it is first listed with. */
  function AsMap(d: Dict): (m: map<string, string>)
    ensures forall k :: k in m <==> Get(d, k).Some?
    ensures forall k :: k in m ==> m[k] == Get(d, k).value
  {
    if |d| == 0 then map[] else AsMap(d[1..])[d[0].0 := d[0].1]
  }

  /**
   * What the first access to `return_type` raises for a set over `model`, as the query
   * result type asks for it right after `getQuery` left the builder in `st`.  Only a set with
   * a model, not distinct, whose return type is not yet set and which has partial or
   * additional fields builds a return class: the locators `get_return_xpaths` gives can fail,
   * and so can `_create_return_class` over the partial fields updated by the additional ones.
   */
  function ResultTypeError(model: Option<NodeClass>, isSet: bool, partial: Overrides, additional: Overrides, st: QueryState): Option<Error>
  {
    if model.None? || st.distinct || isSet || (|partial| == 0 && |additional| == 0) then None
    else
      match Returns.GetReturnXPaths(st)
      case Failure(e) => Some(e)
      case Success(xpaths) =>
        match ReturnClass(model.value.name, UpdateSpecs(partial, additional), "", AsMap(xpaths))
        case Failure(e) => Some(e)
        case Success(_) => None
  }

  /** The return type is built once: after the first access nothing can fail. */
  lemma ResultTypeOnce(model: Option<NodeClass>, partial: Overrides, additional: Overrides, st: QueryState)
    ensures ResultTypeError(model, true, partial, additional, st) == None
  {
  }

  /** A set without a model, a distinct set and one without field overrides never build a return class. */
  lemma ResultTypePlain(model: Option<NodeClass>, isSet: bool, partial: Overrides, additional: Overrides, st: QueryState)
    requires model.None? || st.distinct || (partial == [] && additional == [])
    ensures ResultTypeError(model, isSet, partial, additional, st) == None
  {
  }

  /** The state `getQuery` leaves the builder in, whether or not it succeeds. */
  function QueriedState(st: QueryState, parse: string -> XPath.Expr): QueryState
  {
    Compiler.GetQuery(st, parse).state
  }

  // ---------------------------------------------------------------------------------------
  // The query set.

  class QuerySet {
    const db: Database
    const query: Xquery
    const model: Option<NodeClass>
    /** `partial_fields` and `additional_fields`, as `only` and `also` fill them. */
    var partialFields: Overrides
    var additionalFields: Overrides
    var highlightMatches: bool
    /** `_result_id`: the open result session, if any. */
    var resultId: Option<int>
    /** `_count`: the hit count of the last run. */
    var count: Option<int>
    /** `_result_cache`: fetched results by absolute 0-based position. */
    var resultCache: map<int, Item>
    var start: int
    var stop: Option<int>
    /** The query text whose results the cache holds. */
    ghost var source: string
    /** Whether `_return_type` is set; the first access to `return_type` sets it. */
    var returnTypeSet: bool

    ghost predicate Valid()
      reads this`resultId, this`count, this`resultCache, this`source, db`sessions, db`nextSession
      reads query`whereFields, query`rawFields
    {
      && query.Valid() && db.Valid()
      && (resultId.Some? <==> count.Some?)
      && (resultId.Some? ==> resultId.value in db.sessions
                             && count.value == |db.answer(db.sessions[resultId.value])|)
      && CacheHolds(resultCache, db.answer(source))
    }

    /** The hit count of the open session. */
    ghost function Hits(): int
      requires Valid() && resultId.Some?
      reads this`resultId, this`count, this`resultCache, this`source, db`sessions, db`nextSession
      reads query`whereFields, query`rawFields
    {
      |db.answer(db.sessions[resultId.value])|
    }

    /** No session, count or cache, and the whole result range: a set as `_getCopy` makes it. */
    ghost predicate Unrun()
      reads this`resultId, this`count, this`resultCache, this`start, this`stop, this`returnTypeSet
    {
      resultId.None? && count.None? && resultCache == map[] && start == 0 && stop.None? && !returnTypeSet
    }

    /** `c` asks the same server about the same model through a builder sharing this one's lists. */
    ghost predicate SharesWith(c: QuerySet)
      reads query`whereFields, query`rawFields, query`returnXPaths, c.query`whereFields, c.query`rawFields, c.query`returnXPaths
    {
      && c.db == db && c.model == model && c.query.parse == query.parse
      && c.query.whereFields == query.whereFields && c.query.rawFields == query.rawFields
      && c.query.returnXPaths == query.returnXPaths
    }

    /** `c` has this set's field overrides and highlighting. */
    ghost predicate SameProjections(c: QuerySet)
      reads this`partialFields, this`additionalFields, this`highlightMatches
      reads c`partialFields, c`additionalFields, c`highlightMatches
    {
      c.partialFields == partialFields && c.additionalFields == additionalFields && c.highlightMatches == highlightMatches
    }

    /** `QuerySet(model, xpath, using, collection, fulltext_options)`; `namespaces` is the model's `ROOT_NAMESPACES`. */
    constructor (model: Option<NodeClass>, xpath: Option<string>, db: Database, collection: Option<string>,
                 ftOptions: Dict, namespaces: Option<Dict>, parse: string -> XPath.Expr)
      requires db.Valid()
      ensures Valid() && fresh(query) && fresh(query.whereFields) && fresh(query.rawFields)
      ensures this.db == db && this.model == model && query.parse == parse
      ensures query.State() == Init(xpath, CollectionName(collection), None,
                                    if model.Some? && namespaces.Some? then namespaces.value else [], ftOptions)
      ensures resultId.None? && count.None? && resultCache == map[] && start == 0 && stop.None? && !returnTypeSet
      ensures partialFields == [] && additionalFields == [] && !highlightMatches
    {
      var coll := if collection.Some? then Some(LStrip(collection.value, {'/'})) else None;
      var ns := if model.Some? && namespaces.Some? then namespaces.value else [];
      query := new Xquery(xpath, coll, None, ns, ftOptions, parse);
      this.db := db;
      this.model := model;
      partialFields := [];
      additionalFields := [];
      highlightMatches := false;
      resultId := None;
      count := None;
      resultCache := map[];
      start := 0;
      stop := None;
      source := "";
      returnTypeSet := false;
    }

    /** `QuerySet(model, xquery=xq, using=db)`. */
    constructor WithQuery(model: Option<NodeClass>, xq: Xquery, db: Database)
      requires db.Valid() && xq.Valid()
      ensures Valid() && this.db == db && this.model == model && query == xq
      ensures resultId.None? && count.None? && resultCache == map[] && start == 0 && stop.None? && !returnTypeSet
      ensures partialFields == [] && additionalFields == [] && !highlightMatches
    {
      query := xq;
      this.db := db;
      this.model := model;
      partialFields := [];
      additionalFields := [];
      highlightMatches := false;
      resultId := None;
      count := None;
      resultCache := map[];
      start := 0;
      stop := None;
      source := "";
      returnTypeSet := false;
    }

    /**
     * `_getCopy`: a new set over a copy of the builder, with the same projections and
     * highlighting, and with no cache, no session, no count and the whole result range.
     */
    method GetCopy() returns (c: QuerySet)
      requires Valid()
      ensures fresh(c) && fresh(c.query) && c.Valid() && c.Unrun() && SharesWith(c)
      ensures c.query.State() == Copy(query.State())
      ensures c.partialFields == partialFields && c.additionalFields == additionalFields
      ensures c.highlightMatches == highlightMatches && SameProjections(c)
    {
      var xq := query.GetCopy();
      c := new QuerySet.WithQuery(model, xq, db);
      c.partialFields := partialFields;
      c.additionalFields := additionalFields;
      c.highlightMatches := highlightMatches;
    }

    /**
     * `_runQuery(start, max_items)`: the query text is built, the result type is asked for,
     * and the query is sent with the open session, or opens one; the session and hit count
     * are kept, and unless no items were asked for the cache is replaced by the returned
     * window under its absolute positions.
     */
    method RunQuery(startArg: Option<int>, maxArg: Option<int>) returns (r: Result<Response>)
      requires Valid()
      modifies this`resultId, this`count, this`resultCache, this`source, this`returnTypeSet, db
      modifies query`returnXPaths, query`fieldCount
      ensures Valid()
      ensures var q := QueryText(old(query.State()), query.parse);
              var rt := ResultTypeError(model, old(returnTypeSet), partialFields, additionalFields, QueriedState(old(query.State()), query.parse));
              var s := startArg.GetOr(old(start) + 1);
              && (q.Failure? ==> r == Failure(q.error))
              && (q.Success? && rt.Some? ==> r == Failure(rt.value))
              && (q.Success? && rt.None? ==> Fetched(q.value, s, maxArg.GetOr(DefaultChunkSize), r))
      ensures returnTypeSet == (old(returnTypeSet) || (QueryText(old(query.State()), query.parse).Success? && model.Some? && !old(query.State()).distinct))
      ensures r.Failure? ==> resultId == old(resultId) && count == old(count) && resultCache == old(resultCache) && source == old(source)
      ensures r.Failure? || old(resultId).Some? ==> db.sessions == old(db.sessions) && db.nextSession == old(db.nextSession)
      ensures old(resultId).Some? ==> resultId == old(resultId)
    {
      var maxItems := maxArg.GetOr(DefaultChunkSize);
      var s := startArg.GetOr(start + 1);
      var q := query.GetQuery();
      if q.Failure? {
        return Failure(q.error);
      }
      r := Send(q.value, s, maxItems);
    }

    /** What `_runQuery` does with the compiled text: the result type is asked for, then the server. */
    method Send(text: string, s: int, maxItems: int) returns (r: Result<Response>)
      requires Valid()
      modifies this`resultId, this`count, this`resultCache, this`source, this`returnTypeSet, db
      ensures Valid()
      ensures var rt := ResultTypeError(model, old(returnTypeSet), partialFields, additionalFields, query.State());
              && (rt.Some? ==> r == Failure(rt.value))
              && (rt.None? ==> Fetched(text, s, maxItems, r))
      ensures returnTypeSet == (old(returnTypeSet) || (model.Some? && !query.State().distinct))
      ensures r.Failure? ==> resultId == old(resultId) && count == old(count) && resultCache == old(resultCache) && source == old(source)
      ensures r.Failure? || old(resultId).Some? ==> db.sessions == old(db.sessions) && db.nextSession == old(db.nextSession)
      ensures old(resultId).Some? ==> resultId == old(resultId)
    {
      var rt := ResolveReturnType();
      if rt.Some? {
        return Failure(rt.value);
      }
      r := Fetch(text, s, maxItems);
    }

    /**
     * The part of `query_result_type` that can fail: `return_type`, asked for on a set with
     * a model that is not distinct.  It sets `_return_type` to the model before it builds a
     * return class for the partial and additional fields, so a failure is raised only once.
     */
    method ResolveReturnType() returns (err: Option<Error>)
      modifies this`returnTypeSet
      ensures err == ResultTypeError(model, old(returnTypeSet), partialFields, additionalFields, query.State())
      ensures returnTypeSet == (old(returnTypeSet) || (model.Some? && !query.State().distinct))
    {
      if model.None? || query.attrs.distinct || returnTypeSet {
        return None;
      }
      returnTypeSet := true;
      if |partialFields| == 0 && |additionalFields| == 0 {
        return None;
      }
      var xpaths := query.GetReturnXPaths();
      if xpaths.Failure? {
        return Some(xpaths.error);
      }
      var cls := CreateReturnClass(model.value.name, UpdateSpecs(partialFields, additionalFields), "", AsMap(xpaths.value));
      if cls.Failure? {
        return Some(cls.error);
      }
      err := None;
    }

    /**
     * What a server call for `text` from position `s` leaves: it succeeds exactly when `s`
     * is a position, it reads the open session or opens a new one for `text`, the session and
     * hit count are kept, and unless no items were asked for the cache is replaced by the
     * window under its absolute positions.
     */
    twostate predicate Fetched(text: string, s: int, maxItems: int, new r: Result<Response>)
      reads this, db
    {
      && (r.Success? <==> s >= 1)
      && (r.Success? ==>
            var t := if old(resultId).Some? && old(resultId).value in old(db.sessions)
                     then old(db.sessions)[old(resultId).value] else text;
            && resultId == Some(r.value.session) && count == Some(r.value.hits)
            && (old(resultId).None? ==> r.value.session == old(db.nextSession) && r.value.session in db.sessions
                                        && db.sessions[r.value.session] == text)
            && r.value.hits == |db.answer(t)| && s >= 1 && r.value.items == Window(db.answer(t), s, maxItems)
            && resultCache == (if maxItems != 0 then Enumerated(r.value.items, s - 1) else old(resultCache))
            && source == (if maxItems != 0 then t else old(source)))
    }

    /** The server call of `_runQuery` and what it keeps of the response. */
    method Fetch(text: string, s: int, maxItems: int) returns (r: Result<Response>)
      requires Valid()
      modifies this`resultId, this`count, this`resultCache, this`source, db
      ensures Valid() && Fetched(text, s, maxItems, r)
      ensures r.Failure? ==> resultId == old(resultId) && count == old(count) && resultCache == old(resultCache) && source == old(source)
      ensures r.Failure? || old(resultId).Some? ==> db.sessions == old(db.sessions) && db.nextSession == old(db.nextSession)
      ensures old(resultId).Some? ==> resultId == old(resultId)
    {
      r := db.Query(text, s, maxItems, resultId);
      if r.Failure? {
        return;
      }
      var res := r.value;
      if resultId.None? {
        resultId := Some(res.session);
      }
      count := Some(res.hits);
      if maxItems != 0 {
        CachedWindow(db.answer(db.sessions[res.session]), s, maxItems);
        resultCache := Enumerated(res.items, s - 1);
        source := db.sessions[res.session];
      }
    }

    /**
     * `count()`: a set with a stop counts its window without asking the server; otherwise
     * it is the hit count, fetched by running the query the first time, less the start.
     */
    method Count() returns (n: Result<int>)
      requires Valid()
      modifies this`resultId, this`count, this`resultCache, this`source, this`returnTypeSet, db
      modifies query`returnXPaths, query`fieldCount
      ensures Valid()
      ensures old(stop).Some? ==> n == Success(old(stop).value - start) && unchanged(this, db, query)
      ensures old(stop).None? && old(resultId).Some? ==> n == Success(old(count).value - start) && unchanged(this, db, query)
      ensures old(stop).None? && old(resultId).None? ==>
                var q := QueryText(old(query.State()), query.parse);
                var rt := ResultTypeError(model, old(returnTypeSet), partialFields, additionalFields, QueriedState(old(query.State()), query.parse));
                && (n.Success? <==> q.Success? && rt.None? && start >= 0)
                && (n.Success? ==> && resultId == Some(old(db.nextSession)) && db.sessions[resultId.value] == q.value
                                   && n.value == |db.answer(q.value)| - start && source == q.value)
                && (q.Failure? ==> n == Failure(q.error))
                && (q.Success? && rt.Some? ==> n == Failure(rt.value))
                && (n.Success? && n.value > 0 ==> start in resultCache)
      ensures n.Success? ==> (stop.Some? || count.Some?) && n.value == Counted()
      ensures n.Success? && stop.None? ==> resultId.Some? && n.value == Hits() - start
      ensures n.Failure? ==> resultId == old(resultId)
    {
      if stop.Some? {
        return Success(stop.value - start);
      }
      if count.None? {
        var res := RunFirst();
        if res.Failure? {
          return Failure(res.error);
        }
      }
      n := Success(count.value - start);
    }

    /**
     * The first run `count()` makes, from the current start with the default chunk size:
     * it opens a session for the compiled text and caches the first result when there is one.
     */
    method RunFirst() returns (res: Result<Response>)
      requires Valid() && resultId.None?
      modifies this`resultId, this`count, this`resultCache, this`source, this`returnTypeSet, db
      modifies query`returnXPaths, query`fieldCount
      ensures Valid()
      ensures var q := QueryText(old(query.State()), query.parse);
              var rt := ResultTypeError(model, old(returnTypeSet), partialFields, additionalFields, QueriedState(old(query.State()), query.parse));
              && (res.Success? <==> q.Success? && rt.None? && start >= 0)
              && (res.Success? ==> && resultId == Some(old(db.nextSession)) && db.sessions[resultId.value] == q.value
                                   && count == Some(|db.answer(q.value)|) && source == q.value)
              && (q.Failure? ==> res == Failure(q.error))
              && (q.Success? && rt.Some? ==> res == Failure(rt.value))
      ensures res.Success? && start < |db.answer(source)| ==> start in resultCache
      ensures res.Failure? ==> resultId.None? && count.None?
    {
      res := RunQuery(None, None);
      if res.Success? {
        CachedWindow(db.answer(source), start + 1, DefaultChunkSize);
      }
    }

    /** What `count()` answers once it can answer without the server. */
    ghost function Counted(): int
      requires stop.Some? || count.Some?
      reads this`stop, this`start, this`count
    {
      if stop.Some? then stop.value - start else count.value - start
    }

    /**
     * `self[k]` for an integer `k`: checked against the count, then read from the cache at
     * the absolute position `k + start`, fetching the window first when the cache is empty
     * and the single position when the window misses it.
     */
    method GetIndex(k: int) returns (r: Result<Item>)
      requires Valid()
      modifies this`resultId, this`count, this`resultCache, this`source, this`returnTypeSet, db
      modifies query`returnXPaths, query`fieldCount
      ensures Valid()
      ensures r.Success? ==> 0 <= k && 0 <= k + start < |db.answer(source)| && r.value == db.answer(source)[k + start]
      ensures r.Success? ==> (stop.Some? ==> k < stop.value - start) && (stop.None? ==> resultId.Some? && k < Hits() - start)
      ensures stop.Some? && !(0 <= k < stop.value - start) ==> r.Failure? && r.error.IndexError?
      ensures stop.None? && resultId.Some? && !(0 <= k < Hits() - start) ==> r.Failure? && r.error.IndexError?
      ensures old(resultId).None? && old(resultCache) == map[] && r.Success? ==>
                resultId == Some(old(db.nextSession)) && source == db.sessions[resultId.value]
      ensures (old(stop).Some? || old(resultId).Some?) && 0 <= k < old(Counted()) && k + start in old(resultCache) ==>
                r == Success(old(resultCache)[k + start]) && unchanged(this, db, query)
      ensures k < 0 ==> r.Failure? && r.error.IndexError? && unchanged(this, db, query)
    {
      if k < 0 {
        return Failure(IndexError("query result index out of range"));
      }
      var c := CountSession();
      if c.Failure? {
        return Failure(c.error);
      }
      if k < 0 || k >= c.value {
        return Failure(IndexError("query result index out of range"));
      }
      var maxItems := if stop.Some? then stop.value - start + 1 else DefaultChunkSize;
      r := Lookup(k + start, maxItems);
    }

    /**
     * The item at the absolute position `i`: the window is fetched first when the cache is
     * empty, then the single position when the window misses it, and the cache is read.
     */
    method Lookup(i: int, maxItems: int) returns (r: Result<Item>)
      requires Valid()
      modifies this`resultId, this`count, this`resultCache, this`source, this`returnTypeSet, db
      modifies query`returnXPaths, query`fieldCount
      ensures Valid()
      ensures r.Success? ==> 0 <= i < |db.answer(source)| && r.value == db.answer(source)[i]
      ensures old(resultId).Some? ==> resultId == old(resultId) && db.sessions == old(db.sessions)
      ensures old(resultId).Some? && old(source) == old(db.sessions)[old(resultId).value] ==> source == old(source)
      ensures old(resultId).None? && old(resultCache) == map[] && r.Success? ==>
                resultId == Some(old(db.nextSession)) && source == db.sessions[resultId.value]
      ensures i in old(resultCache) ==> r == Success(old(resultCache)[i]) && unchanged(this, db, query)
    {
      var err := FillWindow(maxItems);
      if err.Some? {
        return Failure(err.value);
      }
      err := FetchAt(i, maxItems);
      if err.Some? {
        return Failure(err.value);
      }
      if i !in resultCache {
        return Failure(KeyError("result " + IntToString(i)));
      }
      r := Success(resultCache[i]);
    }

    /** `if not self._result_cache: self._runQuery(self._start + 1, max_items)`. */
    method FillWindow(maxItems: int) returns (err: Option<Error>)
      requires Valid()
      modifies this`resultId, this`count, this`resultCache, this`source, this`returnTypeSet, db
      modifies query`returnXPaths, query`fieldCount
      ensures Valid()
      ensures old(resultCache) != map[] ==> err.None? && unchanged(this, db, query)
      ensures old(resultId).Some? ==> resultId == old(resultId) && db.sessions == old(db.sessions)
      ensures err.None? && old(resultCache) == map[] ==>
                resultId.Some? && resultId.value in db.sessions && (maxItems != 0 ==> source == db.sessions[resultId.value])
      ensures err.None? && old(resultCache) == map[] && old(resultId).None? ==> resultId == Some(old(db.nextSession))
      ensures old(resultId).Some? && old(source) == old(db.sessions)[old(resultId).value] ==> source == old(source)
      ensures maxItems == 0 ==> resultCache == old(resultCache)
    {
      if resultCache == map[] {
        var res := RunQuery(Some(start + 1), Some(maxItems));
        if res.Failure? {
          return Some(res.error);
        }
      }
      err := None;
    }

    /** `if i not in self._result_cache: self._runQuery(i + 1, max_items)`. */
    method FetchAt(i: int, maxItems: int) returns (err: Option<Error>)
      requires Valid()
      modifies this`resultId, this`count, this`resultCache, this`source, this`returnTypeSet, db
      modifies query`returnXPaths, query`fieldCount
      ensures Valid()
      ensures i in old(resultCache) ==> err.None? && unchanged(this, db, query)
      ensures old(resultId).Some? ==> resultId == old(resultId) && db.sessions == old(db.sessions)
      ensures err.None? && i !in old(resultCache) ==>
                resultId.Some? && resultId.value in db.sessions && (maxItems != 0 ==> source == db.sessions[resultId.value])
      ensures old(resultId).Some? && old(source) == old(db.sessions)[old(resultId).value] ==> source == old(source)
      ensures maxItems == 0 ==> resultCache == old(resultCache)
    {
      if i !in resultCache {
        var res := RunQuery(Some(i + 1), Some(maxItems));
        if res.Failure? {
          return Some(res.error);
        }
      }
      err := None;
    }

    /** One pass of the loop in `filter`, on the copy being filtered. */
    method ApplyFilterArg(arg: string, value: FilterValue, kwargs: Filters.Kwargs, mode: Option<string>)
      returns (err: Option<Error>)
      requires query.Valid()
      modifies query`attrs, query.whereFields, this`highlightMatches
      ensures var g := Filters.FilterArg(Filters.Filtering(old(query.State()), old(highlightMatches), None),
                                         arg, value, kwargs, model, mode);
              query.State() == g.st && highlightMatches == g.highlight && err == g.error
    {
      var l := Filters.ResolveArg(arg, model);
      err := ApplyLookup(l, value, mode);
      if err.Some? {
        return;
      }
      if l.lookup == "fulltext_terms" {
        var on := Filters.HighlightKwarg(kwargs).GetOr(true);
        highlightMatches := on;
        query.SetHighlight(Bool(on));
      }
      if l.lookup == "highlight" {
        query.SetHighlight(value);
        highlightMatches := if value.Bool? then value.b else true;
      }
    }

    /** What a resolved argument does to the builder: `set_document`, `add_filter`, or nothing. */
    method ApplyLookup(l: Filters.Lookup, value: FilterValue, mode: Option<string>) returns (err: Option<Error>)
      requires query.Valid()
      modifies query`attrs, query.whereFields
      ensures var o := Filters.LookupOutcome(old(query.State()), l, value, mode);
              query.State() == o.state && err == o.error
    {
      if l.lookup == "document_path" {
        query.SetDocument(Some(Filters.DocumentText(value)));
        err := None;
      } else if l.lookup != "highlight" || !value.Bool? {
        err := query.AddFilter(l.xpath, l.lookup, value, mode);
      } else {
        err := None;
      }
    }

    /**
     * `filter(combine, **kwargs)`: the arguments are applied in order to a copy, which is
     * returned; the first failing argument raises.  The original changes only through the
     * `where_fields` list it shares with the copy.
     */
    method Filter(kwargs: Filters.Kwargs, mode: Option<string>) returns (r: Result<QuerySet>)
      requires Valid()
      modifies query.whereFields
      ensures var g := Filters.Filter(Copy(old(query.State())), old(highlightMatches), kwargs, model, mode);
              && query.State() == old(query.State()).(whereFields := g.st.whereFields)
              && (g.error.Some? ==> r == Failure(g.error.value))
              && (g.error.None? ==> r.Success? && r.value.query.State() == g.st && r.value.highlightMatches == g.highlight)
      ensures r.Success? ==> && fresh(r.value) && fresh(r.value.query) && r.value.Valid()
                             && r.value.db == db && r.value.model == model && r.value.query.parse == query.parse
                             && r.value.partialFields == partialFields && r.value.additionalFields == additionalFields
                             && r.value.resultId.None? && r.value.count.None? && r.value.resultCache == map[]
                             && r.value.start == 0 && r.value.stop.None? && !r.value.returnTypeSet
    {
      var c := GetCopy();
      ghost var a, w, raw, x, n := query.attrs, query.whereFields.items, query.rawFields.items,
                                   query.returnXPaths.items, query.fieldCount;
      var err := c.ApplyFilterArgs(kwargs, mode);
      OverWhere(a, w, query.whereFields.items, raw, x, n);
      if err.Some? {
        return Failure(err.value);
      }
      r := Success(c);
    }

    /** Argument `i` of the loop of `filter`, applied after the ones before it. */
    method ApplyFilterArgAt(ghost init: Filters.Filtering, kwargs: Filters.Kwargs, i: int, mode: Option<string>)
      returns (err: Option<Error>)
      requires query.Valid() && 0 <= i < |kwargs|
      requires Filters.FilterArgs(init, kwargs[..i], kwargs, model, mode)
               == Filters.Filtering(query.State(), highlightMatches, None)
      modifies query`attrs, query.whereFields, this`highlightMatches
      ensures Filters.FilterArgs(init, kwargs[..i + 1], kwargs, model, mode)
              == Filters.Filtering(query.State(), highlightMatches, err)
    {
      assert kwargs[..i + 1][..i] == kwargs[..i];
      err := ApplyFilterArg(kwargs[i].0, kwargs[i].1, kwargs, mode);
    }

    /** The loop of `filter` over its arguments, on the copy being filtered. */
    method ApplyFilterArgs(kwargs: Filters.Kwargs, mode: Option<string>) returns (err: Option<Error>)
      requires query.Valid()
      modifies query`attrs, query.whereFields, this`highlightMatches
      ensures var g := Filters.Filter(old(query.State()), old(highlightMatches), kwargs, model, mode);
              query.State() == g.st && highlightMatches == g.highlight && err == g.error
    {
      ghost var init := Filters.Filtering(query.State(), highlightMatches, None);
      var i := 0;
      while i < |kwargs|
        invariant 0 <= i <= |kwargs|
        invariant Filters.FilterArgs(init, kwargs[..i], kwargs, model, mode)
                  == Filters.Filtering(query.State(), highlightMatches, None)
      {
        err := ApplyFilterArgAt(init, kwargs, i, mode);
        if err.Some? {
          Filters.FilterArgsStopped(init, kwargs, i + 1, kwargs, model, mode);
          return;
        }
        i := i + 1;
      }
      assert kwargs[..i] == kwargs;
      err := None;
    }

    /** `order_by(field)`: a copy sorted on the field's XPath, or on the name when it has none. */
    method OrderBy(field: string) returns (qs: QuerySet)
      requires Valid()
      ensures fresh(qs) && fresh(qs.query) && qs.Valid() && qs.Unrun() && SharesWith(qs)
      ensures qs.partialFields == partialFields && qs.additionalFields == additionalFields
      ensures qs.highlightMatches == highlightMatches
      ensures var s := ParseSort(field);
              qs.query.State() == Sort(Copy(query.State()), OrderXPath(s.field, model), s.ascending, s.caseInsensitive)
    {
      var s := ParseSort(field);
      var xpath := OrderXPath(s.field, model);
      qs := GetCopy();
      qs.query.Sort(xpath, s.ascending, s.caseInsensitive);
    }

    /** `order_by_raw(xpath, ascending)`. */
    method OrderByRaw(xpath: string, ascending: bool) returns (qs: QuerySet)
      requires Valid()
      ensures fresh(qs) && fresh(qs.query) && qs.Valid() && qs.Unrun() && SharesWith(qs)
      ensures qs.partialFields == partialFields && qs.additionalFields == additionalFields
      ensures qs.highlightMatches == highlightMatches
      ensures qs.query.State() == SortRaw(Copy(query.State()), xpath, ascending)
    {
      qs := GetCopy();
      qs.query.SortRaw(xpath, ascending);
    }

    /** `only(*fields)`: the copy returns just these fields and records how each resolved. */
    method Only(fields: seq<string>) returns (qs: QuerySet)
      requires Valid()
      modifies query.rawFields
      ensures query.State() == old(query.State())
      ensures fresh(qs) && fresh(qs.query) && qs.Valid() && qs.Unrun() && SharesWith(qs)
      ensures qs.partialFields == UpdateSpecs(partialFields, UpdateSpecs([], ObjPairs(fields, model)))
      ensures qs.additionalFields == additionalFields && qs.highlightMatches == highlightMatches
      ensures qs.query.State() == ReturnOnly(Copy(query.State()), Update([], XPathPairs(fields, model)), false)
    {
      var objs, xpaths := ResolveFields(fields, model);
      qs := OnlyCopy(objs, xpaths, false);
    }

    /** `also(*fields)`: the copy returns these fields besides the whole result. */
    method Also(fields: seq<string>) returns (qs: QuerySet)
      requires Valid()
      modifies query.rawFields
      ensures query.State() == old(query.State())
      ensures fresh(qs) && fresh(qs.query) && qs.Valid() && qs.Unrun() && SharesWith(qs)
      ensures qs.additionalFields == UpdateSpecs(additionalFields, UpdateSpecs([], ObjPairs(fields, model)))
      ensures qs.partialFields == partialFields && qs.highlightMatches == highlightMatches
      ensures qs.query.State() == ReturnAlso(Copy(query.State()), Update([], XPathPairs(fields, model)), false)
    {
      var objs, xpaths := ResolveFields(fields, model);
      qs := AlsoCopy(objs, xpaths, false);
    }

    /**
     * The end of `only` and of `_raw_field(only=True)`: a copy whose `partial_fields` are
     * updated and whose builder gets the projections.  Raw names are appended to the
     * `raw_fields` list the copy shares with this set.
     */
    method OnlyCopy(objs: Overrides, xpaths: Dict, raw: bool) returns (qs: QuerySet)
      requires Valid()
      modifies query.rawFields
      ensures query.State() == old(query.State()).(rawFields := query.rawFields.items)
      ensures query.rawFields.items == old(query.rawFields.items) + (if raw then Keys(xpaths) else [])
      ensures fresh(qs) && fresh(qs.query) && qs.Valid() && qs.Unrun() && SharesWith(qs)
      ensures qs.partialFields == UpdateSpecs(partialFields, objs)
      ensures qs.additionalFields == additionalFields && qs.highlightMatches == highlightMatches
      ensures qs.query.State() == ReturnOnly(Copy(old(query.State())), xpaths, raw)
    {
      qs := GetCopy();
      ghost var a, w, r, x, n := query.attrs, query.whereFields.items, query.rawFields.items,
                                 query.returnXPaths.items, query.fieldCount;
      qs.ProjectOnly(objs, xpaths, raw);
      OverRaw(a, w, r, query.rawFields.items, x, n);
    }

    /** `self.partial_fields.update(objs)` and `self.query.return_only(xpaths, raw)`. */
    method ProjectOnly(objs: Overrides, xpaths: Dict, raw: bool)
      requires query.Valid()
      modifies this`partialFields, query`attrs, query.rawFields
      ensures partialFields == UpdateSpecs(old(partialFields), objs)
      ensures query.State() == ReturnOnly(old(query.State()), xpaths, raw)
      ensures query.rawFields.items == old(query.rawFields.items) + (if raw then Keys(xpaths) else [])
    {
      partialFields := UpdateSpecs(partialFields, objs);
      query.ReturnOnly(xpaths, raw);
    }

    /** The end of `also` and of `_raw_field(also=True)`, on `additional_fields`. */
    method AlsoCopy(objs: Overrides, xpaths: Dict, raw: bool) returns (qs: QuerySet)
      requires Valid()
      modifies query.rawFields
      ensures query.State() == old(query.State()).(rawFields := query.rawFields.items)
      ensures query.rawFields.items == old(query.rawFields.items) + (if raw then Keys(xpaths) else [])
      ensures fresh(qs) && fresh(qs.query) && qs.Valid() && qs.Unrun() && SharesWith(qs)
      ensures qs.additionalFields == UpdateSpecs(additionalFields, objs)
      ensures qs.partialFields == partialFields && qs.highlightMatches == highlightMatches
      ensures qs.query.State() == ReturnAlso(Copy(old(query.State())), xpaths, raw)
    {
      qs := GetCopy();
      ghost var a, w, r, x, n := query.attrs, query.whereFields.items, query.rawFields.items,
                                 query.returnXPaths.items, query.fieldCount;
      qs.ProjectAlso(objs, xpaths, raw);
      OverRaw(a, w, r, query.rawFields.items, x, n);
    }

    /** `self.additional_fields.update(objs)` and `self.query.return_also(xpaths, raw)`. */
    method ProjectAlso(objs: Overrides, xpaths: Dict, raw: bool)
      requires query.Valid()
      modifies this`additionalFields, query`attrs, query.rawFields
      ensures additionalFields == UpdateSpecs(old(additionalFields), objs)
      ensures query.State() == ReturnAlso(old(query.State()), xpaths, raw)
      ensures query.rawFields.items == old(query.rawFields.items) + (if raw then Keys(xpaths) else [])
    {
      additionalFields := UpdateSpecs(additionalFields, objs);
      query.ReturnAlso(xpaths, raw);
    }

    /**
     * `_raw_field(only, also, **fields)`: fields returned by their raw XPaths.  The names are
     * appended to the `raw_fields` list the copy shares with this set.
     */
    method RawField(only: bool, also: bool, fields: Dict) returns (qs: QuerySet)
      requires Valid()
      modifies query.rawFields
      ensures query.State() == old(query.State()).(rawFields := old(query.State()).rawFields
                                                  + (if only || also then Keys(Update([], fields)) else []))
      ensures fresh(qs) && fresh(qs.query) && qs.Valid() && qs.Unrun() && SharesWith(qs)
      ensures qs.highlightMatches == highlightMatches
      ensures var objs := UpdateSpecs([], ObjPairs(Keys(fields), model));
              && qs.partialFields == (if only then UpdateSpecs(partialFields, objs) else partialFields)
              && qs.additionalFields == (if !only && also then UpdateSpecs(additionalFields, objs) else additionalFields)
      ensures var st := Copy(old(query.State()));
              qs.query.State() == if only then ReturnOnly(st, Update([], fields), true)
                                  else if also then ReturnAlso(st, Update([], fields), true)
                                  else st
    {
      var objs, xpaths := ResolveRawFields(fields, model);
      if only {
        qs := OnlyCopy(objs, xpaths, true);
      } else if also {
        qs := AlsoCopy(objs, xpaths, true);
      } else {
        qs := GetCopy();
      }
    }

    /** `also_raw(**fields)`. */
    method AlsoRaw(fields: Dict) returns (qs: QuerySet)
      requires Valid()
      modifies query.rawFields
      ensures query.State() == old(query.State()).(rawFields := old(query.State()).rawFields + Keys(Update([], fields)))
      ensures fresh(qs) && fresh(qs.query) && qs.Valid() && qs.Unrun() && SharesWith(qs)
      ensures qs.additionalFields == UpdateSpecs(additionalFields, UpdateSpecs([], ObjPairs(Keys(fields), model)))
      ensures qs.partialFields == partialFields && qs.highlightMatches == highlightMatches
      ensures qs.query.State() == ReturnAlso(Copy(old(query.State())), Update([], fields), true)
    {
      qs := RawField(false, true, fields);
    }

    /** `only_raw(**fields)`. */
    method OnlyRaw(fields: Dict) returns (qs: QuerySet)
      requires Valid()
      modifies query.rawFields
      ensures query.State() == old(query.State()).(rawFields := old(query.State()).rawFields + Keys(Update([], fields)))
      ensures fresh(qs) && fresh(qs.query) && qs.Valid() && qs.Unrun() && SharesWith(qs)
      ensures qs.partialFields == UpdateSpecs(partialFields, UpdateSpecs([], ObjPairs(Keys(fields), model)))
      ensures qs.additionalFields == additionalFields && qs.highlightMatches == highlightMatches
      ensures qs.query.State() == ReturnOnly(Copy(old(query.State())), Update([], fields), true)
    {
      qs := RawField(true, false, fields);
    }

    /** `distinct()`. */
    method Distinct() returns (qs: QuerySet)
      requires Valid()
      ensures fresh(qs) && fresh(qs.query) && qs.Valid() && qs.Unrun() && SharesWith(qs)
      ensures qs.partialFields == partialFields && qs.additionalFields == additionalFields
      ensures qs.highlightMatches == highlightMatches
      ensures qs.query.State() == Copy(query.State()).(distinct := true)
    {
      qs := GetCopy();
      qs.query.Distinct();
    }

    /** `all()`: an identical copy. */
    method All() returns (qs: QuerySet)
      requires Valid()
      ensures fresh(qs) && fresh(qs.query) && qs.Valid() && qs.Unrun() && SharesWith(qs)
      ensures qs.partialFields == partialFields && qs.additionalFields == additionalFields
      ensures qs.highlightMatches == highlightMatches
      ensures qs.query.State() == Copy(query.State())
    {
      qs := GetCopy();
    }

    /** `using(collection)`: a copy that queries another collection. */
    method Using(collection: Option<string>) returns (qs: QuerySet)
      requires Valid()
      ensures fresh(qs) && fresh(qs.query) && qs.Valid() && qs.Unrun() && SharesWith(qs)
      ensures qs.partialFields == partialFields && qs.additionalFields == additionalFields
      ensures qs.highlightMatches == highlightMatches
      ensures qs.query.State() == SetCollection(Copy(query.State()), collection)
    {
      qs := GetCopy();
      qs.query.SetCollection(collection);
    }

    /** `exclude(**kwargs)`: `filter` with the filters negated. */
    method Exclude(kwargs: Filters.Kwargs) returns (r: Result<QuerySet>)
      requires Valid()
      modifies query.whereFields
      ensures var g := Filters.Filter(Copy(old(query.State())), old(highlightMatches), kwargs, model, Some("NOT"));
              && query.State() == old(query.State()).(whereFields := g.st.whereFields)
              && (g.error.Some? ==> r == Failure(g.error.value))
              && (g.error.None? ==> r.Success? && r.value.query.State() == g.st && r.value.highlightMatches == g.highlight)
      ensures r.Success? ==> && fresh(r.value) && fresh(r.value.query) && r.value.Valid() && r.value.Unrun()
                             && r.value.db == db && r.value.model == model && r.value.query.parse == query.parse
    {
      r := Filter(kwargs, Some("NOT"));
    }

    /** `or_filter(**kwargs)`: `filter` with the filters combined by `or`. */
    method OrFilter(kwargs: Filters.Kwargs) returns (r: Result<QuerySet>)
      requires Valid()
      modifies query.whereFields
      ensures var g := Filters.Filter(Copy(old(query.State())), old(highlightMatches), kwargs, model, Some("OR"));
              && query.State() == old(query.State()).(whereFields := g.st.whereFields)
              && (g.error.Some? ==> r == Failure(g.error.value))
              && (g.error.None? ==> r.Success? && r.value.query.State() == g.st && r.value.highlightMatches == g.highlight)
      ensures r.Success? ==> && fresh(r.value) && fresh(r.value.query) && r.value.Valid() && r.value.Unrun()
                             && r.value.db == db && r.value.model == model && r.value.query.parse == query.parse
    {
      r := Filter(kwargs, Some("OR"));
    }

    /**
     * `self[kstart:kstop]`: a copy from the absolute position `kstart`, 0 when it is
     * missing, up to `kstop` capped at this set's count, and sharing this set's cache.
     * A missing stop stays missing.  This set is counted in any case.
     */
    method GetSlice(kstart: Option<int>, kstop: Option<int>) returns (r: Result<QuerySet>)
      requires Valid()
      modifies this`resultId, this`count, this`resultCache, this`source, this`returnTypeSet, db
      modifies query`returnXPaths, query`fieldCount
      ensures Valid()
      ensures r.Success? ==>
                && fresh(r.value) && fresh(r.value.query) && r.value.Valid()
                && r.value.db == db && r.value.model == model && r.value.query.parse == query.parse
                && r.value.query.whereFields == query.whereFields && r.value.query.rawFields == query.rawFields
                && r.value.query.State() == Copy(old(query.State()))
                && SameProjections(r.value)
                && r.value.resultId.None? && r.value.count.None?
                && r.value.start == kstart.GetOr(0)
                && (stop.Some? || count.Some?)
                && r.value.stop == (if kstop.None? then None else Some(Min(kstop.value, Counted())))
                && r.value.resultCache == resultCache && r.value.source == source
      ensures old(stop).Some? || old(resultId).Some? ==> r.Success?
      ensures r.Failure? ==> old(stop).None? && old(resultId).None? && resultId.None?
    {
      var qs, n := CountedCopy();
      if n.Failure? {
        return Failure(n.error);
      }
      qs.ShareWindow(kstart.GetOr(0), if kstop.None? then None else Some(Min(kstop.value, n.value)), resultCache, source);
      r := Success(qs);
    }

    /** The copy a slice starts from, made before this set is counted. */
    method CountedCopy() returns (qs: QuerySet, n: Result<int>)
      requires Valid()
      modifies this`resultId, this`count, this`resultCache, this`source, this`returnTypeSet, db
      modifies query`returnXPaths, query`fieldCount
      ensures Valid()
      ensures fresh(qs) && fresh(qs.query) && qs.Valid() && qs.Unrun() && SameProjections(qs)
      ensures qs.db == db && qs.model == model && qs.query.parse == query.parse
      ensures qs.query.whereFields == query.whereFields && qs.query.rawFields == query.rawFields
      ensures qs.query.State() == Copy(old(query.State()))
      ensures n.Success? ==> (stop.Some? || count.Some?) && n.value == Counted()
      ensures old(stop).Some? || old(resultId).Some? ==> n.Success?
      ensures n.Failure? ==> old(stop).None? && old(resultId).None? && resultId.None?
    {
      qs := GetCopy();
      n := CountSession();
    }

    /**
     * `count()` as indexing and slicing use it: the count and what it leaves of the session
     * and the cache, leaving out the query text it was run for.
     */
    method CountSession() returns (n: Result<int>)
      requires Valid()
      modifies this`resultId, this`count, this`resultCache, this`source, this`returnTypeSet, db
      modifies query`returnXPaths, query`fieldCount
      ensures Valid()
      ensures n.Success? ==> (stop.Some? || count.Some?) && n.value == Counted()
      ensures n.Success? && stop.None? ==> resultId.Some? && n.value == Hits() - start
      ensures old(stop).Some? || old(resultId).Some? ==> n.Success? && unchanged(this, db, query)
      ensures old(stop).None? && old(resultId).None? && n.Success? ==>
                resultId == Some(old(db.nextSession)) && source == db.sessions[resultId.value]
      ensures n.Failure? ==> old(stop).None? && old(resultId).None? && resultId.None?
    {
      n := Count();
    }

    /** The end of slicing: the bounds are set and the cache is shared with the sliced set. */
    method ShareWindow(b: int, s: Option<int>, cache: map<int, Item>, ghost src: string)
      requires Valid() && resultCache == map[] && CacheHolds(cache, db.answer(src))
      modifies this`start, this`stop, this`resultCache, this`source
      ensures Valid() && start == b && stop == s && resultCache == cache && source == src
    {
      start := b;
      stop := s;
      resultCache := cache;
      source := src;
    }

    /**
     * `self[key]`: an integer key gives the result at that position of the set, a slice a
     * sub-set, and any other key is a `TypeError`.
     */
    method GetItem(key: Key) returns (r: Result<Got>)
      requires Valid()
      modifies this`resultId, this`count, this`resultCache, this`source, this`returnTypeSet, db
      modifies query`returnXPaths, query`fieldCount
      ensures Valid()
      ensures key.OtherKey? ==> r.Failure? && r.error.TypeError? && unchanged(this, db, query)
      ensures key.IntKey? && key.k < 0 ==> r.Failure? && r.error.IndexError? && unchanged(this, db, query)
      ensures key.IntKey? && r.Success? ==>
                r.value.OneItem? && 0 <= key.k + start < |db.answer(source)| && r.value.item == db.answer(source)[key.k + start]
      ensures key.SliceKey? && r.Success? ==>
                && r.value.Subset? && fresh(r.value.qs) && r.value.qs.Valid()
                && r.value.qs.start == key.start.GetOr(0) && r.value.qs.resultCache == resultCache
    {
      match key {
        case IntKey(k) =>
          var x := GetIndex(k);
          if x.Failure? {
            return Failure(x.error);
          }
          r := Success(OneItem(x.value));
        case SliceKey(a, b) =>
          var x := GetSlice(a, b);
          if x.Failure? {
            return Failure(x.error);
          }
          r := Success(Subset(x.value));
        case OtherKey =>
          r := Failure(TypeError("index"));
      }
    }

    /**
     * `get(**kwargs)`: the one result the filtered copy finds; no match raises
     * `DoesNotExist` and several raise `ReturnedMultiple` with their number.
     */
    method Get(kwargs: Filters.Kwargs) returns (r: Result<Item>)
      requires Valid()
      modifies query.whereFields, db
      ensures var g := Filters.Filter(Copy(old(query.State())), old(highlightMatches), kwargs, model, Some("AND"));
              var q := QueryText(g.st, query.parse);
              var rt := ResultTypeError(model, false, partialFields, additionalFields, QueriedState(g.st, query.parse));
              && query.State() == old(query.State()).(whereFields := g.st.whereFields)
              && (g.error.Some? ==> r == Failure(g.error.value))
              && (g.error.None? && q.Failure? ==> r == Failure(q.error))
              && (g.error.None? && q.Success? && rt.Some? ==> r == Failure(rt.value))
              && (g.error.None? && q.Success? && rt.None? ==>
                    var hits := db.answer(q.value);
                    r == if |hits| == 1 then Success(hits[0])
                         else if |hits| == 0 then Failure(DoesNotExist(0))
                         else Failure(ReturnedMultiple(|hits|)))
    {
      var f := Filter(kwargs, Some("AND"));
      if f.Failure? {
        return Failure(f.error);
      }
      r := f.value.SingleResult();
    }

    /** `self[0]` on a counted set whose first result is cached: the cache is read and nothing changes. */
    method FirstCached() returns (r: Result<Item>)
      requires Valid() && (stop.Some? || resultId.Some?) && 0 < Counted() && start in resultCache
      modifies this`resultId, this`count, this`resultCache, this`source, this`returnTypeSet, db
      modifies query`returnXPaths, query`fieldCount
      ensures r == Success(old(resultCache)[start]) && unchanged(this, db, query)
    {
      r := GetIndex(0);
    }

    /**
     * The end of `get`, on the filtered copy: it is counted, the one result is read by
     * index, and the count is asked again for the error when there are none or several.
     */
    method SingleResult() returns (r: Result<Item>)
      requires Valid() && Unrun()
      modifies this`resultId, this`count, this`resultCache, this`source, this`returnTypeSet, db
      modifies query`returnXPaths, query`fieldCount
      ensures var q := QueryText(old(query.State()), query.parse);
              var rt := ResultTypeError(model, false, partialFields, additionalFields, QueriedState(old(query.State()), query.parse));
              && (q.Failure? ==> r == Failure(q.error))
              && (q.Success? && rt.Some? ==> r == Failure(rt.value))
              && (q.Success? && rt.None? ==>
                    var hits := db.answer(q.value);
                    r == if |hits| == 1 then Success(hits[0])
                         else if |hits| == 0 then Failure(DoesNotExist(0))
                         else Failure(ReturnedMultiple(|hits|)))
    {
      var c := Count();
      if c.Failure? {
        return Failure(c.error);
      }
      if c.value == 1 {
        r := FirstCached();
        return;
      }
      c := Count();
      if c.value == 0 {
        return Failure(DoesNotExist(0));
      }
      c := Count();
      r := Failure(ReturnedMultiple(c.value));
    }

    /** `_release_query_result`: the server forgets the open session. */
    method ReleaseQueryResult()
      requires Valid() && resultId.Some?
      modifies this`resultId, db`sessions
      ensures db.Valid() && resultId.None?
      ensures db.sessions == old(db.sessions) - {old(resultId).value}
    {
      db.Release(resultId.value);
      resultId := None;
    }

    /**
     * `reset()`, as written: the filters are cleared and an open session is released
     * together with its count, but the cached results stay.
     */
    method Reset()
      requires Valid()
      modifies query`attrs, this`resultId, this`count, db`sessions
      ensures Valid()
      ensures query.State() == ClearFilters(old(query.State()))
      ensures resultId.None? && count.None? && resultCache == old(resultCache) && source == old(source)
      ensures db.sessions == if old(resultId).Some? then old(db.sessions) - {old(resultId).value} else old(db.sessions)
    {
      query.ClearFilters();
      if resultId.Some? {
        ReleaseQueryResult();
        resultId := None;
        count := None;
      }
    }

    /** `reset()` as its documentation describes it: the cached results are dropped too. */
    method ResetClearingCache()
      requires Valid()
      modifies query`attrs, this`resultId, this`count, this`resultCache, db`sessions
      ensures Valid()
      ensures query.State() == ClearFilters(old(query.State()))
      ensures resultId.None? && count.None? && resultCache == map[]
      ensures db.sessions == if old(resultId).Some? then old(db.sessions) - {old(resultId).value} else old(db.sessions)
    {
      Reset();
      resultCache := map[];
    }
  }

  /** An index into a query set: an integer, a slice with optional bounds, or anything else. */
  datatype Key = IntKey(k: int) | SliceKey(start: Option<int>, stop: Option<int>) | OtherKey

  /** What indexing gives: one result, or a sub-set for a slice. */
  datatype Got = OneItem(item: Item) | Subset(qs: QuerySet)

  /**
   * `reset()` as written leaves a stale window: on a slice whose window is cached, an index
   * read after clearing the filters still gives the result fetched for the filtered query.
   */
  method StaleAfterReset(qs: QuerySet, k: int) returns (r: Result<Item>)
    requires qs.Valid() && qs.stop.Some? && 0 <= k < qs.stop.value - qs.start && k + qs.start in qs.resultCache
    modifies qs`resultId, qs`count, qs`resultCache, qs`source, qs`returnTypeSet, qs.db
    modifies qs.query`attrs, qs.query`returnXPaths, qs.query`fieldCount
    ensures qs.query.State() == ClearFilters(old(qs.query.State()))
    ensures r == Success(old(qs.resultCache)[k + qs.start])
  {
    qs.Reset();
    r := qs.GetIndex(k);
  }

  /**
   * With the cache dropped, every result read after the reset comes from a session opened
   * after it.
   */
  method FreshAfterReset(qs: QuerySet, k: int) returns (r: Result<Item>)
    requires qs.Valid()
    modifies qs`resultId, qs`count, qs`resultCache, qs`source, qs`returnTypeSet, qs.db
    modifies qs.query`attrs, qs.query`returnXPaths, qs.query`fieldCount
    ensures qs.query.State().filters == []
    ensures r.Success? ==> && qs.resultId.Some? && qs.resultId.value == old(qs.db.nextSession)
                           && qs.resultId.value in qs.db.sessions
                           && 0 <= k + qs.start < |qs.db.answer(qs.db.sessions[qs.resultId.value])|
                           && r.value == qs.db.answer(qs.db.sessions[qs.resultId.value])[k + qs.start]
  {
    qs.ResetClearingCache();
    r := qs.GetIndex(k);
  }
}
