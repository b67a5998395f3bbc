/**
  The recommendation service: an event log, a store of per-user recommendation
  lists keyed by userId, and a shared key-value cache. Failures of the event
  store, the recommendation store and the cache are parameters of the
  operations that meet them.
 */
module Recommendation {
  import opened Wrappers
  import opened Models
  import opened Seqs
  import opened Scoring
  import opened CacheKeys

  /** Cached lists expire after twelve hours; time passing is not modelled. */
  const CacheTtlHours: nat := 12

  /** The COUNT hint of every SCAN call. */
  const ScanPageSize: nat := 100

  /** An error reported by the event store, the recommendation store or the cache. */
  datatype Error = Error(reason: string)

  /**
    A cached value, as `json.Unmarshal` into a product list sees it: a well-formed
    list; a well-formed list in which some field has the wrong type, whose elements
    still decode with that field left at its zero value (`partial`); or text that
    is not a JSON list at all.
   */
  datatype Payload =
    | Json(products: seq<ProductRecommendation>)
    | Mistyped(partial: seq<ProductRecommendation>)
    | Malformed(text: string)

  datatype CacheEntry = CacheEntry(payload: Payload, ttlHours: nat)

  function Encode(products: seq<ProductRecommendation>): Payload {
    Json(products)
  }

  /**
    The list the read serves from a cache entry: the error of `json.Unmarshal` is
    only logged, so whatever it left in the target is used, and nothing is left
    when the text is not a JSON list.
   */
  function CachedProducts(p: Payload): (r: seq<ProductRecommendation>)
    ensures p.Malformed? ==> r == []
  {
    match p
    case Json(products) => products
    case Mistyped(partial) => partial
    case Malformed(_) => []
  }

  /** Encoding and reading back a cached list gives the list itself. */
  lemma CachedProductsOfEncode(products: seq<ProductRecommendation>)
    ensures CachedProducts(Encode(products)) == products
  {
  }

  /** `s[:limit]` when `s` is longer than `limit`, otherwise `s`. */
  function Truncate<T>(s: seq<T>, limit: nat): (r: seq<T>)
    ensures |r| == (if |s| <= limit then |s| else limit)
    ensures r == s[..|r|]
  {
    if |s| <= limit then s else s[..limit]
  }

  /**
    The cache-aside read. A readable cache entry decides the answer on its own:
    the decoded list (empty if it does not decode) cut to `limit`. Otherwise the
    stored list for `userId`, cut to `limit`; no stored document gives an empty
    list; a store failure is returned as the error.
   */
  function ReadRecommendations(
    cache: map<string, CacheEntry>, store: map<string, seq<ProductRecommendation>>, prefix: string,
    userId: string, limit: nat, cacheReadFails: bool, findErr: Option<Error>): (r: Result<UserRecommendation, Error>)
    ensures r.Ok? ==> r.value.userId == userId && |r.value.products| <= limit
    ensures UserKey(prefix, userId) in cache && !cacheReadFails ==>
              && r.Ok?
              && (var cached := CachedProducts(cache[UserKey(prefix, userId)].payload);
                  && |r.value.products| == (if |cached| <= limit then |cached| else limit)
                  && r.value.products == cached[..|r.value.products|])
    ensures UserKey(prefix, userId) !in cache || cacheReadFails ==>
              && (r.Err? <==> findErr.Some?)
              && (r.Err? ==> r.error == findErr.value)
              && (r.Ok? && userId !in store ==> r.value.products == [])
              && (r.Ok? && userId in store ==>
                    && |r.value.products| == (if |store[userId]| <= limit then |store[userId]| else limit)
                    && r.value.products == store[userId][..|r.value.products|])
  {
    var key := UserKey(prefix, userId);
    if key in cache && !cacheReadFails then
      Ok(UserRecommendation(userId, Truncate(CachedProducts(cache[key].payload), limit)))
    else if findErr.Some? then
      Err(findErr.value)
    else if userId !in store then
      Ok(UserRecommendation(userId, []))
    else
      Ok(UserRecommendation(userId, Truncate(store[userId], limit)))
  }

  /** On a hit the store is never consulted: any two stores give the same answer. */
  lemma CacheHitIgnoresStore(
    cache: map<string, CacheEntry>, store1: map<string, seq<ProductRecommendation>>,
    store2: map<string, seq<ProductRecommendation>>, prefix: string, userId: string, limit: nat,
    findErr1: Option<Error>, findErr2: Option<Error>)
    requires UserKey(prefix, userId) in cache
    ensures ReadRecommendations(cache, store1, prefix, userId, limit, false, findErr1)
         == ReadRecommendations(cache, store2, prefix, userId, limit, false, findErr2)
  {
  }

  /** A list stored by the writer reads back unchanged through the store path. */
  lemma StoredListReadsBack(
    cache: map<string, CacheEntry>, store: map<string, seq<ProductRecommendation>>, prefix: string,
    rec: UserRecommendation, limit: nat)
    requires UserKey(prefix, rec.userId) !in cache
    requires |rec.products| <= limit
    ensures ReadRecommendations(cache, store[rec.userId := rec.products], prefix, rec.userId, limit, false, None)
         == Ok(rec)
  {
  }

  /** A list cached by the writer reads back unchanged through the cache path. */
  lemma CachedListReadsBack(
    cache: map<string, CacheEntry>, store: map<string, seq<ProductRecommendation>>, prefix: string,
    rec: UserRecommendation, limit: nat, findErr: Option<Error>)
    requires |rec.products| <= limit
    ensures ReadRecommendations(
              cache[UserKey(prefix, rec.userId) := CacheEntry(Encode(rec.products), CacheTtlHours)],
              store, prefix, rec.userId, limit, false, findErr)
         == Ok(rec)
  {
  }

  // ---------------------------------------------------------------------------
  // The invalidation scan, over a fixed snapshot of the matching keys

  /** The pages the scan visits: the first one always, then one per further 100 keys. */
  predicate Scanned(n: nat, page: nat) {
    page == 0 || page * ScanPageSize < n
  }

  /** One SCAN call at `cursor`: the next page of keys and the next cursor, 0 when done. */
  function Scan(snapshot: seq<string>, cursor: nat): (r: (seq<string>, nat))
    requires cursor <= |snapshot|
    ensures |r.0| <= ScanPageSize
    ensures r.1 == 0 <==> cursor + ScanPageSize >= |snapshot|
    ensures r.1 != 0 ==> r.1 == cursor + ScanPageSize && r.1 < |snapshot|
    ensures r.0 == snapshot[cursor..if r.1 == 0 then |snapshot| else r.1]
  {
    if cursor + ScanPageSize >= |snapshot| then (snapshot[cursor..], 0)
    else (snapshot[cursor..cursor + ScanPageSize], cursor + ScanPageSize)
  }

  function PageKeys(snapshot: seq<string>, page: nat): seq<string>
    requires Scanned(|snapshot|, page)
  {
    Scan(snapshot, page * ScanPageSize).0
  }

  /** The error that stops the scan at `page`, if any: the SCAN call's, or the DEL call's on a non-empty page. */
  function FaultAt(snapshot: seq<string>, page: nat, scanErr: nat -> Option<Error>, delErr: nat -> Option<Error>): Option<Error>
    requires Scanned(|snapshot|, page)
  {
    if scanErr(page).Some? then scanErr(page)
    else if |PageKeys(snapshot, page)| > 0 then delErr(page)
    else None
  }

  function UserIds(events: seq<Event>): (r: seq<string>)
    ensures |r| == |events|
    ensures forall i :: 0 <= i < |events| ==> r[i] == events[i].userId
  {
    seq(|events|, i requires 0 <= i < |events| => events[i].userId)
  }

  /**
    The values of `Distinct("userId")` over the event log, in order of first
    occurrence. An event recorded with an empty userId is stored without that field
    (it is `omitempty`), so the empty id is never among them.
   */
  function RecordedUserIds(events: seq<Event>): (r: seq<string>)
    ensures NoDuplicates(r)
    ensures forall u :: u in r <==> u != "" && exists e :: e in events && e.userId == u
  {
    var recorded := Filter(events, (e: Event) => e.userId != "");
    var ids := Distinct(UserIds(recorded));
    assert forall u :: u in UserIds(recorded) <==> exists e :: e in recorded && e.userId == u by {
      forall u | u in UserIds(recorded) ensures exists e :: e in recorded && e.userId == u {
        var i :| 0 <= i < |recorded| && UserIds(recorded)[i] == u;
        assert recorded[i] in recorded;
      }
      forall u | exists e :: e in recorded && e.userId == u ensures u in UserIds(recorded) {
        var e :| e in recorded && e.userId == u;
        var i :| 0 <= i < |recorded| && recorded[i] == e;
        assert UserIds(recorded)[i] == u;
      }
    }
    ids
  }

  /** The store after the recompute has written the users `ids`, in order. */
  function Recomputed(
    store: map<string, seq<ProductRecommendation>>, events: seq<Event>, ops: FloatOps, ids: seq<string>)
    : (m: map<string, seq<ProductRecommendation>>)
    ensures forall u :: u in ids ==> u in m && m[u] == ProjectAll(UserPipeline(events, u, ops))
    ensures forall u :: u !in ids ==> (u in m <==> u in store) && (u in store ==> m[u] == store[u])
  {
    if ids == [] then store
    else
      assert ids == ids[..|ids| - 1] + [ids[|ids| - 1]];
      var u := ids[|ids| - 1];
      Recomputed(store, events, ops, ids[..|ids| - 1])[u := ProjectAll(UserPipeline(events, u, ops))]
  }

  /** Writing one more user extends the recomputed store by that user's list. */
  lemma RecomputedStep(
    store: map<string, seq<ProductRecommendation>>, events: seq<Event>, ops: FloatOps, ids: seq<string>, i: nat)
    requires i < |ids|
    ensures Recomputed(store, events, ops, ids[..i + 1])
            == Recomputed(store, events, ops, ids[..i])[ids[i] := ProjectAll(UserPipeline(events, ids[i], ops))]
  {
    assert ids[..i + 1][..i] == ids[..i];
  }

  /** Whether the recompute fails for user `u`: its aggregation (or decoding) or its store write. */
  predicate UserFails(u: string, aggregateErr: string -> Option<Error>, writeErr: string -> Option<Error>) {
    aggregateErr(u).Some? || writeErr(u).Some?
  }

  /** The index of the first user for whom the recompute fails, or |ids| if there is none. */
  function FirstFailure(ids: seq<string>, aggregateErr: string -> Option<Error>, writeErr: string -> Option<Error>): (k: nat)
    ensures k <= |ids|
    ensures forall i :: 0 <= i < k ==> !UserFails(ids[i], aggregateErr, writeErr)
    ensures k < |ids| ==> UserFails(ids[k], aggregateErr, writeErr)
  {
    if ids == [] || UserFails(ids[0], aggregateErr, writeErr) then 0
    else 1 + FirstFailure(ids[1..], aggregateErr, writeErr)
  }

  function SetOf(s: seq<string>): (r: set<string>)
    ensures forall k :: k in r <==> k in s
  {
    set k | k in s
  }

  lemma SetOfAppend(a: seq<string>, b: seq<string>)
    ensures SetOf(a + b) == SetOf(a) + SetOf(b)
  {
  }

  /** Removing exactly the matching keys leaves no matching key and every other entry as it was. */
  lemma RemovingMatchingKeys(before: map<string, CacheEntry>, snapshot: seq<string>, prefix: string)
    requires forall k :: k in snapshot <==> k in before && GlobMatch(InvalidationPattern(prefix), k)
    ensures var after := before - SetOf(snapshot);
      && (forall k :: k in after ==> !GlobMatch(InvalidationPattern(prefix), k))
      && (forall k :: k in before && !GlobMatch(InvalidationPattern(prefix), k) ==> k in after && after[k] == before[k])
      && (NoGlobMeta(prefix) ==> forall u :: UserKey(prefix, u) !in after)
  {
    if NoGlobMeta(prefix) {
      forall u ensures UserKey(prefix, u) !in before - SetOf(snapshot) {
        UserKeyMatchesPattern(prefix, u);
      }
    }
  }

  /** Every product with an event has an entry in the projected trending list. */
  lemma TrendingCovers(events: seq<Event>, ops: FloatOps)
    ensures forall e :: e in events ==>
              exists p :: p in ProjectAll(TrendingPipeline(events, ops)) && p.productId == e.productId && p.count >= 1
  {
    var a := TrendingPipeline(events, ops);
    AggregateExact(events, TrendingWeights, ops);
    forall e | e in events
      ensures exists p :: p in ProjectAll(a) && p.productId == e.productId && p.count >= 1
    {
      var x := Scored(StatsOf(events, e.productId), TrendingWeights, ops);
      assert x in a;
      var i :| 0 <= i < |a| && a[i] == x;
      assert ProjectAll(a)[i] in ProjectAll(a);
    }
  }

  /** Every entry of the projected trending list is the scored `$group` of its product's events, under the trending weights. */
  lemma TrendingEntries(events: seq<Event>, ops: FloatOps)
    ensures forall p :: p in ProjectAll(TrendingPipeline(events, ops)) ==>
              p == Project(Scored(StatsOf(events, p.productId), TrendingWeights, ops))
  {
    var a := TrendingPipeline(events, ops);
    AggregateExact(events, TrendingWeights, ops);
    forall p | p in ProjectAll(a)
      ensures p == Project(Scored(StatsOf(events, p.productId), TrendingWeights, ops))
    {
      var i :| 0 <= i < |a| && ProjectAll(a)[i] == p;
      assert a[i] in a;
    }
  }

  class RecommendationService {
    const prefix: string
    const ops: FloatOps
    /** The `events` collection. */
    var events: seq<Event>
    /** The `user_recommendations` collection: products by userId. */
    var store: map<string, seq<ProductRecommendation>>
    /** The shared key-value cache. */
    var cache: map<string, CacheEntry>

    constructor (prefix: string, ops: FloatOps, events: seq<Event>,
                 store: map<string, seq<ProductRecommendation>>, cache: map<string, CacheEntry>)
      ensures this.prefix == prefix && this.ops == ops
      ensures this.events == events && this.store == store && this.cache == cache
    {
      this.prefix := prefix;
      this.ops := ops;
      this.events := events;
      this.store := store;
      this.cache := cache;
    }

    /** Appends one event stamped `now`; a failed insert appends nothing and returns its error. */
    method RecordUserInteraction(userId: string, productId: string, eventType: string, now: nat, insertErr: Option<Error>)
      returns (r: Result<Event, Error>)
      modifies this`events
      ensures insertErr.Some? ==> r == Err(insertErr.value) && events == old(events)
      ensures insertErr.None? ==> r == Ok(Event(userId, productId, eventType, now)) && events == old(events) + [r.value]
    {
      if insertErr.Some? {
        return Err(insertErr.value);
      }
      var event := Event(userId, productId, eventType, now);
      events := events + [event];
      r := Ok(event);
    }

    /** The cache-aside read of `ReadRecommendations` on this service's cache and store. */
    function GetUserRecommendations(userId: string, limit: nat, cacheReadFails: bool, findErr: Option<Error>)
      : (r: Result<UserRecommendation, Error>)
      reads this
      ensures r.Ok? ==> r.value.userId == userId && |r.value.products| <= limit
      ensures r.Err? ==> (UserKey(prefix, userId) !in cache || cacheReadFails) && findErr == Some(r.error)
    {
      ReadRecommendations(cache, store, prefix, userId, limit, cacheReadFails, findErr)
    }

    /** Upserts the user's product list, replacing it wholesale; other users are untouched. */
    method StoreUserRecommendations(rec: UserRecommendation, writeErr: Option<Error>) returns (err: Option<Error>)
      modifies this`store
      ensures err == writeErr
      ensures writeErr.None? ==> store == old(store)[rec.userId := rec.products]
      ensures writeErr.Some? ==> store == old(store)
    {
      err := writeErr;
      if writeErr.None? {
        store := store[rec.userId := rec.products];
      }
    }

    /** Caches the encoded product list under the user's key with the twelve-hour TTL. */
    method CacheUserRecommendation(rec: UserRecommendation, setErr: Option<Error>) returns (err: Option<Error>)
      modifies this`cache
      ensures err == setErr
      ensures setErr.None? ==> cache == old(cache)[UserKey(prefix, rec.userId) := CacheEntry(Encode(rec.products), CacheTtlHours)]
      ensures setErr.Some? ==> cache == old(cache)
    {
      err := setErr;
      if setErr.None? {
        cache := cache[UserKey(prefix, rec.userId) := CacheEntry(Encode(rec.products), CacheTtlHours)];
      }
    }

    /** Store first, then cache, and the cache only if the store write succeeded; no error escapes. */
    method SaveUserRecommendation(rec: UserRecommendation, writeErr: Option<Error>, setErr: Option<Error>)
      modifies this`store, this`cache
      ensures store == if writeErr.None? then old(store)[rec.userId := rec.products] else old(store)
      ensures cache == if writeErr.None? && setErr.None?
                       then old(cache)[UserKey(prefix, rec.userId) := CacheEntry(Encode(rec.products), CacheTtlHours)]
                       else old(cache)
    {
      var err := StoreUserRecommendations(rec, writeErr);
      if err.Some? {
        return;
      }
      err := CacheUserRecommendation(rec, setErr);
    }

    /**
      Deletes every key of every scanned page until SCAN returns cursor 0. The first
      scan or delete error stops the loop and is returned; pages before it stay deleted.
     */
    method ClearUserRecommendationCache(snapshot: seq<string>, scanErr: nat -> Option<Error>, delErr: nat -> Option<Error>)
      returns (err: Option<Error>)
      requires forall k :: k in snapshot <==> k in cache && GlobMatch(InvalidationPattern(prefix), k)
      modifies this`cache
      ensures err.None? ==>
                && (forall j :: Scanned(|snapshot|, j) ==> FaultAt(snapshot, j, scanErr, delErr).None?)
                && cache == old(cache) - SetOf(snapshot)
                && (forall k :: k in cache ==> !GlobMatch(InvalidationPattern(prefix), k))
                && (NoGlobMeta(prefix) ==> forall u :: UserKey(prefix, u) !in cache)
      ensures err.Some? ==>
                exists j: nat :: && Scanned(|snapshot|, j)
                                 && FaultAt(snapshot, j, scanErr, delErr) == err
                                 && (forall i :: 0 <= i < j ==> FaultAt(snapshot, i, scanErr, delErr).None?)
                                 && cache == old(cache) - SetOf(snapshot[..j * ScanPageSize])
      ensures forall k :: k in old(cache) && !GlobMatch(InvalidationPattern(prefix), k) ==>
                k in cache && cache[k] == old(cache)[k]
    {
      var cursor: nat := 0;
      var page: nat := 0;
      while true
        invariant cursor == page * ScanPageSize && cursor <= |snapshot|
        invariant Scanned(|snapshot|, page)
        invariant forall i :: 0 <= i < page ==> FaultAt(snapshot, i, scanErr, delErr).None?
        invariant cache == old(cache) - SetOf(snapshot[..cursor])
        invariant forall k :: k in old(cache) && !GlobMatch(InvalidationPattern(prefix), k) ==>
                    k in cache && cache[k] == old(cache)[k]
        decreases |snapshot| - cursor
      {
        if scanErr(page).Some? {
          return scanErr(page);
        }
        var (keys, next) := Scan(snapshot, cursor);
        if |keys| > 0 {
          if delErr(page).Some? {
            return delErr(page);
          }
          cache := cache - SetOf(keys);
        }
        assert FaultAt(snapshot, page, scanErr, delErr).None?;
        var upTo := if next == 0 then |snapshot| else next;
        assert snapshot[..upTo] == snapshot[..cursor] + keys;
        SetOfAppend(snapshot[..cursor], keys);
        assert cache == old(cache) - SetOf(snapshot[..upTo]);
        cursor := next;
        if cursor == 0 {
          assert snapshot[..upTo] == snapshot;
          break;
        }
        page := page + 1;
      }
      RemovingMatchingKeys(old(cache), snapshot, prefix);
      err := None;
    }

    /**
      Recomputes every user's list from that user's events, one user at a time,
      and then clears the cached lists. The first failing user stops the run: the
      users before it stay written, the rest are skipped and the cache is left alone.
      A failing distinct-userId query stops the run before anything is written.
     */
    method ReCalculateUserRecommendations(
      distinctErr: Option<Error>, aggregateErr: string -> Option<Error>, writeErr: string -> Option<Error>,
      snapshot: seq<string>, scanErr: nat -> Option<Error>, delErr: nat -> Option<Error>)
      requires forall k :: k in snapshot <==> k in cache && GlobMatch(InvalidationPattern(prefix), k)
      modifies this`store, this`cache
      ensures distinctErr.Some? ==> store == old(store) && cache == old(cache)
      ensures distinctErr.None? ==>
                store == Recomputed(old(store), events, ops, RecordedUserIds(events)[..FirstFailure(RecordedUserIds(events), aggregateErr, writeErr)])
      ensures distinctErr.None? && FirstFailure(RecordedUserIds(events), aggregateErr, writeErr) < |RecordedUserIds(events)| ==>
                cache == old(cache)
      ensures distinctErr.None? && FirstFailure(RecordedUserIds(events), aggregateErr, writeErr) == |RecordedUserIds(events)|
              && (forall j :: Scanned(|snapshot|, j) ==> FaultAt(snapshot, j, scanErr, delErr).None?) ==>
                forall key :: key in cache ==> !GlobMatch(InvalidationPattern(prefix), key)
      ensures forall key :: key in cache ==> key in old(cache) && cache[key] == old(cache)[key]
      ensures forall key :: key in old(cache) && !GlobMatch(InvalidationPattern(prefix), key) ==>
                key in cache && cache[key] == old(cache)[key]
    {
      if distinctErr.Some? {
        return;
      }
      var ids := RecordedUserIds(events);
      var failed := WriteUsers(ids, aggregateErr, writeErr);
      if !failed {
        var err := ClearUserRecommendationCache(snapshot, scanErr, delErr);
      }
    }

    /**
      The loop over users of the recompute: aggregates and writes each user in
      turn and stops at the first user whose aggregation or write fails.
     */
    method WriteUsers(ids: seq<string>, aggregateErr: string -> Option<Error>, writeErr: string -> Option<Error>)
      returns (failed: bool)
      modifies this`store
      ensures failed <==> FirstFailure(ids, aggregateErr, writeErr) < |ids|
      ensures store == Recomputed(old(store), events, ops, ids[..FirstFailure(ids, aggregateErr, writeErr)])
    {
      ghost var k := FirstFailure(ids, aggregateErr, writeErr);
      var i := 0;
      failed := false;
      while i < |ids| && !failed
        invariant 0 <= i <= k
        invariant failed ==> i == k < |ids|
        invariant store == Recomputed(old(store), events, ops, ids[..i])
        decreases |ids| - i, if failed then 0 else 1
      {
        if aggregateErr(ids[i]).Some? {
          failed := true;
        } else {
          var products := ProjectAll(UserPipeline(events, ids[i], ops));
          var err := StoreUserRecommendations(UserRecommendation(ids[i], products), writeErr(ids[i]));
          if err.Some? {
            failed := true;
          } else {
            assert !UserFails(ids[i], aggregateErr, writeErr);
            assert i < k by {
              assert k < |ids| ==> UserFails(ids[k], aggregateErr, writeErr);
            }
            RecomputedStep(old(store), events, ops, ids, i);
            i := i + 1;
          }
        }
      }
      assert ids[..|ids|] == ids;
    }

    /**
      The trending list over every event, with the trending weights: one entry per
      product that has events, sorted by score, descending. It never touches the
      cache or the store.
     */
    function GetTrendingRecommendations(aggregateErr: Option<Error>): (r: Result<seq<ProductRecommendation>, Error>)
      reads this
      ensures r.Err? <==> aggregateErr.Some?
      ensures r.Ok? ==>
                && |r.value| == |Distinct(ProductIds(events))|
                && (forall i, j :: 0 <= i < j < |r.value| ==> r.value[i].score >= r.value[j].score)
                && (forall i, j :: 0 <= i < j < |r.value| ==> r.value[i].productId != r.value[j].productId)
                && (forall e :: e in events ==> exists p :: p in r.value && p.productId == e.productId && p.count >= 1)
                && (forall p :: p in r.value ==> p == Project(Scored(StatsOf(events, p.productId), TrendingWeights, ops)))
    {
      AggregateExact(events, TrendingWeights, ops);
      TrendingCovers(events, ops);
      TrendingEntries(events, ops);
      if aggregateErr.Some? then Err(aggregateErr.value)
      else Ok(ProjectAll(TrendingPipeline(events, ops)))
    }
  }
}
