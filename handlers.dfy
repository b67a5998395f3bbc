/**
  The HTTP handlers of the recommendation service, reduced to their rules: the
  `limit` query parameter, the validation gate on recorded events, and the way
  each handler wires the service operations together.
 */
module Handlers {
  import opened Wrappers
  import opened Models
  import opened Scoring
  import opened Recommendation
  import opened CacheKeys

  const DefaultLimit: nat := 10

  const StatusOk: nat := 200
  const StatusBadRequest: nat := 400
  const StatusInternalServerError: nat := 500

  /** A JSON response: the status code and the `data` field (null when absent). */
  datatype Response<T> = Response(status: nat, data: Option<T>)

  // ---------------------------------------------------------------------------
  // The `limit` query parameter

  const MaxInt64: int := 0x7fff_ffff_ffff_ffff
  const MinInt64: int := -0x8000_0000_0000_0000

  predicate IsDigit(c: char) {
    '0' <= c <= '9'
  }

  predicate AllDigits(s: string) {
    forall i :: 0 <= i < |s| ==> IsDigit(s[i])
  }

  function DigitsValue(s: string): nat
    requires AllDigits(s)
  {
    if s == [] then 0
    else DigitsValue(s[..|s| - 1]) * 10 + (s[|s| - 1] as int - '0' as int)
  }

  /** Decimal integer parsing on a 64-bit platform: an optional sign, then at least
      one digit and nothing else, within the range of a 64-bit int. */
  function Atoi(s: string): (r: Option<int>)
    ensures r.Some? ==> MinInt64 <= r.value <= MaxInt64
    ensures r.Some? ==> s != []
  {
    var signed := |s| > 0 && (s[0] == '+' || s[0] == '-');
    var digits := if signed then s[1..] else s;
    if digits == [] || !AllDigits(digits) then None
    else
      var v: int := if signed && s[0] == '-' then 0 - DigitsValue(digits) as int else DigitsValue(digits);
      if MinInt64 <= v <= MaxInt64 then Some(v) else None
  }

  /** The limit: the query value when it parses to a positive integer, otherwise 10. */
  function ParseLimit(query: string): (limit: nat)
    ensures limit >= 1
    ensures query == "" ==> limit == DefaultLimit
    ensures limit != DefaultLimit ==> Atoi(query) == Some(limit)
    ensures Atoi(query).Some? && Atoi(query).value > 0 ==> limit == Atoi(query).value
  {
    if query != "" then
      match Atoi(query)
      case Some(n) => if n > 0 then n else DefaultLimit
      case None => DefaultLimit
    else DefaultLimit
  }

  /** Zero, negative and unparsable values keep the default. */
  lemma ParseLimitIgnoresInvalid(query: string)
    requires Atoi(query).None? || Atoi(query).value <= 0
    ensures ParseLimit(query) == DefaultLimit
  {
  }

  function DigitChar(d: nat): (c: char)
    requires d < 10
    ensures IsDigit(c) && c as int - '0' as int == d
  {
    ('0' as int + d) as char
  }

  /** The decimal representation of `n`, without sign or leading zeros. */
  function Decimal(n: nat): (s: string)
    ensures s != [] && AllDigits(s)
    decreases n
  {
    if n < 10 then [DigitChar(n)] else Decimal(n / 10) + [DigitChar(n % 10)]
  }

  lemma {:induction false} DecimalValue(n: nat)
    ensures DigitsValue(Decimal(n)) == n
    decreases n
  {
    var s := Decimal(n);
    if n >= 10 {
      DecimalValue(n / 10);
      assert s[..|s| - 1] == Decimal(n / 10);
    }
  }

  /** Every positive limit written in decimal is honoured as given. */
  lemma ParseLimitOfDecimal(n: nat)
    requires 0 < n <= MaxInt64
    ensures ParseLimit(Decimal(n)) == n
  {
    DecimalValue(n);
    assert IsDigit(Decimal(n)[0]);
  }

  // ---------------------------------------------------------------------------
  // The event payload gate

  /** The body of a record-interaction request. */
  datatype EventPayload = EventPayload(productId: string, eventType: string)

  predicate IsLowerHex(c: char) {
    ('0' <= c <= '9') || ('a' <= c <= 'f')
  }

  /** Position `i` of a version-4 UUID in its lower-case 8-4-4-4-12 form. */
  predicate Uuid4CharAt(s: string, i: nat)
    requires i < |s|
  {
    if i == 8 || i == 13 || i == 18 || i == 23 then s[i] == '-'
    else if i == 14 then s[i] == '4'
    else if i == 19 then s[i] == '8' || s[i] == '9' || s[i] == 'a' || s[i] == 'b'
    else IsLowerHex(s[i])
  }

  /** Lower-case hex digits with hyphens at exactly the four 8-4-4-4-12 positions. */
  predicate IsUuid4(s: string)
    ensures IsUuid4(s) ==> |s| == 36 && s[14] == '4'
    ensures IsUuid4(s) ==> forall i :: 0 <= i < |s| ==> (s[i] == '-' <==> i == 8 || i == 13 || i == 18 || i == 23)
    ensures IsUuid4(s) ==> forall i :: 0 <= i < |s| && s[i] != '-' ==> IsLowerHex(s[i])
  {
    if |s| == 36 && forall i :: 0 <= i < 36 ==> Uuid4CharAt(s, i) then
      Uuid4Shape(s);
      true
    else false
  }

  lemma Uuid4Shape(s: string)
    requires |s| == 36 && forall i :: 0 <= i < 36 ==> Uuid4CharAt(s, i)
    ensures s[14] == '4'
    ensures forall i :: 0 <= i < |s| ==> (s[i] == '-' <==> i == 8 || i == 13 || i == 18 || i == 23)
    ensures forall i :: 0 <= i < |s| && s[i] != '-' ==> IsLowerHex(s[i])
  {
    assert Uuid4CharAt(s, 14);
    forall i | 0 <= i < |s|
      ensures (s[i] == '-' <==> i == 8 || i == 13 || i == 18 || i == 23)
      ensures s[i] != '-' ==> IsLowerHex(s[i])
    {
      assert Uuid4CharAt(s, i);
    }
  }

  /** `required,uuid4` on productId and `required,oneof=VIEW PURCHASE CART_ADD` on eventType. */
  predicate ValidEventPayload(p: EventPayload)
    ensures ValidEventPayload(p) ==> KnownEventType(p.eventType) && |p.productId| == 36
  {
    && p.productId != "" && IsUuid4(p.productId)
    && p.eventType != "" && (p.eventType == View || p.eventType == Purchase || p.eventType == CartAdd)
  }

  predicate AllKnown(events: seq<Event>) {
    forall i :: 0 <= i < |events| ==> KnownEventType(events[i].eventType)
  }

  // ---------------------------------------------------------------------------
  // The handlers

  /**
    GET recommendations for the calling user. A read error answers 500 and saves
    nothing; a successful read answers 200 with the (already cut) list and hands
    exactly that list to the writer.
   */
  method GetRecommendationsHandler(
    svc: RecommendationService, userId: string, limitQuery: string,
    cacheReadFails: bool, findErr: Option<Error>, writeErr: Option<Error>, setErr: Option<Error>)
    returns (resp: Response<UserRecommendation>)
    modifies svc
    ensures svc.events == old(svc.events)
    ensures var read := old(svc.GetUserRecommendations(userId, ParseLimit(limitQuery), cacheReadFails, findErr));
      && (read.Err? ==>
            resp == Response(StatusInternalServerError, None)
            && svc.store == old(svc.store) && svc.cache == old(svc.cache))
      && (read.Ok? ==>
            resp == Response(StatusOk, Some(read.value))
            && svc.store == (if writeErr.None? then old(svc.store)[userId := read.value.products] else old(svc.store))
            && svc.cache == (if writeErr.None? && setErr.None?
                             then old(svc.cache)[UserKey(svc.prefix, userId) := CacheEntry(Encode(read.value.products), CacheTtlHours)]
                             else old(svc.cache)))
    ensures writeErr.None? && resp.status == StatusOk ==>
              userId in svc.store && |svc.store[userId]| <= ParseLimit(limitQuery)
  {
    var limit := ParseLimit(limitQuery);
    var read := svc.GetUserRecommendations(userId, limit, cacheReadFails, findErr);
    if read.Err? {
      return Response(StatusInternalServerError, None);
    }
    svc.SaveUserRecommendation(read.value, writeErr, setErr);
    resp := Response(StatusOk, Some(read.value));
  }

  /** GET recommendations for the user named in the path: a pure read, never a save. */
  function GetRecommendationsByUserIDHandler(
    svc: RecommendationService, userId: string, limitQuery: string, cacheReadFails: bool, findErr: Option<Error>)
    : (resp: Response<UserRecommendation>)
    reads svc
    ensures resp.status == StatusOk || resp.status == StatusInternalServerError
    ensures resp.status == StatusOk <==> resp.data.Some?
    ensures resp.data.Some? ==> resp.data.value.userId == userId && |resp.data.value.products| <= ParseLimit(limitQuery)
    ensures resp.status == StatusInternalServerError <==> svc.GetUserRecommendations(userId, ParseLimit(limitQuery), cacheReadFails, findErr).Err?
    ensures resp.data.Some? ==> resp.data.value == svc.GetUserRecommendations(userId, ParseLimit(limitQuery), cacheReadFails, findErr).value
  {
    match svc.GetUserRecommendations(userId, ParseLimit(limitQuery), cacheReadFails, findErr)
    case Ok(data) => Response(StatusOk, Some(data))
    case Err(_) => Response(StatusInternalServerError, None)
  }

  /** GET trending: 500 on an aggregation error, otherwise the trending list. */
  function GetTrendingRecommendationHandler(svc: RecommendationService, aggregateErr: Option<Error>)
    : (resp: Response<seq<ProductRecommendation>>)
    reads svc
    ensures resp.status == StatusInternalServerError <==> aggregateErr.Some?
    ensures resp.data.Some? <==> aggregateErr.None?
    ensures resp.data.Some? ==> resp.data.value == svc.GetTrendingRecommendations(aggregateErr).value
    ensures resp.data.Some? ==>
              && |resp.data.value| == |Distinct(ProductIds(svc.events))|
              && (forall p :: p in resp.data.value ==>
                    p == Project(Scored(StatsOf(svc.events, p.productId), TrendingWeights, svc.ops)))
  {
    match svc.GetTrendingRecommendations(aggregateErr)
    case Ok(data) => Response(StatusOk, Some(data))
    case Err(_) => Response(StatusInternalServerError, None)
  }

  /**
    POST rebuild: runs the recompute to completion and answers 200 whatever happens
    in it. The new store and cache are exactly those the recompute leaves.
   */
  method RebuildRecommendationsHandler(
    svc: RecommendationService,
    distinctErr: Option<Error>, aggregateErr: string -> Option<Error>, writeErr: string -> Option<Error>,
    snapshot: seq<string>, scanErr: nat -> Option<Error>, delErr: nat -> Option<Error>)
    returns (resp: Response<()>)
    requires forall k :: k in snapshot <==> k in svc.cache && GlobMatch(InvalidationPattern(svc.prefix), k)
    modifies svc
    ensures resp == Response(StatusOk, None)
    ensures svc.events == old(svc.events)
    ensures distinctErr.Some? ==> svc.store == old(svc.store) && svc.cache == old(svc.cache)
    ensures distinctErr.None? ==>
              var ids := RecordedUserIds(svc.events);
              var k := FirstFailure(ids, aggregateErr, writeErr);
              && svc.store == Recomputed(old(svc.store), svc.events, svc.ops, ids[..k])
              && (k < |ids| ==> svc.cache == old(svc.cache))
              && (k == |ids| && (forall j :: Scanned(|snapshot|, j) ==> FaultAt(snapshot, j, scanErr, delErr).None?) ==>
                    forall key :: key in svc.cache ==> !GlobMatch(InvalidationPattern(svc.prefix), key))
    ensures forall key :: key in svc.cache ==> key in old(svc.cache) && svc.cache[key] == old(svc.cache)[key]
    ensures forall key :: key in old(svc.cache) && !GlobMatch(InvalidationPattern(svc.prefix), key) ==>
              key in svc.cache && svc.cache[key] == old(svc.cache)[key]
  {
    svc.ReCalculateUserRecommendations(distinctErr, aggregateErr, writeErr, snapshot, scanErr, delErr);
    resp := Response(StatusOk, None);
  }

  /**
    POST an interaction. An unparsable body or one that fails validation answers
    400 before the service is called; an insert error answers 500; otherwise the
    recorded event is returned. Only known event types ever reach the log.
   */
  method RecordUserInteractionHandler(
    svc: RecommendationService, body: Option<EventPayload>, userId: string, now: nat, insertErr: Option<Error>)
    returns (resp: Response<Event>)
    modifies svc
    ensures svc.store == old(svc.store) && svc.cache == old(svc.cache)
    ensures resp.status == StatusBadRequest <==> body.None? || !ValidEventPayload(body.value)
    ensures resp.status != StatusOk ==> resp.data.None? && svc.events == old(svc.events)
    ensures resp.status == StatusInternalServerError <==> body.Some? && ValidEventPayload(body.value) && insertErr.Some?
    ensures resp.status == StatusOk ==>
              && body.Some?
              && resp.data == Some(Event(userId, body.value.productId, body.value.eventType, now))
              && svc.events == old(svc.events) + [resp.data.value]
    ensures AllKnown(old(svc.events)) ==> AllKnown(svc.events)
  {
    if body.None? || !ValidEventPayload(body.value) {
      return Response(StatusBadRequest, None);
    }
    var payload := body.value;
    var recorded := svc.RecordUserInteraction(userId, payload.productId, payload.eventType, now, insertErr);
    if recorded.Err? {
      return Response(StatusInternalServerError, None);
    }
    resp := Response(StatusOk, Some(recorded.value));
  }
}
