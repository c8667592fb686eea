/**
  `GoogleReviewsWidget`: on start it serves reviews from the cache when they are fresh,
  otherwise takes the provider's response, caches the first three reviews and shows them,
  and shows three static cards when there is nothing to show.

  The page's key/value store and the review container are fields of the widget object.
  The container is None when no element has the widget's container id; otherwise it holds
  the cards currently shown in it. The clock is passed in: `checkTime` is `Date.now()` in
  `getCachedReviews`, `writeTime` is `Date.now()` in `cacheReviews`, read after the fetch.
 */
module Widget {
  import opened Wrappers
  import opened Provider
  import opened Rendering
  import opened Codec
  import opened Cache

  /** What becomes of the promise `fetchReviews()` returns. */
  datatype Outcome = Resolved | Rejected

  datatype WidgetState = WidgetState(store: map<string, string>, container: Option<seq<Card>>)

  datatype Step = Step(state: WidgetState, outcome: Outcome)

  /** `displayReviews(reviews)`: the new container, or Threw when a card throws before the assignment. */
  datatype Display = Shown(container: Option<seq<Card>>) | Threw

  function Displayed(container: Option<seq<Card>>, rs: seq<Review>): (d: Display)
    ensures d.Threw? <==> container.Some? && exists i :: 0 <= i < |rs| && !RatingRenderable(rs[i].rating)
    ensures d.Shown? ==> (d.container.Some? <==> container.Some?)
    ensures d.Shown? && d.container.Some? ==> |d.container.value| == |rs|
  {
    match container
    case None => Shown(None)
    case Some(_) =>
      match RenderCards(rs)
      case None => Threw
      case Some(cards) => Shown(Some(cards))
  }

  function FallbackDisplayed(container: Option<seq<Card>>): (r: Option<seq<Card>>)
    ensures r.Some? <==> container.Some?
    ensures r.Some? ==> |r.value| == 3 && forall i :: 0 <= i < 3 ==> r.value[i].stars == Stars(5)
  {
    FallbackShape();
    if container.Some? then Some(FallbackCards) else None
  }

  /**
    `fetchReviews()`. A payload `JSON.parse` rejects, or a card that throws while showing
    cached reviews, escapes before the `try`, so the promise rejects and nothing else
    happens. Inside the `try`, a thrown card lands in the `catch`, which shows the fallback;
    the reviews were cached just before.
   */
  function Fetch(s: WidgetState, response: Response, checkTime: nat, writeTime: nat): (r: Step)
    ensures r.outcome == Rejected ==> r.state == s
    ensures r.state.container.Some? <==> s.container.Some?
    ensures r.state.store == s.store ||
      (response.Reviews? && r.state.store == WriteCache(s.store, TopReviews(response.reviews), writeTime))
    ensures ReadCache(s.store, checkTime) != Miss ==> r.state.store == s.store
  {
    match ReadCache(s.store, checkTime)
    case Unparseable => Step(s, Rejected)
    case Hit(cached) =>
      (match Displayed(s.container, cached)
       case Threw => Step(s, Rejected)
       case Shown(c) => Step(WidgetState(s.store, c), Resolved))
    case Miss =>
      match response
      case Reviews(list) =>
        var top := TopReviews(list);
        var store := WriteCache(s.store, top, writeTime);
        (match Displayed(s.container, top)
         case Shown(c) => Step(WidgetState(store, c), Resolved)
         case Threw => Step(WidgetState(store, FallbackDisplayed(s.container)), Resolved))
      case _ => Step(WidgetState(s.store, FallbackDisplayed(s.container)), Resolved)
  }

  class GoogleReviewsWidget {
    const placeId: string
    const apiKey: string
    const containerId: string
    /** The page's `localStorage`. */
    var store: map<string, string>
    /** `document.getElementById(containerId)` and the cards it shows. */
    var container: Option<seq<Card>>

    constructor (placeId: string, apiKey: string, containerId: string,
                 store: map<string, string>, container: Option<seq<Card>>)
      ensures this.placeId == placeId && this.apiKey == apiKey && this.containerId == containerId
      ensures this.store == store && this.container == container
    {
      this.placeId := placeId;
      this.apiKey := apiKey;
      this.containerId := containerId;
      this.store := store;
      this.container := container;
    }

    function State(): WidgetState
      reads this
    {
      WidgetState(store, container)
    }

    method GetCachedReviews(now: nat) returns (r: CacheRead)
      ensures r == ReadCache(store, now)
    {
      if CacheKey in store && store[CacheKey] != "" && CacheTimeKey in store && store[CacheTimeKey] != "" {
        var cached := store[CacheKey];
        var storedAt := Decimal.ParseInt(store[CacheTimeKey]);
        if storedAt.Some? && now - storedAt.value < CacheDuration {
          var parsed := DecodeReviews(cached);
          if parsed.Some? {
            return Hit(parsed.value);
          }
          return Unparseable;
        }
      }
      return Miss;
    }

    method CacheReviews(rs: seq<Review>, now: nat)
      modifies this
      ensures store == WriteCache(old(store), rs, now)
      ensures container == old(container)
    {
      store := store[CacheKey := EncodeReviews(rs)];
      store := store[CacheTimeKey := Decimal.NatToDecimal(now)];
    }

    /** Returns whether a card threw; the container is then left as it was. */
    method DisplayReviews(rs: seq<Review>) returns (threw: bool)
      modifies this
      ensures threw <==> Displayed(old(container), rs).Threw?
      ensures !threw ==> container == Displayed(old(container), rs).container
      ensures threw ==> container == old(container)
      ensures store == old(store)
    {
      if container.None? {
        return false;
      }
      var cards := RenderCards(rs);
      if cards.None? {
        return true;
      }
      container := cards;
      return false;
    }

    method DisplayFallbackReviews()
      modifies this
      ensures container == FallbackDisplayed(old(container))
      ensures store == old(store)
    {
      if container.None? {
        return;
      }
      container := Some(FallbackCards);
    }

    method FetchReviews(response: Response, checkTime: nat, writeTime: nat) returns (outcome: Outcome)
      modifies this
      ensures Step(State(), outcome) == Fetch(old(State()), response, checkTime, writeTime)
    {
      var cached := GetCachedReviews(checkTime);
      if cached.Unparseable? {
        return Rejected;
      }
      if cached.Hit? {
        var threw := DisplayReviews(cached.reviews);
        return if threw then Rejected else Resolved;
      }
      match response {
        case Reviews(list) =>
          var top := TopReviews(list);
          CacheReviews(top, writeTime);
          var threw := DisplayReviews(top);
          if threw {
            DisplayFallbackReviews();
          }
        case _ =>
          DisplayFallbackReviews();
      }
      return Resolved;
    }
  }

  /** A fetch on a fresh cache does what showing the cached reviews does. */
  lemma FetchOnHit(s: WidgetState, cached: seq<Review>, response: Response, checkTime: nat, writeTime: nat)
    requires ReadCache(s.store, checkTime) == Hit(cached)
    ensures Fetch(s, response, checkTime, writeTime) ==
      match Displayed(s.container, cached)
      case Threw => Step(s, Rejected)
      case Shown(c) => Step(WidgetState(s.store, c), Resolved)
  {
  }

  /**
    A fresh cache is served without the network: the response and the write time play no
    part, and the store is left as it was.
   */
  lemma CacheHitSkipsNetwork(s: WidgetState, cached: seq<Review>, checkTime: nat,
                             r1: Response, w1: nat, r2: Response, w2: nat)
    requires ReadCache(s.store, checkTime) == Hit(cached)
    ensures Fetch(s, r1, checkTime, w1) == Fetch(s, r2, checkTime, w2)
    ensures Fetch(s, r1, checkTime, w1).state.store == s.store
  {
    FetchOnHit(s, cached, r1, checkTime, w1);
    FetchOnHit(s, cached, r2, checkTime, w2);
  }

  /** When every cached rating can be drawn, a cache hit shows exactly the cached reviews. */
  lemma CacheHitShowsCached(s: WidgetState, cached: seq<Review>, checkTime: nat, response: Response, writeTime: nat)
    requires ReadCache(s.store, checkTime) == Hit(cached)
    requires forall i :: 0 <= i < |cached| ==> RatingRenderable(cached[i].rating)
    ensures Fetch(s, response, checkTime, writeTime).outcome == Resolved
    ensures s.container.Some? ==> Fetch(s, response, checkTime, writeTime).state.container == RenderCards(cached)
    ensures s.container.None? ==> Fetch(s, response, checkTime, writeTime).state.container == None
  {
    var cards := RenderCards(cached);
    assert cards.Some?;
    var c := if s.container.Some? then cards else None;
    assert Displayed(s.container, cached) == Shown(c);
    FetchOnHit(s, cached, response, checkTime, writeTime);
  }

  /**
    A stale cache is never parsed: even a payload that does not decode leads to the network,
    and a review list from it replaces the cache.
   */
  lemma StalePayloadNotParsed(s: WidgetState, list: seq<Review>, checkTime: nat, writeTime: nat)
    requires CacheTimeKey in s.store
    requires Decimal.ParseInt(s.store[CacheTimeKey]).Some? ==>
      !IsFresh(Decimal.ParseInt(s.store[CacheTimeKey]).value, checkTime)
    ensures Fetch(s, Reviews(list), checkTime, writeTime).outcome == Resolved
    ensures Fetch(s, Reviews(list), checkTime, writeTime).state.store ==
      WriteCache(s.store, TopReviews(list), writeTime)
  {
    StaleOrUnreadableTimeMisses(s.store, checkTime);
  }

  /**
    On a miss with a review list: the first min(3, n) reviews are cached at `writeTime`,
    a later fetch within 24 hours of it reads exactly them back, and they are the cards shown.
   */
  lemma MissWithReviews(s: WidgetState, list: seq<Review>, checkTime: nat, writeTime: nat, laterTime: nat)
    requires ReadCache(s.store, checkTime) == Miss
    requires laterTime - writeTime < CacheDuration
    ensures var after := Fetch(s, Reviews(list), checkTime, writeTime);
      after.outcome == Resolved &&
      after.state.store == WriteCache(s.store, TopReviews(list), writeTime) &&
      ReadCache(after.state.store, laterTime) == Hit(TopReviews(list)) &&
      (s.container.Some? && RenderCards(TopReviews(list)).Some? ==>
         after.state.container == RenderCards(TopReviews(list)))
  {
    ReadAfterWrite(s.store, TopReviews(list), writeTime, laterTime);
  }

  /**
    An empty review list is a success: it is cached and shown as no cards, not as the
    fallback, and the next fetch within 24 hours is a cache hit on the empty list that
    leaves it that way without using the network.
   */
  lemma EmptyListIsCachedNotFallback(s: WidgetState, checkTime: nat, writeTime: nat,
                                     laterTime: nat, laterResponse: Response, laterWrite: nat)
    requires ReadCache(s.store, checkTime) == Miss
    requires s.container.Some?
    requires laterTime - writeTime < CacheDuration
    ensures var first := Fetch(s, Reviews([]), checkTime, writeTime);
      first == Step(WidgetState(WriteCache(s.store, [], writeTime), Some([])), Resolved) &&
      first.state.container != Some(FallbackCards) &&
      ReadCache(first.state.store, laterTime) == Hit([]) &&
      Fetch(first.state, laterResponse, laterTime, laterWrite) == first
  {
    ReadAfterWrite(s.store, [], writeTime, laterTime);
    FallbackShape();
  }

  /** On a miss, a failed fetch or a body without reviews shows the fallback and leaves the cache alone. */
  lemma MissWithoutReviewsShowsFallback(s: WidgetState, response: Response, checkTime: nat, writeTime: nat)
    requires ReadCache(s.store, checkTime) == Miss
    requires response.Failure? || response.NoReviews?
    ensures Fetch(s, response, checkTime, writeTime) ==
      Step(WidgetState(s.store, FallbackDisplayed(s.container)), Resolved)
  {
  }

  /** Once the cache has gone stale, the fetch takes the response into account exactly as on an empty cache. */
  lemma StaleCacheRefetches(s: WidgetState, cached: seq<Review>, storedAt: nat,
                            response: Response, checkTime: nat, writeTime: nat)
    requires checkTime - storedAt >= CacheDuration
    ensures var stale := WidgetState(WriteCache(s.store, cached, storedAt), s.container);
      var empty := WidgetState(stale.store - {CacheKey, CacheTimeKey}, s.container);
      ReadCache(stale.store, checkTime) == Miss &&
      Fetch(stale, response, checkTime, writeTime).state.container ==
        Fetch(empty, response, checkTime, writeTime).state.container
  {
    var stale := WidgetState(WriteCache(s.store, cached, storedAt), s.container);
    ReadAfterWrite(s.store, cached, storedAt, checkTime);
    var emptyStore := stale.store - {CacheKey, CacheTimeKey};
    MissingEntryMisses(emptyStore, checkTime);
  }

  /** A payload that does not parse rejects the promise and changes nothing. */
  lemma UnparseablePayloadRejects(s: WidgetState, response: Response, checkTime: nat, writeTime: nat)
    requires Holds(s.store, CacheKey) && Holds(s.store, CacheTimeKey)
    requires Decimal.ParseInt(s.store[CacheTimeKey]).Some?
    requires IsFresh(Decimal.ParseInt(s.store[CacheTimeKey]).value, checkTime)
    requires DecodeReviews(s.store[CacheKey]).None?
    ensures Fetch(s, response, checkTime, writeTime) == Step(s, Rejected)
  {
  }

  /** Past the cache check nothing escapes: every miss ends with the promise resolved. */
  lemma MissNeverRejects(s: WidgetState, response: Response, checkTime: nat, writeTime: nat)
    requires ReadCache(s.store, checkTime) == Miss
    ensures Fetch(s, response, checkTime, writeTime).outcome == Resolved
    ensures Fetch(s, response, checkTime, writeTime).state.container.Some? <==> s.container.Some?
  {
  }

  /** Without a container nothing is shown, and only an unparseable payload rejects. */
  lemma MissingContainerShowsNothing(s: WidgetState, response: Response, checkTime: nat, writeTime: nat)
    requires s.container.None?
    ensures Fetch(s, response, checkTime, writeTime).state.container == None
    ensures Fetch(s, response, checkTime, writeTime).outcome == Resolved ||
            ReadCache(s.store, checkTime).Unparseable?
  {
  }

  /** Showing reviews replaces the whole content: what the container held before does not matter. */
  lemma DisplayReplacesContent(before1: seq<Card>, before2: seq<Card>, rs: seq<Review>)
    ensures Displayed(Some(before1), rs) == Displayed(Some(before2), rs)
    ensures RenderCards(rs).Some? ==> Displayed(Some(before1), rs) == Shown(Some(RenderCards(rs).value))
  {
  }

  /** The cached payload, when it decodes, and the shown cards number at most three. */
  predicate WithinLimit(s: WidgetState) {
    (CacheKey in s.store ==>
       match DecodeReviews(s.store[CacheKey])
       case Some(rs) => |rs| <= ShownLimit
       case None => true) &&
    (s.container.Some? ==> |s.container.value| <= ShownLimit)
  }

  /** Fetching keeps at most three reviews cached and at most three cards shown. */
  lemma FetchKeepsWithinLimit(s: WidgetState, response: Response, checkTime: nat, writeTime: nat)
    requires WithinLimit(s)
    ensures WithinLimit(Fetch(s, response, checkTime, writeTime).state)
  {
    var after := Fetch(s, response, checkTime, writeTime).state;
    FallbackShape();
    match ReadCache(s.store, checkTime)
    case Unparseable =>
      assert after == s;
    case Hit(cached) =>
      assert DecodeReviews(s.store[CacheKey]) == Some(cached);
      FetchOnHit(s, cached, response, checkTime, writeTime);
      assert after.store == s.store;
    case Miss =>
      if response.Reviews? {
        var top := TopReviews(response.reviews);
        DecodeEncoded(top);
        assert after.store == WriteCache(s.store, top, writeTime);
        assert after.container.Some? ==>
          after.container == RenderCards(top) || after.container == Some(FallbackCards);
      } else {
        assert after == WidgetState(s.store, FallbackDisplayed(s.container));
      }
  }
}
