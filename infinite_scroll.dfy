/**
 * The pagination controller of `useInfiniteScroll`: three refs (`isLoading`,
 * `hasMore`, `page`) and `loadMore`, an async function guarded by `isLoading`
 * and `hasMore`.
 *
 * `loadMore` is split at its single `await`: `AfterBegin` is what runs up to
 * the call of `fetchData`, `AfterSettle` what runs once the promise returned by
 * `fetchData` settles. A `Hook` adds to the refs the fetches that are in flight
 * and the log of every page handed to `fetchData`, so that an arbitrary
 * interleaving of events (`Run`) can be reasoned about. `loadMore` is not
 * returned by the hook, so only two things call it: the IntersectionObserver
 * callback, and the watch on `hasMore`, which reacts when the caller writes
 * the `hasMore` ref the hook hands out. The class `Controller` holds the same
 * refs as fields and the two halves of `loadMore` as methods.
 */
module InfiniteScroll {
  import opened Wrappers

  /** The three refs the hook creates. */
  datatype Refs = Refs(isLoading: bool, hasMore: bool, page: int)

  /** The refs as the hook creates them. */
  const Initial := Refs(false, true, 1)

  /** The refs after the first half of `loadMore`, and the page handed to `fetchData` if it was called. */
  datatype Begun = Begun(refs: Refs, fetched: Option<int>)

  /** First half of `loadMore`: the guard, then `isLoading := true` and the call `fetchData(page)`. */
  function AfterBegin(r: Refs): (b: Begun)
    ensures b.fetched.Some? <==> !r.isLoading && r.hasMore
    ensures b.fetched.Some? ==> b.fetched.value == r.page && b.refs == r.(isLoading := true)
    ensures b.fetched.None? ==> b.refs == r
  {
    if r.isLoading || !r.hasMore then Begun(r, None)
    else Begun(r.(isLoading := true), Some(r.page))
  }

  /**
   * Second half of `loadMore`, once the promise of `fetchData` has settled:
   * the page advances only when it resolved (the `try`), a rejection is
   * caught and dropped (the `catch`), and the guard is always released
   * (the `finally`).
   */
  function AfterSettle(r: Refs, outcome: Settlement): (r': Refs)
    ensures !r'.isLoading && r'.hasMore == r.hasMore
    ensures r'.page == if outcome.Fulfilled? then r.page + 1 else r.page
  {
    r.(page := if outcome.Fulfilled? then r.page + 1 else r.page, isLoading := false)
  }

  /**
   * The refs agree with the fetches in flight: the guard is held exactly
   * while one fetch, of the current page, is outstanding. `hasMore` is free.
   */
  ghost predicate Consistent(r: Refs, pending: seq<int>)
  {
    && 1 <= r.page
    && (if r.isLoading then pending == [r.page] else pending == [])
  }

  /**
   * One step of the event loop: the observer callback runs, the caller
   * writes the `hasMore` ref (and the watch on it reacts), or the
   * outstanding fetch settles.
   */
  datatype Event =
    | Intersect(isIntersecting: bool)
    | SetHasMore(value: bool)
    | Settle(outcome: Settlement)

  /** The refs, the pages of the fetches in flight (oldest first), and every page handed to `fetchData` so far. */
  datatype Hook = Hook(refs: Refs, pending: seq<int>, calls: seq<int>)

  /** The hook right after `useInfiniteScroll` returns. */
  const Start := Hook(Initial, [], [])

  /** One call of `loadMore`, up to its `await`. */
  function LoadMore(h: Hook): (h': Hook)
    ensures h'.calls == if !h.refs.isLoading && h.refs.hasMore then h.calls + [h.refs.page] else h.calls
    ensures h'.refs.page == h.refs.page && h'.refs.hasMore == h.refs.hasMore
    ensures h'.refs.isLoading == (h.refs.isLoading || h.refs.hasMore)
  {
    var b := AfterBegin(h.refs);
    match b.fetched
    case None => h.(refs := b.refs)
    case Some(p) => Hook(b.refs, h.pending + [p], h.calls + [p])
  }

  /**
   * The effect of one event. The observer callback calls `loadMore` only
   * when the entry intersects. The watch fires only when `hasMore` changes,
   * and its callback calls `loadMore` only when the new value is true. A
   * settlement with nothing in flight has no continuation to resume.
   */
  function Step(h: Hook, e: Event): (h': Hook)
    ensures h'.refs.page >= h.refs.page
    ensures h'.calls == h.calls || h'.calls == h.calls + [h.refs.page]
    ensures !e.SetHasMore? ==> h'.refs.hasMore == h.refs.hasMore
    ensures e.Settle? ==> h'.calls == h.calls
  {
    match e
    case Intersect(isIntersecting) =>
      if isIntersecting then LoadMore(h) else h
    case SetHasMore(value) =>
      var written := h.(refs := h.refs.(hasMore := value));
      if value != h.refs.hasMore && value then LoadMore(written) else written
    case Settle(outcome) =>
      if h.pending == [] then h
      else h.(refs := AfterSettle(h.refs, outcome), pending := h.pending[1..])
  }

  /** The effect of a sequence of events, in order. */
  function Run(h: Hook, es: seq<Event>): Hook
    decreases |es|
  {
    if es == [] then h else Run(Step(h, es[0]), es[1..])
  }

  ghost predicate Sorted(s: seq<int>)
  {
    forall i, j | 0 <= i < j < |s| :: s[i] <= s[j]
  }

  /** The invariant of every reachable hook. */
  ghost predicate HookInv(h: Hook)
  {
    && Consistent(h.refs, h.pending)
    && Sorted(h.calls)
    && (forall i | 0 <= i < |h.calls| :: 1 <= h.calls[i] <= h.refs.page)
  }

  /** When a fetch is in flight or there is no more data, the observer callback changes nothing and calls nothing. */
  lemma GuardBlocksFetch(h: Hook, isIntersecting: bool)
    requires h.refs.isLoading || !h.refs.hasMore
    ensures Step(h, Intersect(isIntersecting)) == h
  {
  }

  /** When the guard passes, `fetchData` is called with the page as it is at that moment, and the guard is taken. */
  lemma FetchUsesCurrentPage(h: Hook)
    requires HookInv(h)
    requires !h.refs.isLoading && h.refs.hasMore
    ensures var h' := Step(h, Intersect(true));
      && h'.calls == h.calls + [h.refs.page]
      && h'.pending == [h.refs.page]
      && h'.refs.isLoading
      && h'.refs.page == h.refs.page
      && h'.refs.hasMore == h.refs.hasMore
  {
  }

  /**
   * Writing `true` into a `hasMore` that was false makes the watch call
   * `loadMore`, which fetches the current page unless a fetch is in flight.
   */
  lemma ReenablingFetches(h: Hook)
    requires HookInv(h) && !h.refs.hasMore
    ensures var h' := Step(h, SetHasMore(true));
      && h'.refs.hasMore
      && h'.refs.page == h.refs.page
      && h'.calls == (if h.refs.isLoading then h.calls else h.calls + [h.refs.page])
      && h'.refs.isLoading
  {
  }

  /** A fetch that resolves advances the page to exactly one past the page it fetched, and releases the guard. */
  lemma SettleFulfilledAdvances(h: Hook)
    requires HookInv(h) && h.pending != []
    ensures var h' := Step(h, Settle(Fulfilled));
      && h'.refs.page == h.pending[0] + 1 == h.refs.page + 1
      && !h'.refs.isLoading
      && h'.refs.hasMore == h.refs.hasMore
      && h'.pending == []
      && h'.calls == h.calls
  {
  }

  /** A fetch that rejects leaves the page where it was, and releases the guard. */
  lemma SettleRejectedKeepsPage(h: Hook)
    requires HookInv(h) && h.pending != []
    ensures var h' := Step(h, Settle(Rejected));
      && h'.refs.page == h.pending[0] == h.refs.page
      && !h'.refs.isLoading
      && h'.refs.hasMore == h.refs.hasMore
      && h'.pending == []
      && h'.calls == h.calls
  {
  }

  /** Every event keeps the invariant. */
  lemma StepKeepsInv(h: Hook, e: Event)
    requires HookInv(h)
    ensures HookInv(Step(h, e))
  {
  }

  /** Every hook reachable from an invariant one, by any interleaving of events, is invariant too. */
  lemma {:induction false} RunKeepsInv(h: Hook, es: seq<Event>)
    requires HookInv(h)
    ensures HookInv(Run(h, es))
    decreases |es|
  {
    if es != [] {
      StepKeepsInv(h, es[0]);
      RunKeepsInv(Step(h, es[0]), es[1..]);
    }
  }

  /**
   * Mutual exclusion: whatever the interleaving of observer callbacks,
   * writes of `hasMore` and settlements, at most one fetch is ever
   * outstanding, and `isLoading` is true exactly while it is.
   */
  lemma AtMostOneFetchInFlight(es: seq<Event>)
    ensures |Run(Start, es).pending| <= 1
    ensures Run(Start, es).refs.isLoading <==> |Run(Start, es).pending| == 1
  {
    RunKeepsInv(Start, es);
  }

  /** The pages handed to `fetchData` never go down. */
  lemma RequestedPagesSorted(es: seq<Event>)
    ensures Sorted(Run(Start, es).calls)
  {
    RunKeepsInv(Start, es);
  }

  /**
   * While a fetch is in flight, no number of observer callbacks or writes
   * of `hasMore` calls `fetchData` again, moves the page or releases the guard.
   */
  lemma {:induction false} NoFetchWhileLoading(h: Hook, es: seq<Event>)
    requires h.refs.isLoading
    requires forall i | 0 <= i < |es| :: !es[i].Settle?
    ensures Run(h, es).calls == h.calls
    ensures Run(h, es).pending == h.pending
    ensures Run(h, es).refs.page == h.refs.page
    ensures Run(h, es).refs.isLoading
    decreases |es|
  {
    if es != [] {
      NoFetchWhileLoading(Step(h, es[0]), es[1..]);
    }
  }

  /** With `hasMore` false, no number of observer callbacks changes anything or calls `fetchData`. */
  lemma {:induction false} NoFetchWithoutMore(h: Hook, es: seq<Event>)
    requires !h.refs.hasMore
    requires forall i | 0 <= i < |es| :: es[i].Intersect?
    ensures Run(h, es) == h
    decreases |es|
  {
    if es != [] {
      GuardBlocksFetch(h, es[0].isIntersecting);
      NoFetchWithoutMore(h, es[1..]);
    }
  }

  /**
   * A burst of events with no settlement in between calls `fetchData`
   * exactly once, with the current page, when the guard is free.
   */
  lemma BurstFetchesOnce(h: Hook, es: seq<Event>)
    requires HookInv(h) && !h.refs.isLoading && h.refs.hasMore
    requires forall i | 0 <= i < |es| :: !es[i].Settle?
    ensures Run(h, [Intersect(true)] + es).calls == h.calls + [h.refs.page]
    ensures Run(h, [Intersect(true)] + es).pending == [h.refs.page]
  {
    var es' := [Intersect(true)] + es;
    assert es'[0] == Intersect(true) && es'[1..] == es;
    FetchUsesCurrentPage(h);
    NoFetchWhileLoading(Step(h, Intersect(true)), es);
  }

  /** The page never goes down. */
  lemma {:induction false} PageNeverDecreases(h: Hook, es: seq<Event>)
    ensures Run(h, es).refs.page >= h.refs.page
    decreases |es|
  {
    if es != [] {
      PageNeverDecreases(Step(h, es[0]), es[1..]);
    }
  }

  /** No event of the hook itself writes `hasMore`: only the caller's writes change it. */
  lemma {:induction false} OnlyCallerWritesHasMore(h: Hook, es: seq<Event>)
    requires forall i | 0 <= i < |es| :: !es[i].SetHasMore?
    ensures Run(h, es).refs.hasMore == h.refs.hasMore
    decreases |es|
  {
    if es != [] {
      OnlyCallerWritesHasMore(Step(h, es[0]), es[1..]);
    }
  }

  /**
   * Unless the caller writes the ref, `hasMore` stays true for the hook's
   * whole lifetime, so the watch on it never fires.
   */
  lemma HasMoreStaysTrue(es: seq<Event>)
    requires forall i | 0 <= i < |es| :: !es[i].SetHasMore?
    ensures Run(Start, es).refs.hasMore
  {
    OnlyCallerWritesHasMore(Start, es);
  }

  /** The refs of `useInfiniteScroll`, updated in place by the two halves of `loadMore`. */
  class Controller {
    var isLoading: bool
    var hasMore: bool
    var page: int
    /** The pages of the fetches whose `await` has not yet resumed. */
    ghost var pending: seq<int>

    function Current(): Refs
      reads this
    {
      Refs(isLoading, hasMore, page)
    }

    ghost predicate Valid()
      reads this
    {
      Consistent(Current(), pending)
    }

    /** The refs as `useInfiniteScroll` declares them: not loading, more data, page 1. */
    constructor ()
      ensures Valid() && pending == []
      ensures !isLoading && hasMore && page == 1
    {
      isLoading, hasMore, page := false, true, 1;
      pending := [];
    }

    /**
     * `loadMore` up to its `await`: returns the page handed to `fetchData`,
     * or None when the guard refused the call.
     */
    method BeginLoad() returns (fetched: Option<int>)
      requires Valid()
      modifies this
      ensures Valid()
      ensures Begun(Current(), fetched) == AfterBegin(old(Current()))
      ensures fetched.Some? <==> !old(isLoading) && old(hasMore)
      ensures fetched.None? ==> Current() == old(Current()) && pending == old(pending)
      ensures fetched.Some? ==> fetched.value == page == old(page) && isLoading && pending == [page]
      ensures hasMore == old(hasMore)
    {
      if isLoading || !hasMore {
        return None;
      }
      isLoading := true;
      pending := pending + [page];
      fetched := Some(page);
    }

    /**
     * `loadMore` after its `await`, given how the promise of `fetchData`
     * settled; returns how the promise of `loadMore` itself settles, which
     * is never a rejection.
     */
    method FinishLoad(outcome: Settlement) returns (result: Settlement)
      requires Valid() && pending != []
      modifies this
      ensures Valid() && pending == []
      ensures Current() == AfterSettle(old(Current()), outcome)
      ensures !isLoading && hasMore == old(hasMore)
      ensures page == if outcome.Fulfilled? then old(pending[0]) + 1 else old(pending[0])
      ensures result == Fulfilled
    {
      if outcome.Fulfilled? {
        page := page + 1;
      }
      isLoading := false;
      pending := pending[1..];
      result := Fulfilled;
    }

    /** The IntersectionObserver callback: calls `loadMore` only when the entry intersects. */
    method OnIntersection(isIntersecting: bool) returns (fetched: Option<int>)
      requires Valid()
      modifies this
      ensures Valid()
      ensures !isIntersecting ==> fetched == None && Current() == old(Current()) && pending == old(pending)
      ensures isIntersecting ==> Begun(Current(), fetched) == AfterBegin(old(Current()))
    {
      fetched := None;
      if isIntersecting {
        fetched := BeginLoad();
      }
    }

    /** The watch callback on `hasMore`: calls `loadMore` only when the new value is true. */
    method OnHasMoreChange(newVal: bool) returns (fetched: Option<int>)
      requires Valid()
      modifies this
      ensures Valid()
      ensures !newVal ==> fetched == None && Current() == old(Current()) && pending == old(pending)
      ensures newVal ==> Begun(Current(), fetched) == AfterBegin(old(Current()))
    {
      fetched := None;
      if newVal {
        fetched := BeginLoad();
      }
    }

    /**
     * The caller writes the returned `hasMore` ref; the watch fires only
     * when the value changed.
     */
    method WriteHasMore(value: bool) returns (fetched: Option<int>)
      requires Valid()
      modifies this
      ensures Valid() && hasMore == value
      ensures value != old(hasMore) ==> Begun(Current(), fetched) == AfterBegin(old(Current()).(hasMore := value))
      ensures value == old(hasMore) ==> fetched == None && Current() == old(Current()) && pending == old(pending)
    {
      var changed := value != hasMore;
      hasMore := value;
      fetched := None;
      if changed {
        fetched := OnHasMoreChange(value);
      }
    }
  }
}
