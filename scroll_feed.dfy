/**
 * The hook driven by the store: `useInfiniteScroll(fetchUsers)`, the wiring
 * the hook's documentation names. A `Feed` pairs the hook's state with the
 * store's; an event that passes the hook's guard starts `fetchUsers`
 * with the hook's page, and a response resumes `fetchUsers` and then, with
 * the settlement `fetchUsers` produced, the hook's `loadMore`.
 *
 * Because `fetchUsers` catches its own errors, the hook's `catch` is never
 * reached: every response, failed or not, advances the page.
 *
 * A response is one step, although in JavaScript the end of `fetchUsers`
 * and the resumption of `loadMore` are separate microtasks. Between them
 * the store's flag is already clear while the hook's guard is still held,
 * and Vue's scheduler flush, queued by the write of `users`, can run
 * there: a re-render, or a caller's watcher, which may write `hasMore`.
 * Such a write meets the held guard, issues no fetch, and has the same
 * effect on the hook as a `SetHasMore` placed just before the `Respond`,
 * so the merge loses nothing the hook can act on. The one thing it hides is
 * that window itself, in which the two loading flags differ.
 */
module ScrollFeed {
  import opened Wrappers
  import H = InfiniteScroll
  import S = UserStore

  datatype Feed<R> = Feed(hook: H.Hook, store: S.State<R>)

  /** The hook as created, next to an empty store. */
  function Start<R>(): Feed<R>
  {
    Feed(H.Start, S.Initial())
  }

  /** The observer callback, a write of `hasMore` by the caller, or the HTTP response to the request in flight. */
  datatype FeedEvent<R> = Intersect(isIntersecting: bool) | SetHasMore(value: bool) | Respond(response: Option<seq<R>>)

  /** A hook event that is not a settlement; when it makes `loadMore` call `fetchUsers`, the store's flag is set. */
  function Trigger<R>(f: Feed<R>, e: H.Event): (f': Feed<R>)
    ensures f'.hook == H.Step(f.hook, e)
    ensures f'.store.users == f.store.users
    ensures f'.store.isLoading == (f.store.isLoading || |f'.hook.calls| > |f.hook.calls|)
  {
    var h := H.Step(f.hook, e);
    if |h.calls| > |f.hook.calls| then Feed(h, S.AfterStart(f.store)) else Feed(h, f.store)
  }

  function Step<R>(f: Feed<R>, e: FeedEvent<R>): (f': Feed<R>)
    ensures f'.hook.refs.page >= f.hook.refs.page
    ensures e.Respond? && f.hook.pending != [] ==> f'.store.users == f.store.users + S.Payload(e.response)
    ensures !(e.Respond? && f.hook.pending != []) ==> f'.store.users == f.store.users
  {
    match e
    case Intersect(isIntersecting) => Trigger(f, H.Intersect(isIntersecting))
    case SetHasMore(value) => Trigger(f, H.SetHasMore(value))
    case Respond(response) =>
      if f.hook.pending == [] then f
      else
        var done := S.AfterResponse(f.store, response);
        Feed(H.Step(f.hook, H.Settle(done.result)), done.state)
  }

  function Run<R>(f: Feed<R>, es: seq<FeedEvent<R>>): Feed<R>
    decreases |es|
  {
    if es == [] then f else Run(Step(f, es[0]), es[1..])
  }

  /** The hook's invariant holds, and the store's flag mirrors the hook's guard. */
  ghost predicate FeedInv<R>(f: Feed<R>)
  {
    H.HookInv(f.hook) && f.store.isLoading == f.hook.refs.isLoading
  }

  lemma StepKeepsFeedInv<R>(f: Feed<R>, e: FeedEvent<R>)
    requires FeedInv(f)
    ensures FeedInv(Step(f, e))
  {
    match e
    case Intersect(isIntersecting) =>
      H.StepKeepsInv(f.hook, H.Intersect(isIntersecting));
    case SetHasMore(value) =>
      H.StepKeepsInv(f.hook, H.SetHasMore(value));
    case Respond(response) =>
      if f.hook.pending != [] {
        H.StepKeepsInv(f.hook, H.Settle(S.AfterResponse(f.store, response).result));
      }
  }

  lemma {:induction false} RunKeepsFeedInv<R>(f: Feed<R>, es: seq<FeedEvent<R>>)
    requires FeedInv(f)
    ensures FeedInv(Run(f, es))
    decreases |es|
  {
    if es != [] {
      StepKeepsFeedInv(f, es[0]);
      RunKeepsFeedInv(Step(f, es[0]), es[1..]);
    }
  }

  /**
   * However scroll events and responses interleave, at most one request is
   * in flight, and both loading flags are set exactly while it is.
   */
  lemma AtMostOneRequest<R>(es: seq<FeedEvent<R>>)
    ensures |Run(Start<R>(), es).hook.pending| <= 1
    ensures Run(Start<R>(), es).store.isLoading <==> |Run(Start<R>(), es).hook.pending| == 1
    ensures Run(Start<R>(), es).hook.refs.isLoading == Run(Start<R>(), es).store.isLoading
  {
    RunKeepsFeedInv(Start<R>(), es);
  }

  /**
   * Every response to the request in flight advances the page by exactly
   * one, whether or not it carried results, appends what it carried, and
   * releases both flags.
   */
  lemma RespondAdvancesPage<R>(f: Feed<R>, response: Option<seq<R>>)
    requires FeedInv(f) && f.hook.pending != []
    ensures var f' := Step(f, Respond(response));
      && f'.hook.refs.page == f.hook.refs.page + 1
      && f'.store.users == f.store.users + S.Payload(response)
      && !f'.hook.refs.isLoading && !f'.store.isLoading
      && f'.hook.pending == []
  {
    S.FetchUsersNeverRejects(f.store, response);
    H.SettleFulfilledAdvances(f.hook);
  }

  /**
   * Along any run the log of requests only grows, and every request made
   * from now on asks for at least the current page.
   */
  lemma {:induction false} LaterRequestsAtLeastPage<R>(f: Feed<R>, es: seq<FeedEvent<R>>)
    ensures |f.hook.calls| <= |Run(f, es).hook.calls|
    ensures Run(f, es).hook.calls[..|f.hook.calls|] == f.hook.calls
    ensures forall i | |f.hook.calls| <= i < |Run(f, es).hook.calls| :: Run(f, es).hook.calls[i] >= f.hook.refs.page
    decreases |es|
  {
    if es != [] {
      var f1 := Step(f, es[0]);
      assert f1.hook.calls == f.hook.calls || f1.hook.calls == f.hook.calls + [f.hook.refs.page];
      assert f1.hook.refs.page >= f.hook.refs.page;
      LaterRequestsAtLeastPage(f1, es[1..]);
      var c := Run(f, es).hook.calls;
      assert c[..|f1.hook.calls|][..|f.hook.calls|] == c[..|f.hook.calls|];
      forall i | |f.hook.calls| <= i < |c| ensures c[i] >= f.hook.refs.page {
        if i < |f1.hook.calls| {
          assert c[i] == c[..|f1.hook.calls|][i] == f1.hook.calls[i];
        }
      }
    }
  }

  /**
   * A failed request appends nothing, yet the page moves on: the request
   * log keeps what it had, and every request made afterwards, on any run,
   * asks for a page past the one that failed, which is never retried.
   */
  lemma FailedRequestSkipsPage<R>(f: Feed<R>, es: seq<FeedEvent<R>>)
    requires FeedInv(f) && f.hook.pending != []
    ensures Step(f, Respond(None)).store.users == f.store.users
    ensures var g := Run(Step(f, Respond(None)), es);
      && |f.hook.calls| <= |g.hook.calls|
      && g.hook.calls[..|f.hook.calls|] == f.hook.calls
      && forall i | |f.hook.calls| <= i < |g.hook.calls| :: g.hook.calls[i] > f.hook.pending[0]
  {
    var f1 := Step(f, Respond(None));
    RespondAdvancesPage(f, None);
    LaterRequestsAtLeastPage(f1, es);
  }

  /** The list only grows along any run: the old list is always a prefix of the new one. */
  lemma {:induction false} UsersOnlyGrowAlongRun<R>(f: Feed<R>, es: seq<FeedEvent<R>>)
    ensures |f.store.users| <= |Run(f, es).store.users|
    ensures Run(f, es).store.users[..|f.store.users|] == f.store.users
    decreases |es|
  {
    if es != [] {
      var f1 := Step(f, es[0]);
      assert f1.store.users[..|f.store.users|] == f.store.users;
      UsersOnlyGrowAlongRun(f1, es[1..]);
      var u := Run(f, es).store.users;
      assert u[..|f1.store.users|][..|f.store.users|] == u[..|f.store.users|];
    }
  }

  /**
   * Two scroll-triggered loads of ten records each: the page cursor ends at
   * 3 and the list holds the twenty records in arrival order.
   */
  lemma TwoPagesOfTen<R>(first: seq<R>, second: seq<R>)
    requires |first| == 10 && |second| == 10
    ensures var f := Run(Start<R>(), [Intersect(true), Respond(Some(first)), Intersect(true), Respond(Some(second))]);
      && f.hook.refs.page == 3
      && f.hook.calls == [1, 2]
      && f.store.users == first + second
      && |f.store.users| == 20
      && !f.store.isLoading
  {
    var es := [Intersect(true), Respond(Some(first)), Intersect(true), Respond(Some(second))];
    var f0 := Start<R>();
    var f1 := Step(f0, es[0]);
    assert f1.hook.pending == [1] && f1.store.users == [];
    var f2 := Step(f1, es[1]);
    assert f2.hook.refs.page == 2 && f2.store.users == first;
    var f3 := Step(f2, es[2]);
    assert f3.hook.calls == [1, 2] && f3.hook.pending == [2];
    var f4 := Step(f3, es[3]);
    assert f4.store.users == first + second;
    assert es[1..][1..][1..][1..] == [];
    assert Run(f0, es) == Run(f1, es[1..]) == Run(f2, es[1..][1..])
        == Run(f3, es[1..][1..][1..]) == Run(f4, []) == f4;
  }
}
