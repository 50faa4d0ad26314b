# Infinite scroll: pagination controller and user store

A Dafny model of the two pieces of logic in a small Vue front-end that loads
random user profiles page by page as the user scrolls:

- the hook `useInfiniteScroll` (`src/hooks/useInfiniteScroll.js`), a
  pagination controller with three refs (`isLoading`, `hasMore`, `page`) and
  an async `loadMore` guarded by `isLoading`, triggered by an
  IntersectionObserver and by a watch on `hasMore`;
- the Pinia store `userStore` (`src/store/userStore.js`), which holds the list
  of users and a loading flag, and whose action `fetchUsers` appends the
  records one HTTP response delivers.

Files:

- `wrappers.dfy` — module `Wrappers`: `Option` and `Settlement` (how a
  promise settles: `Fulfilled` or `Rejected`).
- `infinite_scroll.dfy` — module `InfiniteScroll`. `loadMore` is split at its
  one `await`: `AfterBegin` (guard, take the guard, call `fetchData(page)`)
  and `AfterSettle` (advance the page if the fetch resolved, release the
  guard). A `Hook` adds the fetches in flight and the log of pages requested;
  `Run` applies any interleaving of observer callbacks, writes of `hasMore` and settlements. The class
  `Controller` has the refs as fields and `BeginLoad`/`FinishLoad` as methods,
  plus the two callers of `loadMore` (the observer callback and the watch on
  `hasMore`, which reacts when the caller writes the `hasMore` ref),
  specified against those functions; its ghost field `pending` records the
  fetches whose `await` has not resumed.
- `user_store.dfy` — module `UserStore`: the store's `State`, `fetchUsers`
  split the same way (`AfterStart`, `AfterResponse`), and the class `Store`
  with the fields `users` and `isLoading`, the action and the two getters.
  Records are opaque (a type parameter); the HTTP response is an input,
  `Some(results)` or `None` for a failed request or a body without results.
- `scroll_feed.dfy` — module `ScrollFeed`: the hook driven by `fetchUsers`
  as its data source, the wiring the hook's documentation names.

The data source, the browser's observer and the network are inputs: the
outcome of each fetch is a parameter of the step that resumes it.

The hook's own documentation says it "updates the `page` value after a
successful fetch" (`src/hooks/useInfiniteScroll.js:38`), and its `catch`
(lines 48-49) leaves the page where it was on a failed one, so that the next
scroll retries the same page. That is true of the hook on its own
(`InfiniteScroll.SettleRejectedKeepsPage`). But
`fetchUsers` catches its own errors, so the promise the hook awaits always
resolves, and the hook's `catch` is never reached for an HTTP failure. With
the store as its data source, every completed request therefore advances the
page, including a failed one. The failed page is then never requested again
on any later run (`ScrollFeed.RespondAdvancesPage`,
`ScrollFeed.FailedRequestSkipsPage`).

## Model

| member | source | states |
|---|---|---|
| InfiniteScroll.Controller.constructor | src/hooks/useInfiniteScroll.js:20-32 | the controller starts with `isLoading` false, `hasMore` true, `page` 1 and no fetch in flight |
| InfiniteScroll.Controller.BeginLoad | src/hooks/useInfiniteScroll.js:41-46 | a fetch is issued iff not loading and more data exists; then it is for the current page, the guard is held and exactly that fetch is in flight; otherwise nothing changes; `hasMore` and `page` are never written |
| InfiniteScroll.Controller.FinishLoad | src/hooks/useInfiniteScroll.js:45-52 | when the awaited fetch settles, `page` becomes the fetched page plus one if it resolved and stays put if it rejected; `isLoading` is false on both paths; the rejection is swallowed (loadMore's own promise resolves) |
| InfiniteScroll.Controller.OnIntersection | src/hooks/useInfiniteScroll.js:73-77 | the observer callback runs `loadMore` when the entry intersects and changes nothing otherwise |
| InfiniteScroll.Controller.OnHasMoreChange | src/hooks/useInfiniteScroll.js:59-63 | the watch callback runs `loadMore` when the new value is true and changes nothing otherwise |
| InfiniteScroll.Controller.WriteHasMore | src/hooks/useInfiniteScroll.js:57-63 | a write of the returned `hasMore` ref stores the value; the watch runs its callback only when the value changed, so writing the same value changes nothing |
| InfiniteScroll.AfterBegin | src/hooks/useInfiniteScroll.js:42-46 | the first half of `loadMore`: it calls the data source iff not loading and `hasMore` is true, then with the current page and the guard taken; otherwise the refs are unchanged |
| InfiniteScroll.AfterSettle | src/hooks/useInfiniteScroll.js:46-52 | the second half of `loadMore`: `page` advances by one iff the fetch resolved, `isLoading` is false on both paths, `hasMore` is untouched |
| InfiniteScroll.LoadMore | src/hooks/useInfiniteScroll.js:41-46 | one call of `loadMore` on the whole hook: the request log gains the current page iff the guard passes, `page` and `hasMore` are unchanged, and afterwards the guard is held unless `hasMore` was false with the guard free |
| InfiniteScroll.Step | src/hooks/useInfiniteScroll.js:41-77 | one event (observer callback, write of `hasMore` with the watch reacting, or settlement): `page` never decreases, the request log gains at most the current page, only a caller write changes `hasMore`, and a settlement issues no request |
| InfiniteScroll.GuardBlocksFetch | src/hooks/useInfiniteScroll.js:42 | while loading, or with `hasMore` false, the observer callback is a no-op: no fetch and no state change |
| InfiniteScroll.FetchUsesCurrentPage | src/hooks/useInfiniteScroll.js:42-46 | when the guard passes, the data source is called with the value of `page` at that moment, the guard is taken and `page`/`hasMore` are unchanged |
| InfiniteScroll.ReenablingFetches | src/hooks/useInfiniteScroll.js:59-63 | writing true into a false `hasMore` makes the watch call `loadMore`, which fetches the current page unless a fetch is already in flight |
| InfiniteScroll.SettleFulfilledAdvances | src/hooks/useInfiniteScroll.js:45-52 | a fetch that resolves sets `page` to exactly the fetched page plus one and releases the guard |
| InfiniteScroll.SettleRejectedKeepsPage | src/hooks/useInfiniteScroll.js:45-52 | a fetch that rejects leaves `page` unchanged and releases the guard |
| InfiniteScroll.StepKeepsInv | src/hooks/useInfiniteScroll.js:41-53 | every event, including a caller's write of `hasMore`, keeps the invariant: guard held iff exactly one fetch of the current page is in flight, page at least 1, pages requested nondecreasing and at most the current page |
| InfiniteScroll.RunKeepsInv | src/hooks/useInfiniteScroll.js:41-53 | the invariant holds after any interleaving of observer callbacks, writes of `hasMore` and settlements |
| InfiniteScroll.AtMostOneFetchInFlight | src/hooks/useInfiniteScroll.js:42-43 | from the initial state, under any interleaving of observer callbacks, writes of `hasMore` and settlements, at most one fetch is outstanding and `isLoading` is true exactly while one is |
| InfiniteScroll.RequestedPagesSorted | src/hooks/useInfiniteScroll.js:41-53 | from the initial state, the pages handed to the data source never go down |
| InfiniteScroll.NoFetchWhileLoading | src/hooks/useInfiniteScroll.js:42 | while a fetch is in flight, any sequence of observer callbacks and writes of `hasMore` issues no fetch, leaves `page` alone and keeps the guard held |
| InfiniteScroll.NoFetchWithoutMore | src/hooks/useInfiniteScroll.js:42 | with `hasMore` false, any sequence of observer callbacks changes nothing and never calls the data source |
| InfiniteScroll.BurstFetchesOnce | src/hooks/useInfiniteScroll.js:42-46 | a burst of events with no settlement in between, started by an intersection with the guard free, calls the data source exactly once, with the current page |
| InfiniteScroll.PageNeverDecreases | src/hooks/useInfiniteScroll.js:41-53 | along any run `page` never decreases |
| InfiniteScroll.OnlyCallerWritesHasMore | src/hooks/useInfiniteScroll.js:26-53 | no event of the hook writes `hasMore`: along a run without caller writes it keeps its value |
| InfiniteScroll.HasMoreStaysTrue | src/hooks/useInfiniteScroll.js:26-63 | from the initial state, unless the caller writes the ref, `hasMore` stays true, so the watch never fires |
| UserStore.Store.constructor | src/store/userStore.js:17-29 | the store starts with an empty `users` list and `isLoading` false |
| UserStore.Store.StartFetch | src/store/userStore.js:39-41 | entering `fetchUsers` sets `isLoading` and leaves `users` alone |
| UserStore.Store.CompleteFetch | src/store/userStore.js:44-54 | after the response, `users` is the old list followed by the results (unchanged on failure), `isLoading` is false, and the action resolves |
| UserStore.Store.FetchUsers | src/store/userStore.js:39-55 | a whole `fetchUsers` call appends the response's results, clears the flag and never rejects |
| UserStore.Store.GetUsers | src/store/userStore.js:62-64 | the getter returns the store's `users` and reads nothing else |
| UserStore.Store.GetLoadingState | src/store/userStore.js:70-72 | the getter returns the store's `isLoading` and reads nothing else |
| UserStore.AfterStart | src/store/userStore.js:39-41 | entering `fetchUsers` sets the flag and keeps the list |
| UserStore.AfterResponse | src/store/userStore.js:44-54 | after the response the list is the old list followed by what the response carried (unchanged on failure), the flag is clear, and the action resolves on both paths |
| UserStore.AfterFetch | src/store/userStore.js:39-55 | a whole `fetchUsers` call appends what the response carried and leaves the flag clear |
| UserStore.FetchUsersNeverRejects | src/store/userStore.js:39-55 | whatever the response, the action's promise resolves and the list becomes the old list plus what the response carried |
| UserStore.FetchAppendsInOrder | src/store/userStore.js:49 | a successful fetch keeps the old list as a prefix, puts the results after it in order, grows the list by exactly their number, and clears the flag |
| UserStore.FailedFetchKeepsUsers | src/store/userStore.js:44-54 | a failed fetch leaves `users` unchanged and clears the flag |
| UserStore.UsersOnlyGrow | src/store/userStore.js:49 | after any sequence of fetches the list is the old list followed by everything delivered, in order and without deduplication, and after at least one fetch the flag is clear |
| ScrollFeed.Trigger | src/hooks/useInfiniteScroll.js:41-46 | a scroll event or a write of `hasMore` acts on the hook as the hook's own step, never touches the user list, and sets the store's flag exactly when it made `loadMore` call `fetchUsers` |
| ScrollFeed.Step | src/store/userStore.js:39-55 | one event of the app: `page` never decreases, a response to the request in flight appends what it carried, and no other event changes the user list |
| ScrollFeed.StepKeepsFeedInv | src/hooks/useInfiniteScroll.js:41-53 | with the store as data source, every event keeps the hook invariant and keeps the store's flag equal to the hook's guard |
| ScrollFeed.RunKeepsFeedInv | src/hooks/useInfiniteScroll.js:41-53 | that joint invariant holds after any interleaving of scroll events and responses |
| ScrollFeed.AtMostOneRequest | src/hooks/useInfiniteScroll.js:42-43 | under any interleaving at most one HTTP request is in flight, and both loading flags are set exactly while it is |
| ScrollFeed.RespondAdvancesPage | src/store/userStore.js:50-51 | because `fetchUsers` never rejects, every response advances `page` by exactly one, failed or not, appends what it carried and clears both flags |
| ScrollFeed.LaterRequestsAtLeastPage | src/hooks/useInfiniteScroll.js:46 | along any run the request log only grows, and every later request asks for at least the current page |
| ScrollFeed.FailedRequestSkipsPage | src/hooks/useInfiniteScroll.js:46-47 | after a failed request nothing is appended, yet on any later run every request asks for a page past the failed one, which is never retried |
| ScrollFeed.UsersOnlyGrowAlongRun | src/store/userStore.js:49 | along any run of the app the old user list is a prefix of the new one |
| ScrollFeed.TwoPagesOfTen | src/hooks/useInfiniteScroll.js:41-53 | two scroll-triggered loads of ten records each leave the cursor at 3, request pages 1 and 2, and leave the twenty records in arrival order |

## Left out

- `observeBottom`'s construction of the IntersectionObserver (threshold 1.0, `observe`) is a browser API; only its callback is modelled, as `OnIntersection` / the `Intersect` event. No unregistration exists in the code either.
- Vue reactivity (`ref`, `watch`) and Pinia's `defineStore`: refs and store state are plain fields. The watch is run in the same step as the caller's write of `hasMore` that triggers it; Vue defers the callback to a scheduler job, so the model does not capture a write that is reverted before that job runs.
- InfiniteScroll.AtMostOneFetchInFlight: the caller may write only `hasMore` among the returned refs; a caller that writes the `isLoading` ref could defeat the guard, and such writes are not modelled. No event of the hook writes `hasMore` (`OnlyCallerWritesHasMore`).
- ScrollFeed.AtMostOneRequest: other components are assumed only to read the store's `users` and `isLoading`; writes to the store from outside the action are not modelled. The equality of the two loading flags ignores the window between the end of `fetchUsers` and the resumption of `loadMore`, in which the store's flag is already clear while the hook's guard is still held (see the next line).
- The axios request and its URL (`page` and `results=10` go only into the URL): the response is an input, `Some(results)` or `None`. A body without a `results` array makes the spread throw inside the same `try`, so it is folded into `None`.
- The hook's `pageSize` parameter is never used by the code, so it does not appear in the model.
- `console.error` logging in both `catch` blocks: it changes no state.
- `page` is a JavaScript number; the model uses an unbounded integer, since a page count near 2^53 cannot arise.
- The store itself has no guard: two overlapping `fetchUsers` calls made outside the hook are possible with `Store.StartFetch`/`CompleteFetch`, but only the hook's single-request use is analysed in `ScrollFeed`.
- In `ScrollFeed` a response is one step, although the end of `fetchUsers` and the resumption of `loadMore` are separate microtasks. Between them the store's flag is already clear while the hook's guard is still held, and Vue's scheduler flush, queued by the write of `users`, can run there: a re-render, or a caller's watcher, which may write `hasMore`. Such a write meets the held guard, issues no fetch, and has the same effect on the hook as a `SetHasMore` placed just before the `Respond`. So the merge loses nothing the hook can act on; it hides only that window, in which the two loading flags differ.
- `src/main.js`, `eslint.config.js` and `tailwind.config.js` are app bootstrap, lint and style configuration with no logic. The `App.vue` component that wires `fetchUsers` into the hook is not part of this model; the wiring follows the hook's own documentation.
