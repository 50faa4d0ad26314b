/**
 * The Pinia store `userStore`: the accumulated list of user records and a
 * loading flag, and the action `fetchUsers`, which requests one page of
 * users and appends what the response carries.
 *
 * The records are opaque: the store never looks inside one, so they are a
 * type parameter `R`. The HTTP response is an input: `Some(results)` when
 * the request resolved with a `results` array, `None` when it rejected or
 * the body had none (spreading a missing array throws inside the same
 * `try`). `fetchUsers` is split at its `await` like the hook's `loadMore`.
 */
module UserStore {
  import opened Wrappers

  /** The store's state. */
  datatype State<R> = State(users: seq<R>, isLoading: bool)

  /** The store's state as `state()` creates it. */
  function Initial<R>(): State<R>
  {
    State([], false)
  }

  /** The records a response delivers. */
  function Payload<R>(response: Option<seq<R>>): seq<R>
  {
    match response
    case Some(results) => results
    case None => []
  }

  /** `fetchUsers` up to its `await`: the flag is set. */
  function AfterStart<R>(s: State<R>): (s': State<R>)
    ensures s'.isLoading && s'.users == s.users
  {
    s.(isLoading := true)
  }

  /** The state after the rest of `fetchUsers` has run, and how the promise of `fetchUsers` settles. */
  datatype Completed<R> = Completed(state: State<R>, result: Settlement)

  /**
   * `fetchUsers` after its `await`: the results are appended and the action
   * returns (the `try`), a failure is caught and leaves the list alone (the
   * `catch`), and on both paths the flag is cleared (the `finally`).
   */
  function AfterResponse<R>(s: State<R>, response: Option<seq<R>>): (c: Completed<R>)
    ensures c.state.users == s.users + Payload(response)
    ensures response.None? ==> c.state.users == s.users
    ensures !c.state.isLoading
    ensures c.result == Fulfilled
  {
    match response
    case Some(results) => Completed(State(s.users + results, false), Fulfilled)
    case None => Completed(s.(isLoading := false), Fulfilled)
  }

  /** One whole `fetchUsers` call, with no other code run during its `await`. */
  function AfterFetch<R>(s: State<R>, response: Option<seq<R>>): (s': State<R>)
    ensures s'.users == s.users + Payload(response)
    ensures !s'.isLoading
  {
    AfterResponse(AfterStart(s), response).state
  }

  /** The action catches its own errors: its promise resolves whatever the response. */
  lemma FetchUsersNeverRejects<R>(s: State<R>, response: Option<seq<R>>)
    ensures AfterResponse(s, response).result == Fulfilled
    ensures AfterResponse(s, response).state.users == s.users + Payload(response)
  {
  }

  /** Calls of `fetchUsers` one after the other, with the given responses. */
  function FetchAll<R>(s: State<R>, responses: seq<Option<seq<R>>>): State<R>
    decreases |responses|
  {
    if responses == [] then s else FetchAll(AfterFetch(s, responses[0]), responses[1..])
  }

  /** Everything a sequence of responses delivers, in arrival order. */
  function Delivered<R>(responses: seq<Option<seq<R>>>): seq<R>
    decreases |responses|
  {
    if responses == [] then [] else Payload(responses[0]) + Delivered(responses[1..])
  }

  /** A successful fetch appends the results after the old list, in order, and clears the flag. */
  lemma FetchAppendsInOrder<R>(s: State<R>, results: seq<R>)
    ensures var s' := AfterFetch(s, Some(results));
      && |s'.users| == |s.users| + |results|
      && s'.users[..|s.users|] == s.users
      && s'.users[|s.users|..] == results
      && !s'.isLoading
  {
  }

  /** A failed fetch leaves the list as it was, and clears the flag. */
  lemma FailedFetchKeepsUsers<R>(s: State<R>)
    ensures AfterFetch(s, None).users == s.users
    ensures !AfterFetch(s, None).isLoading
  {
  }

  /**
   * The list only grows: after any sequence of fetches it is the old list
   * followed by everything delivered, duplicates included, and the flag is
   * clear once at least one fetch has run.
   */
  lemma {:induction false} UsersOnlyGrow<R>(s: State<R>, responses: seq<Option<seq<R>>>)
    ensures FetchAll(s, responses).users == s.users + Delivered(responses)
    ensures |FetchAll(s, responses).users| == |s.users| + |Delivered(responses)|
    ensures responses != [] ==> !FetchAll(s, responses).isLoading
    decreases |responses|
  {
    if responses != [] {
      var s1 := AfterFetch(s, responses[0]);
      UsersOnlyGrow(s1, responses[1..]);
      assert s.users + Delivered(responses)
          == (s.users + Payload(responses[0])) + Delivered(responses[1..]);
      if responses[1..] == [] {
        assert FetchAll(s1, responses[1..]) == s1;
      }
    }
  }

  /** The store object, whose fields `fetchUsers` updates in place. */
  class Store<R> {
    var users: seq<R>
    var isLoading: bool

    function Current(): State<R>
      reads this
    {
      State(users, isLoading)
    }

    /** An empty list and a clear flag. */
    constructor ()
      ensures users == [] && !isLoading
    {
      users, isLoading := [], false;
    }

    /** `fetchUsers(page)` up to its `await`; `page` only goes into the URL of the request. */
    method StartFetch(page: int)
      modifies this
      ensures Current() == AfterStart(old(Current()))
      ensures isLoading && users == old(users)
    {
      isLoading := true;
    }

    /**
     * `fetchUsers` after its `await`; returns how its promise settles,
     * which is never a rejection because the action catches every error.
     */
    method CompleteFetch(response: Option<seq<R>>) returns (result: Settlement)
      modifies this
      ensures Current() == AfterResponse(old(Current()), response).state
      ensures result == AfterResponse(old(Current()), response).result
      ensures users == old(users) + Payload(response)
      ensures response.None? ==> users == old(users)
      ensures !isLoading
      ensures result == Fulfilled
    {
      if response.Some? {
        users := users + response.value;
      }
      isLoading := false;
      result := Fulfilled;
    }

    /** One whole `fetchUsers(page)` call, with no other code run during its `await`. */
    method FetchUsers(page: int, response: Option<seq<R>>) returns (result: Settlement)
      modifies this
      ensures Current() == AfterFetch(old(Current()), response)
      ensures users == old(users) + Payload(response)
      ensures !isLoading
      ensures result == Fulfilled
    {
      StartFetch(page);
      result := CompleteFetch(response);
    }

    /** The getter `getUsers`. */
    function GetUsers(): (u: seq<R>)
      reads this
      ensures u == Current().users
    {
      users
    }

    /** The getter `getLoadingState`. */
    function GetLoadingState(): (b: bool)
      reads this
      ensures b == Current().isLoading
    {
      isLoading
    }
  }
}
