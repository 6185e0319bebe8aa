/**
 The `App` component's own logic: the search term kept by the
 semi-persistent hook, the request `url`, the stories reducer state, and the
 handlers that dispatch actions into it. The remote read is a parameter (its
 outcome), and a fetch settles before the next event is handled.
 */
module HackerStories {
  import opened Stories
  import opened Persistence

  const API_ENDPOINT: string := "https://hn.algolia.com/api/v1/search?query="
  const SEARCH_KEY: string := "search"
  const DEFAULT_TERM: string := "React"

  /** How the remote read ended: the response's `hits`, or an exception. */
  datatype Outcome = Fetched(hits: seq<Story>) | Failed

  /** The actions one call of `handleFetchStories` dispatches, in order. */
  function FetchActions(url: string, outcome: Outcome): seq<Action> {
    if url == "" then []
    else match outcome
      case Fetched(hits) => [StoriesFetchInit, StoriesFetchSuccess(hits)]
      case Failed => [StoriesFetchInit, StoriesFetchFailure]
  }

  /** Where a fetch leaves the state, stated without the actions: the hits
      with both flags down, or the old stories with the error flag up. */
  function Settled(s: State, outcome: Outcome): State {
    match outcome
    case Fetched(hits) => State(hits, false, false)
    case Failed => State(s.data, false, true)
  }

  /** The request address is the endpoint followed by a term. */
  predicate IsRequestUrl(url: string) {
    |API_ENDPOINT| <= |url| && url[..|API_ENDPOINT|] == API_ENDPOINT
  }

  /** A fetch on a non-empty url dispatches FETCH_INIT first and then exactly
      one of FETCH_SUCCESS (carrying the hits) or FETCH_FAILURE; on the empty
      url it dispatches nothing. */
  lemma FetchDispatchOrder(url: string, outcome: Outcome)
    ensures url == "" <==> FetchActions(url, outcome) == []
    ensures url != "" ==>
      var acts := FetchActions(url, outcome);
      && |acts| == 2 && acts[0] == StoriesFetchInit
      && (acts[1].StoriesFetchSuccess? <==> outcome.Fetched?)
      && (acts[1].StoriesFetchFailure? <==> outcome.Failed?)
      && (outcome.Fetched? ==> acts[1].hits == outcome.hits)
  {
  }

  /** Whatever the prior state, a fetch on a non-empty url ends in `Settled`;
      on the empty url the state is untouched. The settled state is
      consistent. */
  lemma FetchSettles(s: State, url: string, outcome: Outcome)
    ensures url != "" ==> Run(s, FetchActions(url, outcome)) == Settled(s, outcome)
    ensures url == "" ==> Run(s, FetchActions(url, outcome)) == s
    ensures Consistent(Settled(s, outcome))
  {
    if url != "" {
      var acts := FetchActions(url, outcome);
      assert acts[1..][1..] == [];
      assert Run(s, acts) == Run(Reduce(Reduce(s, acts[0]), acts[1]), []);
    }
  }

  /** `API_ENDPOINT` is not empty, so a request url never is either: the
      `if (!url) return` guard is never taken. */
  lemma RequestUrlNonEmpty(url: string)
    requires IsRequestUrl(url)
    ensures url != ""
  {
  }

  /** Scenario: a fetch for "React" returning one hit titled "React" leaves
      exactly that story, with neither flag up. */
  lemma ScenarioFetchReact(s: State, hit: Story)
    requires hit.objectID == "0" && hit.title == "React"
    ensures var r := Run(s, FetchActions(API_ENDPOINT + "React", Fetched([hit])));
            r.data == [hit] && |r.data| == 1 && r.data[0].title == "React" && !r.isLoading && !r.isError
  {
    FetchSettles(s, API_ENDPOINT + "React", Fetched([hit]));
  }

  /** Scenario: a failed fetch keeps the stories that were shown before. */
  lemma ScenarioFetchFails(s: State, url: string)
    requires url != ""
    ensures Run(s, FetchActions(url, Failed)) == State(s.data, false, true)
  {
    FetchSettles(s, url, Failed);
  }

  class App {
    var stories: State
    const searchTerm: SemiPersistentState
    var url: string
    /** Every action dispatched so far, oldest first. */
    ghost var dispatched: seq<Action>

    /** The reducer state is the initial state stepped by the dispatch log;
        `App` never dispatches SET_STORIES; the url is always a request url;
        the term's hook is mounted and keeps its own invariant. */
    ghost predicate Valid()
      reads this, searchTerm, searchTerm.storage
    {
      && searchTerm.Valid() && searchTerm.isMounted
      && searchTerm.key == SEARCH_KEY && searchTerm.initialState == DEFAULT_TERM
      && IsRequestUrl(url)
      && stories == Run(Initial, dispatched)
      && (forall i :: 0 <= i < |dispatched| ==> !dispatched[i].SetStories?)
    }

    /** Mounting `App`: the reducer starts at `Initial`, the term comes from
        the store (default "React"), `url` is the endpoint plus that term;
        then the mount effects run in declaration order: the hook's first
        effect (which writes nothing) and the first fetch. */
    constructor (storage: LocalStorage, outcome: Outcome)
      modifies storage
      ensures Valid()
      ensures fresh(searchTerm) && searchTerm.storage == storage
      ensures searchTerm.value == OrElse(Lookup(old(storage.items), SEARCH_KEY), DEFAULT_TERM)
      ensures storage.items == old(storage.items)
      ensures url == API_ENDPOINT + searchTerm.value
      ensures dispatched == FetchActions(url, outcome)
      ensures stories == Settled(Initial, outcome)
    {
      stories := Initial;
      var term := new SemiPersistentState(storage, SEARCH_KEY, DEFAULT_TERM);
      searchTerm := term;
      url := API_ENDPOINT + term.value;
      dispatched := [];
      new;
      searchTerm.Effect();
      HandleFetchStories(outcome);
      FetchSettles(Initial, url, outcome);
    }

    /** `dispatchStories(a)`. */
    method Dispatch(a: Action)
      modifies this
      ensures stories == Reduce(old(stories), a)
      ensures dispatched == old(dispatched) + [a]
      ensures url == old(url)
      ensures old(Valid()) && !a.SetStories? ==> Valid()
    {
      RunSnoc(Initial, dispatched, a);
      stories := Reduce(stories, a);
      dispatched := dispatched + [a];
    }

    /** `handleFetchStories`: nothing on an empty url; otherwise FETCH_INIT and
        then the action for the outcome. */
    method HandleFetchStories(outcome: Outcome)
      modifies this
      ensures url == old(url)
      ensures dispatched == old(dispatched) + FetchActions(url, outcome)
      ensures stories == Run(old(stories), FetchActions(url, outcome))
      ensures old(Valid()) ==> Valid()
    {
      if url == "" {
        return;
      }
      FetchSettles(stories, url, outcome);
      Dispatch(StoriesFetchInit);
      match outcome {
        case Fetched(hits) => Dispatch(StoriesFetchSuccess(hits));
        case Failed => Dispatch(StoriesFetchFailure);
      }
    }

    /** `handleSearch`: the term changes (and is persisted by the hook); the
        url does not, so nothing is fetched. */
    method HandleSearch(value: string)
      requires Valid()
      modifies searchTerm, searchTerm.storage
      ensures Valid()
      ensures searchTerm.value == value
      ensures searchTerm.storage.items ==
        if value == old(searchTerm.value) then old(searchTerm.storage.items)
        else old(searchTerm.storage.items)[SEARCH_KEY := value]
    {
      searchTerm.SetValue(value);
    }

    /** `handleSearchSubmit`: the url becomes the endpoint plus the current
        term; only a url that differs re-creates `handleFetchStories`, so
        only then does the fetch effect run, ending in `Settled`. */
    method HandleSearchSubmit(outcome: Outcome)
      requires Valid()
      modifies this
      ensures Valid()
      ensures url == API_ENDPOINT + searchTerm.value
      ensures url == old(url) ==> dispatched == old(dispatched) && stories == old(stories)
      ensures url != old(url) ==> dispatched == old(dispatched) + FetchActions(url, outcome)
      ensures url != old(url) ==> |dispatched| == |old(dispatched)| + 2
      ensures url != old(url) ==> stories == Settled(old(stories), outcome)
    {
      var next := API_ENDPOINT + searchTerm.value;
      if next != url {
        url := next;
        HandleFetchStories(outcome);
        RequestUrlNonEmpty(url);
        FetchSettles(old(stories), url, outcome);
      }
    }

    /** `handleRemoveItem`: REMOVE_STORY for the item. */
    method HandleRemoveItem(item: Story)
      requires Valid()
      modifies this
      ensures Valid()
      ensures url == old(url)
      ensures dispatched == old(dispatched) + [RemoveStory(item)]
      ensures stories.data == RemoveById(old(stories).data, item.objectID)
      ensures stories.isLoading == old(stories).isLoading && stories.isError == old(stories).isError
    {
      Dispatch(RemoveStory(item));
    }
  }

  /** What `App` renders from is never loading and failed at once. */
  lemma AppNeverLoadingAndFailed(app: App)
    requires app.Valid()
    ensures !(app.stories.isLoading && app.stories.isError)
  {
    ReachableConsistent(app.dispatched);
  }

  /** In a mounted `App` the fetch guard is dead code: every fetch dispatches
      two actions. */
  lemma AppFetchAlwaysDispatches(app: App, outcome: Outcome)
    requires app.Valid()
    ensures |FetchActions(app.url, outcome)| == 2
  {
    RequestUrlNonEmpty(app.url);
  }
}
