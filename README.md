# hacker-stories: the stories reducer, the fetch handlers and the persisted search term

This project models the logic of `src/App.js` in the hacker-stories search UI,
a React page that fetches Hacker News search results for a term and lists them.

- `stories.dfy`, module `Stories`. `storiesReducer` is a pure function `Reduce`
  over `State(data, isLoading, isError)`. Its input is a closed `Action`
  datatype with the five action kinds plus `Unrecognised`, which stands for the
  `default` branch. `Run` folds a sequence of dispatches. The lemmas state:
  - what each action does;
  - that `REMOVE_STORY`'s `filter` keeps exactly the other stories, in order
    and with their multiplicities, and is idempotent;
  - the reachable-state invariant "never loading and failed at once";
  - that a removed story comes back only if a later payload carries it.
- `persistence.dfy`, module `Persistence`. `LocalStorage` is a class over a
  `map<string, string>` that stands in for the browser store.
  `SemiPersistentState` is the `useSemiPersistentState` hook. Its constructor is
  the first render, `localStorage.getItem(key) || initialState`. `Effect` is the
  `useEffect` body: the first run only sets `isMounted`, later runs write
  through. `SetValue` is the state setter, and it re-runs the effect only when
  the value changes. The hook's invariant says what a remount would restore.
- `app.dfy`, module `HackerStories`. The `App` class holds the reducer state,
  the hook for the term and `url`. A ghost log of every dispatched action is
  kept alongside. The methods are the component's handlers.
  - The remote read is an `Outcome` parameter: `Fetched(hits)` or `Failed`.
  - The fetch effect is the explicit step "url changed, so run one fetch", and
    the fetch settles before the next event.
  - `Valid()` ties the state to the log: `stories == Run(Initial, dispatched)`.
    It also says `SET_STORIES` is never dispatched and `url` starts with
    `API_ENDPOINT`.
  - The model proves that the empty-url guard is never taken, that each fetch
    dispatches INIT then exactly one of SUCCESS/FAILURE, and that the rendered
    state is never loading and failed at once.

Behaviours of the code that the model keeps as written:
- The first run of the persistence effect writes nothing.
- A stored empty term is read back as the default "React", because of `||`.
- The model adds no stale-response guard, as the code has none. The race itself is outside the sequential model (see "## Left out").
- An action kind `SET_STORIES` exists that replaces the whole state.
- Submitting the same term again sets `url` to the value it already has. `url`
  does not change, so no fetch runs.

## Model

| member | source | states |
|---|---|---|
| `Stories.RemoveById` | src/App.js:29 | the result is no longer than the input, and a story is in it exactly when it is in the input and its `objectID` differs from the removed one |
| `Stories.FetchInitEffect` | src/App.js:31-36 | STORIES_FETCH_INIT sets loading, clears error and keeps `data` unchanged |
| `Stories.FetchSuccessEffect` | src/App.js:37-43 | STORIES_FETCH_SUCCESS gives exactly `{hits, false, false}` whatever the prior state |
| `Stories.FetchFailureEffect` | src/App.js:44-49 | STORIES_FETCH_FAILURE clears loading, sets error and leaves `data` as it was |
| `Stories.RemoveStoryEffect` | src/App.js:26-30 | REMOVE_STORY leaves both flags alone and keeps exactly the stories with another `objectID` |
| `Stories.SetStoriesAndDefault` | src/App.js:23-52 | SET_STORIES returns its payload as the whole state; an unrecognised action returns the state unchanged |
| `Stories.RemoveNoMatch` | src/App.js:29 | when no story has the id, removal returns the list unchanged |
| `Stories.RemoveIdempotent` | src/App.js:29 | filtering twice by the same id equals filtering once |
| `Stories.RemoveStoryIdempotent` | src/App.js:26-30 | REMOVE_STORY applied twice equals applied once; with no matching story the state is unchanged |
| `Stories.RemoveAppend` | src/App.js:29 | removal distributes over concatenation (it acts element by element) |
| `Stories.RemoveIsSubsequence` | src/App.js:29 | the kept stories are a subsequence of the original list (relative order preserved) |
| `Stories.RemoveMultiplicity` | src/App.js:29 | every story with another id keeps its full multiplicity; every story with the id is gone |
| `Stories.RemovePreservesUnique` | src/App.js:29 | if `objectID`s were unique before removal they are unique after it |
| `Stories.RemovePresentUnique` | src/App.js:29 | with unique ids, removing a story that is present shortens the list by exactly one |
| `Stories.RunAppend` | src/App.js:56-60 | dispatching `a` then `b` gives the same state as dispatching `a + b` |
| `Stories.ReducePreservesConsistent` | src/App.js:22-53 | every action except a SET_STORIES with an inconsistent payload keeps "not loading and failed at once" |
| `Stories.LifecycleEstablishesConsistent` | src/App.js:31-49 | from any state, even an inconsistent one, FETCH_INIT, FETCH_SUCCESS and FETCH_FAILURE each yield a consistent state |
| `Stories.OnlySetStoriesBreaks` | src/App.js:24-25 | if a step breaks the invariant, the action was SET_STORIES with an inconsistent payload, and such a SET_STORIES does break it |
| `Stories.RunConsistent` | src/App.js:22-53 | from a consistent state, any sequence of admissible actions ends in a consistent state |
| `Stories.ReachableConsistent` | src/App.js:56-60 | every state reached from the initial `{[], false, false}` by admissible actions is consistent |
| `Stories.RunNoResurrection` | src/App.js:22-53 | an id absent from `data` stays absent unless a FETCH_SUCCESS or SET_STORIES payload carries it |
| `Stories.ScenarioFetchInit` | src/App.js:31-36 | FETCH_INIT on the initial state gives `{[], true, false}` |
| `Stories.ScenarioRemove` | src/App.js:26-30 | removing story 1 from `[1, 2]` leaves `[2]` |
| `Persistence.Lookup` | src/App.js:7 | `getItem` yields a value exactly when the key is present, and then the stored string |
| `Persistence.OrElse` | src/App.js:7 | the logical-or fallback: a non-empty stored string wins; null or the empty string yield the fallback |
| `Persistence.LocalStorage.GetItem` | src/App.js:7 | returns the stored string when the key is present, none otherwise |
| `Persistence.LocalStorage.SetItem` | src/App.js:13 | the store maps the key to the new value and is otherwise unchanged |
| `Persistence.SemiPersistentState.constructor` | src/App.js:4-7 | the initial value is the stored value when present and non-empty, else the default; the ref starts unset; nothing is written |
| `Persistence.SemiPersistentState.Effect` | src/App.js:9-15 | the first run only sets `isMounted` and leaves the store unchanged; a later run writes the current value under the key |
| `Persistence.SemiPersistentState.SetValue` | src/App.js:7-15 | the value becomes `v`; the store is written only if `v` differs from the old value; afterwards a remount restores `v` when it is non-empty |
| `Persistence.ScenarioRestart` | src/App.js:4-15 | with no stored "search" and default "React" the term starts at "React" and nothing is written at mount; after the term becomes "Redux" the store holds "Redux" and a remount starts at "Redux"; after it is cleared a remount is back at "React" |
| `Persistence.EmptyStoredFallsBack` | src/App.js:7 | a stored empty string is read back as the default |
| `HackerStories.FetchDispatchOrder` | src/App.js:67-78 | an empty url dispatches nothing; otherwise exactly two actions, FETCH_INIT first, then SUCCESS with the hits for a response or FAILURE for an error, never both |
| `HackerStories.FetchSettles` | src/App.js:67-78 | from any state, a fetch on a non-empty url ends in `{hits, false, false}` or `{old data, false, true}`, which are consistent; on the empty url the state is untouched |
| `HackerStories.RequestUrlNonEmpty` | src/App.js:20 | a url that starts with `API_ENDPOINT` is never empty |
| `HackerStories.ScenarioFetchReact` | src/App.js:67-78 | a successful fetch for "React" with one hit titled "React" leaves exactly that story (`data == [hit]`) and both flags down |
| `HackerStories.ScenarioFetchFails` | src/App.js:74-76 | a failed fetch keeps the previous stories with the error flag up |
| `HackerStories.App.constructor` | src/App.js:55-83 | mounting reads the term from the store (default "React"), sets `url` to the endpoint plus the term, writes nothing, and runs one fetch from the initial state |
| `HackerStories.App.Dispatch` | src/App.js:56 | the state becomes the reducer applied to the action, and the action is appended to the log |
| `HackerStories.App.HandleFetchStories` | src/App.js:67-78 | the dispatch log grows by the fetch's actions, the state is the fold of them over the old state, and the invariant is kept |
| `HackerStories.App.HandleSearch` | src/App.js:86-88 | the term becomes the input value and is persisted under "search" when it changed; url and stories are untouched |
| `HackerStories.App.HandleSearchSubmit` | src/App.js:90-94 | `url` becomes the endpoint plus the term; an unchanged url fetches nothing; a changed url dispatches exactly two actions and ends in the settled state |
| `HackerStories.App.HandleRemoveItem` | src/App.js:96-98 | dispatches REMOVE_STORY: `data` loses exactly the item's id, and the flags and url are unchanged |
| `HackerStories.AppNeverLoadingAndFailed` | src/App.js:56-60 | in every reachable `App`, the stories state is never loading and failed at once |
| `HackerStories.AppFetchAlwaysDispatches` | src/App.js:63-68 | in every reachable `App`, a fetch dispatches two actions, so the empty-url guard never fires |

## Left out

- The JSX components `SearchForm`, `InputWithLabel`, `List`, `Item` and `memo` (src/App.js:102-176) are presentation only and are not modelled.
- The submit button is disabled while the term is empty (src/App.js:136). The model lets `HandleSearchSubmit` run with any term, which covers that case too.
- `axios.get` and the shape of its response are not modelled. The outcome of the remote read is an input: `Fetched(hits)` or `Failed`, where `hits` is always a list.
- A response without `hits` is not modelled. The code then dispatches STORIES_FETCH_SUCCESS with an undefined payload (src/App.js:73), `data` becomes undefined, and `list.map` throws when the list renders (src/App.js:158).
- `e.preventDefault()` (src/App.js:93) is not modelled. The model assumes its effect: submitting the form does not reload the page.
- The async interleaving of overlapping fetches is not modelled. Each fetch settles before the next event, so outcomes are applied in dispatch order. The code has no guard against a stale response; a concurrent model would be needed to show that race.
- The scheduling of React hooks (`useEffect` dependency comparison, `useCallback` identity, `useRef`, re-renders) is not modelled. Two explicit steps stand in for it: a setter re-runs an effect only when its value changes, and mounting runs the effects in declaration order.
- The `localStorage` mechanics (quota, serialization, storage errors) are not modelled; it is a map from strings to strings.
- The `console.log` calls (src/App.js:75, 100, 157) are diagnostics and are not modelled.
- The story fields other than `objectID` are carried as opaque data. JavaScript number semantics for `num_comments` and `points` are not modelled; they are `int`.
