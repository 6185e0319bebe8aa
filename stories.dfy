/**
 The stories reducer of hacker-stories: the state of the result list
 (the fetched stories plus a loading flag and an error flag) and the pure
 transition function that every `dispatchStories` call goes through.
 */
module Stories {

  /** A Hacker News search hit. Only `objectID` is looked at by the core;
      the other fields are display data carried along unchanged. */
  datatype Story = Story(
    objectID: string,
    title: string,
    url: string,
    author: string,
    numComments: int,
    points: int)

  /** The reducer state `{ data, isLoading, isError }`. */
  datatype State = State(data: seq<Story>, isLoading: bool, isError: bool)

  /** The action kinds the reducer distinguishes by `action.type`, as a closed
      type. `Unrecognised` stands for every other `type` string. */
  datatype Action =
    | SetStories(state: State)
    | RemoveStory(item: Story)
    | StoriesFetchInit
    | StoriesFetchSuccess(hits: seq<Story>)
    | StoriesFetchFailure
    | Unrecognised

  /** The state `useReducer` starts from. */
  const Initial := State([], false, false)

  /** The flag invariant: never loading and failed at the same time. */
  predicate Consistent(s: State) {
    !(s.isLoading && s.isError)
  }

  /** Actions that cannot break the invariant on their own: everything except
      a `SET_STORIES` whose payload is itself inconsistent. */
  predicate Admissible(a: Action) {
    a.SetStories? ==> Consistent(a.state)
  }

  /** No two stories in `data` share an `objectID`. */
  predicate UniqueIds(data: seq<Story>) {
    forall i, j :: 0 <= i < j < |data| ==> data[i].objectID != data[j].objectID
  }

  /** `data.filter(story => story.objectID !== id)`. */
  function RemoveById(data: seq<Story>, id: string): (r: seq<Story>)
    ensures |r| <= |data|
    ensures forall x :: x in r <==> x in data && x.objectID != id
  {
    if data == [] then []
    else if data[0].objectID != id then [data[0]] + RemoveById(data[1..], id)
    else RemoveById(data[1..], id)
  }

  /** The reducer: one `case` per action kind, `default` returns the state. */
  function Reduce(s: State, a: Action): State {
    match a
    case SetStories(p) => p
    case RemoveStory(item) => s.(data := RemoveById(s.data, item.objectID))
    case StoriesFetchInit => s.(isLoading := true, isError := false)
    case StoriesFetchSuccess(hits) => s.(data := hits, isLoading := false, isError := false)
    case StoriesFetchFailure => s.(isLoading := false, isError := true)
    case Unrecognised => s
  }

  /** The state after dispatching `acts` in order, starting from `s`. */
  function Run(s: State, acts: seq<Action>): State
    decreases |acts|
  {
    if acts == [] then s else Run(Reduce(s, acts[0]), acts[1..])
  }

  /** `xs` can be obtained from `ys` by deleting elements (order kept). */
  predicate IsSubsequence(xs: seq<Story>, ys: seq<Story>)
    decreases |ys|
  {
    if xs == [] then true
    else if ys == [] then false
    else if xs[0] == ys[0] then IsSubsequence(xs[1..], ys[1..])
    else IsSubsequence(xs, ys[1..])
  }

  // ---------------------------------------------------------------------
  // What each action does

  /** FETCH_INIT raises the loading flag, clears the error flag and keeps the
      stories. */
  lemma FetchInitEffect(s: State)
    ensures Reduce(s, StoriesFetchInit).data == s.data
    ensures Reduce(s, StoriesFetchInit).isLoading
    ensures !Reduce(s, StoriesFetchInit).isError
  {
  }

  /** FETCH_SUCCESS replaces the stories by the payload exactly, whatever the
      prior state, and clears both flags. */
  lemma FetchSuccessEffect(s: State, hits: seq<Story>)
    ensures Reduce(s, StoriesFetchSuccess(hits)) == State(hits, false, false)
  {
  }

  /** FETCH_FAILURE clears loading, raises the error flag and leaves the last
      stories in place. */
  lemma FetchFailureEffect(s: State)
    ensures Reduce(s, StoriesFetchFailure) == State(s.data, false, true)
  {
  }

  /** REMOVE_STORY touches only `data`, and there it drops exactly the stories
      with the item's `objectID`. */
  lemma RemoveStoryEffect(s: State, item: Story)
    ensures Reduce(s, RemoveStory(item)).isLoading == s.isLoading
    ensures Reduce(s, RemoveStory(item)).isError == s.isError
    ensures forall x :: x in Reduce(s, RemoveStory(item)).data <==> x in s.data && x.objectID != item.objectID
  {
  }

  /** SET_STORIES takes the payload as the new state wholesale; an
      unrecognised action returns the state unchanged. */
  lemma SetStoriesAndDefault(s: State, p: State)
    ensures Reduce(s, SetStories(p)) == p
    ensures Reduce(s, Unrecognised) == s
  {
  }

  // ---------------------------------------------------------------------
  // Removal: what `filter` keeps

  /** With no matching story, removal changes nothing. */
  lemma {:induction false} RemoveNoMatch(data: seq<Story>, id: string)
    requires forall x :: x in data ==> x.objectID != id
    ensures RemoveById(data, id) == data
  {
    if data != [] {
      assert data[0] in data;
      RemoveNoMatch(data[1..], id);
    }
  }

  /** Removing twice is removing once. */
  lemma {:induction false} RemoveIdempotent(data: seq<Story>, id: string)
    ensures RemoveById(RemoveById(data, id), id) == RemoveById(data, id)
  {
    RemoveNoMatch(RemoveById(data, id), id);
  }

  /** REMOVE_STORY on the whole state: idempotent, and the identity when no
      story has the item's `objectID`. */
  lemma RemoveStoryIdempotent(s: State, item: Story)
    ensures Reduce(Reduce(s, RemoveStory(item)), RemoveStory(item)) == Reduce(s, RemoveStory(item))
    ensures (forall x :: x in s.data ==> x.objectID != item.objectID) ==> Reduce(s, RemoveStory(item)) == s
  {
    RemoveIdempotent(s.data, item.objectID);
    if forall x :: x in s.data ==> x.objectID != item.objectID {
      RemoveNoMatch(s.data, item.objectID);
    }
  }

  /** Removal distributes over concatenation, so it works element by element
      and keeps the relative order of what it keeps. */
  lemma {:induction false} RemoveAppend(a: seq<Story>, b: seq<Story>, id: string)
    ensures RemoveById(a + b, id) == RemoveById(a, id) + RemoveById(b, id)
  {
    if a == [] {
      assert a + b == b;
    } else {
      assert (a + b)[1..] == a[1..] + b;
      RemoveAppend(a[1..], b, id);
    }
  }

  /** The kept stories appear in the original order. */
  lemma {:induction false} RemoveIsSubsequence(data: seq<Story>, id: string)
    ensures IsSubsequence(RemoveById(data, id), data)
  {
    if data != [] {
      RemoveIsSubsequence(data[1..], id);
      if data[0].objectID != id {
        var r := RemoveById(data, id);
        assert r[0] == data[0] && r[1..] == RemoveById(data[1..], id);
      } else {
        SubsequenceDropHead(RemoveById(data[1..], id), data);
      }
    }
  }

  /** A subsequence of the tail is a subsequence of the whole. */
  lemma {:induction false} SubsequenceDropHead(xs: seq<Story>, ys: seq<Story>)
    requires ys != []
    requires IsSubsequence(xs, ys[1..])
    ensures IsSubsequence(xs, ys)
    decreases |ys|, 0
  {
    if xs != [] && xs[0] == ys[0] {
      // The greedy match takes ys[0]; the rest of xs fits in ys[1..] because it
      // already fits after the first match of xs[0] inside ys[1..].
      SubsequenceTail(xs, ys[1..]);
    }
  }

  /** If `xs` is a subsequence of `ys`, so is `xs[1..]`. */
  lemma {:induction false} SubsequenceTail(xs: seq<Story>, ys: seq<Story>)
    requires xs != []
    requires IsSubsequence(xs, ys)
    ensures IsSubsequence(xs[1..], ys)
    decreases |ys|, 1
  {
    assert ys != [];
    if xs[0] == ys[0] {
      SubsequenceDropHead(xs[1..], ys);
    } else {
      SubsequenceTail(xs, ys[1..]);
      SubsequenceDropHead(xs[1..], ys);
    }
  }

  /** Every kept story stays with its full multiplicity; every removed one is
      gone entirely. */
  lemma {:induction false} RemoveMultiplicity(data: seq<Story>, id: string)
    ensures forall x :: multiset(RemoveById(data, id))[x] ==
                        (if x.objectID != id then multiset(data)[x] else 0)
  {
    if data == [] {
    } else {
      RemoveMultiplicity(data[1..], id);
      assert data == [data[0]] + data[1..];
      assert multiset(data) == multiset([data[0]]) + multiset(data[1..]);
    }
  }

  /** Removal keeps `objectID`s unique. */
  lemma {:induction false} RemovePreservesUnique(data: seq<Story>, id: string)
    requires UniqueIds(data)
    ensures UniqueIds(RemoveById(data, id))
  {
    if data != [] {
      RemovePreservesUnique(data[1..], id);
      var rest := RemoveById(data[1..], id);
      if data[0].objectID != id {
        var r := [data[0]] + rest;
        forall i, j | 0 <= i < j < |r| ensures r[i].objectID != r[j].objectID {
          if i == 0 {
            assert r[j] in data[1..];
            var k :| 0 <= k < |data[1..]| && data[1..][k] == r[j];
            assert data[k + 1] == r[j];
          } else {
            assert r[i] == rest[i - 1] && r[j] == rest[j - 1];
          }
        }
      }
    }
  }

  /** With unique ids, removing a story that is present shortens the list by
      exactly one. */
  lemma {:induction false} RemovePresentUnique(data: seq<Story>, item: Story)
    requires UniqueIds(data)
    requires item in data
    ensures |RemoveById(data, item.objectID)| == |data| - 1
  {
    if data[0] == item {
      forall x | x in data[1..] ensures x.objectID != item.objectID {
        var k :| 0 <= k < |data[1..]| && data[1..][k] == x;
        assert data[k + 1] == x;
      }
      RemoveNoMatch(data[1..], item.objectID);
    } else {
      assert data[0].objectID != item.objectID by {
        var k :| 0 <= k < |data| && data[k] == item;
      }
      RemovePresentUnique(data[1..], item);
    }
  }

  // ---------------------------------------------------------------------
  // Sequences of actions

  /** Dispatching `a` then `b` is dispatching `a + b`. */
  lemma {:induction false} RunAppend(s: State, a: seq<Action>, b: seq<Action>)
    ensures Run(s, a + b) == Run(Run(s, a), b)
    decreases |a|
  {
    if a == [] {
      assert a + b == b;
    } else {
      assert (a + b)[1..] == a[1..] + b;
      RunAppend(Reduce(s, a[0]), a[1..], b);
    }
  }

  /** One more dispatch is one more reducer step. */
  lemma RunSnoc(s: State, acts: seq<Action>, a: Action)
    ensures Run(s, acts + [a]) == Reduce(Run(s, acts), a)
  {
    RunAppend(s, acts, [a]);
  }

  /** Every admissible action keeps the flag invariant. */
  lemma ReducePreservesConsistent(s: State, a: Action)
    requires Consistent(s) && Admissible(a)
    ensures Consistent(Reduce(s, a))
  {
  }

  /** The three lifecycle actions establish the invariant from any state,
      consistent or not. */
  lemma LifecycleEstablishesConsistent(s: State, a: Action)
    ensures a.StoriesFetchInit? || a.StoriesFetchSuccess? || a.StoriesFetchFailure? ==>
              Consistent(Reduce(s, a))
  {
  }

  /** SET_STORIES is the one action that can break the invariant: it does so
      with an inconsistent payload, and any break comes from it. */
  lemma OnlySetStoriesBreaks(s: State, a: Action)
    ensures Consistent(s) && !Consistent(Reduce(s, a)) ==> a.SetStories? && !Consistent(a.state)
    ensures !Consistent(Reduce(Initial, SetStories(State([], true, true))))
  {
  }

  /** Reachable-state invariant: from a consistent state, any sequence of
      admissible actions leaves it consistent. */
  lemma {:induction false} RunConsistent(s: State, acts: seq<Action>)
    requires Consistent(s)
    requires forall i :: 0 <= i < |acts| ==> Admissible(acts[i])
    ensures Consistent(Run(s, acts))
    decreases |acts|
  {
    if acts != [] {
      ReducePreservesConsistent(s, acts[0]);
      RunConsistent(Reduce(s, acts[0]), acts[1..]);
    }
  }

  /** In particular every state reachable from `Initial` is consistent. */
  lemma ReachableConsistent(acts: seq<Action>)
    requires forall i :: 0 <= i < |acts| ==> Admissible(acts[i])
    ensures Consistent(Run(Initial, acts))
  {
    RunConsistent(Initial, acts);
  }

  /** An id that is absent stays absent: only a payload that carries it (a
      successful fetch or SET_STORIES) can bring a removed story back. */
  lemma {:induction false} RunNoResurrection(s: State, acts: seq<Action>, id: string)
    requires forall x :: x in s.data ==> x.objectID != id
    requires forall i :: 0 <= i < |acts| && acts[i].StoriesFetchSuccess? ==>
               forall x :: x in acts[i].hits ==> x.objectID != id
    requires forall i :: 0 <= i < |acts| && acts[i].SetStories? ==>
               forall x :: x in acts[i].state.data ==> x.objectID != id
    ensures forall x :: x in Run(s, acts).data ==> x.objectID != id
    decreases |acts|
  {
    if acts != [] {
      var next := Reduce(s, acts[0]);
      assert forall x :: x in next.data ==> x.objectID != id;
      forall i | 0 <= i < |acts[1..]| && acts[1..][i].StoriesFetchSuccess?
        ensures forall x :: x in acts[1..][i].hits ==> x.objectID != id
      {
        assert acts[1..][i] == acts[i + 1];
      }
      forall i | 0 <= i < |acts[1..]| && acts[1..][i].SetStories?
        ensures forall x :: x in acts[1..][i].state.data ==> x.objectID != id
      {
        assert acts[1..][i] == acts[i + 1];
      }
      RunNoResurrection(next, acts[1..], id);
    }
  }

  // ---------------------------------------------------------------------
  // The worked scenarios

  /** From the initial state, FETCH_INIT gives `{[], true, false}`. */
  lemma ScenarioFetchInit()
    ensures Reduce(Initial, StoriesFetchInit) == State([], true, false)
  {
  }

  /** Removing story 1 from `[1, 2]` leaves `[2]`. */
  lemma ScenarioRemove(one: Story, two: Story)
    requires one.objectID == "1" && two.objectID == "2"
    ensures Reduce(State([one, two], false, false), RemoveStory(one)).data == [two]
  {
  }
}
