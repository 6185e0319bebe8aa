/**
 `useSemiPersistentState`: a string state value that starts from the browser's
 key/value store and writes every later change back to it, except on the
 first effect run after mounting.
 */
module Persistence {

  datatype Option<T> = None | Some(value: T)

  /** `localStorage.getItem(key)`: the stored string, or `null` (None). */
  function Lookup(items: map<string, string>, key: string): (r: Option<string>)
    ensures r.Some? <==> key in items
    ensures r.Some? ==> r.value == items[key]
  {
    if key in items then Some(items[key]) else None
  }

  /** JavaScript's `stored || fallback` for a string-or-null left operand:
      `null` and the empty string are falsy and yield the fallback. */
  function OrElse(stored: Option<string>, fallback: string): (v: string)
    ensures stored.Some? && stored.value != "" ==> v == stored.value
    ensures stored == None || stored == Some("") ==> v == fallback
  {
    match stored
    case Some(s) => if s != "" then s else fallback
    case None => fallback
  }

  /** The browser store, a map from keys to strings that outlives the page. */
  class LocalStorage {
    var items: map<string, string>

    constructor (items: map<string, string>)
      ensures this.items == items
    {
      this.items := items;
    }

    method GetItem(key: string) returns (r: Option<string>)
      ensures r.Some? <==> key in items
      ensures r.Some? ==> r.value == items[key]
    {
      r := Lookup(items, key);
    }

    method SetItem(key: string, value: string)
      modifies this
      ensures items == old(items)[key := value]
    {
      items := items[key := value];
    }
  }

  /** One use of the hook: its `key`, its default, the current `value` and the
      `isMounted` ref. */
  class SemiPersistentState {
    const storage: LocalStorage
    const key: string
    const initialState: string
    var value: string
    var isMounted: bool

    /** What mounting the hook again right now would start from. */
    function Restored(): string
      reads this, storage
    {
      OrElse(Lookup(storage.items, key), initialState)
    }

    /** A remount restores what the current value would show, the empty string
        falling back to the default just as at mount time. */
    ghost predicate Valid()
      reads this, storage
    {
      Restored() == OrElse(Some(value), initialState)
    }

    /** The first render: `useState(localStorage.getItem(key) || initialState)`
        with the ref not yet set. Nothing is written. */
    constructor (storage: LocalStorage, key: string, initialState: string)
      ensures Valid() && !isMounted
      ensures this.storage == storage && this.key == key && this.initialState == initialState
      ensures value == OrElse(Lookup(storage.items, key), initialState)
    {
      this.storage := storage;
      this.key := key;
      this.initialState := initialState;
      value := OrElse(Lookup(storage.items, key), initialState);
      isMounted := false;
    }

    /** The effect on `[value, key]`: the first run only sets the ref, every
        later run writes the value through. */
    method Effect()
      requires !isMounted ==> Valid()
      modifies this, storage
      ensures Valid() && isMounted && value == old(value)
      ensures storage.items == if old(isMounted) then old(storage.items)[key := value]
                               else old(storage.items)
    {
      if !isMounted {
        isMounted := true;
      } else {
        storage.SetItem(key, value);
      }
    }

    /** `setValue(v)`: the effect re-runs only when the value actually changes.
        Handlers run after mounting, so the ref is already set. */
    method SetValue(v: string)
      requires Valid() && isMounted
      modifies this, storage
      ensures Valid() && isMounted && value == v
      ensures storage.items == if v == old(value) then old(storage.items)
                               else old(storage.items)[key := v]
      ensures v != "" ==> Restored() == v
    {
      if v != value {
        value := v;
        Effect();
      }
    }
  }

  /** A stored empty string is not restored: it comes back as the default. */
  lemma EmptyStoredFallsBack(items: map<string, string>, key: string, initialState: string)
    requires key in items && items[key] == ""
    ensures OrElse(Lookup(items, key), initialState) == initialState
  {
  }

  /** The store with no prior value for "search" and default "React": the
      hook starts at "React"; after the term becomes "Redux", a new mount
      starts at "Redux"; after it is cleared, a new mount is back at "React". */
  method ScenarioRestart() returns (first: string, atMount: Option<string>, stored: Option<string>, afterSet: string, afterClear: string)
    ensures first == "React"
    ensures atMount == None
    ensures stored == Some("Redux")
    ensures afterSet == "Redux"
    ensures afterClear == "React"
  {
    var storage := new LocalStorage(map[]);
    var term := new SemiPersistentState(storage, "search", "React");
    first := term.value;
    term.Effect();
    atMount := storage.GetItem("search");
    term.SetValue("Redux");
    stored := storage.GetItem("search");
    var again := new SemiPersistentState(storage, "search", "React");
    afterSet := again.value;
    term.SetValue("");
    var third := new SemiPersistentState(storage, "search", "React");
    afterClear := third.value;
  }
}
