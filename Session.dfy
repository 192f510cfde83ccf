/**
 * The session store the notifier writes into. It belongs to the host
 * framework; the notifier only calls `remove(key)` and `flash(key, value)`
 * on it, so the store is modelled as the log of those calls, plus the flat
 * key/value view of the store that the log leaves behind.
 */
module Session {
  import opened PhpArray

  /** One call the notifier makes on the store. */
  datatype Call = Removed(key: string) | Flashed(key: string, value: Value)

  class SessionStore {
    /** Every call made on the store so far, oldest first. */
    var log: seq<Call>

    constructor ()
      ensures log == []
    {
      log := [];
    }

    method Remove(key: string)
      modifies this
      ensures log == old(log) + [Removed(key)]
    {
      log := log + [Removed(key)];
    }

    method Flash(key: string, value: Value)
      modifies this
      ensures log == old(log) + [Flashed(key, value)]
    {
      log := log + [Flashed(key, value)];
    }
  }

  /**
   * Keys use dot notation: `prefix` covers itself and every key that starts
   * with `prefix + "."`.
   */
  predicate Under(key: string, prefix: string) {
    key == prefix || (|prefix| < |key| && key[..|prefix| + 1] == prefix + ".")
  }

  /** The store's view after one call: `remove` drops the key and everything under it. */
  function Apply(store: map<string, Value>, call: Call): map<string, Value> {
    match call
    case Removed(prefix) => map key | key in store && !Under(key, prefix) :: store[key]
    case Flashed(key, value) => store[key := value]
  }

  /** The store's view after a log of calls, applied oldest first. */
  function Replay(store: map<string, Value>, log: seq<Call>): map<string, Value>
    decreases |log|
  {
    if log == [] then store else Replay(Apply(store, log[0]), log[1..])
  }

  /** Replaying two logs one after the other is replaying their concatenation. */
  lemma {:induction false} ReplayAppend(store: map<string, Value>, a: seq<Call>, b: seq<Call>)
    ensures Replay(store, a + b) == Replay(Replay(store, a), b)
    decreases |a|
  {
    if a != [] {
      assert (a + b)[1..] == a[1..] + b;
      ReplayAppend(Apply(store, a[0]), a[1..], b);
    } else {
      assert a + b == b;
    }
  }
}
