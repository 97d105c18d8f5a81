/** The cart badge of `src/components/cart/cart-provider.jsx`: an integer
    counter with three actions, loaded from and written back to one entry of
    client-side storage (here an `Option<string>`). */
module Cart {
  import opened Wrappers
  import opened Text

  /** `React.useState(0)`. */
  const InitialCount := 0

  /** `increment`: one more item. */
  function Increment(c: int): (r: int)
    ensures r - c == 1
  {
    c + 1
  }

  /** `decrement`: one fewer item, never below zero (`Math.max(0, c - 1)`). */
  function Decrement(c: int): (r: int)
    ensures r >= 0
    ensures r >= c - 1 && (r == c - 1 || r == 0)
  {
    if c - 1 > 0 then c - 1 else 0
  }

  /** `reset`: back to zero whatever the count was. */
  function Reset(c: int): (r: int)
    ensures r == InitialCount
  {
    0
  }

  datatype Action = IncrementAction | DecrementAction | ResetAction

  /** One action applied to the count. */
  function Step(c: int, a: Action): (r: int)
    ensures r <= c + 1 || r == 0
    ensures c >= 0 ==> r >= 0
    ensures a == ResetAction ==> r == InitialCount
  {
    match a
    case IncrementAction => Increment(c)
    case DecrementAction => Decrement(c)
    case ResetAction => Reset(c)
  }

  /** The count after applying `actions` in order. */
  function Run(c: int, actions: seq<Action>): (r: int)
    ensures actions == [] ==> r == c
    ensures (forall i :: 0 <= i < |actions| ==> actions[i] == IncrementAction) ==> r == c + |actions|
    decreases |actions|
  {
    if actions == [] then c else Run(Step(c, actions[0]), actions[1..])
  }

  /** No sequence of actions takes a non-negative count below zero. */
  lemma {:induction false} RunNonNegative(c: int, actions: seq<Action>)
    requires c >= 0
    ensures Run(c, actions) >= 0
    decreases |actions|
  {
    if actions != [] {
      RunNonNegative(Step(c, actions[0]), actions[1..]);
    }
  }

  /** A run never exceeds its start by more than its length. */
  lemma {:induction false} RunBounded(c: int, actions: seq<Action>)
    requires c >= 0
    ensures Run(c, actions) <= c + |actions|
    decreases |actions|
  {
    if actions != [] {
      RunBounded(Step(c, actions[0]), actions[1..]);
    }
  }

  /** Decrement undoes increment on a non-negative count. */
  lemma DecrementUndoesIncrement(c: int)
    requires c >= 0
    ensures Decrement(Increment(c)) == c
  {
  }

  /** Three increments then one decrement from zero give two; decrementing zero gives zero. */
  lemma BadgeExample()
    ensures Run(InitialCount, [IncrementAction, IncrementAction, IncrementAction, DecrementAction]) == 2
    ensures Decrement(0) == 0
  {
  }

  /** The mount effect: `Number(localStorage.getItem(key) || '0')` replaces the
      count unless it is `NaN`. */
  function Load(stored: Option<string>, current: int): (c: int)
    ensures stored.None? || stored == Some("") ==> c == 0
    ensures stored.Some? && StringToInt(stored.value).None? ==> c == current
    ensures stored.Some? && StringToInt(stored.value).Some? ==> c == StringToInt(stored.value).value
  {
    var text := if stored.Some? && stored.value != "" then stored.value else "0";
    ZeroReadsAsZero();
    match StringToInt(text)
    case Some(n) => n
    case None => current
  }

  /** The fallback text `'0'` reads as zero. */
  lemma ZeroReadsAsZero()
    ensures StringToInt("0") == Some(0)
  {
    assert IntToString(0) == "0";
    IntStringRoundTrip(0);
  }

  /** The value written back: `String(count)`. */
  function Persist(c: int): (s: string)
    ensures CanonicalDecimal(c, s)
  {
    IntToString(c)
  }

  /** Loading what was persisted gives back the count, whatever count was in memory. */
  lemma PersistLoadRoundTrip(c: int, current: int)
    ensures Load(Some(Persist(c)), current) == c
  {
    IntStringRoundTrip(c);
  }

  /** The badge's memory and its storage entry. */
  datatype CartState = CartState(count: int, stored: Option<string>)

  /** The storage entry holds `String(count)`. */
  predicate Synced(s: CartState) {
    s.stored == Some(Persist(s.count))
  }

  /** Mounting: the stored value is loaded, then the persist effect writes the
      resulting count back. */
  function Startup(stored: Option<string>): (s: CartState)
    ensures Synced(s)
    ensures s.count == Load(stored, InitialCount)
    ensures stored.Some? && StringToInt(stored.value).None? ==> s.count == 0
  {
    var count := Load(stored, InitialCount);
    CartState(count, Some(Persist(count)))
  }

  /** One user action; the persist effect runs only when the count changed. */
  function Dispatch(s: CartState, a: Action): (t: CartState)
    requires Synced(s)
    ensures Synced(t)
    ensures t.count == Step(s.count, a)
    ensures t.count == s.count ==> t.stored == s.stored
  {
    var count := Step(s.count, a);
    if count == s.count then s else CartState(count, Some(Persist(count)))
  }

  /** After any action a fresh start-up from storage restores the same count. */
  lemma ReloadRestoresCount(s: CartState, a: Action)
    requires Synced(s)
    ensures Startup(Dispatch(s, a).stored).count == Dispatch(s, a).count
  {
    PersistLoadRoundTrip(Dispatch(s, a).count, InitialCount);
  }
}
