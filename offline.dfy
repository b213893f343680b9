/**
 * `OfflineManager` (src/core/OfflineManager.ts): a bounded FIFO of pending
 * actions, drained in passes while online. Whether `executeAction` succeeds for
 * an action is the oracle `succeeds`; the periodic sync timer is the flag
 * `syncTimerArmed`; action ids and timestamps are inputs.
 */
module Offline {

  datatype ActionKind = LoginAction | LogoutAction | RefreshAction

  /** `PendingAction`; the free-form `data` is an opaque text here. */
  datatype Action = Action(id: string, kind: ActionKind, data: string, timestamp: int, retryCount: nat)

  /** A failed action is dropped on its third failure. */
  const MaxAttempts: nat := 3

  /** `addAction`'s queue step: append, then drop the head if over capacity. */
  function Enqueue(q: seq<Action>, a: Action, maxQueueSize: nat): seq<Action>
  {
    var q' := q + [a];
    if |q'| > maxQueueSize then q'[1..] else q'
  }

  /** A sequence of `addAction` queue steps with no pass in between (while offline). */
  function EnqueueAll(q: seq<Action>, actions: seq<Action>, maxQueueSize: nat): seq<Action>
    decreases |actions|
  {
    if actions == [] then q
    else EnqueueAll(Enqueue(q, actions[0], maxQueueSize), actions[1..], maxQueueSize)
  }

  /** What one action of a pass puts back on the queue. */
  function Requeued(a: Action, succeeds: Action -> bool): seq<Action>
  {
    if succeeds(a) || a.retryCount + 1 >= MaxAttempts then []
    else [a.(retryCount := a.retryCount + 1)]
  }

  /** The queue after a pass over `snapshot` with no concurrent adds. */
  function Drain(snapshot: seq<Action>, succeeds: Action -> bool): seq<Action>
  {
    if snapshot == [] then []
    else Drain(snapshot[..|snapshot| - 1], succeeds) + Requeued(snapshot[|snapshot| - 1], succeeds)
  }

  /**
   * A pass keeps the relative order of the actions it re-queues: draining a
   * concatenation is the concatenation of the drains.
   */
  lemma {:induction false} DrainAppend(a: seq<Action>, b: seq<Action>, succeeds: Action -> bool)
    ensures Drain(a + b, succeeds) == Drain(a, succeeds) + Drain(b, succeeds)
    decreases |b|
  {
    if b != [] {
      var b' := b[..|b| - 1];
      assert (a + b)[..|a + b| - 1] == a + b';
      assert (a + b)[|a + b| - 1] == b[|b| - 1];
      DrainAppend(a, b', succeeds);
    } else {
      assert a + b == a;
    }
  }

  /** A pass over one more action adds what that action re-queues. */
  lemma DrainSnoc(actions: seq<Action>, i: nat, succeeds: Action -> bool)
    requires i < |actions|
    ensures Drain(actions[..i + 1], succeeds) == Drain(actions[..i], succeeds) + Requeued(actions[i], succeeds)
  {
    assert actions[..i + 1][..i] == actions[..i];
  }

  /** A pass never grows the queue and keeps every counter in [1, 3). */
  lemma {:induction false} DrainBounded(snapshot: seq<Action>, succeeds: Action -> bool)
    ensures |Drain(snapshot, succeeds)| <= |snapshot|
    ensures forall x | x in Drain(snapshot, succeeds) :: 1 <= x.retryCount < MaxAttempts
  {
    if snapshot != [] {
      DrainBounded(snapshot[..|snapshot| - 1], succeeds);
    }
  }

  /**
   * A pass never grows the queue, a successful action leaves it, and everything
   * it keeps is an action that failed, with its counter raised and still below 3.
   */
  lemma {:induction false} DrainFacts(snapshot: seq<Action>, succeeds: Action -> bool)
    ensures |Drain(snapshot, succeeds)| <= |snapshot|
    ensures forall x | x in Drain(snapshot, succeeds) :: 1 <= x.retryCount < MaxAttempts
    ensures forall x | x in Drain(snapshot, succeeds) ::
      exists a | a in snapshot :: !succeeds(a) && x == a.(retryCount := a.retryCount + 1)
  {
    if snapshot != [] {
      var init := snapshot[..|snapshot| - 1];
      var last := snapshot[|snapshot| - 1];
      DrainBounded(snapshot, succeeds);
      DrainFacts(init, succeeds);
      forall x | x in Drain(snapshot, succeeds)
        ensures exists a | a in snapshot :: !succeeds(a) && x == a.(retryCount := a.retryCount + 1)
      {
        if x in Drain(init, succeeds) {
          var a :| a in init && !succeeds(a) && x == a.(retryCount := a.retryCount + 1);
          assert a in snapshot;
        } else {
          assert x in Requeued(last, succeeds);
          assert last in snapshot;
        }
      }
    }
  }

  /** A single action's fate in a pass. */
  lemma DrainSingle(a: Action, succeeds: Action -> bool)
    ensures Drain([a], succeeds) == Requeued(a, succeeds)
    ensures succeeds(a) ==> Drain([a], succeeds) == []
    ensures !succeeds(a) && a.retryCount + 1 < MaxAttempts
      ==> Drain([a], succeeds) == [a.(retryCount := a.retryCount + 1)]
  {
    assert [a][..0] == [];
  }

  /** While the queue has room, enqueueing only appends. */
  lemma {:induction false} EnqueueAllBelowCapacity(q: seq<Action>, actions: seq<Action>, maxQueueSize: nat)
    requires |q| + |actions| <= maxQueueSize
    ensures EnqueueAll(q, actions, maxQueueSize) == q + actions
    decreases |actions|
  {
    if actions != [] {
      EnqueueAllBelowCapacity(q + [actions[0]], actions[1..], maxQueueSize);
      assert q + [actions[0]] + actions[1..] == q + actions;
    }
  }

  /**
   * Overflow: enqueueing `maxQueueSize + 1` actions into an empty queue retains
   * exactly the last `maxQueueSize` of them; the first one is evicted.
   */
  lemma OverflowEvictsFirst(actions: seq<Action>, maxQueueSize: nat)
    requires |actions| == maxQueueSize + 1
    ensures EnqueueAll([], actions, maxQueueSize) == actions[1..]
    ensures |EnqueueAll([], actions, maxQueueSize)| == maxQueueSize
  {
    var n := maxQueueSize;
    EnqueueAllPrefix([], actions, n, n);
    EnqueueAllBelowCapacity([], actions[..n], n);
    assert actions[..n] + [actions[n]] == actions;
    assert EnqueueAll([], actions, n) == EnqueueAll(Enqueue(actions[..n], actions[n], n), [], n);
  }

  /** Enqueueing a sequence is enqueueing its first `k` elements, then the rest. */
  lemma {:induction false} EnqueueAllPrefix(q: seq<Action>, actions: seq<Action>, k: nat, maxQueueSize: nat)
    requires k <= |actions|
    ensures EnqueueAll(q, actions, maxQueueSize)
      == EnqueueAll(EnqueueAll(q, actions[..k], maxQueueSize), actions[k..], maxQueueSize)
    decreases k
  {
    if k > 0 {
      assert actions[..k][0] == actions[0];
      assert actions[..k][1..] == actions[1..][..k - 1];
      assert actions[k..] == actions[1..][k - 1..];
      EnqueueAllPrefix(Enqueue(q, actions[0], maxQueueSize), actions[1..], k - 1, maxQueueSize);
    } else {
      assert actions[..0] == [];
    }
  }

  // ---------------------------------------------------------------------------
  // The manager object

  class OfflineManager {
    var queue: seq<Action>
    var isOnline: bool
    var syncTimerArmed: bool
    var isEnabled: bool
    const maxQueueSize: nat
    /** Whether `init` registered the `online`/`offline` window handlers: fixed at construction. */
    const listening: bool

    ghost predicate Valid()
      reads this
    {
      && |queue| <= maxQueueSize
      && forall a | a in queue :: a.retryCount < MaxAttempts
    }

    /**
     * `new OfflineManager({enabled, maxQueueSize})` in a browser: only when enabled
     * are the network handlers registered and the initial network state read;
     * otherwise the manager believes it is online for good.
     */
    constructor(enabled: bool, maxQueueSize: nat, navigatorOnline: bool)
      ensures Valid()
      ensures queue == [] && !syncTimerArmed && isEnabled == enabled
      ensures isOnline == (!enabled || navigatorOnline) && this.maxQueueSize == maxQueueSize
      ensures listening == enabled
    {
      queue := [];
      isOnline := !enabled || navigatorOnline;
      syncTimerArmed := false;
      isEnabled := enabled;
      this.maxQueueSize := maxQueueSize;
      listening := enabled;
    }

    /**
     * `processQueue`: nothing when offline or empty; otherwise snapshot and clear
     * the queue, run the snapshot in FIFO order, re-queue each failure with its
     * counter raised unless that reaches 3, and arm the sync timer when some
     * failure was kept.
     */
    method ProcessQueue(succeeds: Action -> bool)
      requires Valid()
      modifies this
      ensures Valid()
      ensures isOnline == old(isOnline) && isEnabled == old(isEnabled)
      ensures !old(isOnline) || old(queue) == [] ==> queue == old(queue) && syncTimerArmed == old(syncTimerArmed)
      ensures old(isOnline) && old(queue) != [] ==>
        queue == Drain(old(queue), succeeds) && syncTimerArmed == (old(syncTimerArmed) || queue != [])
    {
      if !isOnline || |queue| == 0 {
        return;
      }
      var actions := queue;
      queue := [];
      var i := 0;
      while i < |actions|
        invariant 0 <= i <= |actions|
        invariant queue == Drain(actions[..i], succeeds)
        invariant isOnline == old(isOnline) && isEnabled == old(isEnabled) && syncTimerArmed == old(syncTimerArmed)
      {
        DrainSnoc(actions, i, succeeds);
        var action := actions[i];
        if !succeeds(action) {
          action := action.(retryCount := action.retryCount + 1);
          if action.retryCount < MaxAttempts {
            queue := queue + [action];
          }
        }
        i := i + 1;
      }
      assert actions[..i] == actions;
      DrainBounded(actions, succeeds);
      if |queue| > 0 {
        syncTimerArmed := true;
      }
    }

    /**
     * `addAction(type, data)`: '' and no change when disabled; otherwise append
     * a fresh action with no retries (dropping the head on overflow) and, when
     * online, run a pass at once.
     */
    method AddAction(kind: ActionKind, data: string, now: int, freshId: string, succeeds: Action -> bool)
      returns (id: string)
      requires Valid()
      modifies this
      ensures Valid()
      ensures isOnline == old(isOnline) && isEnabled == old(isEnabled)
      ensures !old(isEnabled) ==> id == "" && queue == old(queue) && syncTimerArmed == old(syncTimerArmed)
      ensures old(isEnabled) ==> id == freshId
      ensures old(isEnabled) ==>
        (var q := Enqueue(old(queue), Action(freshId, kind, data, now, 0), maxQueueSize);
         if isOnline && q != [] then
           queue == Drain(q, succeeds) && syncTimerArmed == (old(syncTimerArmed) || queue != [])
         else
           queue == q && syncTimerArmed == old(syncTimerArmed))
    {
      if !isEnabled {
        return "";
      }
      var action := Action(freshId, kind, data, now, 0);
      queue := queue + [action];
      if |queue| > maxQueueSize {
        queue := queue[1..];
      }
      if isOnline {
        ProcessQueue(succeeds);
      }
      return action.id;
    }

    /**
     * The `online` event: mark online and run a pass. Only a manager enabled at
     * construction listens for it.
     */
    method GoOnline(succeeds: Action -> bool)
      requires Valid() && listening
      modifies this
      ensures Valid()
      ensures isOnline && isEnabled == old(isEnabled)
      ensures old(queue) == [] ==> queue == [] && syncTimerArmed == old(syncTimerArmed)
      ensures old(queue) != [] ==>
        queue == Drain(old(queue), succeeds) && syncTimerArmed == (old(syncTimerArmed) || queue != [])
    {
      isOnline := true;
      ProcessQueue(succeeds);
    }

    /**
     * The `offline` event: mark offline and stop the sync timer; the queue stays.
     * Only a manager enabled at construction listens for it.
     */
    method GoOffline()
      requires Valid() && listening
      modifies this
      ensures Valid()
      ensures !isOnline && !syncTimerArmed && queue == old(queue) && isEnabled == old(isEnabled)
    {
      isOnline := false;
      StopSyncTimer();
    }

    method StopSyncTimer()
      modifies this
      ensures !syncTimerArmed
      ensures queue == old(queue) && isOnline == old(isOnline) && isEnabled == old(isEnabled)
    {
      syncTimerArmed := false;
    }

    /** `getPendingActions`: a copy of the queue, in FIFO order, within capacity. */
    function GetPendingActions(): (r: seq<Action>)
      reads this
      requires Valid()
      ensures |r| <= maxQueueSize
      ensures forall a | a in r :: a.retryCount < MaxAttempts
    {
      queue
    }

    /** `clearQueue`. */
    method ClearQueue()
      requires Valid()
      modifies this
      ensures Valid()
      ensures queue == [] && !syncTimerArmed && isOnline == old(isOnline) && isEnabled == old(isEnabled)
    {
      queue := [];
      StopSyncTimer();
    }

    /** `destroy`. */
    method Destroy()
      requires Valid()
      modifies this
      ensures Valid()
      ensures queue == [] && !syncTimerArmed && isOnline == old(isOnline) && isEnabled == old(isEnabled)
    {
      StopSyncTimer();
      queue := [];
    }

    /** `setEnabled`: disabling also empties the queue and stops the timer. */
    method SetEnabled(enabled: bool)
      requires Valid()
      modifies this
      ensures Valid()
      ensures isEnabled == enabled && isOnline == old(isOnline)
      ensures enabled ==> queue == old(queue) && syncTimerArmed == old(syncTimerArmed)
      ensures !enabled ==> queue == [] && !syncTimerArmed
    {
      isEnabled := enabled;
      if !enabled {
        Destroy();
      }
    }
  }
}
