/** The keyed work queue: a rate-limited queue whose failed items are retried unless a newer item for the
    same key has taken their place. Items are told apart by identity; here they are numbered in the order of their
    creation. */
module WorkQueues {
  import opened Basics

  type ItemId = nat

  /** `keyed` tells which call made the item; items made without a key carry the empty key. */
  datatype WorkItem = WorkItem(key: string, keyed: bool)

  /** The client-go queue: items waiting for their delay, the FIFO with its dirty set, and the items
      being processed, some of which are settled (callback done, outcome recorded) but not yet done. The
      sets of succeeded and superseded items are bookkeeping. */
  datatype State = State(
    items: seq<WorkItem>, active: map<string, ItemId>,
    delayed: set<ItemId>, fifo: seq<ItemId>, dirty: set<ItemId>, running: set<ItemId>, settled: set<ItemId>,
    shutdown: bool, succeeded: set<ItemId>, superseded: set<ItemId>)
  {
    predicate Processing(id: ItemId) {
      id in running || id in settled
    }

    /** Queued in some form, or its callback is running. */
    predicate Live(id: ItemId) {
      id in delayed || id in dirty || id in running
    }

    function AddRateLimited(id: ItemId): State {
      if shutdown then this else this.(delayed := delayed + {id})
    }

    /** The queue's Add: once in the dirty set, and in the FIFO unless being processed. */
    function Add(id: ItemId): State {
      if shutdown || id in dirty then this
      else this.(dirty := dirty + {id}, fifo := if Processing(id) then fifo else fifo + [id])
    }
  }

  const INIT := State([], map[], {}, [], {}, {}, {}, false, {}, {})

  datatype Step =
    | Enqueue
    | EnqueueKeyed(key: string)
    | DelayOver(id: ItemId)
    | Get
    | Settle(id: ItemId, failed: bool)
    | Done(id: ItemId)
    | ShutDown

  predicate Enabled(s: State, step: Step) {
    match step
    case Enqueue => true
    case EnqueueKeyed(_) => true
    case DelayOver(id) => id in s.delayed
    case Get => s.fifo != []
    case Settle(id, _) => id in s.running && id < |s.items|
    case Done(id) => id in s.settled
    case ShutDown => true
  }

  function Apply(s: State, step: Step): State
    requires Enabled(s, step)
  {
    match step
    case Enqueue =>
      s.(items := s.items + [WorkItem("", false)]).AddRateLimited(|s.items|)
    case EnqueueKeyed(key) =>
      s.(items := s.items + [WorkItem(key, true)], active := s.active[key := |s.items|]).AddRateLimited(|s.items|)
    case DelayOver(id) =>
      s.(delayed := s.delayed - {id}).Add(id)
    case Get =>
      var id := s.fifo[0];
      s.(fifo := s.fifo[1..], dirty := s.dirty - {id}, running := s.running + {id})
    case Settle(id, failed) =>
      var key := s.items[id].key;
      var t := s.(running := s.running - {id}, settled := s.settled + {id});
      if failed then
        if key in s.active && s.active[key] != id then t.(superseded := s.superseded + {id})
        else t.AddRateLimited(id)
      else
        t.(active := if key in s.active && s.active[key] == id then s.active - {key} else s.active,
           succeeded := s.succeeded + {id})
    case Done(id) =>
      s.(settled := s.settled - {id}, fifo := if id in s.dirty then s.fifo + [id] else s.fifo)
    case ShutDown =>
      s.(shutdown := true)
  }

  function Exec(steps: seq<Step>): Option<State> {
    if steps == [] then Some(INIT)
    else
      var before := Exec(steps[..|steps| - 1]);
      var last := steps[|steps| - 1];
      if before.Some? && Enabled(before.value, last) then Some(Apply(before.value, last)) else None
  }

  // ------------------------------------------------------------------- the invariant

  /** The newest keyed item for a key. */
  function LastKeyed(items: seq<WorkItem>, key: string): Option<ItemId> {
    if items == [] then None
    else if items[|items| - 1] == WorkItem(key, true) then Some(|items| - 1)
    else LastKeyed(items[..|items| - 1], key)
  }

  lemma {:induction false} LastKeyedIsLast(items: seq<WorkItem>, key: string)
    ensures var l := LastKeyed(items, key);
            && (l.Some? ==> l.value < |items| && items[l.value] == WorkItem(key, true))
            && (forall id: ItemId :: id < |items| && items[id] == WorkItem(key, true) ==> l.Some? && id <= l.value)
  {
    if items != [] {
      LastKeyedIsLast(items[..|items| - 1], key);
    }
  }

  predicate Member(s: State, id: ItemId) {
    id in s.delayed || id in s.dirty || s.Processing(id) || id in s.fifo || id in s.succeeded || id in s.superseded
  }

  /** What the client-go queue keeps about its own sets. */
  ghost predicate QueueOk(s: State) {
    && (forall id: ItemId :: Member(s, id) ==> id < |s.items|)
    && (forall id: ItemId :: id in s.dirty <==> id in s.fifo || (id in s.dirty && s.Processing(id)))
    && (forall id: ItemId :: id in s.fifo ==> !s.Processing(id))
    && (forall i, k :: 0 <= i < k < |s.fifo| ==> s.fifo[i] != s.fifo[k])
    && s.running !! s.settled
    && (forall id: ItemId :: id in s.running ==> id !in s.delayed && id !in s.dirty)
    && (forall id: ItemId :: id in s.delayed ==> id !in s.dirty)
    && (forall id: ItemId :: id in s.succeeded || id in s.superseded ==> !s.Live(id))
  }

  /** The newest keyed item for a key is active and alive until it succeeds; nothing else is active. */
  ghost predicate KeyOk(s: State, key: string) {
    var l := LastKeyed(s.items, key);
    && (key in s.active ==> l == Some(s.active[key]))
    && (l.Some? ==> l.value !in s.superseded)
    && (l.Some? && l.value !in s.succeeded ==> key in s.active && s.Live(l.value))
    && (l.Some? && l.value in s.succeeded ==> key !in s.active)
  }

  ghost predicate Inv(s: State) {
    && QueueOk(s)
    && (forall key: string :: KeyOk(s, key))
    && (forall id: ItemId :: id < |s.items| ==> s.Live(id) || id in s.succeeded || id in s.superseded)
  }

  lemma MembersAreItems(s: State, step: Step, id: ItemId)
    requires QueueOk(s) && Enabled(s, step) && Member(Apply(s, step), id)
    ensures id < |Apply(s, step).items|
  {
    assert Member(s, id) || ((step.Enqueue? || step.EnqueueKeyed?) && id == |s.items|);
  }

  lemma QueueStaysOk(s: State, step: Step)
    requires QueueOk(s) && Enabled(s, step) && !Apply(s, step).shutdown
    ensures QueueOk(Apply(s, step))
  {
    var t := Apply(s, step);
    assert !Member(s, |s.items|);
    forall id: ItemId | Member(t, id) ensures id < |t.items| {
      MembersAreItems(s, step, id);
    }
    match step
    case Get =>
      assert s.fifo == [s.fifo[0]] + s.fifo[1..];
      assert Member(s, s.fifo[0]);
    case DelayOver(id) =>
      assert Member(s, id);
    case Done(id) =>
      assert Member(s, id);
    case _ =>
  }

  lemma KeyStaysOk(s: State, step: Step, key: string)
    requires QueueOk(s) && KeyOk(s, key) && Enabled(s, step) && !Apply(s, step).shutdown
    ensures KeyOk(Apply(s, step), key)
  {
    if step.Enqueue? || step.EnqueueKeyed? {
      EnqueueKeepsKeyOk(s, step, key);
    } else {
      LastKeyedIsLast(s.items, key);
      if step.Get? {
        assert s.fifo[0] in s.fifo;
      }
    }
  }

  lemma EnqueueKeepsKeyOk(s: State, step: Step, key: string)
    requires QueueOk(s) && KeyOk(s, key) && (step.Enqueue? || step.EnqueueKeyed?) && !s.shutdown
    ensures KeyOk(Apply(s, step), key)
  {
    var t := Apply(s, step);
    LastKeyedIsLast(s.items, key);
    assert t.items[..|t.items| - 1] == s.items;
    assert !Member(s, |s.items|);
  }

  lemma NothingIsLost(s: State, step: Step, id: ItemId)
    requires QueueOk(s) && Enabled(s, step) && !Apply(s, step).shutdown
    requires id < |Apply(s, step).items| && (id < |s.items| ==> s.Live(id) || id in s.succeeded || id in s.superseded)
    ensures var t := Apply(s, step); t.Live(id) || id in t.succeeded || id in t.superseded
  {
  }

  lemma {:induction false} InvAlways(steps: seq<Step>)
    requires Exec(steps).Some? && !Exec(steps).value.shutdown
    ensures Inv(Exec(steps).value)
  {
    if steps != [] {
      var s, last := Exec(steps[..|steps| - 1]).value, steps[|steps| - 1];
      InvAlways(steps[..|steps| - 1]);
      QueueStaysOk(s, last);
      forall key: string ensures KeyOk(Apply(s, last), key) {
        KeyStaysOk(s, last, key);
      }
      forall id | 0 <= id < |Apply(s, last).items|
        ensures Apply(s, last).Live(id) || id in Apply(s, last).succeeded || id in Apply(s, last).superseded
      {
        NothingIsLost(s, last, id);
      }
    }
  }

  // --------------------------------------------------------------------- theorems

  /** Before shutdown every active item is queued or being processed, whatever the interleaving. */
  lemma ActiveItemsAreLive(steps: seq<Step>, key: string)
    requires Exec(steps).Some? && !Exec(steps).value.shutdown && key in Exec(steps).value.active
    ensures Exec(steps).value.Live(Exec(steps).value.active[key])
  {
    InvAlways(steps);
    assert KeyOk(Exec(steps).value, key);
  }

  /** Before shutdown an item stops being queued or processed in two ways only: its callback succeeds, or
      fails while a different item is active for its key. */
  lemma ItemsLeaveInTwoWays(s: State, step: Step, id: ItemId)
    requires Enabled(s, step) && QueueOk(s) && !Apply(s, step).shutdown && id < |s.items|
    ensures s.Live(id) && !Apply(s, step).Live(id) <==>
              || step == Settle(id, false)
              || (step == Settle(id, true) && s.items[id].key in s.active && s.active[s.items[id].key] != id)
  {
    if step == Settle(id, true) || step == Settle(id, false) {
      assert id in s.running && id !in s.delayed && id !in s.dirty;
    }
  }

  /** Before shutdown the last item enqueued for a key has succeeded, or is active and queued or being
      processed: every failure of it is retried. */
  lemma LastItemIsRetriedUntilSuccess(steps: seq<Step>, key: string, id: ItemId)
    requires Exec(steps).Some? && !Exec(steps).value.shutdown
    requires LastKeyed(Exec(steps).value.items, key) == Some(id)
    ensures var s := Exec(steps).value;
            id in s.succeeded || (key in s.active && s.active[key] == id && s.Live(id))
  {
    InvAlways(steps);
    assert KeyOk(Exec(steps).value, key);
  }

  /** Items without a key are retried until they succeed, if no caller uses the empty string as a key. */
  lemma UnkeyedItemsAreRetried(steps: seq<Step>, id: ItemId)
    requires Exec(steps).Some? && !Exec(steps).value.shutdown
    requires id < |Exec(steps).value.items| && !Exec(steps).value.items[id].keyed
    requires EnqueueKeyed("") !in steps
    ensures Exec(steps).value.Live(id) || id in Exec(steps).value.succeeded
  {
    UnkeyedAreNotSuperseded(steps);
    InvAlways(steps);
  }

  lemma {:induction false} UnkeyedAreNotSuperseded(steps: seq<Step>)
    requires Exec(steps).Some? && !Exec(steps).value.shutdown && EnqueueKeyed("") !in steps
    ensures var s := Exec(steps).value;
            && "" !in s.active && (forall id: ItemId :: id in s.superseded ==> id < |s.items|)
            && (forall id: ItemId :: id < |s.items| ==> s.items[id].keyed || s.items[id].key == "")
            && (forall id: ItemId :: id in s.superseded ==> s.items[id].key != "")
  {
    if steps != [] {
      var init := steps[..|steps| - 1];
      assert forall step :: step in init ==> step in steps;
      UnkeyedAreNotSuperseded(init);
      InvAlways(init);
      assert steps[|steps| - 1] in steps;
      assert forall id: ItemId :: Member(Exec(init).value, id) ==> id < |Exec(init).value.items|;
    }
  }

  /** An unkeyed item that fails is retried exactly when no item is active under the empty key. */
  lemma UnkeyedIsRetriedIff(s: State, id: ItemId)
    requires QueueOk(s) && Enabled(s, Settle(id, true)) && !s.shutdown
    requires s.items[id] == WorkItem("", false)
    requires "" in s.active ==> LastKeyed(s.items, "") == Some(s.active[""])
    ensures Apply(s, Settle(id, true)).Live(id) <==> "" !in s.active
  {
    LastKeyedIsLast(s.items, "");
  }

  /** With the empty string as a key, an unkeyed item is dropped by its first failure. */
  lemma EmptyKeyDropsUnkeyed() returns (steps: seq<Step>)
    ensures Exec(steps).Some? && !Exec(steps).value.shutdown
    ensures var s := Exec(steps).value;
            |s.items| == 2 && !s.items[0].keyed && !s.Live(0) && 0 !in s.succeeded
  {
    var s1 := Apply(INIT, Enqueue);
    var s2 := Apply(s1, DelayOver(0));
    var s3 := Apply(s2, Get);
    var s4 := Apply(s3, EnqueueKeyed(""));
    var all := [Enqueue, DelayOver(0), Get, EnqueueKeyed(""), Settle(0, true)];
    assert all[..4] == [Enqueue, DelayOver(0), Get, EnqueueKeyed("")];
    assert all[..4][..3] == [Enqueue, DelayOver(0), Get];
    assert all[..4][..3][..2] == [Enqueue, DelayOver(0)];
    assert all[..4][..3][..2][..1] == [Enqueue];
    assert [Enqueue][..0] == [];
    assert Exec([]) == Some(INIT);
    assert Exec([Enqueue]) == Some(s1);
    assert Exec([Enqueue, DelayOver(0)]) == Some(s2);
    assert Exec([Enqueue, DelayOver(0), Get]) == Some(s3);
    assert Exec(all[..4]) == Some(s4);
    steps := all;
  }

  // ------------------------------------------------------------------ the queue itself

  /** The queue as the code updates it. Every method is one or more steps of the machine above, so what
      holds after all of its step sequences holds of every queue, however its callers interleave. */
  class WorkQueue {
    var items: seq<WorkItem>
    var activeOps: map<string, ItemId>
    var delayed: set<ItemId>
    var fifo: seq<ItemId>
    var dirty: set<ItemId>
    var running: set<ItemId>
    var settled: set<ItemId>
    var shuttingDown: bool
    ghost var succeeded: set<ItemId>
    ghost var superseded: set<ItemId>
    ghost var steps: seq<Step>

    ghost function View(): State
      reads this
    {
      State(items, activeOps, delayed, fifo, dirty, running, settled, shuttingDown, succeeded, superseded)
    }

    ghost predicate Valid()
      reads this
    {
      Exec(steps) == Some(View())
    }

    constructor ()
      ensures Valid() && View() == INIT
    {
      items, activeOps, delayed, fifo, dirty, running, settled, shuttingDown := [], map[], {}, [], {}, {}, {}, false;
      succeeded, superseded, steps := {}, {}, [];
    }

    ghost method Log(step: Step)
      requires Exec(steps).Some? && Enabled(Exec(steps).value, step) && View() == Apply(Exec(steps).value, step)
      modifies this`steps
      ensures Valid() && steps == old(steps) + [step]
    {
      assert (steps + [step])[..|steps|] == steps;
      steps := steps + [step];
    }

    method AddRateLimited(id: ItemId)
      modifies this`delayed
      ensures delayed == if shuttingDown then old(delayed) else old(delayed) + {id}
    {
      if !shuttingDown {
        delayed := delayed + {id};
      }
    }

    /** An object of an unexpected type is not enqueued. */
    method Enqueue(isRuntimeObject: bool)
      requires Valid()
      modifies this
      ensures Valid()
      ensures steps == if isRuntimeObject then old(steps) + [Step.Enqueue] else old(steps)
    {
      if !isRuntimeObject {
        return;
      }
      items := items + [WorkItem("", false)];
      AddRateLimited(|items| - 1);
      Log(Step.Enqueue);
    }

    method EnqueueWithKey(isRuntimeObject: bool, key: string)
      requires Valid()
      modifies this
      ensures Valid()
      ensures steps == if isRuntimeObject then old(steps) + [EnqueueKeyed(key)] else old(steps)
      ensures isRuntimeObject ==> key in activeOps && activeOps[key] == |old(items)| && items == old(items) + [WorkItem(key, true)]
    {
      if !isRuntimeObject {
        return;
      }
      items := items + [WorkItem(key, true)];
      activeOps := activeOps[key := |items| - 1];
      AddRateLimited(|items| - 1);
      Log(EnqueueKeyed(key));
    }

    /** The next item, unless there is none. */
    method GetItem() returns (item: Option<ItemId>)
      requires Valid()
      modifies this
      ensures Valid()
      ensures item == if old(fifo) == [] then None else Some(old(fifo)[0])
      ensures steps == if item.Some? then old(steps) + [Get] else old(steps)
      ensures item.Some? ==> item.value in running
    {
      if fifo == [] {
        return None;
      }
      var id := fifo[0];
      fifo, dirty, running := fifo[1..], dirty - {id}, running + {id};
      Log(Get);
      return Some(id);
    }

    /** Records the outcome of a callback, under the lock. */
    method SettleItem(id: ItemId, failed: bool)
      requires Valid() && id in running && id < |items|
      modifies this
      ensures Valid() && steps == old(steps) + [Settle(id, failed)]
    {
      var key := items[id].key;
      running, settled := running - {id}, settled + {id};
      if failed {
        if key in activeOps && activeOps[key] != id {
          superseded := superseded + {id};
        } else {
          AddRateLimited(id);
        }
      } else {
        if key in activeOps && activeOps[key] == id {
          activeOps := activeOps - {key};
        }
        succeeded := succeeded + {id};
      }
      Log(Settle(id, failed));
    }

    method DoneWith(id: ItemId)
      requires Valid() && id in settled
      modifies this
      ensures Valid() && steps == old(steps) + [Done(id)]
    {
      settled := settled - {id};
      if id in dirty {
        fifo := fifo + [id];
      }
      Log(Done(id));
    }

    /** `fails` is the outcome of the callback; a missing callback counts as a failure. Before shutdown a
        failed item that is still the newest for its key is queued again. */
    method ProcessNextWorkItem(fails: bool)
      requires Valid() && !shuttingDown
      modifies this
      ensures Valid()
      ensures old(fifo) == [] ==> steps == old(steps)
      ensures old(fifo) != [] ==> var id := old(fifo)[0];
                && steps == old(steps) + [Get, Settle(id, fails), Done(id)]
                && id < |items|
                && (fails && (items[id].key in old(activeOps) ==> old(activeOps)[items[id].key] == id) ==> View().Live(id))
    {
      InvAlways(steps);
      var item := GetItem();
      if item.None? {
        return;
      }
      InvAlways(steps);
      var id := item.value;
      assert Member(View(), id);
      SettleItem(id, fails);
      DoneWith(id);
      assert steps == old(steps) + [Get, Settle(id, fails), Done(id)];
    }
  }
}
