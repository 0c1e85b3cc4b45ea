/** The lock file around the checkpoint: polling for it, and what it buys the read-mutate-write cycles of
    several plugin processes, any of which may die at any time. */
module CheckpointLock {
  import opened Basics
  import opened GpuProtocol

  // ---------------------------------------------------------------------- polling

  datatype FlockResult = Acquired | WouldBlock | OtherFailure

  /** What one turn of the polling loop meets: the outcome of the system call, the time since the start,
      and whether the context is cancelled while waiting for the next tick. */
  datatype Poll = Poll(outcome: FlockResult, elapsed: nat, cancelled: bool)

  datatype AcquireResult = Locked | GaveUp | StillPolling

  /** The loop polls again after this turn. A timeout of zero means none. */
  predicate PollsAgain(timeout: nat, p: Poll) {
    p.outcome == WouldBlock && !(timeout > 0 && p.elapsed > timeout) && !p.cancelled
  }

  class Flock {
    var open: bool
    var locked: bool

    constructor ()
      ensures !open && !locked
    {
      open, locked := false, false;
    }

    /** The lock is held exactly if the first turn that does not poll again has acquired it; otherwise
        the descriptor is closed again. While all turns so far found the lock taken, the loop goes on. */
    method Acquire(timeout: nat, polls: seq<Poll>) returns (r: AcquireResult)
      requires !open && !locked
      modifies this
      ensures r == StillPolling <==> forall i :: 0 <= i < |polls| ==> PollsAgain(timeout, polls[i])
      ensures r == Locked <==> exists i :: 0 <= i < |polls| && polls[i].outcome == Acquired &&
                                           forall k :: 0 <= k < i ==> PollsAgain(timeout, polls[k])
      ensures r == GaveUp <==> exists i ::
                && 0 <= i < |polls| && (forall k :: 0 <= k < i ==> PollsAgain(timeout, polls[k]))
                && (polls[i].outcome == OtherFailure ||
                    (polls[i].outcome == WouldBlock && (polls[i].cancelled || (timeout != 0 && polls[i].elapsed > timeout))))
      ensures locked == (r == Locked) && open == (r != GaveUp)
    {
      open := true;
      for i := 0 to |polls|
        invariant open && !locked
        invariant forall k :: 0 <= k < i ==> PollsAgain(timeout, polls[k])
      {
        if polls[i].outcome == Acquired {
          locked := true;
          return Locked;
        }
        if polls[i].outcome != WouldBlock {
          open := false;
          return GaveUp;
        }
        if timeout > 0 && polls[i].elapsed > timeout {
          open := false;
          return GaveUp;
        }
        if polls[i].cancelled {
          open := false;
          return GaveUp;
        }
      }
      return StillPolling;
    }

    /** Closing the descriptor gives the lock back; so does the death of the process. */
    method Release()
      modifies this
      ensures !open && !locked
    {
      open, locked := false, false;
    }
  }

  // ------------------------------------------------------------- several processes

  type ProcessId = nat
  type Claims = map<Uid, PreparedClaim>

  datatype Mutation = Put(uid: Uid, claim: PreparedClaim) | Delete(uid: Uid)

  function Mutate(claims: Claims, m: Mutation): Claims {
    match m
    case Put(uid, claim) => claims[uid := claim]
    case Delete(uid) => claims - {uid}
  }

  datatype Pc =
    | Outside
    | Waiting(m: Mutation)
    | Holding(m: Mutation)
    | HasRead(m: Mutation, snapshot: Claims)
    | HasWritten

  /** `log` is bookkeeping: the mutations that reached the file, in order. */
  datatype World = World(file: Claims, lock: Option<ProcessId>, pcs: map<ProcessId, Pc>, log: seq<Mutation>)
  {
    function At(p: ProcessId): Pc {
      if p in pcs then pcs[p] else Outside
    }

    function Go(p: ProcessId, pc: Pc): World {
      this.(pcs := pcs[p := pc])
    }

    function Leave(p: ProcessId): World {
      Go(p, Outside).(lock := if lock == Some(p) then None else lock)
    }
  }

  datatype Step =
    | Begin(p: ProcessId, m: Mutation)
    | TryLock(p: ProcessId)
    | Read(p: ProcessId)
    | Write(p: ProcessId)
    | Release(p: ProcessId)
    | FailOrCrash(p: ProcessId)

  /** A failure at any point releases the lock and leaves the file alone, and so does a crash. */
  function Next(w: World, step: Step): Option<World> {
    match step
    case Begin(p, m) => if w.At(p) == Outside then Some(w.Go(p, Waiting(m))) else None
    case TryLock(p) =>
      if !w.At(p).Waiting? then None
      else if w.lock.Some? then Some(w)
      else Some(w.Go(p, Holding(w.At(p).m)).(lock := Some(p)))
    case Read(p) => if w.At(p).Holding? then Some(w.Go(p, HasRead(w.At(p).m, w.file))) else None
    case Write(p) =>
      if w.At(p).HasRead?
      then Some(w.Go(p, HasWritten).(file := Mutate(w.At(p).snapshot, w.At(p).m), log := w.log + [w.At(p).m]))
      else None
    case Release(p) => if w.At(p) == HasWritten then Some(w.Leave(p)) else None
    case FailOrCrash(p) => Some(w.Leave(p))
  }

  function Exec(first: World, steps: seq<Step>): Option<World> {
    if steps == [] then Some(first)
    else
      var before := Exec(first, steps[..|steps| - 1]);
      if before.None? then None else Next(before.value, steps[|steps| - 1])
  }

  function Fold(claims: Claims, log: seq<Mutation>): Claims {
    if log == [] then claims else Mutate(Fold(claims, log[..|log| - 1]), log[|log| - 1])
  }

  predicate Inside(pc: Pc) {
    pc.Holding? || pc.HasRead? || pc.HasWritten?
  }

  predicate ProcessOk(w: World, p: ProcessId) {
    && (Inside(w.At(p)) <==> w.lock == Some(p))
    && (w.At(p).HasRead? ==> w.At(p).snapshot == w.file)
  }

  ghost predicate Inv(first: Claims, w: World) {
    (forall p: ProcessId :: ProcessOk(w, p)) && w.file == Fold(first, w.log)
  }

  lemma StepKeepsInv(first: Claims, w: World, step: Step)
    requires Inv(first, w) && Next(w, step).Some?
    ensures Inv(first, Next(w, step).value)
  {
    var n := Next(w, step).value;
    var p := step.p;
    assert ProcessOk(w, p);
    forall q: ProcessId ensures ProcessOk(n, q) {
      assert ProcessOk(w, q);
    }
    if step.Write? {
      assert n.log[..|n.log| - 1] == w.log;
    }
  }

  /** However the steps of the processes interleave, and whichever of them fail or crash where: the file is
      the result of the mutations that were written, one after the other; none is lost. */
  lemma {:induction false} UpdatesAreSerial(first: World, steps: seq<Step>)
    requires first.lock == None && first.pcs == map[] && first.log == []
    requires Exec(first, steps).Some?
    ensures Inv(first.file, Exec(first, steps).value)
    ensures Exec(first, steps).value.file == Fold(first.file, Exec(first, steps).value.log)
  {
    if steps != [] {
      UpdatesAreSerial(first, steps[..|steps| - 1]);
      StepKeepsInv(first.file, Exec(first, steps[..|steps| - 1]).value, steps[|steps| - 1]);
    }
  }

  /** A step touches the entry of one claim at most, and only when it writes. */
  lemma OtherEntriesStay(first: Claims, w: World, step: Step, uid: Uid)
    requires Inv(first, w) && Next(w, step).Some?
    requires step.Write? ==> w.At(step.p).m.uid != uid
    ensures var n := Next(w, step).value;
            (uid in n.file <==> uid in w.file) && (uid in w.file ==> n.file[uid] == w.file[uid])
  {
    assert ProcessOk(w, step.p);
  }

  /** The entry of a claim is what the last mutation of that claim made it. */
  lemma {:induction false} LastMutationCounts(first: Claims, log: seq<Mutation>, i: nat)
    requires i < |log| && forall k :: i < k < |log| ==> log[k].uid != log[i].uid
    ensures var uid, claims := log[i].uid, Fold(first, log);
            match log[i]
            case Put(_, claim) => uid in claims && claims[uid] == claim
            case Delete(_) => uid !in claims
  {
    if i < |log| - 1 {
      assert log[..|log| - 1][i] == log[i];
      LastMutationCounts(first, log[..|log| - 1], i);
    }
  }

  lemma {:induction false} UnmentionedEntriesStay(first: Claims, log: seq<Mutation>, uid: Uid)
    requires forall k :: 0 <= k < |log| ==> log[k].uid != uid
    ensures (uid in Fold(first, log) <==> uid in first) && (uid in first ==> Fold(first, log)[uid] == first[uid])
  {
    if log != [] {
      UnmentionedEntriesStay(first, log[..|log| - 1], uid);
    }
  }

  /** Over every run: an entry that no written mutation names is what it was at first. */
  lemma UnnamedEntriesStay(first: World, steps: seq<Step>, uid: Uid)
    requires first.lock == None && first.pcs == map[] && first.log == []
    requires Exec(first, steps).Some?
    requires forall k :: 0 <= k < |Exec(first, steps).value.log| ==> Exec(first, steps).value.log[k].uid != uid
    ensures var file := Exec(first, steps).value.file;
            (uid in file <==> uid in first.file) && (uid in first.file ==> file[uid] == first.file[uid])
  {
    UpdatesAreSerial(first, steps);
    UnmentionedEntriesStay(first.file, Exec(first, steps).value.log, uid);
  }

  lemma AndThen(first: World, steps: seq<Step>, w: World, step: Step, n: World) returns (r: seq<Step>)
    requires Exec(first, steps) == Some(w) && Next(w, step) == Some(n)
    ensures r == steps + [step] && Exec(first, r) == Some(n)
  {
    r := steps + [step];
    assert r[..|r| - 1] == steps;
  }

  /** Whatever has happened before, crashes included: once the lock is free, a process that is left alone gets its
      mutation into the file, on top of all others, and gives the lock back. */
  lemma UndisturbedUpdateGetsThrough(first: World, steps: seq<Step>, p: ProcessId, m: Mutation)
    requires Exec(first, steps).Some? && Exec(first, steps).value.lock.None? && Exec(first, steps).value.At(p) == Outside
    ensures var w, r := Exec(first, steps).value, Exec(first, steps + [Step.Begin(p, m), TryLock(p), Read(p), Write(p), Step.Release(p)]);
            && r.Some? && r.value.lock.None? && r.value.log == w.log + [m]
            && r.value.file == if m.Put? then w.file[m.uid := m.claim] else w.file - {m.uid}
  {
    hide Exec;
    var w := Exec(first, steps).value;
    var w1 := w.Go(p, Waiting(m));
    var w2 := w1.Go(p, Holding(m)).(lock := Some(p));
    var w3 := w2.Go(p, HasRead(m, w.file));
    var w4 := w3.Go(p, HasWritten).(file := Mutate(w.file, m), log := w.log + [m]);
    var r := AndThen(first, steps, w, Step.Begin(p, m), w1);
    r := AndThen(first, r, w1, TryLock(p), w2);
    r := AndThen(first, r, w2, Read(p), w3);
    r := AndThen(first, r, w3, Write(p), w4);
    r := AndThen(first, r, w4, Step.Release(p), w4.Leave(p));
    assert r == steps + [Step.Begin(p, m), TryLock(p), Read(p), Write(p), Step.Release(p)];
  }

  /** At most one process is between acquiring and releasing the lock. */
  lemma MutualExclusion(first: World, steps: seq<Step>, p: ProcessId, q: ProcessId)
    requires first.lock == None && first.pcs == map[] && first.log == []
    requires Exec(first, steps).Some?
    requires Inside(Exec(first, steps).value.At(p)) && Inside(Exec(first, steps).value.At(q))
    ensures p == q
  {
    UpdatesAreSerial(first, steps);
    var w := Exec(first, steps).value;
    assert ProcessOk(w, p) && ProcessOk(w, q);
  }

  // ---------------------------------------------------------------- without the lock

  /** The same processes with a lock that never refuses anybody. */
  function NextUnlocked(w: World, step: Step): Option<World> {
    if step.TryLock? && w.At(step.p).Waiting? then Some(w.Go(step.p, Holding(w.At(step.p).m))) else Next(w, step)
  }

  function ExecUnlocked(first: World, steps: seq<Step>): Option<World> {
    if steps == [] then Some(first)
    else
      var before := ExecUnlocked(first, steps[..|steps| - 1]);
      if before.None? then None else NextUnlocked(before.value, steps[|steps| - 1])
  }

  lemma Unlocked(first: World, steps: seq<Step>, w: World, step: Step, n: World) returns (r: seq<Step>)
    requires ExecUnlocked(first, steps) == Some(w) && NextUnlocked(w, step) == Some(n)
    ensures r == steps + [step] && ExecUnlocked(first, r) == Some(n)
  {
    r := steps + [step];
    assert r[..|r| - 1] == steps;
  }

  /** Two processes that read the same file and write in turn: both mutations are on the log, and the file
      has lost the first one, so it is not the fold of the log. */
  lemma WithoutLockUpdatesAreLost(file: Claims, p: ProcessId, q: ProcessId, a: Mutation, b: Mutation)
    returns (steps: seq<Step>)
    requires p != q && a.Put? && a.uid != b.uid && a.uid !in file
    ensures var w := ExecUnlocked(World(file, None, map[], []), steps);
            w.Some? && a in w.value.log && a.uid !in w.value.file && w.value.file != Fold(file, w.value.log)
  {
    hide ExecUnlocked;
    var first := World(file, None, map[], []);
    var w1 := first.Go(p, Waiting(a));
    var w2 := w1.Go(p, Holding(a));
    var w3 := w2.Go(p, HasRead(a, file));
    var w4 := w3.Go(q, Waiting(b));
    var w5 := w4.Go(q, Holding(b));
    var w6 := w5.Go(q, HasRead(b, file));
    var w7 := w6.Go(p, HasWritten).(file := Mutate(file, a), log := [a]);
    var w8 := w7.Go(q, HasWritten).(file := Mutate(file, b), log := [a, b]);
    steps := NoSteps(first);
    steps := Unlocked(first, steps, first, Step.Begin(p, a), w1);
    steps := Unlocked(first, steps, w1, TryLock(p), w2);
    steps := Unlocked(first, steps, w2, Read(p), w3);
    steps := Unlocked(first, steps, w3, Step.Begin(q, b), w4);
    steps := Unlocked(first, steps, w4, TryLock(q), w5);
    steps := Unlocked(first, steps, w5, Read(q), w6);
    assert [] + [a] == [a] && [a] + [b] == [a, b];
    steps := Unlocked(first, steps, w6, Write(p), w7);
    steps := Unlocked(first, steps, w7, Write(q), w8);
    LastMutationCounts(file, [a, b], 0);
  }

  lemma NoSteps(first: World) returns (steps: seq<Step>)
    ensures steps == [] && ExecUnlocked(first, steps) == Some(first)
  {
    steps := [];
  }
}
