/** The process manager's own functions. Each access to shared state is one move of `ProcessSupervisor`,
    and between any two accesses the other thread, the children and their reapers may move. */
module ProcessManagers {
  import opened Basics
  import opened ProcessSupervisor

  /** `Waiting`: the call has not come back, it waits for the mutex or for a status. `Crashed`: somebody has
      dereferenced a nil handle. */
  datatype Outcome = Success | Error | Waiting | Crashed

  lemma {:induction false} ExecInTurn(s: State, a: seq<Move>, b: seq<Move>)
    requires Exec(s, a).Some?
    ensures Exec(s, a + b) == Exec(Exec(s, a).value, b)
  {
    if b == [] {
      assert a + b == a;
    } else {
      assert (a + b)[..|a + b| - 1] == a + b[..|b| - 1];
      ExecInTurn(s, a, b[..|b| - 1]);
    }
  }

  lemma {:induction false} OthersLeaveThreadAlone(s: State, moves: seq<Move>, t: Thread)
    requires Exec(s, moves).Some? && forall i :: 0 <= i < |moves| ==> !IsMoveOf(t, moves[i])
    ensures Exec(s, moves).value.At(t) == s.At(t)
  {
    if moves != [] {
      OthersLeaveThreadAlone(s, moves[..|moves| - 1], t);
    }
  }

  predicate LostPhase(pc: Pc) {
    pc.LostWait? || pc.LostReset?
  }

  /** `t` has the mutex, and the watchdog is not about to reset the handle without it. */
  predicate InCharge(s: State, t: Thread) {
    HoldsLock(s.At(t)) && (t == UpdateLoop ==> !LostPhase(s.watch))
  }

  /** While nobody is behind the handle the watchdog has nobody to lose. */
  lemma NoHandleNoLoss(s: State)
    requires Inv(s) && s.handle.None?
    ensures !LostPhase(s.watch)
  {
    hide ChildrenOk;
  }

  predicate CountsKept(s: State, n: State) {
    |s.received| <= |n.received| && |s.children| <= |n.children|
  }

  lemma ProgressCountsGrow(s: State, t: Thread, fails: bool)
    requires Progress(s, t, fails).Some?
    ensures CountsKept(s, Progress(s, t, fails).value)
  {
    if !s.panicked && !Progress(s, t, fails).value.panicked && !Receives(s.At(t)) && !Resets(s.At(t)) && !s.At(t).StartSpawn? {
      hide Progress;
      PlainStepMovesLittle(s, t, fails);
    }
  }

  lemma CountsGrow(s: State, m: Move)
    requires Next(s, m).Some?
    ensures CountsKept(s, Next(s, m).value)
  {
    hide Progress;
    if m.Advance? {
      ProgressCountsGrow(s, m.t, m.fails);
    }
  }

  lemma OtherMoveKeepsHandle(s: State, m: Move, t: Thread)
    requires Inv(s) && InCharge(s, t) && Next(s, m).Some? && !IsMoveOf(t, m) && !Next(s, m).value.panicked
    ensures var n := Next(s, m).value; n.handle == s.handle && |n.children| == |s.children| && InCharge(n, t)
  {
    hide ChildrenOk;
  }

  /** What others leave alone while `t` is in charge. */
  lemma {:induction false} OthersKeepHandle(s: State, moves: seq<Move>, t: Thread)
    requires Inv(s) && Exec(s, moves).Some? && !Exec(s, moves).value.panicked
    requires forall i :: 0 <= i < |moves| ==> !IsMoveOf(t, moves[i])
    ensures var n := Exec(s, moves).value;
            && CountsKept(s, n) && Inv(n)
            && (InCharge(s, t) ==> n.handle == s.handle && |n.children| == |s.children| && InCharge(n, t))
  {
    hide Inv, Next, InCharge;
    if moves != [] {
      var init, last := moves[..|moves| - 1], moves[|moves| - 1];
      var b := Exec(s, init).value;
      NoMoveAfterPanic(b, last);
      OthersKeepHandle(s, init, t);
      CountsGrow(b, last);
      StepKeepsInv(b, last);
      if InCharge(s, t) {
        OtherMoveKeepsHandle(b, last, t);
      }
    }
  }

  lemma NoMoveAfterPanic(s: State, m: Move)
    requires Next(s, m).Some?
    ensures !s.panicked
  {
  }

  // ----------------------------------------------------------- what a call has met

  /** What a thread may come across: nothing to restart, a child where it wants to start one, a handle that is
      set or nil when it is looked at. */
  datatype Finding = NothingLost | RefusesStart(t: Thread) | EnsureFinds(child: bool) | SignalFinds(child: bool)
  {
    predicate In(s: State) {
      match this
      case NothingLost => s.lock == Some(UpdateLoop) || s.handle.None? || s.channel == []
      case RefusesStart(t) => s.At(t) == StartCheck && s.handle.Some?
      case EnsureFinds(child) => s.update == EnsureRead && s.handle.Some? == child
      case SignalFinds(child) => s.update == (if child then SignalSend else SignalCheck) && s.handle.Some? == child
    }
  }

  predicate MetAt(moves: seq<Move>, k: nat, what: Finding) {
    k <= |moves| && Exec(INIT, moves[..k]).Some? && what.In(Exec(INIT, moves[..k]).value)
  }

  /** One of the states from the `since`-th move on was like this. */
  ghost predicate Met(moves: seq<Move>, since: nat, what: Finding) {
    exists k: nat :: since <= k && MetAt(moves, k, what)
  }

  lemma MetStays(a: seq<Move>, b: seq<Move>, since: nat, what: Finding)
    requires a <= b && Met(a, since, what)
    ensures Met(b, since, what)
  {
    hide Exec;
    var k: nat :| since <= k && MetAt(a, k, what);
    assert b[..k] == a[..k];
    assert MetAt(b, k, what);
  }

  lemma MetNow(moves: seq<Move>, since: nat, what: Finding)
    requires since <= |moves| && Exec(INIT, moves).Some? && what.In(Exec(INIT, moves).value)
    ensures Met(moves, since, what)
  {
    hide Exec;
    assert moves[..|moves|] == moves;
    assert MetAt(moves, |moves|, what);
  }

  lemma LockIsOthers(s: State)
    requires Inv(s) && s.watch == LostTryLock && s.lock.Some?
    ensures s.lock == Some(UpdateLoop)
  {
    hide ChildrenOk;
    match s.lock.value
    case UpdateLoop =>
    case Watchdog =>
  }

  class ProcessManager {
    var handle: Option<ChildId>
    var mutex: Option<Thread>
    var waitResChan: seq<Exit>
    var children: seq<Child>
    var panicked: bool

    // where the threads are, and what has been received: bookkeeping
    var received: seq<ChildId>
    var update: Pc
    var watch: Pc
    ghost var moves: seq<Move>

    function View(): State
      reads this
    {
      State(handle, mutex, waitResChan, children, received, update, watch, panicked)
    }

    ghost predicate Valid()
      reads this
    {
      Exec(INIT, moves) == Some(View())
    }

    /** The thread stands before a mutex that is taken, or before an empty channel. */
    predicate Waits(t: Thread)
      reads this
    {
      if View().At(t).StopWait? then waitResChan == [] else mutex.Some?
    }

    constructor ()
      ensures Valid() && View() == INIT
    {
      handle, mutex, waitResChan, children, panicked := None, None, [], [], false;
      received, update, watch, moves := [], Idle, Idle, [];
    }

    ghost method Log(m: Move)
      requires Exec(INIT, moves).Some? && Next(Exec(INIT, moves).value, m) == Some(View())
      modifies this`moves
      ensures Valid() && moves == old(moves) + [m]
    {
      ExecSnoc(INIT, moves, m);
      moves := moves + [m];
    }

    method Become(s: State)
      modifies this
      ensures View() == s && moves == old(moves)
    {
      handle, mutex, waitResChan, children, panicked := s.handle, s.lock, s.channel, s.children, s.panicked;
      received, update, watch := s.received, s.update, s.watch;
    }

    /** Everybody but thread `t` moves, as often as they like. */
    method OthersMove(t: Thread)
      requires Valid() && !panicked
      modifies this
      ensures old(moves) <= moves && Valid() && View().At(t) == old(View().At(t))
      ensures !panicked ==> |old(received)| <= |received| && |old(children)| <= |children| && Inv(View())
      ensures !panicked && old(InCharge(View(), t)) ==> handle == old(handle) && |children| == |old(children)| && InCharge(View(), t)
    {
      hide Next, Inv;
      InvAlways(moves);
      var others: seq<Move> := *;
      if (forall i :: 0 <= i < |others| ==> !IsMoveOf(t, others[i])) && Exec(View(), others).Some? {
        if !Exec(View(), others).value.panicked {
          OthersKeepHandle(View(), others, t);
        }
        ExecInTurn(INIT, moves, others);
        OthersLeaveThreadAlone(View(), others, t);
        Become(Exec(View(), others).value);
        moves := moves + others;
      }
    }

    method GoTo(t: Thread, pc: Pc)
      modifies this`update, this`watch
      ensures View() == old(View()).Go(t, pc)
    {
      if t == UpdateLoop {
        update := pc;
      } else {
        watch := pc;
      }
    }

    method Call(t: Thread, pc: Pc)
      requires Valid() && !panicked && View().At(t) == Idle && MayCall(t, pc)
      modifies this
      ensures old(moves) <= moves && Valid() && !panicked && View().At(t) == pc
      ensures handle == old(handle) && children == old(children) && received == old(received)
    {
      GoTo(t, pc);
      Log(Move.Call(t, pc));
    }

    /** sync.Mutex Lock, in the states in which it is called. */
    method Lock(t: Thread, held: Pc) returns (ok: bool)
      requires Valid() && !panicked
      requires (View().At(t).StopLock? && held == StopCheck(View().At(t).final)) || (View().At(t) == StartLock && held == StartCheck) ||
               (View().At(t) == SignalLock && held == SignalCheck)
      modifies this
      ensures old(moves) <= moves && Valid() && !panicked && View().At(t) == if ok then held else old(View().At(t))
      ensures !ok ==> mutex.Some?
      ensures handle == old(handle) && children == old(children) && received == old(received)
    {
      if mutex.Some? {
        return false;
      }
      mutex := Some(t);
      GoTo(t, held);
      Log(Advance(t, false));
      return true;
    }

    method Unlock(t: Thread)
      requires Valid() && !panicked && View().At(t).Unlock?
      modifies this
      ensures old(moves) <= moves && Valid() && !panicked && View().At(t) == old(View().At(t)).next
      ensures handle == old(handle) && children == old(children) && received == old(received)
    {
      mutex := None;
      GoTo(t, View().At(t).next);
      Log(Advance(t, false));
    }

    // -------------------------------------------------------------------- start, stop

    /** Success: a child was started and is behind the handle when the mutex is released. */
    method Start(t: Thread) returns (o: Outcome)
      requires Valid() && !panicked && View().At(t) == StartLock
      modifies this
      ensures old(moves) <= moves && Valid() && (o == Crashed <==> panicked)
      ensures o == Success ==> View().At(t) == Idle && handle == Some(|children| - 1) && |old(children)| < |children|
      ensures o != Crashed ==> |old(received)| <= |received|
      ensures o == Error ==> View().At(t) == Failed && (Met(moves, |old(moves)|, RefusesStart(t)) || Advance(t, true) in moves[|old(moves)|..])
      ensures o == Waiting ==> View().At(t) == StartLock && Waits(t)
    {
      hide Exec, Next;
      OthersMove(t);
      if panicked {
        return Crashed;
      }
      var locked := Lock(t, StartCheck);
      if !locked {
        return Waiting;
      }
      OthersMove(t);
      if panicked {
        return Crashed;
      }
      o := StartHeld(t, |old(moves)|);
    }

    /** An error if there is a child already. */
    method StartHeld(t: Thread, ghost since: nat) returns (o: Outcome)
      requires Valid() && !panicked && View().At(t) == StartCheck && since <= |moves|
      modifies this
      ensures old(moves) <= moves && Valid() && (o == Crashed <==> panicked) && o != Waiting
      ensures o == Success ==> View().At(t) == Idle && handle == Some(|children| - 1) && |old(children)| < |children|
      ensures o != Crashed ==> |old(received)| <= |received|
      ensures o == Error ==> View().At(t) == Failed && (Met(moves, since, RefusesStart(t)) || Advance(t, true) in moves[since..])
    {
      hide Exec, Inv, InCharge;
      var running := handle.Some?;
      if running {
        MetNow(moves, since, RefusesStart(t));
      }
      GoTo(t, if running then Pc.Unlock(Failed) else StartSpawn);
      Log(Advance(t, false));
      hide Next;
      OthersMove(t);
      if panicked {
        return Crashed;
      }
      if !running {
        ghost var before := moves;
        o := Spawn(t);
        if o == Error {
          LaterMoveIsIn(Advance(t, true), before, moves, since);
        }
        return;
      }
      Unlock(t);
      MetStays(old(moves), moves, since, RefusesStart(t));
      return Error;
    }

    /** With the mutex and no child: starts one, or fails to. */
    method Spawn(t: Thread) returns (o: Outcome)
      requires Valid() && !panicked && View().At(t) == StartSpawn
      modifies this
      ensures old(moves) <= moves && Valid() && (o == Crashed <==> panicked) && o != Waiting
      ensures o == Success ==> View().At(t) == Idle && handle == Some(|children| - 1) && |old(children)| < |children|
      ensures o != Crashed ==> |old(received)| <= |received|
      ensures o == Error ==> View().At(t) == Failed && |old(moves)| < |moves| && moves[|old(moves)|] == Advance(t, true)
    {
      hide Exec, Inv, InCharge;
      InvAlways(moves);
      SpawnerIsInCharge(View(), t);
      if * {
        o := FailToSpawn(t);
        return;
      }
      handle, children := Some(|children|), children + [Child(Running, Launched)];
      GoTo(t, Pc.Unlock(Idle));
      Log(Advance(t, false));
      StaysInCharge(old(View()), t, false);
      hide Next;
      OthersMove(t);
      if panicked {
        return Crashed;
      }
      Unlock(t);
      return Success;
    }

    method FailToSpawn(t: Thread) returns (o: Outcome)
      requires Valid() && !panicked && View().At(t) == StartSpawn
      modifies this
      ensures old(moves) <= moves && Valid() && o == (if panicked then Crashed else Error)
      ensures o == Error ==> View().At(t) == Failed && |old(moves)| < |moves| && moves[|old(moves)|] == Advance(t, true)
      ensures o == Error ==> |old(received)| <= |received|
    {
      hide Exec, Inv, InCharge;
      GoTo(t, Pc.Unlock(Failed));
      Log(Advance(t, true));
      hide Next;
      OthersMove(t);
      if panicked {
        return Crashed;
      }
      Unlock(t);
      return Error;
    }

    lemma LaterMoveIsIn(m: Move, before: seq<Move>, after: seq<Move>, since: nat)
      requires since <= |before| < |after| && after[|before|] == m
      ensures m in after[since..]
    {
      assert after[since..][|before| - since] == m;
    }

    lemma StaysInCharge(s: State, t: Thread, fails: bool)
      requires Inv(s) && !s.panicked && s.At(t) == StartSpawn
      ensures InCharge(Progress(s, t, fails).value, t)
    {
      hide ChildrenOk;
      NoHandleNoLoss(s);
    }

    lemma SpawnerIsInCharge(s: State, t: Thread)
      requires Inv(s) && s.At(t) == StartSpawn
      ensures s.handle.None? && InCharge(s, t)
    {
      hide ChildrenOk;
      NoHandleNoLoss(s);
    }

    /** Success: a status was received, the handle was reset and the mutex released. */
    method Stop(t: Thread, final: bool) returns (o: Outcome)
      requires Valid() && !panicked && View().At(t) == StopLock(final)
      modifies this
      ensures old(moves) <= moves && Valid() && (o == Crashed <==> panicked)
      ensures o == Success ==> View().At(t) == if final then Stopped else StartLock
      ensures o == Success ==> handle.None? && |old(received)| < |received|
      ensures o != Crashed ==> |old(children)| <= |children|
      ensures o == Error ==> View().At(t) == Failed
      ensures o == Waiting ==> View().At(t) in {StopLock(final), StopWait(final)} && Waits(t)
    {
      hide Exec, Next;
      OthersMove(t);
      if panicked {
        return Crashed;
      }
      var locked := Lock(t, StopCheck(final));
      if !locked {
        return Waiting;
      }
      OthersMove(t);
      if panicked {
        return Crashed;
      }
      o := Terminate(t, final);
      if o != Success {
        return;
      }
      o := WaitHeld(t, final);
    }

    /** Checks the handle, and then uses it to send SIGTERM. */
    method Terminate(t: Thread, final: bool) returns (o: Outcome)
      requires Valid() && !panicked && View().At(t) == StopCheck(final)
      modifies this
      ensures old(handle).None? ==> o == Error || o == Crashed
      ensures old(moves) <= moves && Valid() && (o == Crashed <==> panicked) && o != Waiting
      ensures o == Success ==> View().At(t) == StopWait(final)
      ensures o != Crashed ==> |old(children)| <= |children|
      ensures o == Error ==> View().At(t) == Failed
      ensures o != Crashed ==> |old(received)| <= |received|
    {
      hide Exec, Inv, InCharge;
      GoTo(t, if handle.Some? then StopTerm(final) else Pc.Unlock(Failed));
      Log(Advance(t, false));
      hide Next;
      OthersMove(t);
      if panicked {
        return Crashed;
      }
      if View().At(t) == StopTerm(final) {
        o := SendTerm(t, final);
        return;
      }
      Unlock(t);
      return Error;
    }

    method SendTerm(t: Thread, final: bool) returns (o: Outcome)
      requires Valid() && !panicked && View().At(t) == StopTerm(final)
      modifies this
      ensures old(moves) <= moves && Valid() && (o == Crashed <==> panicked) && o != Waiting
      ensures o == Success ==> View().At(t) == StopWait(final)
      ensures o == Error ==> View().At(t) == Failed
      ensures o != Crashed ==> |old(children)| <= |children| && |old(received)| <= |received|
      // SIGTERM to a child that has been reaped fails
      ensures o != Crashed ==> old(handle).Some? && old(handle).value < |old(children)| &&
                               (o == Error <==> old(children)[old(handle).value].life == Reaped)
    {
      hide Exec, Inv, InCharge;
      if handle.None? || handle.value >= |children| {
        panicked := true;
        Log(Advance(t, false));
        return Crashed;
      }
      var ended := children[handle.value].life == Reaped;
      GoTo(t, if ended then Pc.Unlock(Failed) else StopWait(final));
      Log(Advance(t, false));
      hide Next;
      OthersMove(t);
      if panicked {
        return Crashed;
      }
      if !ended {
        return Success;
      }
      Unlock(t);
      return Error;
    }

    /** The wait inside stop(), under the mutex. */
    method WaitHeld(t: Thread, final: bool) returns (o: Outcome)
      requires Valid() && !panicked && View().At(t) == StopWait(final)
      modifies this
      ensures old(moves) <= moves && Valid() && (o == Crashed <==> panicked)
      ensures o == Success ==> View().At(t) == if final then Stopped else StartLock
      ensures o == Success ==> handle.None? && |old(received)| < |received|
      ensures o != Crashed ==> |old(children)| <= |children|
      ensures o == Error ==> View().At(t) == Failed
      ensures o == Waiting ==> View().At(t) == StopWait(final) && Waits(t)
      ensures o != Crashed ==> (o == Waiting <==> old(waitResChan) == []) && (o == Success ==> old(waitResChan)[0].clean) &&
                               (o == Error ==> !old(waitResChan)[0].clean)
    {
      hide Exec;
      if waitResChan == [] {
        return Waiting;
      }
      var exit := waitResChan[0];
      waitResChan, received := [], received + [exit.child];
      GoTo(t, StopReset(final, exit));
      Log(Advance(t, false));
      OthersMove(t);
      if panicked {
        return Crashed;
      }
      o := Reset(t, final, exit);
    }

    method Reset(t: Thread, final: bool, exit: Exit) returns (o: Outcome)
      requires Valid() && !panicked && View().At(t) == StopReset(final, exit)
      modifies this
      ensures old(moves) <= moves && Valid() && (o == Crashed <==> panicked) && o != Waiting
      ensures o == Success ==> View().At(t) == (if final then Stopped else StartLock) && handle.None?
      ensures o != Crashed ==> |old(children)| <= |children|
      ensures o == Error ==> View().At(t) == Failed
      ensures o != Crashed ==> (o == Success <==> exit.clean)
      ensures o != Crashed ==> |old(received)| <= |received|
    {
      hide Exec, Inv, ChildrenOk;
      if exit.clean {
        handle := None;
      }
      GoTo(t, if exit.clean then StopUnlock(final) else Pc.Unlock(Failed));
      Log(Advance(t, false));
      if exit.clean {
        o := LeaveStopped(t, final);
        return;
      }
      hide Next, InCharge;
      OthersMove(t);
      if panicked {
        return Crashed;
      }
      Unlock(t);
      return Error;
    }

    /** The handle is nil and the mutex still held. */
    method LeaveStopped(t: Thread, final: bool) returns (o: Outcome)
      requires Valid() && !panicked && View().At(t) == StopUnlock(final) && handle.None?
      modifies this
      ensures old(moves) <= moves && Valid() && o == (if panicked then Crashed else Success)
      ensures o == Success ==> View().At(t) == (if final then Stopped else StartLock) && handle.None?
      ensures o == Success ==> |old(children)| <= |children| && |old(received)| <= |received|
    {
      hide Exec, Inv, ChildrenOk;
      InvAlways(moves);
      NoHandleNoLoss(View());
      OthersMove(t);
      if panicked {
        return Crashed;
      }
      mutex := None;
      GoTo(t, if final then Stopped else StartLock);
      Log(Advance(t, false));
      return Success;
    }

    // ------------------------------------------------------------ the exported functions

    /** Reads the handle without the mutex, stops a child if there is one, and starts another. */
    method Restart(t: Thread) returns (o: Outcome)
      requires Valid() && !panicked && View().At(t) == RestartRead
      modifies this
      ensures old(moves) <= moves && Valid() && (o == Crashed <==> panicked)
      ensures o == Success ==> View().At(t) == Idle && handle == Some(|children| - 1) && |old(children)| < |children|
      ensures o == Success ==> |old(received)| + (if old(handle).Some? then 1 else 0) <= |received|
      ensures o == Error ==> View().At(t) == Failed
      ensures o == Waiting ==> View().At(t) in {StopLock(false), StopWait(false), StartLock} && Waits(t)
    {
      hide Exec;
      var running := handle.Some?;
      GoTo(t, if running then StopLock(false) else StartLock);
      Log(Advance(t, false));
      hide Next;
      if running {
        o := Stop(t, false);
        if o != Success {
          return;
        }
      }
      o := Start(t);
    }

    /** On success there is a child behind the handle, started by this call exactly if `isNew`, that is if the
        handle was found nil. */
    method EnsureStarted() returns (o: Outcome, isNew: bool)
      requires Valid() && !panicked && update == Idle
      modifies this
      ensures old(moves) <= moves && Valid() && (o == Crashed <==> panicked)
      ensures o == Success ==> update == Idle && handle.Some?
      ensures o == Success && isNew ==> handle == Some(|children| - 1) && |old(children)| < |children|
      ensures o == Error ==> update == Failed && isNew
      ensures o == Waiting ==> update == StartLock && isNew && Waits(UpdateLoop)
      ensures o != Crashed ==> Met(moves, |old(moves)|, EnsureFinds(!isNew))
    {
      hide Exec;
      Call(UpdateLoop, EnsureRead);
      OthersMove(UpdateLoop);
      if panicked {
        return Crashed, false;
      }
      isNew := handle.None?;
      MetNow(moves, |old(moves)|, EnsureFinds(!isNew));
      ghost var met := moves;
      GoTo(UpdateLoop, if isNew then StartLock else Idle);
      Log(Advance(UpdateLoop, false));
      MetStays(met, moves, |old(moves)|, EnsureFinds(!isNew));
      if !isNew {
        return Success, false;
      }
      met := moves;
      o := Start(UpdateLoop);
      MetStays(met, moves, |old(moves)|, EnsureFinds(!isNew));
    }

    method Signal() returns (o: Outcome)
      requires Valid() && !panicked && update == Idle
      modifies this
      ensures old(moves) <= moves && Valid() && (o == Crashed <==> panicked)
      ensures o == Success || o == Error ==> update == Idle && Met(moves, |old(moves)|, SignalFinds(o == Success))
      ensures o == Waiting ==> update == SignalLock && Waits(UpdateLoop)
    {
      hide Exec;
      Call(UpdateLoop, SignalLock);
      OthersMove(UpdateLoop);
      if panicked {
        return Crashed;
      }
      var locked := Lock(UpdateLoop, SignalCheck);
      if !locked {
        return Waiting;
      }
      OthersMove(UpdateLoop);
      if panicked {
        return Crashed;
      }
      o := SignalHeld(|old(moves)|);
    }

    method SignalHeld(ghost since: nat) returns (o: Outcome)
      requires Valid() && !panicked && update == SignalCheck && since <= |moves|
      modifies this
      ensures old(moves) <= moves && Valid() && (o == Crashed <==> panicked) && o != Waiting
      ensures o != Crashed ==> update == Idle && Met(moves, since, SignalFinds(o == Success))
    {
      hide Exec, Inv, InCharge;
      var started := handle.Some?;
      if !started {
        MetNow(moves, since, SignalFinds(false));
      }
      GoTo(UpdateLoop, if started then SignalSend else Pc.Unlock(Idle));
      Log(Advance(UpdateLoop, false));
      hide Next;
      OthersMove(UpdateLoop);
      if panicked {
        return Crashed;
      }
      if started {
        o := SendSignal(since);
        return;
      }
      Unlock(UpdateLoop);
      MetStays(old(moves), moves, since, SignalFinds(false));
      return Error;
    }

    method SendSignal(ghost since: nat) returns (o: Outcome)
      requires Valid() && !panicked && update == SignalSend && since <= |moves|
      modifies this
      ensures old(moves) <= moves && Valid() && o == (if panicked then Crashed else Success)
      ensures o == Success ==> update == Idle && Met(moves, since, SignalFinds(true))
    {
      hide Exec, Inv, InCharge;
      if handle.None? {
        panicked := true;
        Log(Advance(UpdateLoop, false));
        return Crashed;
      }
      MetNow(moves, since, SignalFinds(true));
      GoTo(UpdateLoop, Pc.Unlock(Idle));
      Log(Advance(UpdateLoop, false));
      hide Next;
      OthersMove(UpdateLoop);
      if panicked {
        return Crashed;
      }
      Unlock(UpdateLoop);
      MetStays(old(moves), moves, since, SignalFinds(true));
      return Success;
    }

    /** True only if the child behind the handle has ended and its status waits in the channel; false only if,
        at some moment of this call, the other thread had the mutex or there was nothing to lose. */
    method Lost() returns (lost: bool)
      requires Valid() && !panicked && watch == Idle
      modifies this
      ensures old(moves) <= moves && Valid()
      ensures !panicked ==> watch == if lost then LostWait else Idle
      ensures !panicked ==> |old(received)| <= |received| && |old(children)| <= |children|
      ensures !panicked && lost ==> handle.Some? && waitResChan != [] && waitResChan[0].child == handle.value &&
                                    handle.value < |children| && children[handle.value].life == Reaped
      ensures !panicked && !lost ==> Met(moves, |old(moves)|, NothingLost)
    {
      hide Exec, Inv, InCharge;
      Call(Watchdog, LostTryLock);
      OthersMove(Watchdog);
      if panicked {
        return false;
      }
      if mutex.Some? {
        InvAlways(moves);
        LockIsOthers(View());
        MetNow(moves, |old(moves)|, NothingLost);
        ghost var met := moves;
        GoTo(Watchdog, Idle);
        Log(Advance(Watchdog, false));
        MetStays(met, moves, |old(moves)|, NothingLost);
        return false;
      }
      mutex := Some(Watchdog);
      GoTo(Watchdog, LostCheck);
      Log(Advance(Watchdog, false));
      hide Next;
      OthersMove(Watchdog);
      if panicked {
        return false;
      }
      lost := LostHeld(|old(moves)|);
    }

    /** Under the mutex. */
    method LostHeld(ghost since: nat) returns (lost: bool)
      requires Valid() && !panicked && watch == LostCheck && since <= |moves|
      modifies this
      ensures old(moves) <= moves && Valid()
      ensures !panicked ==> watch == if lost then LostWait else Idle
      ensures !panicked ==> |old(received)| <= |received| && |old(children)| <= |children|
      ensures !panicked && lost ==> handle.Some? && waitResChan != [] && waitResChan[0].child == handle.value &&
                                    handle.value < |children| && children[handle.value].life == Reaped
      ensures !panicked && !lost ==> Met(moves, since, NothingLost)
    {
      hide Exec, Inv, InCharge;
      lost := handle.Some? && waitResChan != [];
      if !lost {
        MetNow(moves, since, NothingLost);
      }
      GoTo(Watchdog, Pc.Unlock(if lost then LostWait else Idle));
      Log(Advance(Watchdog, false));
      hide Next;
      OthersMove(Watchdog);
      if panicked {
        return;
      }
      Unlock(Watchdog);
      InvAlways(moves);
      if lost {
        LostIsEnded(View());
      } else {
        MetStays(old(moves), moves, since, NothingLost);
      }
    }

    lemma LostIsEnded(s: State)
      requires Inv(s) && s.watch.LostWait?
      ensures s.handle.Some? && s.channel != [] && s.channel[0].child == s.handle.value
      ensures s.handle.value < |s.children| && s.children[s.handle.value].life == Reaped
    {
    }

    /** One tick of the watchdog. Success: there was nothing to do at some moment, or a status was received
        and a new child is behind the handle. The wait after lost() never waits: if the tick does not come back
        it waits for the mutex or for a status, at work on the restart. */
    method Tick() returns (o: Outcome)
      requires Valid() && !panicked && watch == Idle
      modifies this
      ensures old(moves) <= moves && Valid() && (o == Crashed <==> panicked)
      ensures o == Success ==> watch == Idle
      ensures o == Success ==>
                || Met(moves, |old(moves)|, NothingLost)
                || (|old(received)| < |received| && |old(children)| < |children| && handle == Some(|children| - 1))
      ensures o == Error ==> watch == Failed
      ensures o == Waiting ==> watch in {StopLock(false), StopWait(false), StartLock} && Waits(Watchdog)
    {
      hide Exec, Next, Inv, InCharge;
      var lost := Lost();
      if panicked {
        return Crashed;
      }
      if !lost {
        return Success;
      }
      hide Met;
      OthersMove(Watchdog);
      if panicked {
        return Crashed;
      }
      WaitAfterLostNeverBlocks(moves);
      o := WaitLost();
      if o != Success {
        return;
      }
      OthersMove(Watchdog);
      if panicked {
        return Crashed;
      }
      o := Restart(Watchdog);
    }

    /** The wait of the watchdog, without the mutex. */
    method WaitLost() returns (o: Outcome)
      requires Valid() && !panicked && watch == LostWait && waitResChan != []
      modifies this
      ensures old(moves) <= moves && Valid() && (o == Crashed <==> panicked) && o != Waiting
      ensures o == Success ==> watch == RestartRead && |old(received)| < |received| && |old(children)| <= |children|
      ensures o == Error ==> watch == Failed
      ensures o != Crashed ==> (o == Success <==> old(waitResChan)[0].clean)
    {
      hide Exec, Inv, InCharge;
      var exit := waitResChan[0];
      waitResChan, received := [], received + [exit.child];
      GoTo(Watchdog, LostReset(exit));
      Log(Advance(Watchdog, false));
      OthersMove(Watchdog);
      if panicked {
        return Crashed;
      }
      if exit.clean {
        handle := None;
      }
      GoTo(Watchdog, if exit.clean then RestartRead else Failed);
      Log(Advance(Watchdog, false));
      return if exit.clean then Success else Error;
    }

    /** A cancelled watchdog stops the child and ends. */
    method Cancel() returns (o: Outcome)
      requires Valid() && !panicked && watch == Idle
      modifies this
      ensures old(moves) <= moves && Valid() && (o == Crashed <==> panicked)
      ensures o == Success ==> watch == Stopped && handle.None?
      ensures o == Error ==> watch == Failed
      ensures o == Waiting ==> watch in {StopLock(true), StopWait(true)} && Waits(Watchdog)
    {
      Call(Watchdog, StopLock(true));
      o := Stop(Watchdog, true);
    }
  }
}
