/** The process manager of the IMEX daemon: an update loop and a watchdog that share a handle, a mutex and a
    one-slot result channel, with a reaper for every child that was started.

    One step is one access to shared state, so that the accesses made without the mutex (the handle in
    Restart and EnsureStarted, the receive and the reset in the watchdog's wait, the handle in the reaper)
    interleave with everything else. Starting a child and recording its handle is one step: in between
    the mutex is held, and whoever reads the old handle can only queue for the mutex. */
module ProcessSupervisor {
  import opened Basics

  datatype Thread = UpdateLoop | Watchdog

  type ChildId = nat

  /** A finished child is a zombie until its Wait returns. */
  datatype Life = Running | Zombie | Reaped

  /** A status that is not clean makes wait() return an error. */
  datatype Exit = Exit(child: ChildId, clean: bool)

  datatype Reaper = Launched | WaitingOn(child: ChildId) | Sending(exit: Exit) | Finished

  datatype Child = Child(life: Life, reaper: Reaper)

  /** Where a thread is. `final` tells the stop of a cancelled watchdog from the stop of a restart. */
  datatype Pc =
    | Idle
    | RestartRead
    | EnsureRead
    | StopLock(final: bool)
    | StopCheck(final: bool)
    | StopTerm(final: bool)
    | StopWait(final: bool)
    | StopReset(final: bool, exit: Exit)
    | StopUnlock(final: bool)
    | StartLock
    | StartCheck
    | StartSpawn
    | SignalLock
    | SignalCheck
    | SignalSend
    | LostTryLock
    | LostCheck
    | LostWait
    | LostReset(exit: Exit)
    | Unlock(next: Pc)
    | Failed
    | Stopped

  datatype State = State(
    handle: Option<ChildId>, lock: Option<Thread>, channel: seq<Exit>, children: seq<Child>,
    received: seq<ChildId>, update: Pc, watch: Pc, panicked: bool)
  {
    function At(t: Thread): Pc {
      if t == UpdateLoop then update else watch
    }

    function Go(t: Thread, pc: Pc): State {
      if t == UpdateLoop then this.(update := pc) else this.(watch := pc)
    }

    function Acquire(t: Thread, pc: Pc): Option<State> {
      if lock.None? then Some(this.(lock := Some(t)).Go(t, pc)) else None
    }
  }

  const INIT := State(None, None, [], [], [], Idle, Idle, false)

  datatype Move =
    | Call(t: Thread, pc: Pc)
    | Advance(t: Thread, fails: bool)
    | ChildExits(child: ChildId)
    | ReaperReads(child: ChildId)
    | WaitReturns(child: ChildId, clean: bool)
    | ReaperSends(child: ChildId)

  predicate MayCall(t: Thread, pc: Pc) {
    match t
    case UpdateLoop => pc in {RestartRead, EnsureRead, SignalLock}
    case Watchdog => pc in {LostTryLock, StopLock(true)}
  }

  /** The next state, or nothing if the move is not possible or has to wait. */
  function Next(s: State, m: Move): Option<State> {
    if s.panicked then None
    else
      match m
      case Call(t, pc) => if s.At(t) == Idle && MayCall(t, pc) then Some(s.Go(t, pc)) else None
      case Advance(t, fails) => Progress(s, t, fails)
      case ChildExits(c) =>
        if c < |s.children| && s.children[c].life == Running
        then Some(s.(children := s.children[c := s.children[c].(life := Zombie)])) else None
      case ReaperReads(c) =>
        if c < |s.children| && s.children[c].reaper == Launched then
          if s.handle.None? then Some(s.(panicked := true))
          else Some(s.(children := s.children[c := s.children[c].(reaper := WaitingOn(s.handle.value))]))
        else None
      case WaitReturns(c, clean) =>
        if c < |s.children| && s.children[c].reaper.WaitingOn? then
          var d := s.children[c].reaper.child;
          if d < |s.children| && s.children[d].life == Zombie then
            var reaped := s.children[d := s.children[d].(life := Reaped)];
            Some(s.(children := reaped[c := reaped[c].(reaper := Sending(Exit(d, clean)))]))
          else None
        else None
      case ReaperSends(c) =>
        if c < |s.children| && s.children[c].reaper.Sending? && s.channel == []
        then Some(s.(channel := [s.children[c].reaper.exit], children := s.children[c := s.children[c].(reaper := Finished)]))
        else None
  }

  function Progress(s: State, t: Thread, fails: bool): Option<State> {
    match s.At(t)
    case RestartRead => Some(s.Go(t, if s.handle.Some? then StopLock(false) else StartLock))
    case EnsureRead => Some(s.Go(t, if s.handle.Some? then Idle else StartLock))
    case StopLock(final) => s.Acquire(t, StopCheck(final))
    case StopCheck(final) => Some(s.Go(t, if s.handle.Some? then StopTerm(final) else Unlock(Failed)))
    case StopTerm(final) =>
      if s.handle.None? || s.handle.value >= |s.children| then Some(s.(panicked := true))
      else Some(s.Go(t, if s.children[s.handle.value].life == Reaped then Unlock(Failed) else StopWait(final)))
    case StopWait(final) =>
      if s.channel == [] then None
      else Some(s.(channel := [], received := s.received + [s.channel[0].child]).Go(t, StopReset(final, s.channel[0])))
    case StopReset(final, exit) =>
      Some(if exit.clean then s.(handle := None).Go(t, StopUnlock(final)) else s.Go(t, Unlock(Failed)))
    case StopUnlock(final) => Some(s.(lock := None).Go(t, if final then Stopped else StartLock))
    case StartLock => s.Acquire(t, StartCheck)
    case StartCheck => Some(s.Go(t, if s.handle.Some? then Unlock(Failed) else StartSpawn))
    case StartSpawn =>
      Some(if fails then s.Go(t, Unlock(Failed))
           else s.(handle := Some(|s.children|), children := s.children + [Child(Running, Launched)]).Go(t, Unlock(Idle)))
    case SignalLock => s.Acquire(t, SignalCheck)
    case SignalCheck => Some(s.Go(t, if s.handle.Some? then SignalSend else Unlock(Idle)))
    case SignalSend => Some(if s.handle.None? then s.(panicked := true) else s.Go(t, Unlock(Idle)))
    case LostTryLock => Some(if s.lock.Some? then s.Go(t, Idle) else s.(lock := Some(t)).Go(t, LostCheck))
    case LostCheck => Some(s.Go(t, Unlock(if s.handle.Some? && s.channel != [] then LostWait else Idle)))
    case LostWait =>
      if s.channel == [] then None
      else Some(s.(channel := [], received := s.received + [s.channel[0].child]).Go(t, LostReset(s.channel[0])))
    case LostReset(exit) => Some(if exit.clean then s.(handle := None).Go(t, RestartRead) else s.Go(t, Failed))
    case Unlock(next) => Some(s.(lock := None).Go(t, next))
    case Idle => None
    case Failed => None
    case Stopped => None
  }

  function Exec(s: State, moves: seq<Move>): Option<State> {
    if moves == [] then Some(s)
    else
      var before := Exec(s, moves[..|moves| - 1]);
      if before.None? then None else Next(before.value, moves[|moves| - 1])
  }

  // ------------------------------------------------------------------- the invariant

  predicate HoldsLock(pc: Pc) {
    || pc.StopCheck? || pc.StopTerm? || pc.StopWait? || pc.StopReset? || pc.StopUnlock? || pc.StartCheck? || pc.StartSpawn?
    || pc.SignalCheck? || pc.SignalSend? || pc.LostCheck? || pc.Unlock?
  }

  predicate WatchdogOnly(pc: Pc) {
    || pc.LostTryLock? || pc.LostCheck? || pc.LostWait? || pc.LostReset? || pc == Unlock(LostWait)
  }

  predicate NextIsPlain(pc: Pc) {
    pc.Unlock? ==> pc.next in {Failed, Idle, LostWait}
  }

  /** A former child: reaped, its status sent and received. */
  predicate Retired(s: State, c: ChildId) {
    c < |s.children| && s.children[c] == Child(Reaped, Finished) && c in s.received
  }

  /** The child behind the handle, from its start until its status has been received. */
  predicate CurrentOk(s: State, c: ChildId) {
    && c < |s.children|
    && match s.children[c].reaper
       case Launched => s.children[c].life != Reaped && s.channel == [] && c !in s.received
       case WaitingOn(d) => d == c && s.children[c].life != Reaped && s.channel == [] && c !in s.received
       case Sending(e) => e.child == c && s.children[c].life == Reaped && s.channel == [] && c !in s.received
       case Finished =>
         && s.children[c].life == Reaped
         && ((|s.channel| == 1 && s.channel[0].child == c && c !in s.received) || (s.channel == [] && c in s.received))
  }

  predicate ThreadOk(s: State, t: Thread, pc: Pc) {
    && (HoldsLock(pc) <==> s.lock == Some(t))
    && (WatchdogOnly(pc) ==> t == Watchdog)
    && NextIsPlain(pc)
    && (pc.LostWait? || pc == Unlock(LostWait) ==> s.handle.Some? && s.channel != [])
    && (pc.StopWait? ==> s.handle.Some? && s.handle.value !in s.received)
    && (pc.StopReset? || pc.LostReset? ==> s.handle.Some? && s.handle.value in s.received)
    && (pc.StartSpawn? ==> s.handle.None?)
  }

  /** The mutex does not cover the watchdog's wait; these are the places where that is harmless. */
  predicate Exclusive(a: Pc, b: Pc) {
    && (a.StopWait? ==> !b.LostWait?)
    && (a.StopReset? ==> !b.LostReset?)
  }

  predicate Distinct(ids: seq<ChildId>) {
    forall i, k :: 0 <= i < k < |ids| ==> ids[i] != ids[k]
  }

  predicate ChildrenOk(s: State) {
    && (forall c :: 0 <= c < |s.children| && s.handle != Some(c) ==> Retired(s, c))
    && (s.handle.Some? ==> CurrentOk(s, s.handle.value))
    && (s.handle.None? ==> s.channel == [])
    && Distinct(s.received) && (forall c :: c in s.received ==> c < |s.children|)
  }

  predicate Inv(s: State) {
    && ChildrenOk(s)
    && ThreadOk(s, UpdateLoop, s.update) && ThreadOk(s, Watchdog, s.watch)
    && Exclusive(s.update, s.watch)
  }

  lemma CallKeepsInv(s: State, m: Move)
    requires Inv(s) && m.Call? && Next(s, m).Some?
    ensures Inv(Next(s, m).value)
  {
  }

  lemma UnfinishedIsCurrent(s: State, c: ChildId)
    requires ChildrenOk(s) && c < |s.children|
    ensures s.children[c] != Child(Reaped, Finished) || c !in s.received ==> s.handle == Some(c) && CurrentOk(s, c)
  {
    assert s.handle != Some(c) ==> Retired(s, c);
  }

  /** Only the current child has a reaper that is not finished, and that reaper is its own. */
  lemma ChildMoveKeepsInv(s: State, m: Move)
    requires Inv(s) && !m.Call? && !m.Advance? && Next(s, m).Some?
    ensures Inv(Next(s, m).value) && !Next(s, m).value.panicked
  {
    var c := m.child;
    UnfinishedIsCurrent(s, c);
    var t := Next(s, m).value;
    forall d | 0 <= d < |t.children| && t.handle != Some(d) ensures Retired(t, d) {
      assert Retired(s, d);
    }
  }

  predicate Receives(pc: Pc) {
    pc.StopWait? || pc.LostWait?
  }

  predicate Resets(pc: Pc) {
    pc.StopReset? || pc.LostReset?
  }

  predicate Plain(s: State, t: Thread, fails: bool) {
    && !s.panicked && Progress(s, t, fails).Some? && !Progress(s, t, fails).value.panicked
    && !Receives(s.At(t)) && !Resets(s.At(t)) && !s.At(t).StartSpawn?
  }

  function Other(t: Thread): Thread {
    if t == UpdateLoop then Watchdog else UpdateLoop
  }

  lemma PlainStepMovesLittle(s: State, t: Thread, fails: bool)
    requires Plain(s, t, fails)
    ensures var n := Progress(s, t, fails).value;
            && n.handle == s.handle && n.channel == s.channel && n.children == s.children && n.received == s.received
            && n.At(Other(t)) == s.At(Other(t))
  {
  }

  lemma MovedThreadIsOk(s: State, t: Thread, fails: bool)
    requires Inv(s) && Plain(s, t, fails)
    ensures ThreadOk(Progress(s, t, fails).value, t, Progress(s, t, fails).value.At(t))
  {
    hide ChildrenOk;
    if s.handle.Some? {
      StopTermSparesFinished(s);
    }
  }

  lemma OtherThreadIsOk(s: State, t: Thread, fails: bool)
    requires Inv(s) && Plain(s, t, fails)
    ensures ThreadOk(Progress(s, t, fails).value, Other(t), s.At(Other(t)))
  {
    hide ChildrenOk;
    PlainStepMovesLittle(s, t, fails);
  }

  lemma StillExclusive(s: State, t: Thread, fails: bool)
    requires Inv(s) && Plain(s, t, fails)
    ensures Exclusive(Progress(s, t, fails).value.update, Progress(s, t, fails).value.watch)
  {
    hide ChildrenOk;
    if s.handle.Some? {
      StopTermSparesFinished(s);
    }
  }

  lemma PlainStepKeepsInv(s: State, t: Thread, fails: bool)
    requires Inv(s) && Plain(s, t, fails)
    ensures Inv(Progress(s, t, fails).value)
  {
    hide ChildrenOk, ThreadOk, Exclusive, Progress;
    PlainStepMovesLittle(s, t, fails);
    MovedThreadIsOk(s, t, fails);
    OtherThreadIsOk(s, t, fails);
    StillExclusive(s, t, fails);
    SameChildren(s, Progress(s, t, fails).value);
  }

  lemma SameChildren(s: State, n: State)
    requires ChildrenOk(s)
    requires n.handle == s.handle && n.channel == s.channel && n.children == s.children && n.received == s.received
    ensures ChildrenOk(n)
  {
    assert forall c :: Retired(n, c) == Retired(s, c);
  }

  lemma StopTermSparesFinished(s: State)
    requires ChildrenOk(s) && s.handle.Some?
    ensures s.handle.value < |s.children|
    ensures s.children[s.handle.value].life != Reaped ==> s.handle.value !in s.received && s.channel == []
  {
  }

  lemma SpawnKeepsInv(s: State, t: Thread, fails: bool)
    requires Inv(s) && !s.panicked && s.At(t).StartSpawn?
    ensures Inv(Progress(s, t, fails).value)
  {
    var n := Progress(s, t, fails).value;
    forall c | 0 <= c < |n.children| && n.handle != Some(c) ensures Retired(n, c) {
      assert Retired(s, c);
    }
  }

  lemma ReceiveKeepsInv(s: State, t: Thread, fails: bool)
    requires Inv(s) && !s.panicked && Receives(s.At(t)) && Progress(s, t, fails).Some?
    ensures Inv(Progress(s, t, fails).value)
  {
    var n := Progress(s, t, fails).value;
    var c := s.handle.value;
    assert s.channel[0].child == c && n.received == s.received + [c];
    forall d | 0 <= d < |n.children| && n.handle != Some(d) ensures Retired(n, d) {
      assert Retired(s, d);
    }
  }

  lemma ResetKeepsInv(s: State, t: Thread, fails: bool)
    requires Inv(s) && !s.panicked && Resets(s.At(t))
    ensures Inv(Progress(s, t, fails).value)
  {
    var n := Progress(s, t, fails).value;
    forall d | 0 <= d < |n.children| && n.handle != Some(d) ensures Retired(n, d) {
      if s.handle != Some(d) {
        assert Retired(s, d);
      }
    }
  }

  lemma StepKeepsInv(s: State, m: Move)
    requires Inv(s) && Next(s, m).Some? && !Next(s, m).value.panicked
    ensures Inv(Next(s, m).value)
  {
    hide Inv;
    match m
    case Call(_, _) =>
      CallKeepsInv(s, m);
    case Advance(t, fails) =>
      if s.At(t).StartSpawn? {
        SpawnKeepsInv(s, t, fails);
      } else if Receives(s.At(t)) {
        ReceiveKeepsInv(s, t, fails);
      } else if Resets(s.At(t)) {
        ResetKeepsInv(s, t, fails);
      } else {
        PlainStepKeepsInv(s, t, fails);
      }
    case _ =>
      ChildMoveKeepsInv(s, m);
  }

  lemma {:induction false} InvAlways(moves: seq<Move>)
    requires Exec(INIT, moves).Some? && !Exec(INIT, moves).value.panicked
    ensures Inv(Exec(INIT, moves).value)
  {
    if moves != [] {
      InvAlways(moves[..|moves| - 1]);
      StepKeepsInv(Exec(INIT, moves[..|moves| - 1]).value, moves[|moves| - 1]);
    }
  }

  // --------------------------------------------------------------------- theorems

  /** However the two threads, the children and their reapers interleave: at most one child is not yet
      reaped, namely the one behind the handle; without a handle none is, and the channel is empty. */
  lemma AtMostOneUnreaped(moves: seq<Move>)
    requires Exec(INIT, moves).Some? && !Exec(INIT, moves).value.panicked
    ensures var s := Exec(INIT, moves).value;
            && (forall c :: 0 <= c < |s.children| && s.children[c].life != Reaped ==> s.handle == Some(c))
            && (s.handle.None? ==> s.channel == [])
  {
    InvAlways(moves);
    var s := Exec(INIT, moves).value;
    forall c | 0 <= c < |s.children| && s.children[c].life != Reaped ensures s.handle == Some(c) {
      UnfinishedIsCurrent(s, c);
    }
  }

  /** No exit status is received twice, and a child is given up only after its status was received. */
  lemma EveryStatusIsReceivedOnce(moves: seq<Move>)
    requires Exec(INIT, moves).Some? && !Exec(INIT, moves).value.panicked
    ensures var s := Exec(INIT, moves).value;
            && Distinct(s.received)
            && (forall c :: 0 <= c < |s.children| && s.handle != Some(c) ==> c in s.received)
            && (forall c :: c in s.received ==> c < |s.children| && s.children[c] == Child(Reaped, Finished))
  {
    InvAlways(moves);
    ReceivedAreFinished(Exec(INIT, moves).value);
  }

  lemma ReceivedAreFinished(s: State)
    requires ChildrenOk(s)
    ensures forall c :: 0 <= c < |s.children| && s.handle != Some(c) ==> c in s.received
    ensures forall c :: c in s.received ==> c < |s.children| && s.children[c] == Child(Reaped, Finished)
  {
    forall c | 0 <= c < |s.children|
      ensures s.handle != Some(c) ==> c in s.received
      ensures c in s.received ==> s.children[c] == Child(Reaped, Finished)
    {
      UnfinishedIsCurrent(s, c);
    }
  }

  /** A reaper reads the handle late and without the mutex, and still finds it set, to the child whose
      start launched the reaper; its send finds the slot free. */
  lemma ReapersTendTheirOwnChild(moves: seq<Move>, c: ChildId)
    requires Exec(INIT, moves).Some? && !Exec(INIT, moves).value.panicked
    requires c < |Exec(INIT, moves).value.children|
    ensures var s := Exec(INIT, moves).value;
            && (s.children[c].reaper == Launched ==> s.handle == Some(c))
            && (s.children[c].reaper.WaitingOn? ==> s.children[c].reaper.child == c)
            && (s.children[c].reaper.Sending? ==> s.children[c].reaper.exit.child == c && s.channel == [])
  {
    InvAlways(moves);
    UnfinishedIsCurrent(Exec(INIT, moves).value, c);
  }

  /** Once lost() has returned true, the wait that follows finds a status in the channel, whatever the
      update loop does in between; and the status is that of the child behind the handle. */
  lemma WaitAfterLostNeverBlocks(moves: seq<Move>)
    requires Exec(INIT, moves).Some? && !Exec(INIT, moves).value.panicked
    ensures var s := Exec(INIT, moves).value;
            s.watch.LostWait? ==>
              s.channel != [] && s.handle == Some(s.channel[0].child) && Next(s, Advance(Watchdog, false)).Some?
  {
    InvAlways(moves);
  }

  // ------------------------------------------------------------ a nil dereference

  /** stop() and Signal() check the handle and then use it, all under the mutex; the watchdog resets the
      handle without it. `t` is between check and use. */
  predicate HasCheckedHandle(pc: Pc) {
    pc.StopTerm? || pc.SignalSend?
  }

  /** The watchdog has seen the child lost and will, on a clean status, reset the handle next. */
  predicate AboutToReset(s: State) {
    || (s.watch.LostWait? && s.channel != [] && s.channel[0].clean)
    || (s.watch.LostReset? && s.watch.exit.clean)
  }

  predicate IsMoveOf(t: Thread, m: Move) {
    (m.Call? || m.Advance?) && m.t == t
  }

  /** While the update loop is between check and use, other moves leave it there, and leave the handle
      alone unless the watchdog is about to reset it. */
  lemma OthersLeaveHandle(s: State, m: Move)
    requires Inv(s) && !s.panicked && HasCheckedHandle(s.update) && s.handle.Some? && !AboutToReset(s)
    requires !IsMoveOf(UpdateLoop, m) && Next(s, m).Some?
    ensures var n := Next(s, m).value;
            !n.panicked && Inv(n) && n.update == s.update && n.handle == s.handle && !AboutToReset(n)
  {
    if !m.Call? && !m.Advance? {
      ChildMoveKeepsInv(s, m);
    } else {
      WatchdogLeavesHandle(s, m);
      StepKeepsInv(s, m);
    }
  }

  lemma WatchdogLeavesHandle(s: State, m: Move)
    requires Inv(s) && !s.panicked && HasCheckedHandle(s.update) && s.handle.Some? && !AboutToReset(s)
    requires IsMoveOf(Watchdog, m) && Next(s, m).Some?
    ensures var n := Next(s, m).value;
            !n.panicked && n.update == s.update && n.handle == s.handle && !AboutToReset(n)
  {
    hide ChildrenOk;
  }

  lemma {:induction false} HandleSurvives(s: State, others: seq<Move>)
    requires Inv(s) && !s.panicked && HasCheckedHandle(s.update) && s.handle.Some? && !AboutToReset(s)
    requires forall i :: 0 <= i < |others| ==> !IsMoveOf(UpdateLoop, others[i])
    requires Exec(s, others).Some?
    ensures var n := Exec(s, others).value;
            !n.panicked && Inv(n) && n.update == s.update && n.handle == s.handle && !AboutToReset(n)
  {
    if others != [] {
      HandleSurvives(s, others[..|others| - 1]);
      OthersLeaveHandle(Exec(s, others[..|others| - 1]).value, others[|others| - 1]);
    }
  }

  ghost predicate CanPanicNext(s: State) {
    exists others: seq<Move> ::
      && (forall i :: 0 <= i < |others| ==> !IsMoveOf(UpdateLoop, others[i]))
      && Exec(s, others + [Advance(UpdateLoop, false)]).Some?
      && Exec(s, others + [Advance(UpdateLoop, false)]).value.panicked
  }

  lemma ExecSnoc(s: State, moves: seq<Move>, m: Move)
    ensures Exec(s, moves + [m]) == if Exec(s, moves).Some? then Next(Exec(s, moves).value, m) else None
  {
    assert (moves + [m])[..|moves|] == moves;
  }

  /** The update loop, having checked the handle, can find it nil when it uses it exactly when the watchdog
      has by then found the child lost, with a clean status, and not yet reset the handle. */
  lemma NilHandleIff(s: State)
    requires Inv(s) && !s.panicked && HasCheckedHandle(s.update) && s.handle.Some?
    ensures CanPanicNext(s) <==> AboutToReset(s)
  {
    if AboutToReset(s) {
      WatchdogCanInterfere(s);
    } else if others: seq<Move> :|
        && (forall i :: 0 <= i < |others| ==> !IsMoveOf(UpdateLoop, others[i]))
        && Exec(s, others + [Advance(UpdateLoop, false)]).Some?
        && Exec(s, others + [Advance(UpdateLoop, false)]).value.panicked
    {
      ExecSnoc(s, others, Advance(UpdateLoop, false));
      HandleSurvives(s, others);
      CheckedHandleIsUsable(Exec(s, others).value);
      assert false;
    }
  }

  lemma CheckedHandleIsUsable(s: State)
    requires Inv(s) && !s.panicked && HasCheckedHandle(s.update) && s.handle.Some?
    ensures !Progress(s, UpdateLoop, false).value.panicked
  {
    StopTermSparesFinished(s);
  }

  lemma ResetThenUse(s: State)
    requires !s.panicked && HasCheckedHandle(s.update) && s.watch.LostReset? && s.watch.exit.clean
    ensures var n := Next(s, Advance(Watchdog, false));
            && n.Some? && Next(n.value, Advance(UpdateLoop, false)).Some?
            && Next(n.value, Advance(UpdateLoop, false)).value.panicked
  {
  }

  lemma ReceiveThenReset(s: State)
    requires !s.panicked && s.watch.LostWait? && s.channel != []
    ensures var n := Next(s, Advance(Watchdog, false));
            n.Some? && !n.value.panicked && n.value.update == s.update && n.value.watch == LostReset(s.channel[0])
  {
  }

  lemma PanicWitness(s: State, others: seq<Move>, n: State)
    requires forall i :: 0 <= i < |others| ==> others[i] == Advance(Watchdog, false)
    requires Exec(s, others) == Some(n)
    requires var r := Next(n, Advance(UpdateLoop, false)); r.Some? && r.value.panicked
    ensures CanPanicNext(s)
  {
    hide Next;
    ExecSnoc(s, others, Advance(UpdateLoop, false));
  }

  lemma OneStep(s: State, m: Move)
    ensures Exec(s, [m]) == Next(s, m)
  {
    hide Next;
    assert [] + [m] == [m] && Exec(s, []) == Some(s);
    ExecSnoc(s, [], m);
  }

  lemma TwoSteps(s: State, m: Move, n: Move)
    requires Next(s, m).Some?
    ensures Exec(s, [m, n]) == Next(Next(s, m).value, n)
  {
    hide Next;
    OneStep(s, m);
    assert [m] + [n] == [m, n];
    ExecSnoc(s, [m], n);
  }

  lemma WatchdogCanInterfere(s: State)
    requires !s.panicked && HasCheckedHandle(s.update) && AboutToReset(s)
    ensures CanPanicNext(s)
  {
    hide Exec, Next, HasCheckedHandle, CanPanicNext;
    var w := Advance(Watchdog, false);
    if s.watch.LostWait? {
      ReceiveThenReset(s);
      var n := Next(s, w).value;
      ResetThenUse(n);
      TwoSteps(s, w, w);
      PanicWitness(s, [w, w], Next(n, w).value);
    } else {
      ResetThenUse(s);
      OneStep(s, w);
      PanicWitness(s, [w], Next(s, w).value);
    }
  }

  // that such a state is reachable

  lemma Then(moves: seq<Move>, s: State, m: Move, n: State) returns (r: seq<Move>)
    requires Exec(INIT, moves) == Some(s) && Next(s, m) == Some(n)
    ensures r == moves + [m] && Exec(INIT, r) == Some(n)
  {
    r := moves + [m];
    ExecSnoc(INIT, moves, m);
  }

  /** The update loop has started child 0. */
  function WithChild(life: Life, reaper: Reaper, channel: seq<Exit>, watch: Pc): State {
    State(Some(0), None, channel, [Child(life, reaper)], [], Idle, watch, false)
  }

  lemma SpawnIsReached() returns (moves: seq<Move>)
    ensures Exec(INIT, moves) == Some(INIT.(update := StartSpawn, lock := Some(UpdateLoop)))
  {
    var u := Advance(UpdateLoop, false);
    assert Exec(INIT, []) == Some(INIT);
    hide Exec;
    var s1 := INIT.(update := RestartRead);
    var s2 := INIT.(update := StartLock);
    var s3 := INIT.(update := StartCheck, lock := Some(UpdateLoop));
    moves := Then([], INIT, Call(UpdateLoop, RestartRead), s1);
    moves := Then(moves, s1, u, s2);
    moves := Then(moves, s2, u, s3);
    moves := Then(moves, s3, u, s3.(update := StartSpawn));
  }

  lemma ChildIsStarted() returns (moves: seq<Move>)
    ensures Exec(INIT, moves) == Some(WithChild(Running, Launched, [], Idle))
  {
    hide Exec;
    moves := SpawnIsReached();
    var u := Advance(UpdateLoop, false);
    var s4 := INIT.(update := StartSpawn, lock := Some(UpdateLoop));
    var s5 := s4.(update := Unlock(Idle), handle := Some(0), children := [Child(Running, Launched)]);
    assert [] + [Child(Running, Launched)] == [Child(Running, Launched)];
    moves := Then(moves, s4, u, s5);
    moves := Then(moves, s5, u, WithChild(Running, Launched, [], Idle));
  }

  lemma ChildHasEnded() returns (moves: seq<Move>)
    ensures Exec(INIT, moves) == Some(WithChild(Reaped, Finished, [Exit(0, true)], Idle))
  {
    hide Exec;
    var s0 := WithChild(Running, Launched, [], Idle);
    var s1 := WithChild(Running, WaitingOn(0), [], Idle);
    var s2 := WithChild(Zombie, WaitingOn(0), [], Idle);
    var s3 := WithChild(Reaped, Sending(Exit(0, true)), [], Idle);
    moves := ChildIsStarted();
    assert s0.children[0 := s1.children[0]] == s1.children;
    moves := Then(moves, s0, ReaperReads(0), s1);
    assert s1.children[0 := s2.children[0]] == s2.children;
    moves := Then(moves, s1, ChildExits(0), s2);
    assert s2.children[0 := Child(Reaped, WaitingOn(0))][0 := s3.children[0]] == s3.children;
    moves := Then(moves, s2, WaitReturns(0, true), s3);
    assert s3.children[0 := Child(Reaped, Finished)] == [Child(Reaped, Finished)];
    moves := Then(moves, s3, ReaperSends(0), WithChild(Reaped, Finished, [Exit(0, true)], Idle));
  }

  /** The watchdog's lost() has returned true. */
  lemma ChildIsLost() returns (moves: seq<Move>)
    ensures Exec(INIT, moves) == Some(WithChild(Reaped, Finished, [Exit(0, true)], LostWait))
  {
    hide Exec;
    var w := Advance(Watchdog, false);
    var s0 := WithChild(Reaped, Finished, [Exit(0, true)], Idle);
    var s1 := s0.(watch := LostTryLock);
    var s2 := s0.(watch := LostCheck, lock := Some(Watchdog));
    var s3 := s2.(watch := Unlock(LostWait));
    moves := ChildHasEnded();
    moves := Then(moves, s0, Call(Watchdog, LostTryLock), s1);
    moves := Then(moves, s1, w, s2);
    moves := Then(moves, s2, w, s3);
    moves := Then(moves, s3, w, WithChild(Reaped, Finished, [Exit(0, true)], LostWait));
  }

  /** From the start: a child ends by itself, the watchdog finds it lost, the update loop enters Signal and
      checks the handle, the watchdog resets it, and the update loop dereferences nil. */
  lemma NilDereferenceIsReachable() returns (moves: seq<Move>)
    ensures Exec(INIT, moves).Some? && Exec(INIT, moves).value.panicked
  {
    hide Exec;
    var u, w := Advance(UpdateLoop, false), Advance(Watchdog, false);
    var s0 := WithChild(Reaped, Finished, [Exit(0, true)], LostWait);
    var s1 := s0.(update := SignalLock);
    var s2 := s0.(update := SignalCheck, lock := Some(UpdateLoop));
    var s3 := s2.(update := SignalSend);
    moves := ChildIsLost();
    moves := Then(moves, s0, Call(UpdateLoop, SignalLock), s1);
    moves := Then(moves, s1, u, s2);
    moves := Then(moves, s2, u, s3);
    ReceiveThenReset(s3);
    var s4 := Next(s3, w).value;
    moves := Then(moves, s3, w, s4);
    ResetThenUse(s4);
    var s5 := Next(s4, w).value;
    moves := Then(moves, s4, w, s5);
    moves := Then(moves, s5, u, Next(s5, u).value);
  }
}
