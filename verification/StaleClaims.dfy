/** The background cleanup of half-prepared claims: it reads the checkpoint without a lock, asks the API
    server by name, and unprepares what the server no longer knows. */
module StaleClaims {
  import opened Basics
  import opened GpuProtocol

  // ------------------------------------------------------------------- API server

  datatype ClaimName = ClaimName(namespace_: string, name: string)

  /** Live claims by name, and the name under which every UID that was ever used was created. */
  datatype Server = Server(live: map<ClaimName, Uid>, nameOf: map<Uid, ClaimName>) {
    ghost predicate Ok() {
      forall n :: n in live ==> live[n] in nameOf && nameOf[live[n]] == n
    }

    predicate Present(uid: Uid) {
      exists n :: n in live && live[n] == uid
    }
  }

  datatype ServerStep = CreateClaim(n: ClaimName, uid: Uid) | DeleteClaim(n: ClaimName)

  /** A name is unique among live claims, and a UID is never used again. */
  function Serve(s: Server, step: ServerStep): Server {
    match step
    case CreateClaim(n, uid) =>
      if n in s.live || uid in s.nameOf then s else Server(s.live[n := uid], s.nameOf[uid := n])
    case DeleteClaim(n) => s.(live := s.live - {n})
  }

  function ServeAll(s: Server, steps: seq<ServerStep>): Server {
    if steps == [] then s else Serve(ServeAll(s, steps[..|steps| - 1]), steps[|steps| - 1])
  }

  lemma {:induction false} ServerStaysOk(s: Server, steps: seq<ServerStep>)
    requires s.Ok()
    ensures ServeAll(s, steps).Ok()
    ensures forall uid :: uid in s.nameOf ==> uid in ServeAll(s, steps).nameOf && ServeAll(s, steps).nameOf[uid] == s.nameOf[uid]
  {
    if steps != [] {
      ServerStaysOk(s, steps[..|steps| - 1]);
    }
  }

  lemma {:induction false} ServeInTurn(s: Server, a: seq<ServerStep>, b: seq<ServerStep>)
    ensures ServeAll(s, a + b) == ServeAll(ServeAll(s, a), b)
  {
    if b == [] {
      assert a + b == a;
    } else {
      assert (a + b)[..|a + b| - 1] == a + b[..|b| - 1];
      ServeInTurn(s, a, b[..|b| - 1]);
    }
  }

  /** A UID that has been used and is not present is gone for good. */
  predicate Gone(s: Server, uid: Uid) {
    uid in s.nameOf && !s.Present(uid)
  }

  lemma {:induction false} GoneForGood(s: Server, steps: seq<ServerStep>, uid: Uid)
    requires s.Ok() && Gone(s, uid)
    ensures Gone(ServeAll(s, steps), uid)
  {
    if steps != [] {
      var init := steps[..|steps| - 1];
      GoneForGood(s, init, uid);
      var t, n := ServeAll(s, init), ServeAll(s, steps);
      forall c | c in n.live ensures n.live[c] != uid {
        assert c in t.live && t.live[c] == n.live[c] ==> n.live[c] != uid;
      }
    }
  }

  /** Asking by the name recorded for a UID and comparing UIDs tells for certain whether it is gone. */
  lemma LookupDecides(s: Server, uid: Uid)
    requires s.Ok() && uid in s.nameOf
    ensures var n := s.nameOf[uid]; Gone(s, uid) <==> n !in s.live || s.live[n] != uid
  {
    var n := s.nameOf[uid];
    if n in s.live && s.live[n] == uid {
      assert s.Present(uid);
    }
    forall c | c in s.live && s.live[c] == uid ensures c == n {
    }
  }

  // ---------------------------------------------------------------------- cleanup

  type Claims = map<Uid, PreparedClaim>

  function NameIn(claim: PreparedClaim): ClaimName {
    ClaimName(claim.namespace_, claim.name)
  }

  /** Where a checkpoint entry carries a name, it is the one under which the claim was created. */
  ghost predicate Truthful(s: Server, claims: Claims) {
    forall uid :: uid in claims && claims[uid].name != "" ==> CreatedAs(s, uid, claims[uid])
  }

  predicate CreatedAs(s: Server, uid: Uid, claim: PreparedClaim) {
    uid in s.nameOf && s.nameOf[uid].name == claim.name && s.nameOf[uid].namespace_ == claim.namespace_
  }

  datatype Lookup = Found(uid: Uid) | NotFound | Unavailable

  class CheckpointCleanupManager {
    var server: Server
    var checkpoint: Claims
    var queued: bool

    /** Which claims were handed to Unprepare, and how often the server did not answer or an Unprepare
        failed. */
    ghost var handed: seq<Uid>
    ghost var faults: nat

    ghost var past: seq<ServerStep>
    ghost const first: Server

    ghost predicate Valid()
      reads this`server, this`checkpoint, this`past
    {
      first.Ok() && server == ServeAll(first, past) && Truthful(server, checkpoint)
    }

    constructor (server: Server, checkpoint: Claims)
      requires server.Ok() && Truthful(server, checkpoint)
      ensures Valid() && this.server == server && this.checkpoint == checkpoint && !queued
    {
      this.server, this.checkpoint, this.queued := server, checkpoint, false;
      this.past, this.first, this.handed, this.faults := [], server, [], 0;
    }

    /** Meanwhile: claims come and go, and kubelet calls change the checkpoint. */
    method OthersAct(steps: seq<ServerStep>, claims: Claims)
      requires Valid()
      modifies this`server, this`checkpoint, this`past
      ensures Valid() && server == ServeAll(old(server), steps)
    {
      ServeInTurn(first, past, steps);
      server := ServeAll(server, steps);
      past := past + steps;
      checkpoint := map uid | uid in claims && (claims[uid].name == "" || CreatedAs(server, uid, claims[uid])) :: claims[uid];
    }

    method GetClaimByName(n: ClaimName) returns (r: Lookup)
      modifies this`faults
      ensures faults == old(faults) + if r.Unavailable? then 1 else 0
      ensures r.Found? ==> n in server.live && server.live[n] == r.uid
      ensures r.NotFound? ==> n !in server.live
    {
      if * {
        faults := faults + 1;
        return Unavailable;
      }
      return if n in server.live then Found(server.live[n]) else Lookup.NotFound;
    }

    /** One attempt; on success the entry is dropped. Only claims that are gone may be handed in. */
    method Unprepare(uid: Uid) returns (r: Result<()>)
      requires Valid() && Gone(server, uid)
      modifies this`checkpoint, this`handed, this`faults
      ensures Valid() && handed == old(handed) + [uid] && faults == old(faults) + if r.Err? then 1 else 0
      ensures checkpoint == if r.Ok? then old(checkpoint) - {uid} else old(checkpoint)
    {
      handed := handed + [uid];
      if * {
        faults := faults + 1;
        return Err(DeviceFailure);
      }
      checkpoint := checkpoint - {uid};
      return Ok(());
    }

    /** `uid` was in the checkpoint, under this name, when the cleanup read it; anything may have happened
        since. A claim that was present after that is not touched, and one that was gone before is, unless
        its name is missing or the server does not answer. */
    method UnprepareIfStale(uid: Uid, claim: PreparedClaim, meanwhile: seq<ServerStep>, claims: Claims)
      returns (attempted: bool, unanswered: bool)
      requires Valid() && (claim.name != "" ==> CreatedAs(server, uid, claim))
      modifies this`server, this`checkpoint, this`past, this`handed, this`faults
      ensures Valid() && (server == old(server) || server == ServeAll(old(server), meanwhile))
      ensures attempted ==> Gone(old(server), uid) && Gone(server, uid)
      ensures Gone(old(server), uid) && claim.name != "" && !unanswered ==> attempted
      ensures handed == old(handed) + (if attempted then [uid] else [])
      ensures faults >= old(faults) && (unanswered ==> !attempted && faults > old(faults))
      ensures attempted ==> uid !in checkpoint || faults > old(faults)
      ensures !attempted && server == old(server) ==> checkpoint == old(checkpoint)
    {
      attempted, unanswered := false, false;
      if claim.name == "" {
        return;
      }
      ServerStaysOk(first, past);
      LookupDecides(server, uid);
      var r := GetClaimByName(NameIn(claim));
      if r.Unavailable? {
        unanswered := true;
        return;
      }
      if r.Found? && r.uid == uid {
        return;
      }
      GoneForGood(server, meanwhile, uid);
      OthersAct(meanwhile, claims);
      attempted := true;
      var _ := Unprepare(uid);
    }

    /** `schedule` says what happens in between, claim by claim. Whatever is unprepared is gone from the
        server, then and ever after; whatever had a name, was half prepared and gone from the start is
        attempted unless the server failed to answer. */
    method Cleanup(schedule: Uid -> (seq<ServerStep>, seq<ServerStep>, Claims)) returns (attempted: set<Uid>, unanswered: set<Uid>)
      requires Valid()
      modifies this`server, this`checkpoint, this`past, this`handed, this`faults
      ensures Valid()
      ensures Handed(old(handed), handed, attempted)
      ensures faults >= old(faults) + |unanswered|
      ensures forall uid :: uid in attempted ==> Gone(server, uid) && uid in old(checkpoint) && old(checkpoint)[uid].phase == PrepareStarted
      ensures forall uid :: (uid in old(checkpoint) && old(checkpoint)[uid].phase == PrepareStarted &&
                            old(checkpoint)[uid].name != "" && Gone(old(server), uid)) ==>
                uid in attempted || uid in unanswered
    {
      hide ServeAll, Gone;
      var snapshot := checkpoint;
      var uids := set uid | uid in snapshot && snapshot[uid].phase == PrepareStarted;
      attempted, unanswered := {}, {};
      ghost var start := server;
      ghost var filtered := uids;
      while uids != {}
        invariant uids <= filtered && Valid()
        invariant Handed(old(handed), handed, attempted)
        invariant faults >= old(faults) + |unanswered|
        invariant Truthful(server, snapshot)
        invariant forall uid :: Gone(start, uid) ==> Gone(server, uid)
        invariant forall uid :: uid in attempted ==> uid in filtered && Gone(server, uid)
        invariant forall uid :: uid in filtered && uid !in uids && snapshot[uid].name != "" && Gone(start, uid) ==>
                    uid in attempted || uid in unanswered
      {
        var uid :| uid in uids;
        uids := uids - {uid};
        var (before, during, claims) := schedule(uid);
        ServerStaysOk(first, past);
        StaysTrue(server, before, snapshot);
        OthersAct(before, claims);
        ServerStaysOk(first, past);
        StaysTrue(server, during, snapshot);
        HandedGrows(old(handed), handed, attempted, uid);
        hide Handed;
        var tried, failed := UnprepareIfStale(uid, snapshot[uid], during, claims);
        if tried {
          attempted := attempted + {uid};
        }
        if failed {
          unanswered := unanswered + {uid};
        }
      }
    }

    /** These and no others have been handed to Unprepare in between. */
    ghost predicate Handed(before: seq<Uid>, after: seq<Uid>, uids: set<Uid>) {
      before <= after && forall uid :: uid in uids <==> uid in after[|before|..]
    }

    lemma HandedGrows(before: seq<Uid>, after: seq<Uid>, uids: set<Uid>, uid: Uid)
      requires Handed(before, after, uids)
      ensures Handed(before, after + [uid], uids + {uid}) && Handed(before, after + [], uids)
    {
      assert (after + [uid])[|before|..] == after[|before|..] + [uid];
      assert after + [] == after;
    }

    lemma StaysTrue(s: Server, steps: seq<ServerStep>, claims: Claims)
      requires s.Ok() && Truthful(s, claims)
      ensures Truthful(ServeAll(s, steps), claims)
      ensures forall uid :: Gone(s, uid) ==> Gone(ServeAll(s, steps), uid)
    {
      ServerStaysOk(s, steps);
      forall uid | Gone(s, uid) ensures Gone(ServeAll(s, steps), uid) {
        GoneForGood(s, steps, uid);
      }
    }

    /** At most one cleanup waits in the queue. */
    method EnqueueCleanup() returns (submitted: bool)
      modifies this`queued
      ensures queued && submitted == !old(queued)
    {
      submitted := !queued;
      queued := true;
    }
  }
}
