/** One API object under optimistic concurrency: many writers, each working from some earlier version,
    and an update that is refused unless that version is still the latest. */
module ApiObjects {
  import opened Basics

  /** An attempt to write: the version the writer has read, and what it wants to do to it. */
  datatype Step<O> = Step(version: nat, op: O)

  datatype Copy<L> = Copy(version: nat, content: L)

  /** `write` yields the new content, or nothing when the operation does not update. */
  function Attempt<L, O>(write: (L, O) -> Option<L>, versions: seq<L>, attempt: Step<O>): (r: seq<L>)
    requires versions != []
    ensures versions <= r
  {
    if attempt.version == |versions| - 1 && write(versions[attempt.version], attempt.op).Some?
    then versions + [write(versions[attempt.version], attempt.op).value]
    else versions
  }

  /** All versions after the given attempts, whoever made them and however stale their copies. */
  function Replay<L, O>(write: (L, O) -> Option<L>, first: L, steps: seq<Step<O>>): (r: seq<L>)
    ensures r != []
  {
    if steps == [] then [first]
    else Attempt(write, Replay(write, first, steps[..|steps| - 1]), steps[|steps| - 1])
  }

  /** What every write keeps holds of every version, stale or latest. */
  lemma {:induction false} KeptByEveryWrite<L(!new), O(!new)>(
    write: (L, O) -> Option<L>, inv: L -> bool, first: L, steps: seq<Step<O>>)
    requires inv(first)
    requires forall l, o :: inv(l) && write(l, o).Some? ==> inv(write(l, o).value)
    ensures forall v :: 0 <= v < |Replay(write, first, steps)| ==> inv(Replay(write, first, steps)[v])
  {
    if steps != [] {
      KeptByEveryWrite(write, inv, first, steps[..|steps| - 1]);
    }
  }

  /** Two consecutive versions are related by some write. */
  lemma {:induction false} ConsecutiveVersions<L(!new), O(!new)>(
    write: (L, O) -> Option<L>, first: L, steps: seq<Step<O>>, v: nat) returns (o: O)
    requires v + 1 < |Replay(write, first, steps)|
    ensures var versions := Replay(write, first, steps); write(versions[v], o) == Some(versions[v + 1])
  {
    var init := steps[..|steps| - 1];
    if v + 1 < |Replay(write, first, init)| {
      o := ConsecutiveVersions(write, first, init, v);
    } else {
      o := steps[|steps| - 1].op;
    }
  }

  class ApiObject<L, O> {
    const write: (L, O) -> Option<L>
    const first: L
    var versions: seq<L>
    ghost var steps: seq<Step<O>>

    /** How often a request has failed although its version was the latest. */
    ghost var faults: nat

    ghost predicate Valid()
      reads this`versions, this`steps
    {
      versions == Replay(write, first, steps)
    }

    /** A copy that some reader may hold: the content of this or an earlier version. */
    ghost predicate Holds(copy: Copy<L>)
      reads this`versions
    {
      copy.version < |versions| && copy.content == versions[copy.version]
    }

    constructor (write: (L, O) -> Option<L>, first: L)
      ensures Valid() && this.write == write && this.first == first && versions == [first]
    {
      this.write, this.first, this.versions := write, first, [first];
      this.steps, this.faults := [], 0;
    }

    /** Compare and swap. A write may also land although its reply is lost. */
    method Update(copy: Copy<L>, content: L, ghost op: O) returns (r: Result<Copy<L>>)
      requires Valid() && Holds(copy) && write(copy.content, op) == Some(content)
      modifies this
      ensures Valid()
      ensures versions == old(versions) || versions == Attempt(write, old(versions), Step(copy.version, op))
      ensures r.Ok? ==> copy.version == |old(versions)| - 1 && versions == old(versions) + [content]
      ensures r.Ok? ==> r.value == Copy(|old(versions)|, content) && Holds(r.value)
      ensures copy.version < |old(versions)| - 1 ==> r == Err(Conflict) && versions == old(versions)
      ensures copy.version == |old(versions)| - 1 && r.Err? ==> r.error == StoreFailure
      ensures faults == old(faults) + if r == Err(StoreFailure) then 1 else 0
    {
      if copy.version != |versions| - 1 {
        return Err(Conflict);
      }
      if * {
        faults := faults + 1;
        return Err(StoreFailure);
      }
      ghost var attempt := Step(copy.version, op);
      assert (steps + [attempt])[..|steps|] == steps;
      versions, steps := versions + [content], steps + [attempt];
      if * {
        faults := faults + 1;
        return Err(StoreFailure);
      }
      return Ok(Copy(|versions| - 1, content));
    }
  }
}
