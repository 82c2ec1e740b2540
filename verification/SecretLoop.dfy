/** The retry loop of `UpdateSecret` against a server that other callers use as well. */
module SecretLoop {
  import opened Wrappers
  import opened SecretUpdates

  datatype Got = Exists(secret: Secret) | NotFound | GetFailed

  datatype Put = Written | Stale | Refused

  /** The API server with the object, and where each of its callers stands. */
  class Server {
    var state: State
    const edits: Id -> Edit

    constructor (state: State, edits: Id -> Edit)
      ensures this.state == state && this.edits == edits
    {
      this.state := state;
      this.edits := edits;
    }

    method Get(id: Id, fault: Fault) returns (r: Got)
      requires id in state.callers && state.callers[id].Trying?
      modifies this
      ensures state == Step(edits, old(state), id, fault)
      ensures r.GetFailed? <==> fault != NoFault
      ensures r.NotFound? <==> fault == NoFault && old(state.store.None?)
      ensures r.Exists? ==> old(state.store) == Some(r.secret)
    {
      var k := state.callers[id].attempt;
      if fault != NoFault {
        state := state.(callers := state.callers[id := GaveUp]);
        return GetFailed;
      }
      if state.store.None? {
        state := state.(callers := state.callers[id := Creating(k)]);
        return NotFound;
      }
      r := Exists(state.store.value);
      state := state.(callers := state.callers[id := Editing(k, state.store.value)]);
    }

    /** Accepts `data` only for the version it was made from. */
    method Update(id: Id, version: nat, data: Data, fault: Fault) returns (r: Put)
      requires id in state.callers && state.callers[id].Editing? && state.callers[id].read.version == version
      requires data == edits(id)(DataOf(state.callers[id].read.data))
      modifies this
      ensures state == Step(edits, old(state), id, fault)
      ensures r == Written <==> state.callers[id] == Succeeded
      ensures r == Stale ==> state.callers[id] == Retry(old(state.callers[id].attempt))
      ensures r == Refused ==> state.callers[id] == GaveUp
    {
      var k := state.callers[id].attempt;
      if fault == Error || state.store.None? {
        state := state.(callers := state.callers[id := GaveUp]);
        return Refused;
      }
      if fault == Conflict || state.store.value.version != version {
        state := state.(callers := state.callers[id := Retry(k)]);
        return Stale;
      }
      state := State(Some(Secret(Some(data), version + 1)), state.callers[id := Succeeded], state.commits + [id]);
      r := Written;
    }

    method Create(id: Id, data: Data, fault: Fault) returns (ok: bool)
      requires id in state.callers && state.callers[id].Creating? && data == edits(id)(map[])
      modifies this
      ensures state == Step(edits, old(state), id, fault)
      ensures state.callers[id] == if ok then Succeeded else GaveUp
    {
      ok := fault == NoFault && state.store.None?;
      if ok {
        state := State(Some(Secret(Some(data), 0)), state.callers[id := Succeeded], state.commits + [id]);
      } else {
        state := state.(callers := state.callers[id := GaveUp]);
      }
    }

    /** Other callers get their turns. */
    method Others(steps: seq<(Id, Fault)>)
      modifies this
      ensures state == Run(edits, old(state), steps)
    {
      for i := 0 to |steps|
        invariant Run(edits, old(state), steps) == Run(edits, state, steps[i..])
      {
        state := Step(edits, state, steps[i].0, steps[i].1);
        assert steps[i..][1..] == steps[i + 1..];
      }
    }
  }

  /** What happens around one attempt: others' calls before each of the two calls, and their faults. */
  datatype Round = Round(beforeGet: seq<(Id, Fault)>, get: Fault, beforePut: seq<(Id, Fault)>, put: Fault)

  predicate OfOthers(r: Round, id: Id) {
    (forall step :: step in r.beforeGet ==> step.0 != id) && (forall step :: step in r.beforePut ==> step.0 != id)
  }

  function Schedule(r: Round, id: Id): seq<(Id, Fault)> {
    r.beforeGet + [(id, r.get)] + r.beforePut + [(id, r.put)]
  }

  function Schedules(rounds: seq<Round>, id: Id): seq<(Id, Fault)> {
    if rounds == [] then []
    else Schedules(rounds[..|rounds| - 1], id) + Schedule(rounds[|rounds| - 1], id)
  }

  lemma {:induction false} OthersLeaveAlone(edits: Id -> Edit, s: State, steps: seq<(Id, Fault)>, id: Id)
    requires id in s.callers && forall step :: step in steps ==> step.0 != id
    ensures var s' := Run(edits, s, steps); id in s'.callers && s'.callers[id] == s.callers[id]
    decreases |steps|
  {
    if steps != [] {
      assert steps[0] in steps;
      OthersLeaveAlone(edits, Step(edits, s, steps[0].0, steps[0].1), steps[1..], id);
    }
  }

  lemma RunThenStep(edits: Id -> Edit, s: State, steps: seq<(Id, Fault)>, id: Id, fault: Fault)
    ensures Run(edits, s, steps + [(id, fault)]) == Step(edits, Run(edits, s, steps), id, fault)
  {
    RunConcat(edits, s, steps, [(id, fault)]);
    assert [(id, fault)][1..] == [];
  }

  /** The first half of an attempt. */
  method GetCurrent(server: Server, id: Id, r: Round) returns (got: Got)
    requires id in server.state.callers && server.state.callers[id].Trying? && OfOthers(r, id)
    modifies server
    ensures server.state == Run(server.edits, old(server.state), r.beforeGet + [(id, r.get)])
    ensures id in server.state.callers
    ensures got.GetFailed? ==> server.state.callers[id] == GaveUp
    ensures got.NotFound? ==> server.state.callers[id] == Creating(old(server.state.callers[id].attempt))
    ensures got.Exists? ==> server.state.callers[id] == Editing(old(server.state.callers[id].attempt), got.secret)
  {
    ghost var s0 := server.state;
    server.Others(r.beforeGet);
    OthersLeaveAlone(server.edits, s0, r.beforeGet, id);
    got := server.Get(id, r.get);
    RunThenStep(server.edits, s0, r.beforeGet, id, r.get);
  }

  /** The second half, when the read did not fail: the edited copy is created or updated. */
  method PutEdited(server: Server, id: Id, got: Got, r: Round) returns (t: Put)
    requires id in server.state.callers && OfOthers(r, id)
    requires !got.GetFailed?
    requires got.NotFound? ==> server.state.callers[id].Creating?
    requires got.Exists? ==> server.state.callers[id].Editing? && server.state.callers[id].read == got.secret
    modifies server
    ensures server.state == Run(server.edits, old(server.state), r.beforePut + [(id, r.put)])
    ensures id in server.state.callers
    ensures t == Written ==> server.state.callers[id] == Succeeded
    ensures t == Refused ==> server.state.callers[id] == GaveUp
    ensures t == Stale ==> server.state.callers[id] == Retry(old(server.state.callers[id].attempt))
  {
    ghost var s0 := server.state;
    server.Others(r.beforePut);
    OthersLeaveAlone(server.edits, s0, r.beforePut, id);
    RunThenStep(server.edits, s0, r.beforePut, id, r.put);
    if got.NotFound? {
      var ok := server.Create(id, server.edits(id)(map[]), r.put);
      t := if ok then Written else Refused;
    } else {
      t := server.Update(id, got.secret.version, server.edits(id)(DataOf(got.secret.data)), r.put);
    }
  }

  /** One pass of the loop. */
  method Attempt(server: Server, id: Id, r: Round) returns (t: Put, ghost steps: seq<(Id, Fault)>)
    requires id in server.state.callers && server.state.callers[id].Trying? && OfOthers(r, id)
    modifies server
    ensures server.state == Run(server.edits, old(server.state), steps)
    ensures steps <= Schedule(r, id) && (t == Stale ==> steps == Schedule(r, id))
    ensures id in server.state.callers
    ensures t == Written ==> server.state.callers[id] == Succeeded
    ensures t == Refused ==> server.state.callers[id] == GaveUp
    ensures t == Stale ==> server.state.callers[id] == Retry(old(server.state.callers[id].attempt))
  {
    ghost var s0 := server.state;
    var got := GetCurrent(server, id, r);
    steps := r.beforeGet + [(id, r.get)];
    HalfOfSchedule(r, id);
    if got.GetFailed? {
      return Refused, steps;
    }
    t := PutEdited(server, id, got, r);
    RunConcat(server.edits, s0, steps, r.beforePut + [(id, r.put)]);
    steps := Schedule(r, id);
  }

  lemma HalfOfSchedule(r: Round, id: Id)
    ensures r.beforeGet + [(id, r.get)] <= Schedule(r, id)
    ensures (r.beforeGet + [(id, r.get)]) + (r.beforePut + [(id, r.put)]) == Schedule(r, id)
  {
  }

  /**
   * The retry loop is a run of the interleaved machine: the caller's own calls and the
   * others' in the given order. It reports success exactly when its edit is committed.
   */
  method UpdateSecret(server: Server, id: Id, rounds: seq<Round>) returns (ok: bool, ghost steps: seq<(Id, Fault)>)
    requires id in server.state.callers && server.state.callers[id] == Trying(0)
    requires |rounds| == MAX_ATTEMPTS && forall r :: r in rounds ==> OfOthers(r, id)
    modifies server
    ensures server.state == Run(server.edits, old(server.state), steps) && steps <= Schedules(rounds, id)
    ensures id in server.state.callers && server.state.callers[id] == if ok then Succeeded else GaveUp
  {
    ghost var s0 := server.state;
    steps := [];
    assert rounds[..0] == [] && rounds[..MAX_ATTEMPTS] == rounds;
    var attempt := 0;
    while attempt < MAX_ATTEMPTS
      invariant attempt <= MAX_ATTEMPTS && steps == Schedules(rounds[..attempt], id)
      invariant server.state == Run(server.edits, s0, steps)
      invariant id in server.state.callers
      invariant server.state.callers[id] == if attempt < MAX_ATTEMPTS then Trying(attempt) else GaveUp
    {
      var t;
      ghost var more;
      assert rounds[attempt] in rounds;
      t, more := Attempt(server, id, rounds[attempt]);
      RunConcat(server.edits, s0, steps, more);
      SchedulesStep(rounds, attempt, id, more);
      steps := steps + more;
      if t != Stale {
        return t == Written, steps;
      }
      attempt := attempt + 1;
    }
    ok := false;
  }

  lemma SchedulesStep(rounds: seq<Round>, k: nat, id: Id, more: seq<(Id, Fault)>)
    requires k < |rounds| && more <= Schedule(rounds[k], id)
    ensures Schedules(rounds[..k], id) + more <= Schedules(rounds, id)
    ensures more == Schedule(rounds[k], id) ==> Schedules(rounds[..k], id) + more == Schedules(rounds[..k + 1], id)
  {
    assert rounds[..k + 1][..k] == rounds[..k];
    SchedulesPrefix(rounds, k + 1, id);
  }

  lemma {:induction false} SchedulesPrefix(rounds: seq<Round>, k: nat, id: Id)
    requires k <= |rounds|
    ensures Schedules(rounds[..k], id) <= Schedules(rounds, id)
    decreases |rounds|
  {
    if k == |rounds| {
      assert rounds[..k] == rounds;
    } else {
      var front := rounds[..|rounds| - 1];
      SchedulesPrefix(front, k, id);
      assert front[..k] == rounds[..k];
    }
  }
}
