/** How many callers of `UpdateSecret` can be sure to get their edits in. */
module SecretFairness {
  import opened Wrappers
  import opened SecretUpdates

  function Turns(steps: seq<(Id, Fault)>, id: Id): nat {
    if steps == [] then 0 else (if steps[0].0 == id then 1 else 0) + Turns(steps[1..], id)
  }

  /** How many more calls a caller can make. */
  function CallsLeft(c: Caller): int {
    match c
    case Trying(k) => 2 * (MAX_ATTEMPTS - k)
    case Editing(k, _) => 2 * (MAX_ATTEMPTS - k) - 1
    case Creating(k) => 1
    case Succeeded => 0
    case GaveUp => 0
  }

  predicate Done(c: Caller) {
    c == Succeeded || c == GaveUp
  }

  predicate Faultless(steps: seq<(Id, Fault)>) {
    forall step :: step in steps ==> step.1 == NoFault
  }

  lemma StepUsesCall(edits: Id -> Edit, s: State, id: Id, who: Id, fault: Fault)
    requires id in s.callers && WithinAttempts(s.callers[id])
    ensures var s' := Step(edits, s, who, fault);
            && s'.callers.Keys == s.callers.Keys
            && WithinAttempts(s'.callers[id])
            && (who != id || Done(s.callers[id]) ==> s'.callers[id] == s.callers[id])
            && (who == id && !Done(s.callers[id]) ==> CallsLeft(s'.callers[id]) < CallsLeft(s.callers[id]))
  {
  }

  /** Twenty turns are enough for any caller, whatever happens. */
  lemma {:induction false} TurnsFinish(edits: Id -> Edit, s: State, steps: seq<(Id, Fault)>, id: Id)
    requires id in s.callers && WithinAttempts(s.callers[id]) && Turns(steps, id) >= CallsLeft(s.callers[id])
    ensures var s' := Run(edits, s, steps); s'.callers.Keys == s.callers.Keys && Done(s'.callers[id])
    decreases |steps|
  {
    if steps != [] {
      StepUsesCall(edits, s, id, steps[0].0, steps[0].1);
      TurnsFinish(edits, Step(edits, s, steps[0].0, steps[0].1), steps[1..], id);
    }
  }

  lemma {:induction false} DoneStays(edits: Id -> Edit, s: State, steps: seq<(Id, Fault)>, id: Id)
    requires id in s.callers && Done(s.callers[id])
    ensures var s' := Run(edits, s, steps); id in s'.callers && s'.callers[id] == s.callers[id]
    decreases |steps|
  {
    if steps != [] {
      StepUsesCall(edits, s, id, steps[0].0, steps[0].1);
      DoneStays(edits, Step(edits, s, steps[0].0, steps[0].1), steps[1..], id);
    }
  }

  // Each attempt a caller has lost was lost to a commit: `first` is the version at the start.
  predicate Outrun(s: State, c: Caller, first: nat) {
    match c
    case Trying(k) => k <= |s.commits|
    case Editing(k, read) => first + k <= read.version <= first + |s.commits|
    case Creating(k) => false
    case Succeeded => true
    case GaveUp => |s.commits| >= MAX_ATTEMPTS
  }

  ghost predicate OutrunInv(s: State, first: nat) {
    && s.store.Some? && s.store.value.version == first + |s.commits|
    && forall id :: id in s.callers ==> Outrun(s, s.callers[id], first)
  }

  lemma OutrunStep(edits: Id -> Edit, s: State, first: nat, id: Id)
    requires OutrunInv(s, first)
    ensures OutrunInv(Step(edits, s, id, NoFault), first)
  {
    var s' := Step(edits, s, id, NoFault);
    forall i | i in s'.callers ensures Outrun(s', s'.callers[i], first) {
      assert i in s.callers && Outrun(s, s.callers[i], first);
    }
  }

  lemma {:induction false} OutrunRun(edits: Id -> Edit, s: State, first: nat, steps: seq<(Id, Fault)>)
    requires OutrunInv(s, first) && Faultless(steps)
    ensures OutrunInv(Run(edits, s, steps), first)
    decreases |steps|
  {
    if steps != [] {
      assert steps[0] in steps;
      OutrunStep(edits, s, first, steps[0].0);
      OutrunRun(edits, Step(edits, s, steps[0].0, NoFault), first, steps[1..]);
    }
  }

  lemma {:induction false} DistinctFit(commits: seq<Id>, ids: set<Id>)
    requires forall id :: multiset(commits)[id] <= if id in ids then 1 else 0
    ensures |commits| <= |ids|
  {
    if commits != [] {
      var last := commits[|commits| - 1];
      var front := commits[..|commits| - 1];
      assert commits == front + [last];
      assert multiset(commits) == multiset(front) + multiset{last};
      assert last in ids;
      DistinctFit(front, ids - {last});
    }
  }

  /**
   * Without faults on an existing secret, a caller gives up only after ten commits
   * by ten other callers.
   */
  lemma GivingUpTakesTen(edits: Id -> Edit, s: State, steps: seq<(Id, Fault)>, id: Id)
    requires Initial(s) && s.store.Some? && Faultless(steps) && id in s.callers
    ensures var s' := Run(edits, s, steps);
            id in s'.callers && s'.callers[id] == GaveUp ==>
              |s'.commits| >= MAX_ATTEMPTS && id !in s'.commits && |s'.callers| > MAX_ATTEMPTS
  {
    var s' := Run(edits, s, steps);
    OutrunRun(edits, s, s.store.value.version, steps);
    RunKeeps(edits, Stored(s.store), s, steps);
    if id in s'.callers && s'.callers[id] == GaveUp {
      assert CountsCommits(s', id);
      forall i ensures multiset(s'.commits)[i] <= if i in s'.callers.Keys - {id} then 1 else 0 {
        assert CountsCommits(s', i);
      }
      DistinctFit(s'.commits, s'.callers.Keys - {id});
    }
  }

  // ----- exactly when everybody gets through -----

  /** Without faults, everybody who has had twenty turns has committed. */
  ghost predicate EveryoneCommits(edits: Id -> Edit, s: State) {
    forall steps, id |
      Faultless(steps) && id in s.callers && (forall i :: i in s.callers ==> Turns(steps, i) >= 2 * MAX_ATTEMPTS) ::
      id in Run(edits, s, steps).callers && Run(edits, s, steps).callers[id] == Succeeded
  }

  /** A secret to update and at most ten callers, or a caller all alone. */
  predicate RoomForAll(s: State) {
    |s.callers| <= 1 || (s.store.Some? && |s.callers| <= MAX_ATTEMPTS)
  }

  predicate Alone(s: State, id: Id) {
    && s.callers.Keys == {id}
    && match s.callers[id]
       case Trying(k) => s.store.None? && k == 0
       case Creating(k) => s.store.None?
       case Succeeded => true
       case _ => false
  }

  lemma {:induction false} AloneRun(edits: Id -> Edit, s: State, steps: seq<(Id, Fault)>, id: Id)
    requires Alone(s, id) && Faultless(steps)
    ensures Alone(Run(edits, s, steps), id)
    decreases |steps|
  {
    if steps != [] {
      assert steps[0] in steps;
      AloneRun(edits, Step(edits, s, steps[0].0, NoFault), steps[1..], id);
    }
  }

  lemma RoomEnough(edits: Id -> Edit, s: State, steps: seq<(Id, Fault)>, id: Id)
    requires Initial(s) && RoomForAll(s) && Faultless(steps)
    requires id in s.callers && Turns(steps, id) >= 2 * MAX_ATTEMPTS
    ensures id in Run(edits, s, steps).callers && Run(edits, s, steps).callers[id] == Succeeded
  {
    TurnsFinish(edits, s, steps, id);
    if s.store.Some? {
      GivingUpTakesTen(edits, s, steps, id);
    } else {
      assert |s.callers.Keys - {id}| == 0;
      AloneRun(edits, s, steps, id);
    }
  }

  lemma {:induction false} TurnsConcat(x: seq<(Id, Fault)>, y: seq<(Id, Fault)>, id: Id)
    ensures Turns(x + y, id) == Turns(x, id) + Turns(y, id)
  {
    if x == [] {
      assert x + y == y;
    } else {
      assert (x + y)[0] == x[0] && (x + y)[1..] == x[1..] + y;
      TurnsConcat(x[1..], y, id);
    }
  }

  function Repeat(id: Id, n: nat): (steps: seq<(Id, Fault)>)
    ensures Faultless(steps)
  {
    if n == 0 then [] else [(id, NoFault)] + Repeat(id, n - 1)
  }

  lemma {:induction false} RepeatTurns(id: Id, n: nat)
    ensures Turns(Repeat(id, n), id) == n
  {
    if n > 0 {
      RepeatTurns(id, n - 1);
      assert Repeat(id, n)[1..] == Repeat(id, n - 1);
    }
  }

  /** A schedule that gives everybody twenty turns. */
  lemma {:induction false} FairSchedule(ids: set<Id>) returns (steps: seq<(Id, Fault)>)
    ensures Faultless(steps) && forall i :: i in ids ==> Turns(steps, i) >= 2 * MAX_ATTEMPTS
    decreases |ids|
  {
    steps := [];
    if ids != {} {
      var id :| id in ids;
      var rest := FairSchedule(ids - {id});
      steps := Repeat(id, 2 * MAX_ATTEMPTS) + rest;
      RepeatTurns(id, 2 * MAX_ATTEMPTS);
      forall i | i in ids ensures Turns(steps, i) >= 2 * MAX_ATTEMPTS {
        TurnsConcat(Repeat(id, 2 * MAX_ATTEMPTS), rest, i);
      }
    }
  }

  /** Whoever has given up in some faultless run is missing from a fair one. */
  lemma LoserSpoils(edits: Id -> Edit, s: State, steps: seq<(Id, Fault)>, id: Id)
    requires Faultless(steps) && id in s.callers
    requires id in Run(edits, s, steps).callers && Run(edits, s, steps).callers[id] == GaveUp
    ensures !EveryoneCommits(edits, s)
  {
    var rest := FairSchedule(s.callers.Keys);
    var whole := steps + rest;
    RunConcat(edits, s, steps, rest);
    DoneStays(edits, Run(edits, s, steps), rest, id);
    forall i | i in s.callers ensures Turns(whole, i) >= 2 * MAX_ATTEMPTS {
      TurnsConcat(steps, rest, i);
    }
    assert Faultless(whole);
    assert Run(edits, s, whole).callers[id] == GaveUp;
  }

  /** Between the read and the write of `loser`, one rival after the other commits. */
  function Overtaking(loser: Id, rivals: seq<Id>): (steps: seq<(Id, Fault)>)
    ensures Faultless(steps)
  {
    if rivals == [] then []
    else
      [(loser, NoFault), (rivals[0], NoFault), (rivals[0], NoFault), (loser, NoFault)] + Overtaking(loser, rivals[1..])
  }

  predicate Waiting(s: State, rivals: seq<Id>) {
    && (forall i :: 0 <= i < |rivals| ==> rivals[i] in s.callers && s.callers[rivals[i]] == Trying(0))
    && (forall i, j :: 0 <= i < j < |rivals| ==> rivals[i] != rivals[j])
  }

  /** One such round costs the loser an attempt and the rival nothing. */
  lemma OvertakenOnce(edits: Id -> Edit, s: State, loser: Id, rival: Id, k: nat)
    requires loser in s.callers && rival in s.callers && loser != rival && s.store.Some?
    requires s.callers[loser] == Trying(k) && s.callers[rival] == Trying(0)
    ensures var s' := Run(edits, s, [(loser, NoFault), (rival, NoFault), (rival, NoFault), (loser, NoFault)]);
            s'.store.Some? && s'.callers == s.callers[rival := Succeeded][loser := Retry(k)]
  {
    var a: (Id, Fault), b: (Id, Fault) := (loser, NoFault), (rival, NoFault);
    var s1 := Step(edits, s, loser, NoFault);
    var s2 := Step(edits, s1, rival, NoFault);
    var s3 := Step(edits, s2, rival, NoFault);
    var s4 := Step(edits, s3, loser, NoFault);
    assert [a, b, b, a][1..] == [b, b, a] && [b, b, a][1..] == [b, a] && [b, a][1..] == [a] && [a][1..] == [];
    assert Run(edits, s3, [a]) == Run(edits, s4, []) == s4;
    assert Run(edits, s2, [b, a]) == Run(edits, s3, [a]);
    assert Run(edits, s1, [b, b, a]) == Run(edits, s2, [b, a]);
    assert s4.callers == s.callers[rival := Succeeded][loser := Retry(k)];
  }

  lemma {:induction false} OvertakenGivesUp(edits: Id -> Edit, s: State, loser: Id, rivals: seq<Id>, k: nat)
    requires loser in s.callers && loser !in rivals && s.store.Some? && s.callers[loser] == Trying(k)
    requires Waiting(s, rivals) && rivals != [] && k + |rivals| == MAX_ATTEMPTS
    ensures var s' := Run(edits, s, Overtaking(loser, rivals)); loser in s'.callers && s'.callers[loser] == GaveUp
    decreases |rivals|
  {
    var a: (Id, Fault), b: (Id, Fault) := (loser, NoFault), (rivals[0], NoFault);
    var s1 := Run(edits, s, [a, b, b, a]);
    OvertakenOnce(edits, s, loser, rivals[0], k);
    RunConcat(edits, s, [a, b, b, a], Overtaking(loser, rivals[1..]));
    if |rivals| > 1 {
      OvertakenGivesUp(edits, s1, loser, rivals[1..], k + 1);
    }
  }

  lemma {:induction false} PickDistinct(ids: set<Id>, n: nat) returns (picked: seq<Id>)
    requires |ids| >= n
    ensures |picked| == n && (forall i :: 0 <= i < n ==> picked[i] in ids)
    ensures forall i, j :: 0 <= i < j < n ==> picked[i] != picked[j]
  {
    picked := [];
    if n > 0 {
      var id :| id in ids;
      var rest := PickDistinct(ids - {id}, n - 1);
      picked := [id] + rest;
    }
  }

  /** Two callers that both find no secret: the second to create it gives up at once. */
  lemma CreateRaceLoses(edits: Id -> Edit, s: State, a: Id, b: Id)
    requires a in s.callers && b in s.callers && a != b && s.store.None?
    requires s.callers[a] == Trying(0) && s.callers[b] == Trying(0)
    ensures !EveryoneCommits(edits, s)
  {
    var x: (Id, Fault), y: (Id, Fault) := (a, NoFault), (b, NoFault);
    var s1 := Step(edits, s, a, NoFault);
    var s2 := Step(edits, s1, b, NoFault);
    var s3 := Step(edits, s2, a, NoFault);
    var s4 := Step(edits, s3, b, NoFault);
    assert [x, y, x, y][1..] == [y, x, y] && [y, x, y][1..] == [x, y] && [x, y][1..] == [y] && [y][1..] == [];
    assert Run(edits, s3, [y]) == Run(edits, s4, []) == s4;
    assert Run(edits, s2, [x, y]) == Run(edits, s3, [y]);
    assert Run(edits, s1, [y, x, y]) == Run(edits, s2, [x, y]);
    LoserSpoils(edits, s, [x, y, x, y], b);
  }

  lemma NoRoom(edits: Id -> Edit, s: State)
    requires Initial(s) && !RoomForAll(s)
    ensures !EveryoneCommits(edits, s)
  {
    if s.store.None? {
      var two := PickDistinct(s.callers.Keys, 2);
      CreateRaceLoses(edits, s, two[0], two[1]);
    } else {
      var loser :| loser in s.callers;
      var rivals := PickDistinct(s.callers.Keys - {loser}, MAX_ATTEMPTS);
      OvertakenGivesUp(edits, s, loser, rivals, 0);
      LoserSpoils(edits, s, Overtaking(loser, rivals), loser);
    }
  }

  /**
   * Without faults, every fair schedule lets everybody commit if and only if there is a
   * secret and at most ten callers, or only one caller.
   */
  lemma EveryoneCommitsIff(edits: Id -> Edit, s: State)
    requires Initial(s)
    ensures EveryoneCommits(edits, s) <==> RoomForAll(s)
  {
    if RoomForAll(s) {
      forall steps, id | Faultless(steps) && id in s.callers
        && (forall i :: i in s.callers ==> Turns(steps, i) >= 2 * MAX_ATTEMPTS)
        ensures id in Run(edits, s, steps).callers && Run(edits, s, steps).callers[id] == Succeeded
      {
        RoomEnough(edits, s, steps, id);
      }
    } else {
      NoRoom(edits, s);
    }
  }
}
