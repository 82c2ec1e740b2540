/** `UpdateSecret`: many writers share one versioned object and retry on conflict. */
module SecretUpdates {
  import opened Wrappers

  type Data = map<string, string>
  type Edit = Data -> Data

  datatype Secret = Secret(data: Option<Data>, version: nat)

  const MAX_ATTEMPTS: nat := 10

  /** An object without data is edited as an empty one. */
  function DataOf(data: Option<Data>): Data {
    if data.Some? then data.value else map[]
  }

  /** How a remote call goes wrong: with a conflict or with any other error. */
  datatype Fault = NoFault | Conflict | Error

  datatype Caller =
    | Trying(attempt: nat)
    | Editing(attempt: nat, read: Secret)
    | Creating(attempt: nat)
    | Succeeded
    | GaveUp

  type Id = nat

  /** `commits` records whose write took effect, in order. */
  datatype State = State(store: Option<Secret>, callers: map<Id, Caller>, commits: seq<Id>)

  function Retry(attempt: nat): Caller {
    if attempt + 1 < MAX_ATTEMPTS then Trying(attempt + 1) else GaveUp
  }

  function NextVersion(store: Option<Secret>): nat {
    if store.Some? then store.value.version + 1 else 0
  }

  /** One remote call of caller `id`. A stale write conflicts whatever the network does. */
  function Step(edits: Id -> Edit, s: State, id: Id, fault: Fault): State {
    if id !in s.callers then s
    else
      match s.callers[id]
      case Trying(k) =>
        s.(callers := s.callers[id :=
          if fault != NoFault then GaveUp
          else if s.store.Some? then Editing(k, s.store.value)
          else Creating(k)])
      case Editing(k, read) =>
        if fault == Error || s.store.None? then s.(callers := s.callers[id := GaveUp])
        else if fault == Conflict || s.store.value.version != read.version then s.(callers := s.callers[id := Retry(k)])
        else Commit(edits, s, id, DataOf(read.data))
      case Creating(k) =>
        if fault != NoFault || s.store.Some? then s.(callers := s.callers[id := GaveUp])
        else Commit(edits, s, id, map[])
      case Succeeded => s
      case GaveUp => s
  }

  function Commit(edits: Id -> Edit, s: State, id: Id, base: Data): State {
    State(Some(Secret(Some(edits(id)(base)), NextVersion(s.store))), s.callers[id := Succeeded], s.commits + [id])
  }

  function Run(edits: Id -> Edit, s: State, steps: seq<(Id, Fault)>): State
    decreases |steps|
  {
    if steps == [] then s else Run(edits, Step(edits, s, steps[0].0, steps[0].1), steps[1..])
  }

  /** The edits applied one by one in commit order: what a sequential store would hold. */
  function Replay(edits: Id -> Edit, initial: Option<Data>, commits: seq<Id>): Option<Data> {
    if commits == [] then initial
    else
      var before := Replay(edits, initial, commits[..|commits| - 1]);
      Some(edits(commits[|commits| - 1])(if before.None? then map[] else before.value))
  }

  function Stored(store: Option<Secret>): Option<Data> {
    if store.Some? then store.value.data else None
  }

  predicate Initial(s: State) {
    s.commits == [] && forall id :: id in s.callers ==> s.callers[id] == Trying(0)
  }

  // A caller's copy with the current version is the current object.
  predicate CopyCurrent(s: State, c: Caller) {
    c.Editing? ==>
      && s.store.Some?
      && c.read.version <= s.store.value.version
      && (c.read.version == s.store.value.version ==> c.read == s.store.value)
  }

  predicate WithinAttempts(c: Caller) {
    (c.Trying? || c.Editing? || c.Creating?) ==> c.attempt < MAX_ATTEMPTS
  }

  predicate CountsCommits(s: State, id: Id) {
    multiset(s.commits)[id] == if id in s.callers && s.callers[id] == Succeeded then 1 else 0
  }

  ghost predicate Inv(edits: Id -> Edit, initial: Option<Data>, s: State) {
    && Stored(s.store) == Replay(edits, initial, s.commits)
    && (forall id :: id in s.callers ==> CopyCurrent(s, s.callers[id]) && WithinAttempts(s.callers[id]))
    && (forall id :: CountsCommits(s, id))
    && (s.store.None? ==> initial.None? && s.commits == [])
  }

  lemma CommitKeeps(edits: Id -> Edit, initial: Option<Data>, s: State, id: Id, base: Data)
    requires Inv(edits, initial, s) && id in s.callers && s.callers[id] != Succeeded
    requires base == DataOf(Stored(s.store))
    ensures Inv(edits, initial, Commit(edits, s, id, base))
  {
    var s' := Commit(edits, s, id, base);
    assert s'.commits[..|s'.commits| - 1] == s.commits;
    forall i | i in s'.callers ensures CopyCurrent(s', s'.callers[i]) && WithinAttempts(s'.callers[i]) {
      assert i in s.callers;
    }
    forall i ensures CountsCommits(s', i) {
      assert CountsCommits(s, i);
    }
  }

  lemma MoveKeeps(edits: Id -> Edit, initial: Option<Data>, s: State, id: Id, c: Caller)
    requires Inv(edits, initial, s) && id in s.callers && s.callers[id] != Succeeded && c != Succeeded
    requires CopyCurrent(s, c) && WithinAttempts(c)
    ensures Inv(edits, initial, s.(callers := s.callers[id := c]))
  {
    var s' := s.(callers := s.callers[id := c]);
    forall i ensures CountsCommits(s', i) {
      assert CountsCommits(s, i);
    }
  }

  lemma StepKeeps(edits: Id -> Edit, initial: Option<Data>, s: State, id: Id, fault: Fault)
    requires Inv(edits, initial, s)
    ensures Inv(edits, initial, Step(edits, s, id, fault))
  {
    if id in s.callers && s.callers[id] != Succeeded && s.callers[id] != GaveUp {
      var s' := Step(edits, s, id, fault);
      var c := s.callers[id];
      if s'.commits == s.commits {
        MoveKeeps(edits, initial, s, id, s'.callers[id]);
      } else {
        CommitKeeps(edits, initial, s, id, if c.Editing? then DataOf(c.read.data) else map[]);
      }
    }
  }

  lemma {:induction false} RunKeeps(edits: Id -> Edit, initial: Option<Data>, s: State, steps: seq<(Id, Fault)>)
    requires Inv(edits, initial, s)
    ensures Inv(edits, initial, Run(edits, s, steps))
    decreases |steps|
  {
    if steps != [] {
      StepKeeps(edits, initial, s, steps[0].0, steps[0].1);
      RunKeeps(edits, initial, Step(edits, s, steps[0].0, steps[0].1), steps[1..]);
    }
  }

  /**
   * However the callers interleave and whatever fails: the stored data are the
   * committed edits applied in commit order, a caller that reports success has
   * committed exactly once, and any other caller has committed nothing.
   */
  lemma EveryRunIsSerial(edits: Id -> Edit, s: State, steps: seq<(Id, Fault)>, id: Id)
    requires Initial(s)
    ensures var s' := Run(edits, s, steps);
            && Stored(s'.store) == Replay(edits, Stored(s.store), s'.commits)
            && (id in s'.callers && s'.callers[id] == Succeeded ==> multiset(s'.commits)[id] == 1)
            && (id in s'.commits ==> id in s'.callers && s'.callers[id] == Succeeded)
            && (id in s'.callers ==> WithinAttempts(s'.callers[id]))
  {
    assert Inv(edits, Stored(s.store), s);
    RunKeeps(edits, Stored(s.store), s, steps);
    assert CountsCommits(Run(edits, s, steps), id);
  }

  lemma {:induction false} RunConcat(edits: Id -> Edit, s: State, x: seq<(Id, Fault)>, y: seq<(Id, Fault)>)
    ensures Run(edits, s, x + y) == Run(edits, Run(edits, s, x), y)
    decreases |x|
  {
    if x == [] {
      assert x + y == y;
    } else {
      assert (x + y)[0] == x[0] && (x + y)[1..] == x[1..] + y;
      RunConcat(edits, Step(edits, s, x[0].0, x[0].1), x[1..], y);
    }
  }

  /**
   * An undisturbed attempt commits the caller's edit of what is stored, and of nothing when there is no
   * secret or no data, exactly when neither call fails. Else nothing is stored, and only a conflict of the
   * write to an existing secret is tried again, up to the tenth attempt.
   */
  lemma AttemptAnswers(edits: Id -> Edit, s: State, id: Id, k: nat, get: Fault, put: Fault)
    requires id in s.callers && s.callers[id] == Trying(k)
    ensures var s' := Run(edits, s, [(id, get), (id, put)]);
            if get == NoFault && put == NoFault then
              && s'.callers == s.callers[id := Succeeded] && s'.commits == s.commits + [id]
              && s'.store.Some? && (s.store.Some? ==> s'.store.value.version > s.store.value.version)
              && Stored(s'.store) ==
                 Some(edits(id)(if s.store.Some? && s.store.value.data.Some? then s.store.value.data.value else map[]))
            else
              var again := get == NoFault && put == Conflict && s.store.Some? && k < 9;
              s' == s.(callers := s.callers[id := if again then Trying(k + 1) else GaveUp])
  {
    var s1 := Step(edits, s, id, get);
    assert [(id, get), (id, put)][1..] == [(id, put)];
    assert Run(edits, s, [(id, get), (id, put)]) == Run(edits, s1, [(id, put)]);
    assert [(id, put)][1..] == [];
    assert Run(edits, s1, [(id, put)]) == Step(edits, s1, id, put);
    assert s.callers[id := s1.callers[id]] == s1.callers;
  }

  /** A write that comes second stores nothing: an edit is tried again up to the tenth attempt, a creation never. */
  lemma SecondWriterLoses(edits: Id -> Edit, s: State, id: Id)
    requires id in s.callers && s.store.Some?
    requires s.callers[id].Creating?
             || (s.callers[id].Editing? && s.callers[id].read.version != s.store.value.version)
    ensures var again := s.callers[id].Editing? && s.callers[id].attempt < 9;
            Step(edits, s, id, NoFault)
            == s.(callers := s.callers[id := if again then Trying(s.callers[id].attempt + 1) else GaveUp])
  {
  }
}
