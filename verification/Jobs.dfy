/**
 * The job manager's two maps: admission of launches and other jobs, failed starts,
 * termination and expiry.
 */
module Jobs {
  import opened FiniteSets
  import opened Wrappers

  /** Seconds. */
  type Time = int

  const MAX_JOBS_PER_USER: nat := 23
  const SHUTDOWN_GRACE: Time := 15 * 60

  datatype Config = Config(maxClusters: nat, maxAge: nat)

  datatype Job = Job(
    name: string, mode: string, requestedBy: string,
    failure: string, credentials: string, complete: bool, expiresAt: Time)

  datatype Request = Request(user: string, name: string, requestedAt: Time)

  datatype World = World(jobs: map<string, Job>, requests: map<string, Request>)

  predicate IsLaunch(mode: string) {
    mode == "launch" || mode == "workflow-launch"
  }

  predicate Active(j: Job) {
    IsLaunch(j.mode) && !j.complete && j.failure == ""
  }

  function ActiveLaunches(w: World): set<string> {
    set n | n in w.jobs && Active(w.jobs[n])
  }

  function OtherJobs(w: World, user: string): set<string> {
    set n | n in w.jobs && !IsLaunch(w.jobs[n].mode) && w.jobs[n].requestedBy == user
  }

  // ----- the locked sections -----

  datatype Reply = Refused | AlreadyRunning | Admitted

  function NewJob(cfg: Config, user: string, name: string, mode: string, at: Time): Job {
    Job(name, mode, user, "", "", false, at + cfg.maxAge)
  }

  /** Does the user's existing request stand in the way of another launch? */
  function Existing(w: World, user: string): Option<Reply> {
    if user !in w.requests then None
    else
      var name := w.requests[user].name;
      if name == "" then Some(Refused)
      else if name !in w.jobs then None
      else if w.jobs[name].credentials != "" then Some(AlreadyRunning)
      else if w.jobs[name].failure == "" then Some(Refused)
      else None
  }

  /** The maps once a failed cluster of the user has been forgotten and the request entered. */
  function Requested(w: World, user: string, name: string, at: Time): World {
    var failed := user in w.requests && w.requests[user].name in w.jobs;
    World(if failed then w.jobs - {w.requests[user].name} else w.jobs, w.requests[user := Request(user, name, at)])
  }

  /** The request stays entered even when no cluster is free. */
  function Launch(cfg: Config, w: World, user: string, name: string, mode: string, at: Time): (World, Reply) {
    var job := NewJob(cfg, user, name, mode, at);
    if IsLaunch(mode) then
      var existing := Existing(w, user);
      if existing.Some? then (w, existing.value)
      else
        var w1 := Requested(w, user, name, at);
        if |ActiveLaunches(w1)| >= cfg.maxClusters then (w1, Refused)
        else (w1.(jobs := w1.jobs[name := job]), Admitted)
    else if |OtherJobs(w, user)| > MAX_JOBS_PER_USER then (w, Refused)
    else (w.(jobs := w.jobs[name := job]), Admitted)
  }

  /** The job could not be created: request and job are forgotten, whatever the request now names. */
  function FailStart(w: World, user: string, name: string): World {
    World(w.jobs - {name}, w.requests - {user})
  }

  /** `name` is the job the user's request named before it was stopped. */
  function Terminate(w: World, user: string, name: string, now: Time): World {
    World(
      if name in w.jobs
      then w.jobs[name := w.jobs[name].(
                    failure := "deletion requested", expiresAt := now + SHUTDOWN_GRACE, complete := true)]
      else w.jobs,
      if user in w.requests && w.requests[user].name == name then w.requests - {user} else w.requests)
  }

  function Sweep(cfg: Config, w: World, now: Time): World {
    World(map n | n in w.jobs && w.jobs[n].expiresAt >= now :: w.jobs[n],
          map u | u in w.requests && w.requests[u].requestedAt + 2 * cfg.maxAge >= now :: w.requests[u])
  }

  // ----- runs -----

  datatype Op =
    | OpLaunch(user: string, name: string, mode: string, at: Time)
    | OpFailStart(user: string, name: string)
    | OpTerminate(user: string, name: string, now: Time)
    | OpSweep(now: Time)

  function Apply(cfg: Config, w: World, op: Op): World {
    match op
    case OpLaunch(user, name, mode, at) => Launch(cfg, w, user, name, mode, at).0
    case OpFailStart(user, name) => FailStart(w, user, name)
    case OpTerminate(user, name, now) => Terminate(w, user, name, now)
    case OpSweep(now) => Sweep(cfg, w, now)
  }

  function Run(cfg: Config, w: World, ops: seq<Op>): World
    decreases |ops|
  {
    if ops == [] then w else Run(cfg, Apply(cfg, w, ops[0]), ops[1..])
  }

  const EMPTY := World(map[], map[])

  // ----- capacity -----

  predicate Bounded(cfg: Config, w: World, user: string) {
    |ActiveLaunches(w)| <= cfg.maxClusters && |OtherJobs(w, user)| <= MAX_JOBS_PER_USER + 1
  }

  lemma AddOne(a: set<string>, b: set<string>, x: string)
    requires a <= b + {x}
    ensures |a| <= |b| + 1
  {
    SubsetSize(a, b + {x});
  }

  lemma ClusterBounded(cfg: Config, w: World, u: string, user: string, name: string, mode: string, at: Time)
    requires Bounded(cfg, w, u) && IsLaunch(mode)
    ensures Bounded(cfg, Launch(cfg, w, user, name, mode, at).0, u)
  {
    if Existing(w, user).None? {
      var w' := Launch(cfg, w, user, name, mode, at).0;
      var w1 := Requested(w, user, name, at);
      SubsetSize(ActiveLaunches(w1), ActiveLaunches(w));
      AddOne(ActiveLaunches(w'), ActiveLaunches(w1), name);
      SubsetSize(OtherJobs(w', u), OtherJobs(w, u));
    }
  }

  lemma OtherBounded(cfg: Config, w: World, u: string, user: string, name: string, mode: string, at: Time)
    requires Bounded(cfg, w, u) && !IsLaunch(mode)
    ensures Bounded(cfg, Launch(cfg, w, user, name, mode, at).0, u)
  {
    if |OtherJobs(w, user)| <= MAX_JOBS_PER_USER {
      var w' := Launch(cfg, w, user, name, mode, at).0;
      SubsetSize(ActiveLaunches(w'), ActiveLaunches(w));
      if u == user {
        AddOne(OtherJobs(w', u), OtherJobs(w, u), name);
      } else {
        SubsetSize(OtherJobs(w', u), OtherJobs(w, u));
      }
    }
  }

  lemma StepBounded(cfg: Config, w: World, u: string, op: Op)
    requires Bounded(cfg, w, u)
    ensures Bounded(cfg, Apply(cfg, w, op), u)
  {
    var w' := Apply(cfg, w, op);
    match op
    case OpLaunch(user, name, mode, at) =>
      if IsLaunch(mode) {
        ClusterBounded(cfg, w, u, user, name, mode, at);
      } else {
        OtherBounded(cfg, w, u, user, name, mode, at);
      }
    case _ =>
      SubsetSize(ActiveLaunches(w'), ActiveLaunches(w));
      SubsetSize(OtherJobs(w', u), OtherJobs(w, u));
  }

  lemma {:induction false} RunBounded(cfg: Config, w: World, u: string, ops: seq<Op>)
    requires Bounded(cfg, w, u)
    ensures Bounded(cfg, Run(cfg, w, ops), u)
    decreases |ops|
  {
    if ops != [] {
      StepBounded(cfg, w, u, ops[0]);
      RunBounded(cfg, Apply(cfg, w, ops[0]), u, ops[1..]);
    }
  }

  /**
   * From empty maps, in every run: no more than `maxClusters` active launches,
   * and no more than 24 other jobs of one user, one above the named limit.
   */
  lemma CapacityHolds(cfg: Config, ops: seq<Op>, user: string)
    ensures var w := Run(cfg, EMPTY, ops);
            |ActiveLaunches(w)| <= cfg.maxClusters && |OtherJobs(w, user)| <= 24
  {
    assert ActiveLaunches(EMPTY) == {} && OtherJobs(EMPTY, user) == {};
    RunBounded(cfg, EMPTY, user, ops);
  }

  lemma {:induction false} RunAppend(cfg: Config, w: World, ops: seq<Op>, op: Op)
    ensures Run(cfg, w, ops + [op]) == Apply(cfg, Run(cfg, w, ops), op)
    decreases |ops|
  {
    if ops == [] {
      assert ops + [op] == [op] && [op][1..] == [];
    } else {
      assert (ops + [op])[1..] == ops[1..] + [op];
      RunAppend(cfg, Apply(cfg, w, ops[0]), ops[1..], op);
    }
  }

  /** A user who keeps starting jobs under ever longer names. */
  function Starts(user: string, mode: string, k: nat): seq<Op> {
    if k == 0 then [] else Starts(user, mode, k - 1) + [OpLaunch(user, seq(k, _ => 'j'), mode, 0)]
  }

  lemma InsertOther(w: World, user: string, job: Job)
    requires job.name !in w.jobs && !IsLaunch(job.mode) && job.requestedBy == user
    ensures |OtherJobs(w.(jobs := w.jobs[job.name := job]), user)| == |OtherJobs(w, user)| + 1
  {
    assert OtherJobs(w.(jobs := w.jobs[job.name := job]), user) == OtherJobs(w, user) + {job.name};
  }

  lemma StartAdds(cfg: Config, w: World, user: string, mode: string, name: string)
    requires !IsLaunch(mode) && name !in w.jobs && |OtherJobs(w, user)| <= MAX_JOBS_PER_USER
    ensures var w' := Launch(cfg, w, user, name, mode, 0).0;
            |OtherJobs(w', user)| == |OtherJobs(w, user)| + 1 && w'.jobs.Keys == w.jobs.Keys + {name}
  {
    InsertOther(w, user, NewJob(cfg, user, name, mode, 0));
  }

  lemma {:induction false} StartsRun(cfg: Config, user: string, mode: string, k: nat)
    requires !IsLaunch(mode) && k <= MAX_JOBS_PER_USER + 1
    ensures var w := Run(cfg, EMPTY, Starts(user, mode, k));
            |OtherJobs(w, user)| == k && forall n :: n in w.jobs ==> |n| <= k
  {
    if k == 0 {
      assert OtherJobs(EMPTY, user) == {};
    } else {
      StartsRun(cfg, user, mode, k - 1);
      var name := seq(k, _ => 'j');
      RunAppend(cfg, EMPTY, Starts(user, mode, k - 1), OpLaunch(user, name, mode, 0));
      StartAdds(cfg, Run(cfg, EMPTY, Starts(user, mode, k - 1)), user, mode, name);
    }
  }

  /** The message says 23, the test `running > 23` lets a user have 24. */
  lemma OtherJobsReach24(cfg: Config, user: string)
    ensures |OtherJobs(Run(cfg, EMPTY, Starts(user, "test", 24)), user)| == 24
  {
    StartsRun(cfg, user, "test", 24);
  }

  // ----- one active launch per user -----

  /** Every active launch is the one its owner's request names, and expires before the request does. */
  predicate Exclusive(cfg: Config, w: World) {
    forall n :: n in w.jobs && Active(w.jobs[n]) ==>
      var u := w.jobs[n].requestedBy;
      && u in w.requests && w.requests[u].name == n
      && w.jobs[n].expiresAt <= w.requests[u].requestedAt + 2 * cfg.maxAge
  }

  predicate OneActivePerUser(w: World) {
    forall m, n | m in ActiveLaunches(w) && n in ActiveLaunches(w) ::
      w.jobs[m].requestedBy == w.jobs[n].requestedBy ==> m == n
  }

  /** The user has no active launch other than `name`. */
  predicate NoOtherLaunch(w: World, user: string, name: string) {
    forall n :: n in w.jobs && Active(w.jobs[n]) && w.jobs[n].requestedBy == user ==> n == name
  }

  predicate Named(w: World) {
    forall n :: n in w.jobs ==> n != ""
  }

  lemma LaunchExclusive(cfg: Config, w: World, user: string, name: string, mode: string, at: Time)
    requires Exclusive(cfg, w) && Named(w) && name != ""
    ensures Exclusive(cfg, Launch(cfg, w, user, name, mode, at).0)
  {
    if IsLaunch(mode) && Existing(w, user).None? {
      var w1 := Requested(w, user, name, at);
      assert forall n :: n in w.jobs && Active(w.jobs[n]) ==> w.jobs[n].requestedBy != user;
      assert Exclusive(cfg, w1);
    }
  }

  /** A failed start keeps the invariant exactly when it takes away no other launch's request. */
  lemma FailStartExclusiveIff(cfg: Config, w: World, user: string, name: string)
    requires Exclusive(cfg, w)
    ensures Exclusive(cfg, FailStart(w, user, name)) <==> NoOtherLaunch(w, user, name)
  {
    var w' := FailStart(w, user, name);
    if !NoOtherLaunch(w, user, name) {
      var n :| n in w.jobs && Active(w.jobs[n]) && w.jobs[n].requestedBy == user && n != name;
      assert n in w'.jobs && w'.jobs[n] == w.jobs[n];
    }
  }

  /** Job names are not empty, and no failed start hits a user who meanwhile has another launch. */
  predicate CleanStarts(cfg: Config, w: World, ops: seq<Op>)
    decreases |ops|
  {
    ops != [] ==>
      && (ops[0].OpLaunch? ==> ops[0].name != "")
      && (ops[0].OpFailStart? ==> NoOtherLaunch(w, ops[0].user, ops[0].name))
      && CleanStarts(cfg, Apply(cfg, w, ops[0]), ops[1..])
  }

  lemma StepExclusive(cfg: Config, w: World, op: Op)
    requires Exclusive(cfg, w) && Named(w)
    requires op.OpLaunch? ==> op.name != ""
    requires op.OpFailStart? ==> NoOtherLaunch(w, op.user, op.name)
    ensures Exclusive(cfg, Apply(cfg, w, op)) && Named(Apply(cfg, w, op))
  {
    match op
    case OpLaunch(user, name, mode, at) => LaunchExclusive(cfg, w, user, name, mode, at);
    case OpFailStart(user, name) => FailStartExclusiveIff(cfg, w, user, name);
    case OpTerminate(user, name, now) =>
    case OpSweep(now) =>
  }

  lemma {:induction false} RunExclusive(cfg: Config, w: World, ops: seq<Op>)
    requires Exclusive(cfg, w) && Named(w) && CleanStarts(cfg, w, ops)
    ensures Exclusive(cfg, Run(cfg, w, ops)) && Named(Run(cfg, w, ops))
    decreases |ops|
  {
    if ops != [] {
      StepExclusive(cfg, w, ops[0]);
      RunExclusive(cfg, Apply(cfg, w, ops[0]), ops[1..]);
    }
  }

  /** With clean starts no user ever has two active launches. */
  lemma OneLaunchPerUser(cfg: Config, ops: seq<Op>)
    requires CleanStarts(cfg, EMPTY, ops)
    ensures OneActivePerUser(Run(cfg, EMPTY, ops))
  {
    RunExclusive(cfg, EMPTY, ops);
  }

  // ----- when a failed start breaks the rule -----

  /** In every continuation with clean starts no user has two active launches. */
  ghost predicate StaysOnePerUser(cfg: Config, w: World) {
    forall ops :: CleanStarts(cfg, w, ops) ==> OneActivePerUser(Run(cfg, w, ops))
  }

  predicate Fits(cfg: Config, w: World) {
    |ActiveLaunches(w)| <= cfg.maxClusters
  }

  lemma StepFits(cfg: Config, w: World, op: Op)
    requires Fits(cfg, w)
    ensures Fits(cfg, Apply(cfg, w, op))
  {
    var w' := Apply(cfg, w, op);
    if op.OpLaunch? && IsLaunch(op.mode) && Existing(w, op.user).None? {
      var w1 := Requested(w, op.user, op.name, op.at);
      SubsetSize(ActiveLaunches(w1), ActiveLaunches(w));
      AddOne(ActiveLaunches(w'), ActiveLaunches(w1), op.name);
    } else {
      SubsetSize(ActiveLaunches(w'), ActiveLaunches(w));
    }
  }

  lemma {:induction false} RunFits(cfg: Config, w: World, ops: seq<Op>)
    requires Fits(cfg, w)
    ensures Fits(cfg, Run(cfg, w, ops))
    decreases |ops|
  {
    if ops != [] {
      StepFits(cfg, w, ops[0]);
      RunFits(cfg, Apply(cfg, w, ops[0]), ops[1..]);
    }
  }

  lemma SingleIsOnePerUser(w: World)
    requires |ActiveLaunches(w)| <= 1
    ensures OneActivePerUser(w)
  {
    forall m, n | m in ActiveLaunches(w) && n in ActiveLaunches(w) ensures m == n {
      if m != n {
        SubsetSize({m, n}, ActiveLaunches(w));
      }
    }
  }

  /** The user has an active launch that no request of theirs names. */
  predicate Orphan(w: World, user: string, n: string) {
    user !in w.requests && n in w.jobs && Active(w.jobs[n]) && w.jobs[n].requestedBy == user
  }

  lemma CleanPrepend(cfg: Config, w: World, op: Op, rest: seq<Op>)
    requires !op.OpFailStart? && (op.OpLaunch? ==> op.name != "") && CleanStarts(cfg, Apply(cfg, w, op), rest)
    ensures CleanStarts(cfg, w, [op] + rest) && Run(cfg, w, [op] + rest) == Run(cfg, Apply(cfg, w, op), rest)
  {
    assert ([op] + rest)[1..] == rest;
  }

  /** Terminating other launches makes room and leaves the orphan alone. */
  lemma {:induction false} MakeRoom(cfg: Config, w: World, user: string, n: string) returns (ops: seq<Op>)
    requires Orphan(w, user, n) && cfg.maxClusters >= 2
    ensures CleanStarts(cfg, w, ops) && Orphan(Run(cfg, w, ops), user, n)
    ensures |ActiveLaunches(Run(cfg, w, ops))| < cfg.maxClusters
    decreases |ActiveLaunches(w)|
  {
    ops := [];
    if |ActiveLaunches(w)| >= cfg.maxClusters {
      var m := AnotherOf(ActiveLaunches(w), n);
      var stop := OpTerminate(w.jobs[m].requestedBy, m, 0);
      var w' := Apply(cfg, w, stop);
      assert ActiveLaunches(w') == ActiveLaunches(w) - {m};
      var rest := MakeRoom(cfg, w', user, n);
      CleanPrepend(cfg, w, stop, rest);
      ops := [stop] + rest;
    }
  }

  lemma AnotherOf(names: set<string>, n: string) returns (m: string)
    requires |names| >= 2
    ensures m in names && m != n
  {
    if forall x :: x in names ==> x == n {
      SubsetSize(names, {n});
    }
    m :| m in names && m != n;
  }

  lemma {:induction false} FreshName(used: set<string>) returns (name: string)
    ensures name != "" && forall u :: u in used ==> |u| < |name|
  {
    name := "j";
    if used != {} {
      var u :| u in used;
      var rest := FreshName(used - {u});
      name := if |u| < |rest| then rest else u + "j";
    }
  }

  /** With room, the owner of an orphan can launch a second cluster. */
  lemma OrphanAllowsSecond(cfg: Config, w: World, user: string, n: string)
    requires Orphan(w, user, n) && |ActiveLaunches(w)| < cfg.maxClusters
    ensures !StaysOnePerUser(cfg, w)
  {
    var name := FreshName(w.jobs.Keys);
    var op := OpLaunch(user, name, "launch", 0);
    var w' := Apply(cfg, w, op);
    assert ActiveLaunches(Requested(w, user, name, 0)) == ActiveLaunches(w);
    assert n in ActiveLaunches(w') && name in ActiveLaunches(w');
    CleanPrepend(cfg, w, op, []);
    assert !OneActivePerUser(Run(cfg, w, [op] + []));
  }

  lemma {:induction false} LaterBreak(cfg: Config, w: World, x: seq<Op>)
    requires CleanStarts(cfg, w, x) && !StaysOnePerUser(cfg, Run(cfg, w, x))
    ensures !StaysOnePerUser(cfg, w)
    decreases |x|
  {
    if x != [] {
      var w' := Apply(cfg, w, x[0]);
      LaterBreak(cfg, w', x[1..]);
      var y :| CleanStarts(cfg, w', y) && !OneActivePerUser(Run(cfg, w', y));
      assert ([x[0]] + y)[1..] == y;
      assert CleanStarts(cfg, w, [x[0]] + y) && !OneActivePerUser(Run(cfg, w, [x[0]] + y));
    }
  }

  /**
   * After a failed start no user ever gets two active launches, whatever clean run follows,
   * if and only if the user had no other active launch or the bot runs at most one cluster.
   */
  lemma FailStartSafeIff(cfg: Config, w: World, user: string, name: string)
    requires Exclusive(cfg, w) && Named(w) && Fits(cfg, w)
    ensures StaysOnePerUser(cfg, FailStart(w, user, name)) <==> NoOtherLaunch(w, user, name) || cfg.maxClusters <= 1
  {
    var w' := FailStart(w, user, name);
    FailStartExclusiveIff(cfg, w, user, name);
    StepFits(cfg, w, OpFailStart(user, name));
    if NoOtherLaunch(w, user, name) {
      forall ops | CleanStarts(cfg, w', ops) ensures OneActivePerUser(Run(cfg, w', ops)) {
        RunExclusive(cfg, w', ops);
      }
    } else if cfg.maxClusters <= 1 {
      forall ops | CleanStarts(cfg, w', ops) ensures OneActivePerUser(Run(cfg, w', ops)) {
        RunFits(cfg, w', ops);
        SingleIsOnePerUser(Run(cfg, w', ops));
      }
    } else {
      var n :| n in w.jobs && Active(w.jobs[n]) && w.jobs[n].requestedBy == user && n != name;
      var ops := MakeRoom(cfg, w', user, n);
      OrphanAllowsSecond(cfg, Run(cfg, w', ops), user, n);
      LaterBreak(cfg, w', ops);
    }
  }

  /** Every state of a clean run satisfies what is asked of `w` there. */
  lemma CleanRunIsExclusive(cfg: Config, ops: seq<Op>)
    requires CleanStarts(cfg, EMPTY, ops)
    ensures var w := Run(cfg, EMPTY, ops); Exclusive(cfg, w) && Named(w) && Fits(cfg, w)
  {
    RunExclusive(cfg, EMPTY, ops);
    assert ActiveLaunches(EMPTY) == {};
    RunFits(cfg, EMPTY, ops);
  }

  /** A test job that fails to start takes the request of the user's running cluster with it. */
  lemma FailedTestAllowsSecondLaunch(cfg: Config, u: string, at: Time)
    requires cfg.maxClusters >= 2
    ensures var ops := [OpLaunch(u, "a", "launch", at), OpLaunch(u, "b", "test", at), OpFailStart(u, "b"),
                        OpLaunch(u, "c", "launch", at)];
            !OneActivePerUser(Run(cfg, EMPTY, ops))
  {
    var a, b := NewJob(cfg, u, "a", "launch", at), NewJob(cfg, u, "b", "test", at);
    var c := NewJob(cfg, u, "c", "launch", at);
    var w1 := World(map["a" := a], map[u := Request(u, "a", at)]);
    var w2 := w1.(jobs := map["a" := a, "b" := b]);
    var w3 := World(map["a" := a], map[]);
    var w4 := World(map["a" := a, "c" := c], map[u := Request(u, "c", at)]);
    assert Launch(cfg, EMPTY, u, "a", "launch", at).0 == w1 by {
      assert ActiveLaunches(World(map[], map[u := Request(u, "a", at)])) == {};
    }
    assert Launch(cfg, w1, u, "b", "test", at).0 == w2 by {
      assert OtherJobs(w1, u) == {};
    }
    assert FailStart(w2, u, "b") == w3;
    assert Launch(cfg, w3, u, "c", "launch", at).0 == w4 by {
      assert ActiveLaunches(World(map["a" := a], map[u := Request(u, "c", at)])) == {"a"};
    }
    var o1, o2, o3, o4 := OpLaunch(u, "a", "launch", at), OpLaunch(u, "b", "test", at), OpFailStart(u, "b"),
                          OpLaunch(u, "c", "launch", at);
    RunStep(cfg, w3, o4, []);
    RunStep(cfg, w2, o3, [o4]);
    RunStep(cfg, w1, o2, [o3, o4]);
    RunStep(cfg, EMPTY, o1, [o2, o3, o4]);
    assert [o1] + [o2, o3, o4] == [o1, o2, o3, o4];
    assert "a" in ActiveLaunches(w4) && "c" in ActiveLaunches(w4);
  }

  lemma RunStep(cfg: Config, w: World, op: Op, rest: seq<Op>)
    ensures Run(cfg, w, [op] + rest) == Run(cfg, Apply(cfg, w, op), rest)
  {
    assert ([op] + rest)[1..] == rest;
  }

  // ----- what the operations promise their user -----

  /** The user's request names no job yet, or one that is tracked and has not failed or has credentials. */
  predicate HeldUp(w: World, user: string) {
    && user in w.requests
    && (w.requests[user].name == ""
        || (w.requests[user].name in w.jobs
            && (w.jobs[w.requests[user].name].failure == "" || w.jobs[w.requests[user].name].credentials != "")))
  }

  /** Launches of clusters that are neither complete nor failed. */
  predicate Launched(j: Job) {
    (j.mode == "launch" || j.mode == "workflow-launch") && !j.complete && j.failure == ""
  }

  /**
   * A launch is told that the cluster is up exactly when the requested job has credentials, and refused
   * exactly when the user is held up otherwise or no cluster is free. The failed job it replaces is forgotten.
   */
  lemma LaunchAnswers(cfg: Config, w: World, user: string, name: string, mode: string, at: Time, n: string, u: string)
    requires mode == "launch" || mode == "workflow-launch"
    ensures var (w', r) := Launch(cfg, w, user, name, mode, at);
            var requested := if user in w.requests then w.requests[user].name else "";
            var replaced := requested in w.jobs && n == requested;
            && (r == AlreadyRunning <==> requested != "" && requested in w.jobs && w.jobs[requested].credentials != "")
            && (HeldUp(w, user) ==> w' == w && r != Admitted)
            && (!HeldUp(w, user) ==>
                  (r == Refused <==> |set m | m in w.jobs && Launched(w.jobs[m])| >= cfg.maxClusters))
            && (!HeldUp(w, user) ==> user in w'.requests && w'.requests[user] == Request(user, name, at))
            && (!HeldUp(w, user) && n != name ==> (n in w'.jobs <==> n in w.jobs && !(user in w.requests && replaced)))
            && (n != name && n in w'.jobs ==> w'.jobs[n] == w.jobs[n])
            && (u != user ==> (u in w'.requests <==> u in w.requests))
            && (u != user && u in w.requests ==> w'.requests[u] == w.requests[u])
            && (r == Admitted ==>
                  name in w'.jobs && w'.jobs[name] == Job(name, mode, user, "", "", false, at + cfg.maxAge))
  {
    if !HeldUp(w, user) {
      assert ActiveLaunches(Requested(w, user, name, at)) == set m | m in w.jobs && Launched(w.jobs[m]);
    }
  }

  /** Any other job is refused exactly when the user has more than 23 such jobs, and touches no request. */
  lemma OtherJobAnswers(cfg: Config, w: World, user: string, name: string, mode: string, at: Time)
    requires mode != "launch" && mode != "workflow-launch"
    ensures var (w', r) := Launch(cfg, w, user, name, mode, at);
            var others := set m | m in w.jobs && w.jobs[m].mode != "launch" && w.jobs[m].mode != "workflow-launch"
                                    && w.jobs[m].requestedBy == user;
            && (r == Refused <==> |others| > 23) && (r == Admitted <==> |others| <= 23)
            && w'.requests == w.requests
            && w'.jobs == if r == Admitted then w.jobs[name := Job(name, mode, user, "", "", false, at + cfg.maxAge)]
                          else w.jobs
  {
    assert OtherJobs(w, user) == set m | m in w.jobs && w.jobs[m].mode != "launch"
      && w.jobs[m].mode != "workflow-launch" && w.jobs[m].requestedBy == user;
  }

  /** A terminated job is failed and complete, expires fifteen minutes later, and keeps no request that names it. */
  lemma TerminateAnswers(w: World, user: string, name: string, now: Time, n: string, u: string)
    ensures var w' := Terminate(w, user, name, now);
            && w'.jobs.Keys == w.jobs.Keys
            && (name in w.jobs ==>
                  && w'.jobs[name].complete && w'.jobs[name].failure != "" && w'.jobs[name].expiresAt == now + 15 * 60
                  && w'.jobs[name].mode == w.jobs[name].mode && w'.jobs[name].credentials == w.jobs[name].credentials
                  && w'.jobs[name].requestedBy == w.jobs[name].requestedBy)
            && (n != name && n in w.jobs ==> w'.jobs[n] == w.jobs[n])
            && (u in w'.requests <==> u in w.requests && !(u == user && w.requests[u].name == name))
            && (u in w'.requests ==> w'.requests[u] == w.requests[u])
  {
  }

  /** "You may now launch another": terminating one's running cluster always makes room for a new one. */
  lemma TerminateThenLaunch(cfg: Config, w: World, user: string, now: Time, name: string, at: Time)
    requires Exclusive(cfg, w) && |ActiveLaunches(w)| <= cfg.maxClusters
    requires user in w.requests && w.requests[user].name in w.jobs && Active(w.jobs[w.requests[user].name])
    ensures var (w', r) := Launch(cfg, Terminate(w, user, w.requests[user].name, now), user, name, "launch", at);
            && r == Admitted
            && name in ActiveLaunches(w') && w'.jobs[name].requestedBy == user && w'.requests[user].name == name
            && |ActiveLaunches(w')| <= |ActiveLaunches(w)|
  {
    var stopped := w.requests[user].name;
    var w1 := Terminate(w, user, stopped, now);
    assert ActiveLaunches(w1) == ActiveLaunches(w) - {stopped};
    var w2 := Requested(w1, user, name, at);
    assert ActiveLaunches(w2) == ActiveLaunches(w1);
    var w' := Launch(cfg, w1, user, name, "launch", at).0;
    AddOne(ActiveLaunches(w'), ActiveLaunches(w2), name);
  }

  /** A failed start undoes the admission exactly for a new name and a user without a request. */
  lemma FailedStartUndoesIff(cfg: Config, w: World, user: string, name: string, mode: string, at: Time)
    requires Launch(cfg, w, user, name, mode, at).1 == Admitted
    ensures FailStart(Launch(cfg, w, user, name, mode, at).0, user, name) == w
       <==> name !in w.jobs && user !in w.requests
  {
    var w' := Launch(cfg, w, user, name, mode, at).0;
    if name !in w.jobs && user !in w.requests {
      assert w'.jobs - {name} == w.jobs;
      assert w'.requests - {user} == w.requests;
    }
  }

  /** A launch below the limits is admitted, tracked as active, and blocks the next one of the same user. */
  lemma LaunchBlocksNext(cfg: Config, w: World, user: string, name: string, at: Time, name2: string, at2: Time)
    requires name != "" && Existing(w, user).None? && |ActiveLaunches(w)| < cfg.maxClusters
    ensures var (w1, r) := Launch(cfg, w, user, name, "launch", at);
            && r == Admitted && name in ActiveLaunches(w1) && w1.jobs[name].expiresAt == at + cfg.maxAge
            && Launch(cfg, w1, user, name2, "launch", at2) == (w1, Refused)
  {
    SubsetSize(ActiveLaunches(Requested(w, user, name, at)), ActiveLaunches(w));
  }

  /** The operation neither starts nor stops `name`. */
  predicate Spares(op: Op, name: string) {
    op.OpSweep? || op.name != name
  }

  predicate Unrequested(w: World, name: string) {
    forall u :: u in w.requests ==> w.requests[u].name != name
  }

  /** It is swept when its time is over. */
  predicate Outlives(op: Op, expiresAt: Time) {
    op.OpSweep? ==> op.now <= expiresAt
  }

  lemma SparedStep(cfg: Config, w: World, name: string, op: Op)
    requires Unrequested(w, name) && Spares(op, name)
    ensures var w' := Apply(cfg, w, op);
            && Unrequested(w', name)
            && (name !in w.jobs ==> name !in w'.jobs)
            && (name in w.jobs ==>
                  && (name in w'.jobs <==> Outlives(op, w.jobs[name].expiresAt))
                  && (name in w'.jobs ==> w'.jobs[name] == w.jobs[name]))
  {
  }

  lemma {:induction false} SparedRun(cfg: Config, w: World, name: string, ops: seq<Op>)
    requires Unrequested(w, name) && forall op :: op in ops ==> Spares(op, name)
    ensures var w' := Run(cfg, w, ops);
            && (name !in w.jobs ==> name !in w'.jobs)
            && (name in w.jobs ==>
                  (name in w'.jobs <==> forall op :: op in ops ==> Outlives(op, w.jobs[name].expiresAt)))
    decreases |ops|
  {
    if ops != [] {
      assert ops[0] in ops && ops == [ops[0]] + ops[1..];
      SparedStep(cfg, w, name, ops[0]);
      SparedRun(cfg, Apply(cfg, w, ops[0]), name, ops[1..]);
    }
  }

  /**
   * A terminated job stays known over every run of other operations until a sweep
   * more than fifteen minutes later, and is gone from then on.
   */
  lemma TerminatedLingers(cfg: Config, w: World, user: string, name: string, now: Time, ops: seq<Op>)
    requires name in w.jobs && forall u :: u in w.requests && w.requests[u].name == name ==> u == user
    requires forall op :: op in ops ==> Spares(op, name)
    ensures name in Run(cfg, Terminate(w, user, name, now), ops).jobs
       <==> forall op :: op in ops ==> Outlives(op, now + 15 * 60)
  {
    SparedRun(cfg, Terminate(w, user, name, now), name, ops);
  }
}
