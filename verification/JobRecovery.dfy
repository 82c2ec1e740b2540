/** The periodic sync with the ProwJobs, and what a restarted bot knows after its first one. */
module JobRecovery {
  import opened Wrappers
  import opened Jobs
  import JobParams

  datatype ProwState = Failure | Success | Waiting | Ended   // Waiting: scheduling, triggered, pending or unset

  /** A labelled ProwJob, with the annotations the sync reads. */
  datatype ProwJob = ProwJob(
    name: string, state: ProwState, mode: string, user: string, created: Time,
    hasInputs: bool,                 // the jobInputs annotation is a non-empty list
    params: string,                  // the jobParams annotation
    lifetime: Option<nat>,           // the expires annotation, when it is a positive number
    completed: Option<Time>)

  function ExpiresAt(cfg: Config, p: ProwJob): Time {
    if p.completed.Some? then p.completed.value + SHUTDOWN_GRACE
    else p.created + (if p.lifetime.Some? then p.lifetime.value else cfg.maxAge)
  }

  function TrackedJob(cfg: Config, p: ProwJob): Job {
    Job(p.name, p.mode, p.user, if p.state == Failure then "job failed, see logs" else "", "",
        p.completed.Some?, ExpiresAt(cfg, p))
  }

  /** Is the ProwJob looked at, beyond its inputs, parameters and expiry? */
  predicate Readable(cfg: Config, p: ProwJob, now: Time) {
    p.hasInputs && JobParams.Parse(p.params).Some? && ExpiresAt(cfg, p) >= now
  }

  function SyncJob(cfg: Config, w: World, p: ProwJob, now: Time): World {
    if !Readable(cfg, p, now) || p.state == Ended then w
    else
      var requests :=
        if p.state == Waiting && IsLaunch(p.mode) && p.user != "" && p.user !in w.requests
           && (p.name !in w.jobs || !w.jobs[p.name].complete)
        then w.requests[p.user := Request(p.user, p.name, p.created)]
        else w.requests;
      World(w.jobs[p.name := TrackedJob(cfg, p)], requests)
  }

  function SyncJobs(cfg: Config, w: World, prowjobs: seq<ProwJob>, now: Time): World {
    if prowjobs == [] then w
    else SyncJob(cfg, SyncJobs(cfg, w, prowjobs[..|prowjobs| - 1], now), prowjobs[|prowjobs| - 1], now)
  }

  function Sync(cfg: Config, w: World, prowjobs: seq<ProwJob>, now: Time): World {
    Sweep(cfg, SyncJobs(cfg, w, prowjobs, now), now)
  }

  // ----- after a restart -----

  /** A launch of `user` that is still on its way. */
  predicate Pending(cfg: Config, p: ProwJob, user: string, now: Time) {
    Readable(cfg, p, now) && p.state == Waiting && IsLaunch(p.mode) && p.user == user
  }

  /** The first pending launch of the user in list order, or -1. */
  function FirstPending(cfg: Config, prowjobs: seq<ProwJob>, user: string, now: Time): (i: int)
    ensures i == -1 || 0 <= i < |prowjobs|
  {
    if prowjobs == [] then -1
    else
      var n := |prowjobs| - 1;
      var i := FirstPending(cfg, prowjobs[..n], user, now);
      if i != -1 then i else if Pending(cfg, prowjobs[n], user, now) then n else -1
  }

  lemma {:induction false} FirstPendingIsFirst(cfg: Config, prowjobs: seq<ProwJob>, user: string, now: Time, k: nat)
    requires k < |prowjobs|
    ensures var i := FirstPending(cfg, prowjobs, user, now);
            && (i >= 0 ==> Pending(cfg, prowjobs[i], user, now))
            && (Pending(cfg, prowjobs[k], user, now) ==> 0 <= i <= k)
  {
    var n := |prowjobs| - 1;
    if n > 0 {
      FirstPendingIsFirst(cfg, prowjobs[..n], user, now, if k < n then k else 0);
    }
  }

  predicate DistinctNames(prowjobs: seq<ProwJob>) {
    forall i, j :: 0 <= i < j < |prowjobs| ==> prowjobs[i].name != prowjobs[j].name
  }

  predicate Unexpired(w: World, now: Time) {
    forall n :: n in w.jobs ==> w.jobs[n].expiresAt >= now
  }

  lemma SyncJobUnexpired(cfg: Config, w: World, p: ProwJob, now: Time)
    requires Unexpired(w, now)
    ensures Unexpired(SyncJob(cfg, w, p, now), now)
  {
  }

  lemma {:induction false} TrackedUnexpired(cfg: Config, prowjobs: seq<ProwJob>, now: Time)
    ensures Unexpired(SyncJobs(cfg, EMPTY, prowjobs, now), now)
  {
    if prowjobs != [] {
      var n := |prowjobs| - 1;
      TrackedUnexpired(cfg, prowjobs[..n], now);
      SyncJobUnexpired(cfg, SyncJobs(cfg, EMPTY, prowjobs[..n], now), prowjobs[n], now);
    }
  }

  lemma {:induction false} UnlistedUntracked(cfg: Config, prowjobs: seq<ProwJob>, now: Time, name: string)
    requires forall p :: p in prowjobs ==> p.name != name
    ensures name !in SyncJobs(cfg, EMPTY, prowjobs, now).jobs
  {
    if prowjobs != [] {
      UnlistedUntracked(cfg, prowjobs[..|prowjobs| - 1], now, name);
    }
  }

  /** While the list is read, a user has a request as soon as a pending launch was seen, and it names the first. */
  lemma {:induction false} RequestsNameFirst(cfg: Config, prowjobs: seq<ProwJob>, user: string, now: Time)
    requires DistinctNames(prowjobs) && user != ""
    ensures var w := SyncJobs(cfg, EMPTY, prowjobs, now);
            var i := FirstPending(cfg, prowjobs, user, now);
            && (user in w.requests <==> i != -1)
            && (i != -1 ==>
                  && w.requests[user] == Request(user, prowjobs[i].name, prowjobs[i].created)
                  && prowjobs[i].name in w.jobs
                  && w.jobs[prowjobs[i].name] == TrackedJob(cfg, prowjobs[i]))
  {
    if prowjobs != [] {
      var n := |prowjobs| - 1;
      var p := prowjobs[n];
      RequestsNameFirst(cfg, prowjobs[..n], user, now);
      assert forall q :: q in prowjobs[..n] ==> q.name != p.name;
      UnlistedUntracked(cfg, prowjobs[..n], now, p.name);
    }
  }

  /** Refusal of another launch: the request names a tracked job that has not failed. */
  lemma LaunchRefused(cfg: Config, w: World, user: string, name: string, mode: string, at: Time)
    requires IsLaunch(mode) && user in w.requests && w.requests[user].name in w.jobs
    requires w.jobs[w.requests[user].name].failure == "" && w.jobs[w.requests[user].name].credentials == ""
    ensures Launch(cfg, w, user, name, mode, at) == (w, Refused)
  {
  }

  /**
   * After the first sync of a restarted bot a user has a request exactly when
   * the first pending launch in the list was created at most twice `maxAge` ago;
   * it then names that job, which is tracked and has not failed, and another
   * launch is refused.
   */
  lemma RestartRecovers(cfg: Config, prowjobs: seq<ProwJob>, user: string, now: Time, name: string, mode: string,
                        at: Time)
    requires DistinctNames(prowjobs) && user != "" && IsLaunch(mode)
    ensures var w := Sync(cfg, EMPTY, prowjobs, now);
            var i := FirstPending(cfg, prowjobs, user, now);
            && (user in w.requests <==> i != -1 && prowjobs[i].created + 2 * cfg.maxAge >= now)
            && (user in w.requests ==>
                  && w.requests[user].name == prowjobs[i].name
                  && prowjobs[i].name in w.jobs && w.jobs[prowjobs[i].name].failure == ""
                  && Launch(cfg, w, user, name, mode, at) == (w, Refused))
  {
    var w0, w := SyncJobs(cfg, EMPTY, prowjobs, now), Sync(cfg, EMPTY, prowjobs, now);
    RequestsNameFirst(cfg, prowjobs, user, now);
    TrackedUnexpired(cfg, prowjobs, now);
    if user in w.requests {
      LaunchRefused(cfg, w, user, name, mode, at);
    }
  }

  function Lifetime(cfg: Config, p: ProwJob): Time {
    ExpiresAt(cfg, p) - p.created
  }

  /** When all pending launches live at most twice `maxAge`, each of their users is recognized again. */
  lemma ShortLivedRecovered(cfg: Config, prowjobs: seq<ProwJob>, user: string, now: Time, k: nat)
    requires DistinctNames(prowjobs) && user != ""
    requires k < |prowjobs| && Pending(cfg, prowjobs[k], user, now)
    requires forall p :: p in prowjobs && Pending(cfg, p, user, now) ==> Lifetime(cfg, p) <= 2 * cfg.maxAge
    ensures user in Sync(cfg, EMPTY, prowjobs, now).requests
  {
    RestartRecovers(cfg, prowjobs, user, now, "", "launch", now);
    FirstPendingIsFirst(cfg, prowjobs, user, now, k);
    assert prowjobs[FirstPending(cfg, prowjobs, user, now)] in prowjobs;
  }

  const LAUNCH_DEADLINE: Time := 45 * 60

  /** As the bot annotates the launches it starts. */
  predicate AnnotatedByBot(cfg: Config, p: ProwJob) {
    p.completed.None? && p.lifetime.Some? && p.lifetime.value == cfg.maxAge + LAUNCH_DEADLINE
  }

  /** Users whose pending launches were all started by the bot are recognized again: its `maxAge` is three hours. */
  lemma BotLaunchesRecovered(cfg: Config, prowjobs: seq<ProwJob>, user: string, now: Time, k: nat)
    requires DistinctNames(prowjobs) && user != "" && cfg.maxAge >= LAUNCH_DEADLINE
    requires k < |prowjobs| && Pending(cfg, prowjobs[k], user, now)
    requires forall p :: p in prowjobs && Pending(cfg, p, user, now) ==> AnnotatedByBot(cfg, p)
    ensures user in Sync(cfg, EMPTY, prowjobs, now).requests
  {
    ShortLivedRecovered(cfg, prowjobs, user, now, k);
  }

  /** One longer-lived launch listed first hides a younger one: the user is forgotten. */
  lemma LongLivedHidesOthers(cfg: Config, user: string, now: Time)
    requires user != "" && cfg.maxAge >= 1
    ensures var created := now - 2 * cfg.maxAge - 1;
            var first := ProwJob("a", Waiting, "launch", user, created, true, "", Some(3 * cfg.maxAge), None);
            var second := ProwJob("b", Waiting, "launch", user, now, true, "", None, None);
            && Pending(cfg, second, user, now) && Lifetime(cfg, second) <= 2 * cfg.maxAge
            && user !in Sync(cfg, EMPTY, [first, second], now).requests
  {
    var created := now - 2 * cfg.maxAge - 1;
    var first := ProwJob("a", Waiting, "launch", user, created, true, "", Some(3 * cfg.maxAge), None);
    var second := ProwJob("b", Waiting, "launch", user, now, true, "", None, None);
    assert JobParams.Parse("") == Some(map[]);
    assert Pending(cfg, first, user, now);
    FirstPendingIsFirst(cfg, [first, second], user, now, 0);
    RestartRecovers(cfg, [first, second], user, now, "", "launch", now);
  }
}
