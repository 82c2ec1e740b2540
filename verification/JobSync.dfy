/** What a sync with the ProwJobs records about every job and every user, from any maps. */
module JobSync {
  import opened Jobs
  import opened JobRecovery
  import JobParams

  /** Fifteen minutes after the completion, or as long after the creation as annotated or configured. */
  predicate EndsAt(cfg: Config, p: ProwJob, t: Time) {
    if p.completed.Some? then t == p.completed.value + 15 * 60
    else if p.lifetime.Some? then t == p.created + p.lifetime.value
    else t == p.created + cfg.maxAge
  }

  /** Has inputs and readable parameters, is in a state the sync follows, and its time is not over. */
  ghost predicate Followed(cfg: Config, p: ProwJob, now: Time) {
    && p.hasInputs && JobParams.Parse(p.params).Some?
    && (p.state == Failure || p.state == Success || p.state == Waiting)
    && exists t :: EndsAt(cfg, p, t) && now <= t
  }

  /** The job as it is tracked: failed exactly when the ProwJob failed, complete exactly when it is over. */
  predicate Tracks(cfg: Config, p: ProwJob, j: Job) {
    && j.name == p.name && j.mode == p.mode && j.requestedBy == p.user && j.credentials == ""
    && (j.failure != "" <==> p.state == Failure)
    && (j.complete <==> p.completed.Some?)
    && EndsAt(cfg, p, j.expiresAt)
  }

  lemma FollowedIff(cfg: Config, p: ProwJob, now: Time)
    ensures Followed(cfg, p, now) <==> Readable(cfg, p, now) && p.state != Ended
    ensures Tracks(cfg, p, TrackedJob(cfg, p))
  {
    assert EndsAt(cfg, p, ExpiresAt(cfg, p));
  }

  // ----- jobs -----

  lemma {:induction false} UnfollowedStays(cfg: Config, w: World, prowjobs: seq<ProwJob>, now: Time, name: string)
    requires forall p :: p in prowjobs && p.name == name ==> !Followed(cfg, p, now)
    ensures var w' := SyncJobs(cfg, w, prowjobs, now);
            && (name in w'.jobs <==> name in w.jobs)
            && (name in w.jobs ==> w'.jobs[name] == w.jobs[name])
  {
    if prowjobs != [] {
      var n := |prowjobs| - 1;
      UnfollowedStays(cfg, w, prowjobs[..n], now, name);
      FollowedIff(cfg, prowjobs[n], now);
    }
  }

  lemma {:induction false} FollowedTracked(cfg: Config, w: World, prowjobs: seq<ProwJob>, now: Time, k: nat)
    requires DistinctNames(prowjobs) && k < |prowjobs| && Followed(cfg, prowjobs[k], now)
    ensures var w' := SyncJobs(cfg, w, prowjobs, now);
            prowjobs[k].name in w'.jobs && Tracks(cfg, prowjobs[k], w'.jobs[prowjobs[k].name])
  {
    var n := |prowjobs| - 1;
    FollowedIff(cfg, prowjobs[n], now);
    if k < n {
      assert prowjobs[..n][k] == prowjobs[k];
      FollowedTracked(cfg, w, prowjobs[..n], now, k);
    }
  }

  /** After a sync a followed ProwJob is tracked as it stands. */
  lemma SyncTracks(cfg: Config, w: World, prowjobs: seq<ProwJob>, now: Time, k: nat)
    requires DistinctNames(prowjobs) && k < |prowjobs| && Followed(cfg, prowjobs[k], now)
    ensures var w' := Sync(cfg, w, prowjobs, now);
            prowjobs[k].name in w'.jobs && Tracks(cfg, prowjobs[k], w'.jobs[prowjobs[k].name])
  {
    FollowedTracked(cfg, w, prowjobs, now, k);
  }

  /** Any other job is as it was, until its time is over. */
  lemma SyncKeeps(cfg: Config, w: World, prowjobs: seq<ProwJob>, now: Time, name: string)
    requires forall p :: p in prowjobs && p.name == name ==> !Followed(cfg, p, now)
    ensures var w' := Sync(cfg, w, prowjobs, now);
            && (name in w'.jobs <==> name in w.jobs && now <= w.jobs[name].expiresAt)
            && (name in w'.jobs ==> w'.jobs[name] == w.jobs[name])
  {
    UnfollowedStays(cfg, w, prowjobs, now, name);
  }

  // ----- requests -----

  /** A launch on its way that a user without a request gets one for: its job was not complete before. */
  ghost predicate Opens(cfg: Config, w: World, p: ProwJob, user: string, now: Time) {
    && Followed(cfg, p, now) && p.state == Waiting && p.user == user && user != ""
    && (p.mode == "launch" || p.mode == "workflow-launch")
    && (p.name in w.jobs ==> !w.jobs[p.name].complete)
  }

  lemma PreviousJob(cfg: Config, w: World, prowjobs: seq<ProwJob>, now: Time)
    requires DistinctNames(prowjobs) && prowjobs != []
    ensures var n := |prowjobs| - 1;
            var name, w' := prowjobs[n].name, SyncJobs(cfg, w, prowjobs[..n], now);
            (name in w'.jobs <==> name in w.jobs) && (name in w.jobs ==> w'.jobs[name] == w.jobs[name])
  {
    var n := |prowjobs| - 1;
    UnfollowedStays(cfg, w, prowjobs[..n], now, prowjobs[n].name);
  }

  lemma {:induction false} UnopenedStays(cfg: Config, w: World, prowjobs: seq<ProwJob>, now: Time, user: string)
    requires DistinctNames(prowjobs)
    requires user in w.requests || forall p :: p in prowjobs ==> !Opens(cfg, w, p, user, now)
    ensures var w' := SyncJobs(cfg, w, prowjobs, now);
            && (user in w'.requests <==> user in w.requests)
            && (user in w.requests ==> w'.requests[user] == w.requests[user])
  {
    if prowjobs != [] {
      var n := |prowjobs| - 1;
      UnopenedStays(cfg, w, prowjobs[..n], now, user);
      FollowedIff(cfg, prowjobs[n], now);
      PreviousJob(cfg, w, prowjobs, now);
      assert prowjobs[n] in prowjobs;
    }
  }

  lemma {:induction false} FirstOpens(cfg: Config, w: World, prowjobs: seq<ProwJob>, now: Time, user: string, k: nat)
    requires DistinctNames(prowjobs) && user !in w.requests && k < |prowjobs| && Opens(cfg, w, prowjobs[k], user, now)
    requires forall j :: 0 <= j < k ==> !Opens(cfg, w, prowjobs[j], user, now)
    ensures var w' := SyncJobs(cfg, w, prowjobs, now);
            user in w'.requests && w'.requests[user] == Request(user, prowjobs[k].name, prowjobs[k].created)
  {
    var n := |prowjobs| - 1;
    FollowedIff(cfg, prowjobs[n], now);
    if k < n {
      assert forall j :: 0 <= j < n ==> prowjobs[..n][j] == prowjobs[j];
      FirstOpens(cfg, w, prowjobs[..n], now, user, k);
    } else {
      UnopenedStays(cfg, w, prowjobs[..n], now, user);
      PreviousJob(cfg, w, prowjobs, now);
    }
  }

  /** A request stays for twice `maxAge`; no user gets one without a launch that opens it. */
  lemma SyncKeepsRequest(cfg: Config, w: World, prowjobs: seq<ProwJob>, now: Time, user: string)
    requires DistinctNames(prowjobs)
    requires user in w.requests || forall p :: p in prowjobs ==> !Opens(cfg, w, p, user, now)
    ensures var w' := Sync(cfg, w, prowjobs, now);
            && (user in w'.requests <==> user in w.requests && now <= w.requests[user].requestedAt + 2 * cfg.maxAge)
            && (user in w'.requests ==> w'.requests[user] == w.requests[user])
  {
    UnopenedStays(cfg, w, prowjobs, now, user);
  }

  /** A user without one gets the request of the first launch that opens it, if that is not too old. */
  lemma SyncOpensRequest(cfg: Config, w: World, prowjobs: seq<ProwJob>, now: Time, user: string, k: nat)
    requires DistinctNames(prowjobs) && user !in w.requests && k < |prowjobs| && Opens(cfg, w, prowjobs[k], user, now)
    requires forall j :: 0 <= j < k ==> !Opens(cfg, w, prowjobs[j], user, now)
    ensures var w' := Sync(cfg, w, prowjobs, now);
            && (user in w'.requests <==> now <= prowjobs[k].created + 2 * cfg.maxAge)
            && (user in w'.requests ==> w'.requests[user] == Request(user, prowjobs[k].name, prowjobs[k].created))
  {
    FirstOpens(cfg, w, prowjobs, now, user, k);
  }

  // ----- the next launch -----

  /**
   * The next launch of a user whose requested job is followed: a failed one does not hold it up, it
   * is forgotten and the launch is admitted exactly when a cluster is free; one that has not failed does.
   */
  lemma NextLaunch(cfg: Config, w: World, prowjobs: seq<ProwJob>, now: Time, k: nat, user: string, name: string,
                   mode: string, at: Time)
    requires DistinctNames(prowjobs) && k < |prowjobs| && Followed(cfg, prowjobs[k], now)
    requires mode == "launch" || mode == "workflow-launch"
    requires user in w.requests && w.requests[user].name == prowjobs[k].name != ""
    requires now <= w.requests[user].requestedAt + 2 * cfg.maxAge
    ensures var w1 := Sync(cfg, w, prowjobs, now);
            var (w2, r) := Launch(cfg, w1, user, name, mode, at);
            if prowjobs[k].state == Failure then
              && (r == Admitted <==> |ActiveLaunches(w1)| < cfg.maxClusters)
              && (prowjobs[k].name != name ==> prowjobs[k].name !in w2.jobs)
              && user in w2.requests && w2.requests[user] == Request(user, name, at)
              && (r == Admitted ==> name in ActiveLaunches(w2))
            else (w2, r) == (w1, Refused)
  {
    var w1 := Sync(cfg, w, prowjobs, now);
    SyncTracks(cfg, w, prowjobs, now, k);
    SyncKeepsRequest(cfg, w, prowjobs, now, user);
    if prowjobs[k].state == Failure {
      assert ActiveLaunches(Requested(w1, user, name, at)) == ActiveLaunches(w1);
    }
  }
}
