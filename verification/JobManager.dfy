/** The job manager as it runs: counting, sweeping and syncing loops over its two maps. */
module JobManager {
  import opened Wrappers
  import opened Jobs
  import opened JobRecovery
  import JobParams

  class Manager {
    const cfg: Config
    var jobs: map<string, Job>
    var requests: map<string, Request>

    /** Entries are stored under their own names, which is what the sweep deletes by. */
    ghost predicate Valid()
      reads this
    {
      && (forall n :: n in jobs ==> jobs[n].name == n)
      && (forall u :: u in requests ==> requests[u].user == u)
    }

    function View(): World
      reads this
    {
      World(jobs, requests)
    }

    constructor (cfg: Config)
      ensures Valid() && this.cfg == cfg && View() == EMPTY
    {
      this.cfg := cfg;
      jobs, requests := map[], map[];
    }

    method CountActive() returns (count: nat)
      ensures count == |ActiveLaunches(View())|
    {
      count := 0;
      var names := jobs.Keys;
      ghost var seen: set<string> := {};
      while names != {}
        invariant names <= jobs.Keys && count == |seen|
        invariant seen == set n | n in jobs && n !in names && Active(jobs[n])
        decreases |names|
      {
        var n :| n in names;
        if Active(jobs[n]) {
          count := count + 1;
          seen := seen + {n};
        }
        names := names - {n};
      }
      assert seen == ActiveLaunches(View());
    }

    method CountOthers(user: string) returns (count: nat)
      ensures count == |OtherJobs(View(), user)|
    {
      count := 0;
      var names := jobs.Keys;
      ghost var seen: set<string> := {};
      while names != {}
        invariant names <= jobs.Keys && count == |seen|
        invariant seen == set n | n in jobs && n !in names && !IsLaunch(jobs[n].mode) && jobs[n].requestedBy == user
        decreases |names|
      {
        var n :| n in names;
        if !IsLaunch(jobs[n].mode) && jobs[n].requestedBy == user {
          count := count + 1;
          seen := seen + {n};
        }
        names := names - {n};
      }
      assert seen == OtherJobs(View(), user);
    }

    method LaunchLocked(user: string, name: string, mode: string, at: Time) returns (r: Reply)
      requires Valid()
      modifies this
      ensures Valid() && (View(), r) == Launch(cfg, old(View()), user, name, mode, at)
    {
      if IsLaunch(mode) {
        if user in requests {
          var existing := requests[user].name;
          if existing == "" {
            return Refused;
          }
          if existing in jobs {
            if jobs[existing].credentials != "" {
              return AlreadyRunning;
            }
            if jobs[existing].failure == "" {
              return Refused;
            }
            jobs := jobs - {existing};
            requests := requests - {user};
          }
        }
        requests := requests[user := Request(user, name, at)];
        assert View() == Requested(old(View()), user, name, at);
        var launched := CountActive();
        if launched >= cfg.maxClusters {
          return Refused;
        }
      } else {
        var running := CountOthers(user);
        if running > MAX_JOBS_PER_USER {
          return Refused;
        }
      }
      jobs := jobs[name := NewJob(cfg, user, name, mode, at)];
      r := Admitted;
    }

    method CleanupFailedStart(user: string, name: string)
      requires Valid()
      modifies this
      ensures Valid() && View() == FailStart(old(View()), user, name)
    {
      requests := requests - {user};
      jobs := jobs - {name};
    }

    method MarkTerminated(user: string, name: string, now: Time) returns (ok: bool)
      requires Valid()
      modifies this
      ensures Valid() && View() == Terminate(old(View()), user, name, now)
      ensures ok <==> user in old(requests) && old(requests)[user].name == name
    {
      if name in jobs {
        var job := jobs[name].(failure := "deletion requested", expiresAt := now + SHUTDOWN_GRACE, complete := true);
        jobs := jobs[name := job];
      }
      if user !in requests || requests[user].name != name {
        return false;
      }
      requests := requests - {user};
      ok := true;
    }

    method SweepJobs(now: Time)
      requires Valid()
      modifies this`jobs
      ensures jobs == map n | n in old(jobs) && old(jobs)[n].expiresAt >= now :: old(jobs)[n]
    {
      var before := jobs;
      var names := jobs.Keys;
      while names != {}
        invariant names <= before.Keys
        invariant jobs == map n | n in before && (n in names || before[n].expiresAt >= now) :: before[n]
        decreases |names|
      {
        var n :| n in names;
        if before[n].expiresAt < now {
          jobs := jobs - {before[n].name};
        }
        names := names - {n};
      }
    }

    method SweepRequests(now: Time)
      requires Valid()
      modifies this`requests
      ensures requests ==
        map u | u in old(requests) && old(requests)[u].requestedAt + 2 * cfg.maxAge >= now :: old(requests)[u]
    {
      var before := requests;
      var users := requests.Keys;
      while users != {}
        invariant users <= before.Keys
        invariant requests ==
          map u | u in before && (u in users || before[u].requestedAt + 2 * cfg.maxAge >= now) :: before[u]
        decreases |users|
      {
        var u :| u in users;
        if before[u].requestedAt + 2 * cfg.maxAge < now {
          requests := requests - {before[u].user};
        }
        users := users - {u};
      }
    }

    method SyncOne(p: ProwJob, now: Time)
      requires Valid()
      modifies this
      ensures Valid() && View() == SyncJob(cfg, old(View()), p, now)
    {
      if !p.hasInputs {
        return;
      }
      var params := JobParams.ParamsFromAnnotation(p.params);
      if params.None? {
        return;
      }
      if ExpiresAt(cfg, p) < now {
        return;
      }
      match p.state
      case Ended =>
      case Failure => jobs := jobs[p.name := TrackedJob(cfg, p)];
      case Success => jobs := jobs[p.name := TrackedJob(cfg, p)];
      case Waiting =>
        if IsLaunch(p.mode) && p.user != "" && p.user !in requests {
          if p.name !in jobs || !jobs[p.name].complete {
            requests := requests[p.user := Request(p.user, p.name, p.created)];
          }
        }
        jobs := jobs[p.name := TrackedJob(cfg, p)];
    }

    method SyncProwJobs(prowjobs: seq<ProwJob>, now: Time)
      requires Valid()
      modifies this
      ensures Valid() && View() == Sync(cfg, old(View()), prowjobs, now)
    {
      for i := 0 to |prowjobs|
        invariant Valid() && View() == SyncJobs(cfg, old(View()), prowjobs[..i], now)
      {
        assert prowjobs[..i + 1][..i] == prowjobs[..i];
        SyncOne(prowjobs[i], now);
      }
      assert prowjobs[..|prowjobs|] == prowjobs;
      SweepJobs(now);
      SweepRequests(now);
    }
  }
}
