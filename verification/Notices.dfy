/**
 * Readiness and failure notices of the MCE sync. Undelivered notices are
 * counted per cluster and retried on later syncs, at most three times.
 */
module Notices {
  import opened Wrappers
  import P = Provisions

  const MAX_ATTEMPTS: nat := 3

  /** What one sync finds out about one listed cluster, and how its calls go. */
  datatype Observation = Observation(
    available: bool,                            // the Available condition is "True"
    notifiable: bool,                           // a user and a channel are recorded
    credentials: bool,                          // kubeconfig, password and deployment are there
    hasDeployment: bool,
    hasJob: bool,
    provision: Option<P.Provision>,             // newest provision in this sync
    previous: Option<P.Provision>,              // the one cached by the last sync
    deploymentFailed: bool,
    previousDeploymentFailed: Option<bool>,     // None: no deployment was cached
    provisionFetched: bool,                     // so its install log is at hand
    logFetchable: bool,
    delivers: bool,                             // the notifier is set and reports delivery
    annotates: bool)                            // the annotation update succeeds

  predicate ProvisionFailureIsNew(previous: Option<P.Provision>, current: P.Provision) {
    previous.Some? && (previous.value.key.name != current.key.name || previous.value.stage != current.stage)
  }

  /** The failure the sync looks at: of the newest provision, or of a deployment without one. */
  predicate HasFailed(o: Observation) {
    if o.provision.Some? then o.provision.value.stage == P.FAILED else o.hasDeployment && o.deploymentFailed
  }

  predicate Transitioned(o: Observation) {
    !o.available && HasFailed(o) &&
    if o.provision.Some? then ProvisionFailureIsNew(o.previous, o.provision.value)
    else o.previousDeploymentFailed == Some(false)
  }

  /** A listed cluster without a deployment and without a job is dropped from the list. */
  predicate Kept(o: Observation) {
    o.hasDeployment || o.hasJob
  }

  /** The count after an undelivered notice, and whether to give up. */
  function Record(count: nat): (nat, bool) {
    if count + 1 >= MAX_ATTEMPTS then (0, true) else (count + 1, false)
  }

  /** Per cluster: the two stored counts (0 for none) and the remote annotation. */
  datatype Cluster = Cluster(failures: nat, ready: nat, annotated: bool)

  /** What one sync did for one cluster. */
  datatype Event = Event(
    failureAttempt: bool, failureDelivered: bool, readyAttempt: bool, readyDelivered: bool, annotateFailed: bool,
    kept: bool)

  // ----- failure notices -----

  predicate TriesFailure(count: nat, o: Observation) {
    !o.available && HasFailed(o) && (Transitioned(o) || count > 0) && o.notifiable
  }

  predicate DeliversFailure(count: nat, o: Observation) {
    TriesFailure(count, o) && (o.provision.None? || o.provisionFetched || o.logFetchable) && o.delivers
  }

  function NotifyFailure(count: nat, o: Observation): nat {
    if o.available || !HasFailed(o) then count
    else if !Transitioned(o) && count == 0 then 0
    else if !o.notifiable then 0
    else if DeliversFailure(count, o) then 0
    else Record(count).0
  }

  // ----- readiness notices -----

  predicate TriesReady(c: Cluster, o: Observation) {
    o.available && !c.annotated && o.notifiable && o.credentials && o.hasDeployment
  }

  function NotifyReady(c: Cluster, o: Observation): nat {
    if !TriesReady(c, o) then c.ready else if o.delivers then 0 else Record(c.ready).0
  }

  /** Annotated when delivered or given up on, if the update goes through. */
  predicate WantsAnnotation(c: Cluster, o: Observation) {
    TriesReady(c, o) && (o.delivers || Record(c.ready).1)
  }

  // ----- one sync -----

  /** The pass over the clusters, which sends the notices. */
  function Notified(c: Cluster, o: Observation): Cluster {
    Cluster(NotifyFailure(c.failures, o), NotifyReady(c, o), c.annotated || (WantsAnnotation(c, o) && o.annotates))
  }

  /** `None`: the cluster is not listed by this sync. Counts of dropped or no longer failed clusters go. */
  function Step(c: Cluster, input: Option<Observation>): Cluster {
    match input
    case None => Cluster(0, 0, c.annotated)
    case Some(o) =>
      var n := Notified(c, o);
      Cluster(if Kept(o) && HasFailed(o) then n.failures else 0, if Kept(o) then n.ready else 0, n.annotated)
  }

  function EventOf(c: Cluster, input: Option<Observation>): Event {
    match input
    case None => Event(false, false, false, false, false, false)
    case Some(o) =>
      Event(TriesFailure(c.failures, o), DeliversFailure(c.failures, o),
            TriesReady(c, o), TriesReady(c, o) && o.delivers, WantsAnnotation(c, o) && !o.annotates, Kept(o))
  }

  function Run(c: Cluster, inputs: seq<Option<Observation>>): Cluster
    decreases |inputs|
  {
    if inputs == [] then c else Run(Step(c, inputs[0]), inputs[1..])
  }

  function Trace(c: Cluster, inputs: seq<Option<Observation>>): (t: seq<Event>)
    ensures |t| == |inputs|
    decreases |inputs|
  {
    if inputs == [] then [] else [EventOf(c, inputs[0])] + Trace(Step(c, inputs[0]), inputs[1..])
  }

  function Count(t: seq<Event>, p: Event -> bool): nat {
    if t == [] then 0 else (if p(t[0]) then 1 else 0) + Count(t[1..], p)
  }

  const FAILURE_ATTEMPT: Event -> bool := (e: Event) => e.failureAttempt
  const READY_ATTEMPT: Event -> bool := (e: Event) => e.readyAttempt
  const READY_DELIVERED: Event -> bool := (e: Event) => e.readyDelivered
  const ANNOTATE_FAILED: Event -> bool := (e: Event) => e.annotateFailed
  const DROPPED: Event -> bool := (e: Event) => !e.kept

  // ----- which failures are new -----

  /** What a cluster failed in: the provision of this name, or the deployment without any. */
  predicate FailsIn(o: Observation, provision: Option<string>) {
    match provision
    case Some(name) =>
      o.provision.Some? && o.provision.value.key.name == name && o.provision.value.stage == "failed"
    case None => o.provision.None? && o.hasDeployment && o.deploymentFailed
  }

  /** The last sync cached something else: another provision or stage, or a deployment that had not failed. */
  predicate WasOtherwise(o: Observation, provision: Option<string>) {
    match provision
    case Some(name) => o.previous.Some? && !(o.previous.value.key.name == name && o.previous.value.stage == "failed")
    case None => o.previousDeploymentFailed.Some? && !o.previousDeploymentFailed.value
  }

  /** The sync meets a failure of a cluster that is not available and that failed in nothing, or otherwise, before. */
  ghost predicate Begins(input: Option<Observation>) {
    && input.Some? && !input.value.available
    && exists provision :: FailsIn(input.value, provision) && WasOtherwise(input.value, provision)
  }

  function FailedPart(o: Observation): (provision: Option<string>)
    ensures forall p :: FailsIn(o, p) ==> p == provision
    ensures HasFailed(o) <==> FailsIn(o, provision)
    ensures HasFailed(o) && !o.available ==> (Transitioned(o) <==> WasOtherwise(o, provision))
  {
    if o.provision.Some? then Some(o.provision.value.key.name) else None
  }

  lemma BeginsIff(o: Observation)
    ensures Transitioned(o) <==> Begins(Some(o))
  {
    assert HasFailed(o) ==> FailsIn(o, FailedPart(o));
  }

  ghost function Beginnings(inputs: seq<Option<Observation>>): nat {
    if inputs == [] then 0 else (if Begins(inputs[0]) then 1 else 0) + Beginnings(inputs[1..])
  }

  /** The counts stay below three. */
  predicate Counted(c: Cluster) {
    c.failures < MAX_ATTEMPTS && c.ready < MAX_ATTEMPTS
  }

  lemma CountsBounded(c: Cluster, input: Option<Observation>)
    requires Counted(c)
    ensures Counted(Step(c, input))
  {
  }

  function AttemptsLeft(count: nat): int {
    if count == 0 then 0 else MAX_ATTEMPTS - count
  }

  /** Every failure notice is paid for by a failure that begins, three at most. */
  lemma {:induction false} FailureAttemptsBounded(c: Cluster, inputs: seq<Option<Observation>>)
    requires Counted(c)
    ensures var t := Trace(c, inputs);
            Count(t, FAILURE_ATTEMPT) <= 3 * Beginnings(inputs) + AttemptsLeft(c.failures)
    ensures Counted(Run(c, inputs))
    decreases |inputs|
  {
    if inputs != [] {
      var c' := Step(c, inputs[0]);
      var t := Trace(c, inputs);
      assert t[1..] == Trace(c', inputs[1..]);
      CountsBounded(c, inputs[0]);
      if inputs[0].Some? {
        BeginsIff(inputs[0].value);
      }
      FailureAttemptsBounded(c', inputs[1..]);
    }
  }

  /** With nothing stored, nothing is tried before a failure begins. */
  lemma {:induction false} SilentUntilBegun(c: Cluster, inputs: seq<Option<Observation>>, j: nat)
    requires Counted(c) && c.failures == 0 && j < |inputs|
    requires Trace(c, inputs)[j].failureAttempt
    ensures exists k :: 0 <= k <= j && Begins(inputs[k])
    decreases j
  {
    var c' := Step(c, inputs[0]);
    if inputs[0].Some? {
      BeginsIff(inputs[0].value);
    }
    if !Begins(inputs[0]) {
      var rest := inputs[1..];
      assert Trace(c, inputs)[1..] == Trace(c', rest);
      SilentUntilBegun(c', rest, j - 1);
      var k :| 0 <= k <= j - 1 && Begins(rest[k]);
      assert inputs[k + 1] == rest[k];
    }
  }

  /** After a delivered failure notice the next attempt needs a failure that begins later. */
  lemma {:induction false} NoRepeatAfterDelivery(c: Cluster, inputs: seq<Option<Observation>>, i: nat, j: nat)
    requires Counted(c) && i < j < |inputs|
    requires Trace(c, inputs)[i].failureDelivered && Trace(c, inputs)[j].failureAttempt
    ensures exists k :: i < k <= j && Begins(inputs[k])
    decreases i
  {
    var c', rest := Step(c, inputs[0]), inputs[1..];
    assert Trace(c, inputs)[1..] == Trace(c', rest);
    CountsBounded(c, inputs[0]);
    if i == 0 {
      SilentUntilBegun(c', rest, j - 1);
    } else {
      NoRepeatAfterDelivery(c', rest, i - 1, j - 1);
    }
    var k :| i - 1 < k <= j - 1 && Begins(rest[k]);
    assert inputs[k + 1] == rest[k];
  }

  lemma AnnotatedStays(c: Cluster, input: Option<Observation>)
    ensures c.annotated ==> Step(c, input).annotated && !EventOf(c, input).readyAttempt
  {
  }

  lemma {:induction false} NoReadyOnceAnnotated(c: Cluster, inputs: seq<Option<Observation>>)
    requires c.annotated
    ensures var t := Trace(c, inputs);
            Count(t, READY_ATTEMPT) == 0 && Count(t, READY_DELIVERED) == 0
    decreases |inputs|
  {
    if inputs != [] {
      var c' := Step(c, inputs[0]);
      assert Trace(c, inputs)[1..] == Trace(c', inputs[1..]);
      AnnotatedStays(c, inputs[0]);
      NoReadyOnceAnnotated(c', inputs[1..]);
    }
  }

  /**
   * Readiness notices, in any run: deliveries exceed the failed annotation
   * updates by at most one, and attempts are at most three for each of those
   * plus two for each sync that drops the cluster.
   */
  lemma {:induction false} ReadyNoticesBounded(c: Cluster, inputs: seq<Option<Observation>>)
    requires Counted(c) && !c.annotated
    ensures var t := Trace(c, inputs);
            && Count(t, READY_DELIVERED) <= Count(t, ANNOTATE_FAILED) + 1
            && Count(t, READY_ATTEMPT) + c.ready <= 3 * (Count(t, ANNOTATE_FAILED) + 1) + 2 * Count(t, DROPPED)
    decreases |inputs|
  {
    if inputs != [] {
      var c' := Step(c, inputs[0]);
      var t := Trace(c, inputs);
      assert t[1..] == Trace(c', inputs[1..]);
      CountsBounded(c, inputs[0]);
      if c'.annotated {
        NoReadyOnceAnnotated(c', inputs[1..]);
      } else {
        ReadyNoticesBounded(c', inputs[1..]);
      }
    }
  }

  /**
   * With successful annotation updates a new cluster gets at most one delivered
   * notice, and at most three attempts while no sync drops it.
   */
  lemma OneReadyNotice(inputs: seq<Option<Observation>>)
    ensures var t := Trace(Cluster(0, 0, false), inputs);
            Count(t, ANNOTATE_FAILED) == 0 ==>
              && Count(t, READY_DELIVERED) <= 1
              && (Count(t, DROPPED) == 0 ==> Count(t, READY_ATTEMPT) <= 3)
  {
    ReadyNoticesBounded(Cluster(0, 0, false), inputs);
  }

  // ----- the bounds are reached -----

  /** A ready cluster with a user to tell. */
  function Ready(delivers: bool, annotates: bool): Option<Observation> {
    Some(Observation(true, true, true, true, false, None, None, false, None, false, false, delivers, annotates))
  }

  /** Two undelivered attempts, and then `last`. */
  function Round(last: Option<Observation>, rest: seq<Option<Observation>>): seq<Option<Observation>> {
    [Ready(false, true)] + ([Ready(false, true)] + ([last] + rest))
  }

  /** Syncs that drop the cluster, then deliveries that cannot be recorded, then one that can. */
  function Worst(drops: nat, failures: nat): seq<Option<Observation>> {
    if drops > 0 then Round(None, Worst(drops - 1, failures))
    else if failures > 0 then Round(Ready(true, false), Worst(0, failures - 1))
    else Round(Ready(true, true), [])
  }

  lemma CountStep(c: Cluster, input: Option<Observation>, rest: seq<Option<Observation>>, p: Event -> bool)
    ensures Count(Trace(c, [input] + rest), p) ==
            (if p(EventOf(c, input)) then 1 else 0) + Count(Trace(Step(c, input), rest), p)
  {
    assert ([input] + rest)[1..] == rest;
    assert Trace(c, [input] + rest)[1..] == Trace(Step(c, input), rest);
  }

  lemma CountRound(last: Option<Observation>, rest: seq<Option<Observation>>, p: Event -> bool)
    ensures var o := Ready(false, true);
            var c0, c1, c2 := Cluster(0, 0, false), Cluster(0, 1, false), Cluster(0, 2, false);
            Count(Trace(c0, Round(last, rest)), p) ==
              (if p(EventOf(c0, o)) then 1 else 0) + (if p(EventOf(c1, o)) then 1 else 0)
              + (if p(EventOf(c2, last)) then 1 else 0) + Count(Trace(Step(c2, last), rest), p)
  {
    var o := Ready(false, true);
    var c0, c1, c2 := Cluster(0, 0, false), Cluster(0, 1, false), Cluster(0, 2, false);
    assert Step(c0, o) == c1 && Step(c1, o) == c2;
    CountStep(c2, last, rest, p);
    CountStep(c1, o, [last] + rest, p);
    CountStep(c0, o, [o] + ([last] + rest), p);
  }

  /**
   * Both bounds on readiness notices are reached together, for every number of syncs that drop
   * the cluster and of failed updates: dropping it restarts its count, and a delivery that
   * cannot be recorded is made again.
   */
  lemma {:induction false} ReadyBoundsReached(drops: nat, failures: nat)
    ensures var t := Trace(Cluster(0, 0, false), Worst(drops, failures));
            && Count(t, DROPPED) == drops && Count(t, ANNOTATE_FAILED) == failures
            && Count(t, READY_DELIVERED) == failures + 1
            && Count(t, READY_ATTEMPT) == 3 * (failures + 1) + 2 * drops
    decreases drops + failures
  {
    var last := if drops > 0 then None else Ready(true, failures == 0);
    var rest := if drops > 0 then Worst(drops - 1, failures) else if failures > 0 then Worst(0, failures - 1) else [];
    if drops > 0 {
      ReadyBoundsReached(drops - 1, failures);
    } else if failures > 0 {
      ReadyBoundsReached(0, failures - 1);
    }
    assert Worst(drops, failures) == Round(last, rest);
    CountRound(last, rest, DROPPED);
    CountRound(last, rest, ANNOTATE_FAILED);
    CountRound(last, rest, READY_DELIVERED);
    CountRound(last, rest, READY_ATTEMPT);
  }

  /** A provision carried over or reused by the cache is never taken for a new failure. */
  lemma ReusedIsNotNew(previous: map<string, P.Provision>, f: P.Fetch, o: Observation)
    requires P.FetchOk(f) && P.SyncOne(previous, f).Some? && P.SyncOne(previous, f).value.Reused?
    requires o.provision == Some(P.SyncOne(previous, f).value.p)
    requires f.deployment in previous ==> o.previous == Some(previous[f.deployment])
    ensures f.deployment in previous && !Begins(Some(o))
  {
  }

  // ----- what becomes of a notice -----

  /** A cluster that stays listed, unavailable and notifiable, and failed in the same part. */
  predicate Reportable(o: Observation, provision: Option<string>) {
    (o.hasDeployment || o.hasJob) && !o.available && o.notifiable && FailsIn(o, provision)
  }

  /** The report has its install log and the notifier takes it. */
  predicate ReportGoes(o: Observation) {
    (o.provision.None? || o.provisionFetched || o.logFetchable) && o.delivers
  }

  /** The later sync finds cached what the earlier one has seen. */
  predicate Follows(earlier: Observation, later: Observation) {
    && later.previous == (if earlier.provision.Some? then Some(P.Bare(earlier.provision.value)) else None)
    && later.previousDeploymentFailed == (if earlier.hasDeployment then Some(earlier.deploymentFailed) else None)
  }

  /** A failure that lasts begins once. */
  lemma LastingIsOld(earlier: Observation, later: Observation, provision: Option<string>)
    requires Follows(earlier, later) && FailsIn(earlier, provision) && FailsIn(later, provision)
    ensures !WasOtherwise(later, provision)
  {
  }

  /** It begins where the sync before saw another provision or stage, or a deployment that had not failed. */
  lemma OnsetIff(earlier: Observation, later: Observation, provision: Option<string>)
    requires Follows(earlier, later) && FailsIn(later, provision)
    ensures WasOtherwise(later, provision) <==>
            (if provision.Some? then earlier.provision.Some? else earlier.hasDeployment && !earlier.deploymentFailed)
            && !FailsIn(earlier, provision)
  {
  }

  function Listed(os: seq<Observation>): (inputs: seq<Option<Observation>>)
    ensures |inputs| == |os| && forall i :: 0 <= i < |os| ==> inputs[i] == Some(os[i])
  {
    if os == [] then [] else [Some(os[0])] + Listed(os[1..])
  }

  /** Nothing owed and nothing new: no attempt. */
  lemma QuietUnlessBegun(c: Cluster, os: seq<Observation>, provision: Option<string>, i: nat)
    requires Counted(c) && c.failures == 0 && i < |os|
    requires forall j :: 0 <= j < |os| ==> FailsIn(os[j], provision) && !WasOtherwise(os[j], provision)
    ensures !Trace(c, Listed(os))[i].failureAttempt && !Trace(c, Listed(os))[i].failureDelivered
  {
    if Trace(c, Listed(os))[i].failureAttempt {
      SilentUntilBegun(c, Listed(os), i);
    }
    DeliveredIsAttempted(c, Listed(os), i);
  }

  /**
   * A cluster fails in one part over consecutive syncs. If the last sync before them had cached
   * something else, or a report is still owed, the sync with index `i` tries to report the failure
   * exactly while none before it got through and the three attempts, less those already counted,
   * are not used up, and it is delivered by the first of these syncs in which the report goes out
   * and by no other. If not, none of the syncs tries.
   */
  lemma {:induction false} FailureFate(c: Cluster, os: seq<Observation>, provision: Option<string>, i: nat)
    requires Counted(c) && i < |os|
    requires forall j :: 0 <= j < |os| ==> Reportable(os[j], provision)
    requires forall j :: 0 < j < |os| ==> Follows(os[j - 1], os[j])
    ensures var e := Trace(c, Listed(os))[i];
            var due := (WasOtherwise(os[0], provision) || c.failures > 0) && i < 3 - c.failures
                       && forall j :: 0 <= j < i ==> !ReportGoes(os[j]);
            (e.failureAttempt <==> due) && (e.failureDelivered <==> due && ReportGoes(os[i]))
    decreases i
  {
    assert provision == FailedPart(os[0]);
    if i > 0 {
      var c', rest := Step(c, Some(os[0])), os[1..];
      assert Listed(os)[1..] == Listed(rest);
      CountsBounded(c, Some(os[0]));
      assert forall j :: 0 < j < |os| ==> os[j] == rest[j - 1];
      LastingIsOld(os[0], os[1], provision);
      if c'.failures == 0 {
        forall j | 0 <= j < |rest| ensures !WasOtherwise(rest[j], provision) {
          LastingIsOld(os[j], os[j + 1], provision);
        }
        QuietUnlessBegun(c', rest, provision, i - 1);
      } else {
        FailureFate(c', rest, provision, i - 1);
      }
    }
  }

  lemma {:induction false} DeliveredIsAttempted(c: Cluster, inputs: seq<Option<Observation>>, i: nat)
    requires i < |inputs|
    ensures Trace(c, inputs)[i].failureDelivered ==> Trace(c, inputs)[i].failureAttempt
    decreases i
  {
    if i > 0 {
      DeliveredIsAttempted(Step(c, inputs[0]), inputs[1..], i - 1);
    }
  }

  /** A cluster that stays ready to be announced, and whose annotation can be written. */
  predicate Announceable(o: Observation) {
    o.available && o.notifiable && o.credentials && o.hasDeployment && o.annotates
  }

  /** While it is tried, nothing got through and attempts are left. */
  predicate StillDue(c: Cluster, os: seq<Observation>, i: nat)
    requires i <= |os|
  {
    !c.annotated && i < MAX_ATTEMPTS - c.ready && forall j :: 0 <= j < i ==> !os[j].delivers
  }

  /**
   * The same for readiness: tried until the first delivery or the third attempt, delivered
   * at most once and at the first chance, and marked as notified from then on.
   */
  lemma {:induction false} ReadyFate(c: Cluster, os: seq<Observation>, i: nat)
    requires Counted(c) && i < |os|
    requires forall j :: 0 <= j < |os| ==> Announceable(os[j])
    ensures var e := Trace(c, Listed(os))[i];
            && (e.readyAttempt <==> StillDue(c, os, i))
            && (e.readyDelivered <==> StillDue(c, os, i) && os[i].delivers)
            && (Run(c, Listed(os[..i + 1])).annotated <==> !StillDue(c, os, i + 1))
    decreases i
  {
    var c' := Step(c, Some(os[0]));
    var rest := os[1..];
    assert os[..i + 1][1..] == rest[..i];
    assert Listed(os)[1..] == Listed(rest) && Listed(os[..i + 1])[1..] == Listed(rest[..i]);
    CountsBounded(c, Some(os[0]));
    if i == 0 {
      assert Listed(rest[..0]) == [];
    } else {
      assert forall j :: 0 < j < |os| ==> os[j] == rest[j - 1];
      ReadyFate(c', rest, i - 1);
    }
  }

  lemma {:induction false} TraceAt(c: Cluster, inputs: seq<Option<Observation>>, i: nat)
    requires i < |inputs|
    ensures Trace(c, inputs)[i] == EventOf(Run(c, inputs[..i]), inputs[i])
    decreases i
  {
    if i > 0 {
      assert inputs[..i][1..] == inputs[1..][..i - 1];
      TraceAt(Step(c, inputs[0]), inputs[1..], i - 1);
    }
  }

  /**
   * When a sync tries a notice, at any point of any run: a failure, of a cluster that is not available,
   * when it begins or a report is owed; readiness until it is marked, once there are credentials and a
   * deployment. Neither without a user and a channel.
   */
  lemma TriesIff(c: Cluster, inputs: seq<Option<Observation>>, i: nat)
    requires i < |inputs|
    ensures var before, e := Run(c, inputs[..i]), Trace(c, inputs)[i];
            && (e.failureAttempt <==>
                  && inputs[i].Some? && inputs[i].value.notifiable && !inputs[i].value.available
                  && (Begins(inputs[i]) || (before.failures > 0 && exists p :: FailsIn(inputs[i].value, p))))
            && (e.readyAttempt <==>
                  && inputs[i].Some? && inputs[i].value.notifiable && inputs[i].value.available
                  && !before.annotated && inputs[i].value.credentials && inputs[i].value.hasDeployment)
  {
    TraceAt(c, inputs, i);
    if inputs[i].Some? {
      BeginsIff(inputs[i].value);
      assert HasFailed(inputs[i].value) ==> FailsIn(inputs[i].value, FailedPart(inputs[i].value));
    }
  }

  /**
   * What is owed afterwards. A count goes with the cluster and, for a failure, with the failure or when
   * nobody can be told; it stands while nothing is tried, and otherwise an undelivered notice adds one,
   * up to the third.
   */
  lemma OwedAfter(c: Cluster, o: Observation)
    requires Counted(c)
    ensures var c', e := Step(c, Some(o)), EventOf(c, Some(o));
            var gone := !o.hasDeployment && !o.hasJob;
            && (c'.failures > 0 <==>
                  && !gone && (exists p :: FailsIn(o, p))
                  && if e.failureAttempt then !ReportGoes(o) && c.failures < 2 else c.failures > 0 && o.available)
            && (c'.failures > 0 ==> c'.failures == if e.failureAttempt then c.failures + 1 else c.failures)
            && (c'.ready > 0 <==> !gone && if e.readyAttempt then !o.delivers && c.ready < 2 else c.ready > 0)
            && (c'.ready > 0 ==> c'.ready == if e.readyAttempt then c.ready + 1 else c.ready)
            && (c'.annotated <==> c.annotated || (e.readyAttempt && o.annotates && (o.delivers || c.ready == 2)))
  {
    assert HasFailed(o) ==> FailsIn(o, FailedPart(o));
  }

  // ----- the loops over the clusters -----

  function Stored(attempts: map<string, nat>, name: string): nat {
    if name in attempts then attempts[name] else 0
  }

  function Observed(observations: map<string, Observation>, name: string): Option<Observation> {
    if name in observations then Some(observations[name]) else None
  }

  method RecordAttempt(attempts: map<string, nat>, name: string) returns (attempts': map<string, nat>, giveUp: bool)
    ensures (Stored(attempts', name), giveUp) == Record(Stored(attempts, name))
    ensures forall n :: n != name ==> Stored(attempts', n) == Stored(attempts, n)
    ensures forall n :: n in attempts' && (n in attempts ==> 0 < attempts[n] < MAX_ATTEMPTS) ==>
      0 < attempts'[n] < MAX_ATTEMPTS
  {
    var count := Stored(attempts, name) + 1;
    if count >= MAX_ATTEMPTS {
      return attempts - {name}, true;
    }
    attempts', giveUp := attempts[name := count], false;
  }

  /** The closing loops: counts of clusters that no longer need them are deleted. */
  method KeepOnly(attempts: map<string, nat>, keep: set<string>) returns (kept: map<string, nat>)
    ensures forall n :: Stored(kept, n) == if n in keep then Stored(attempts, n) else 0
    ensures forall n :: n in kept ==> n in attempts && kept[n] == attempts[n]
  {
    kept := attempts;
    var names := attempts.Keys;
    while names != {}
      invariant names <= attempts.Keys
      invariant forall n :: n in kept <==> n in attempts && (n in keep || n in names)
      invariant forall n :: n in kept ==> kept[n] == attempts[n]
      decreases |names|
    {
      var n :| n in names;
      if n !in keep {
        kept := kept - {n};
      }
      names := names - {n};
    }
  }

  class NoticeManager {
    var failureAttempts: map<string, nat>
    var readyAttempts: map<string, nat>
    var annotated: set<string>   // remote: clusters marked as notified

    /** Stored counts are 1 or 2. */
    ghost predicate Valid()
      reads this
    {
      && (forall n :: n in failureAttempts ==> 0 < failureAttempts[n] < MAX_ATTEMPTS)
      && (forall n :: n in readyAttempts ==> 0 < readyAttempts[n] < MAX_ATTEMPTS)
    }

    ghost function ClusterOf(name: string): Cluster
      reads this
    {
      Cluster(Stored(failureAttempts, name), Stored(readyAttempts, name), name in annotated)
    }

    constructor ()
      ensures Valid() && forall n :: ClusterOf(n) == Cluster(0, 0, false)
    {
      failureAttempts, readyAttempts, annotated := map[], map[], {};
    }

    method NotifyMceFailure(name: string, o: Observation)
      requires Valid() && !o.available && HasFailed(o)
      modifies this`failureAttempts
      ensures Valid() && Stored(failureAttempts, name) == NotifyFailure(old(Stored(failureAttempts, name)), o)
      ensures forall n :: n != name ==> Stored(failureAttempts, n) == old(Stored(failureAttempts, n))
    {
      if !Transitioned(o) && Stored(failureAttempts, name) == 0 {
        return;
      }
      if !o.notifiable {
        failureAttempts := failureAttempts - {name};
        return;
      }
      var giveUp;
      if !o.provisionFetched && o.provision.Some? && !o.logFetchable {
        failureAttempts, giveUp := RecordAttempt(failureAttempts, name);
        return;
      }
      if o.delivers {
        failureAttempts := failureAttempts - {name};
        return;
      }
      failureAttempts, giveUp := RecordAttempt(failureAttempts, name);
    }

    method NotifyMceReady(name: string, o: Observation)
      requires Valid() && o.available
      modifies this`readyAttempts, this`annotated
      ensures Valid()
      ensures Stored(readyAttempts, name) == NotifyReady(old(ClusterOf(name)), o)
      ensures name in annotated <==> old(name in annotated) || (WantsAnnotation(old(ClusterOf(name)), o) && o.annotates)
      ensures forall n :: n != name ==>
        Stored(readyAttempts, n) == old(Stored(readyAttempts, n)) && (n in annotated <==> old(n in annotated))
    {
      if name in annotated || !o.notifiable || !o.credentials || !o.hasDeployment {
        return;
      }
      var giveUp := false;
      if o.delivers {
        readyAttempts := readyAttempts - {name};
      } else {
        readyAttempts, giveUp := RecordAttempt(readyAttempts, name);
      }
      if o.delivers || giveUp {
        if o.annotates {
          annotated := annotated + {name};
        }
      }
    }

    method NotifyAll(observations: map<string, Observation>)
      requires Valid()
      modifies this
      ensures Valid()
      ensures forall n ::
        ClusterOf(n) == if n in observations then Notified(old(ClusterOf(n)), observations[n]) else old(ClusterOf(n))
    {
      var names := observations.Keys;
      while names != {}
        invariant Valid() && names <= observations.Keys
        invariant forall n ::
          ClusterOf(n) == if n in observations && n !in names
                          then Notified(old(ClusterOf(n)), observations[n]) else old(ClusterOf(n))
        decreases |names|
      {
        var name :| name in names;
        var o := observations[name];
        ghost var before := ClusterOf(name);
        label L:
        if o.available {
          NotifyMceReady(name, o);
        } else if HasFailed(o) {
          NotifyMceFailure(name, o);
        }
        assert ClusterOf(name) == Notified(before, o);
        assert forall n :: n != name ==> ClusterOf(n) == old@L(ClusterOf(n));
        names := names - {name};
      }
    }

    /** Counts of clusters that are gone, or no longer failed, are dropped. */
    method DropCounts(observations: map<string, Observation>)
      requires Valid()
      modifies this`failureAttempts, this`readyAttempts
      ensures Valid()
      ensures forall n ::
        Stored(failureAttempts, n) == if n in observations && Kept(observations[n]) && HasFailed(observations[n])
                                      then old(Stored(failureAttempts, n)) else 0
      ensures forall n ::
        Stored(readyAttempts, n) == if n in observations && Kept(observations[n])
                                    then old(Stored(readyAttempts, n)) else 0
    {
      failureAttempts := KeepOnly(failureAttempts,
        set n | n in observations && Kept(observations[n]) && HasFailed(observations[n]));
      readyAttempts := KeepOnly(readyAttempts, set n | n in observations && Kept(observations[n]));
    }

    /** A sync steps every cluster, in whatever order it visits them. */
    method Sync(observations: map<string, Observation>)
      requires Valid()
      modifies this
      ensures Valid()
      ensures forall n :: ClusterOf(n) == Step(old(ClusterOf(n)), Observed(observations, n))
    {
      NotifyAll(observations);
      DropCounts(observations);
    }
  }
}
