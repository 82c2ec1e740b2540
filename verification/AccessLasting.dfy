/** How long a grant lasts, whatever else happens and wherever calls give up the lock. */
module AccessLasting {
  import opened Wrappers
  import opened AccessPolicy
  import opened AccessSafety
  import opened AccessEffects
  import opened AccessSplit
  import opened AccessOwnership
  import opened AccessSplitOwnership
  import Names = AccountNames

  // ----- nothing reaches further than seven days -----

  ghost predicate WithinReach(s: Shared, t: Time) {
    && (forall b :: b in s.world.policy && IsTemp(b) && Expiration(b).Some? ==>
          Expiration(b).value <= t + ACCESS_DURATION)
    && (forall c :: c in s.pending && s.pending[c].Read? && s.pending[c].found.Some? ==>
          s.pending[c].found.value.expiresAt <= t + ACCESS_DURATION)
  }

  /** Where the bindings after an operation come from. */
  lemma RemovedFrom(cfg: Config, w: World, email: string, account: string, faults: RevokeFaults, b: Binding)
    requires Shape(cfg, w) && b in RevokeAccount(cfg, w, email, account, faults).0.policy
    ensures b in w.policy
  {
    RemoveIsFilter(w.policy, Member(account));
  }

  lemma RevokedFrom(cfg: Config, w: World, email: string, faults: RevokeFaults, b: Binding)
    requires Shape(cfg, w) && b in RevokeAccess(cfg, w, email, faults).0.policy
    ensures b in w.policy
  {
    var found := if email in w.cache && w.cache[email].account != "" then Some(w.cache[email])
                 else if faults.lookup.getPolicy then None
                 else FindInPolicy(w.accounts, w.policy, email, faults.lookup);
    if cfg.enabled && found.Some? {
      var w1 := w.(cache := w.cache[email := found.value]);
      assert Shape(cfg, w1) by {
        forall c | c in w.policy && IsTemp(c) ensures Sound(w1, c) {
          assert Sound(w, c);
        }
      }
      RemovedFrom(cfg, w1, email, found.value.account, faults, b);
    }
  }

  lemma PolicyFrom(cfg: Config, w: World, op: Op, b: Binding)
    requires Shape(cfg, w) && b in Apply(cfg, w, op).policy
    ensures || b in w.policy
            || (op.Grant?
                && b == TempBinding(AccountFor(cfg, op.email, op.stamp), op.now + ACCESS_DURATION, op.justification))
  {
    match op
    case Revoke(e, _, f) => RevokedFrom(cfg, w, e, f, b);
    case Cleanup(now, f) => UnexpiredIsFilter(w.policy, now);
    case _ =>
  }

  lemma FinishPolicyFrom(cfg: Config, w: World, p: Pending, faults: RevokeFaults, b: Binding)
    requires Shape(cfg, w) && p.Read? && b in FinishCall(cfg, w, p.email, p.revoking, p.found, faults).policy
    ensures b in w.policy
  {
    if p.found.Some? {
      RemoveIsFilter(w.policy, Member(p.found.value.account));
    }
  }

  lemma WholeWithinReach(cfg: Config, s: Shared, t: Time, op: Op)
    requires Shape(cfg, s.world) && WithinReach(s, t) && t <= op.now
    ensures WithinReach(Step(cfg, s, Whole(op)), op.now)
  {
    var s' := Step(cfg, s, Whole(op));
    forall b | b in s'.world.policy && IsTemp(b) && Expiration(b).Some?
      ensures Expiration(b).value <= op.now + ACCESS_DURATION
    {
      if cfg.enabled {
        PolicyFrom(cfg, s.world, op, b);
      }
    }
  }

  lemma StepWithinReach(cfg: Config, s: Shared, t: Time, op: SplitOp)
    requires Shape(cfg, s.world) && WithinReach(s, t) && t <= TimeOf(op)
    ensures WithinReach(Step(cfg, s, op), TimeOf(op))
  {
    match op
    case Whole(o) => WholeWithinReach(cfg, s, t, o);
    case ReadPolicy(c, at, f) =>
      if c in s.pending {
        FoundIsBound(s.world.accounts, s.world.policy, s.pending[c].email, f);
      }
    case Finish(c, at, f) =>
      if c in s.pending && s.pending[c].Read? {
        forall b | b in Step(cfg, s, op).world.policy ensures b in s.world.policy {
          if cfg.enabled {
            FinishPolicyFrom(cfg, s.world, s.pending[c], f, b);
          }
        }
      }
    case Miss(_, _, _, _) =>
  }

  lemma {:induction false} RunWithinReach(cfg: Config, users: iset<string>, s: Shared, t: Time, ops: seq<SplitOp>)
    requires SplitHome(cfg, users, s) && DecodesHome(cfg, users) && TellsApart(cfg, users)
    requires !cfg.dryRun && SplitByUsers(users, ops) && WithinReach(s, t) && InOrder(t, ops)
    ensures SplitHome(cfg, users, SplitRun(cfg, s, ops)) && WithinReach(SplitRun(cfg, s, ops), LastTime(t, ops))
    decreases |ops|
  {
    if ops != [] {
      assert ops[0] in ops;
      StepWithinReach(cfg, s, t, ops[0]);
      SplitHomeStep(cfg, users, s, ops[0]);
      RunWithinReach(cfg, users, Step(cfg, s, ops[0]), TimeOf(ops[0]), ops[1..]);
    }
  }

  // ----- a grant in force -----

  /** The user's grant is bound, live and cached with its end. */
  predicate InForce(w: World, email: string, account: string, ends: Time, why: string) {
    && TempBinding(account, ends, why) in w.policy
    && account in w.accounts && w.accounts[account] == email
    && email in w.cache && w.cache[email].account == account && w.cache[email].expiresAt == ends
  }

  /** No call is about to revoke it, and none has read a later end. */
  predicate Undisturbed(p: Pending, email: string, account: string, ends: Time) {
    && (p.email == email ==> !p.revoking)
    && (p.Read? && p.found.Some? && p.found.value.account == account ==> p.found.value.expiresAt <= ends)
  }

  ghost predicate Standing(s: Shared, email: string, account: string, ends: Time, why: string) {
    && InForce(s.world, email, account, ends, why)
    && forall c :: c in s.pending ==> Undisturbed(s.pending[c], email, account, ends)
  }

  /** The step starts no revoke for the user. */
  predicate LeavesAlone(op: SplitOp, email: string) {
    && (op.Whole? && op.op.Revoke? ==> op.op.email != email)
    && (op.Miss? && op.revoking ==> op.email != email)
  }

  /** A lookup of the user that finishes passes the re-check. */
  predicate PassesFor(s: Shared, op: SplitOp, email: string) {
    op.Finish? && op.call in s.pending && s.pending[op.call].email == email ==> Passes(s, op)
  }

  predicate RecheckedFor(cfg: Config, s: Shared, ops: seq<SplitOp>, email: string)
    decreases |ops|
  {
    ops != [] ==> PassesFor(s, ops[0], email) && RecheckedFor(cfg, Step(cfg, s, ops[0]), ops[1..], email)
  }

  lemma RemovalKeepsGrant(cfg: Config, w: World, email: string, account: string, ends: Time, why: string,
                          other: string, removed: string, faults: RevokeFaults)
    requires InForce(w, email, account, ends, why) && other != email && removed != account
    ensures InForce(RevokeAccount(cfg, w, other, removed, faults).0, email, account, ends, why)
  {
    MemberRoundTrip(removed);
    MemberRoundTrip(account);
    assert !Holds(TempBinding(account, ends, why), Member(removed));
    RevokeKeepsBindings(w.policy, Member(removed));
  }

  /** Revoking another user's access cannot touch the binding. */
  lemma OtherRevokeKeeps(cfg: Config, users: iset<string>, w: World, email: string, account: string, ends: Time,
                         why: string, other: string, faults: RevokeFaults)
    requires Home(cfg, users, w) && DecodesHome(cfg, users) && cfg.enabled && other in users && other != email
    requires InForce(w, email, account, ends, why)
    ensures InForce(RevokeAccess(cfg, w, other, faults).0, email, account, ends, why)
  {
    var found := FoundFor(w, other, faults.lookup);
    FoundForBelongs(cfg, users, w, other, faults.lookup);
    if other in w.cache {
      NotEmpty(cfg, other, w.cache[other].account);
    }
    RevokeByFound(cfg, w, other, faults);
    if found.Some? {
      var w1 := w.(cache := w.cache[other := found.value]);
      assert InForce(w1, email, account, ends, why);
      RemovalKeepsGrant(cfg, w1, email, account, ends, why, other, found.value.account, faults);
    }
  }

  lemma CleanupKeepsGrant(cfg: Config, w: World, email: string, account: string, ends: Time, why: string, now: Time,
                          faults: CleanupFaults)
    requires Shape(cfg, w) && InForce(w, email, account, ends, why) && now < ToSecond(ends)
    ensures InForce(CleanupExpired(cfg, w, now, faults).0, email, account, ends, why)
  {
    var b := TempBinding(account, ends, why);
    MemberRoundTrip(account);
    KeptAccountsStay(cfg, w, now, b);
    UnexpiredIsFilter(w.policy, now);
  }

  lemma GrantKeepsGrant(cfg: Config, w: World, email: string, account: string, ends: Time, why: string, other: string,
                        r: string, j: string, now: Time, stamp: nat, faults: GrantFaults)
    requires InForce(w, email, account, ends, why) && now < ends && !cfg.dryRun
    ensures InForce(GrantAccess(cfg, w, other, r, j, now, stamp, faults).0, email, account, ends, why)
  {
  }

  lemma LookupKeepsGrant(cfg: Config, w: World, email: string, account: string, ends: Time, why: string, other: string,
                         faults: LookupFaults)
    requires InForce(w, email, account, ends, why)
    ensures InForce(GetUserGrant(cfg, w, other, faults).0, email, account, ends, why)
  {
  }

  lemma WholeKeepsGrant(cfg: Config, users: iset<string>, w: World, email: string, account: string, ends: Time,
                        why: string, op: Op)
    requires Home(cfg, users, w) && DecodesHome(cfg, users) && cfg.enabled && !cfg.dryRun && ByUser(users, op)
    requires InForce(w, email, account, ends, why) && op.now < ToSecond(ends) && LeavesAlone(Whole(op), email)
    ensures InForce(Apply(cfg, w, op), email, account, ends, why)
  {
    match op
    case Grant(e, r, j, now, stamp, f) => GrantKeepsGrant(cfg, w, email, account, ends, why, e, r, j, now, stamp, f);
    case Lookup(e, _, f) => LookupKeepsGrant(cfg, w, email, account, ends, why, e, f);
    case Revoke(e, _, f) => OtherRevokeKeeps(cfg, users, w, email, account, ends, why, e, f);
    case Cleanup(now, f) => CleanupKeepsGrant(cfg, w, email, account, ends, why, now, f);
  }

  /** The account is bound once, so its end can be read in one way only. */
  lemma ReadEnds(cfg: Config, w: World, email: string, account: string, ends: Time, why: string, other: string,
                 faults: LookupFaults)
    requires Shape(cfg, w) && InForce(w, email, account, ends, why)
    ensures var g := FindInPolicy(w.accounts, w.policy, other, faults);
            g.Some? && g.value.account == account ==> g.value.expiresAt == ToSecond(ends)
  {
    var g := FindInPolicy(w.accounts, w.policy, other, faults);
    FoundIsBound(w.accounts, w.policy, other, faults);
    if g.Some? && g.value.account == account {
      var b :| b in w.policy && Carries(b, g.value);
      var m :| m in b.members && AccountOf(m) == account;
      BoundOnce(cfg, w, b, TempBinding(account, ends, why), m, account);
    }
  }

  lemma BoundOnce(cfg: Config, w: World, b: Binding, c: Binding, m: string, account: string)
    requires Shape(cfg, w) && b in w.policy && c in w.policy && IsTemp(b) && IsTemp(c)
    requires m in b.members && AccountOf(m) == account && c.members == [Member(account)]
    ensures b == c
  {
    assert Sound(w, b) && Sound(w, c);
    assert b.members == [m] && m == Member(account);
    var i :| 0 <= i < |w.policy| && w.policy[i] == b;
    var j :| 0 <= j < |w.policy| && w.policy[j] == c;
    DistinctUnique(w.policy, i, j);
  }

  lemma FinishKeepsGrant(cfg: Config, users: iset<string>, w: World, email: string, account: string, ends: Time,
                         why: string, p: Pending, faults: RevokeFaults, at: Time)
    requires InForce(w, email, account, ends, why) && at < ends
    requires p.Read? && ReadHome(cfg, users, w, p) && Undisturbed(p, email, account, ends)
    requires p.email == email ==> Recheck(w.cache, p.email, p.found, at)
    ensures InForce(FinishCall(cfg, w, p.email, p.revoking, p.found, faults), email, account, ends, why)
  {
    if p.email != email && p.found.Some? {
      assert Belongs(cfg, w, p.email, p.found.value.account);
      var w1 := w.(cache := w.cache[p.email := p.found.value]);
      assert InForce(w1, email, account, ends, why);
      RemovalKeepsGrant(cfg, w1, email, account, ends, why, p.email, p.found.value.account, faults);
    }
  }

  lemma ReadStepKeeps(cfg: Config, s: Shared, email: string, account: string, ends: Time, why: string, call: nat,
                      at: Time, faults: LookupFaults)
    requires Shape(cfg, s.world) && Standing(s, email, account, ends, why)
    ensures Standing(Step(cfg, s, ReadPolicy(call, at, faults)), email, account, ends, why)
  {
    if call in s.pending {
      assert Undisturbed(s.pending[call], email, account, ends);
      ReadEnds(cfg, s.world, email, account, ends, why, s.pending[call].email, faults);
    }
  }

  lemma StandingAfter(s: Shared, w: World, call: nat, email: string, account: string, ends: Time, why: string)
    requires Standing(s, email, account, ends, why) && InForce(w, email, account, ends, why)
    ensures Standing(Shared(w, s.pending - {call}), email, account, ends, why)
  {
  }

  lemma FinishStepKeeps(cfg: Config, users: iset<string>, s: Shared, email: string, account: string, ends: Time,
                        why: string, call: nat, at: Time, faults: RevokeFaults)
    requires call in s.pending ==> ReadHome(cfg, users, s.world, s.pending[call])
    requires cfg.enabled && Standing(s, email, account, ends, why) && at < ends
    requires PassesFor(s, Finish(call, at, faults), email)
    ensures Standing(Step(cfg, s, Finish(call, at, faults)), email, account, ends, why)
  {
    if call in s.pending && s.pending[call].Read? {
      var p := s.pending[call];
      assert Undisturbed(p, email, account, ends);
      FinishKeepsGrant(cfg, users, s.world, email, account, ends, why, p, faults, at);
      StandingAfter(s, FinishCall(cfg, s.world, p.email, p.revoking, p.found, faults), call, email, account, ends, why);
    }
  }

  lemma MissStepKeeps(cfg: Config, s: Shared, email: string, account: string, ends: Time, why: string, call: nat,
                      other: string, revoking: bool, at: Time)
    requires Standing(s, email, account, ends, why) && (revoking ==> other != email)
    ensures Standing(Step(cfg, s, Miss(call, other, revoking, at)), email, account, ends, why)
  {
  }

  lemma WholeStepKeeps(cfg: Config, users: iset<string>, s: Shared, email: string, account: string, ends: Time,
                       why: string, op: Op)
    requires Home(cfg, users, s.world) && DecodesHome(cfg, users) && cfg.enabled && !cfg.dryRun && ByUser(users, op)
    requires Standing(s, email, account, ends, why) && op.now < ToSecond(ends) && LeavesAlone(Whole(op), email)
    ensures Standing(Step(cfg, s, Whole(op)), email, account, ends, why)
  {
    WholeKeepsGrant(cfg, users, s.world, email, account, ends, why, op);
  }

  lemma StepKeepsGrant(cfg: Config, users: iset<string>, s: Shared, email: string, account: string, ends: Time,
                       why: string, op: SplitOp)
    requires SplitHome(cfg, users, s) && DecodesHome(cfg, users) && cfg.enabled && !cfg.dryRun
    requires SplitByUser(users, op) && LeavesAlone(op, email) && PassesFor(s, op, email)
    requires Standing(s, email, account, ends, why) && TimeOf(op) < ToSecond(ends)
    ensures Standing(Step(cfg, s, op), email, account, ends, why)
  {
    match op
    case Whole(o) => WholeStepKeeps(cfg, users, s, email, account, ends, why, o);
    case ReadPolicy(c, at, f) => ReadStepKeeps(cfg, s, email, account, ends, why, c, at, f);
    case Finish(c, at, f) => FinishStepKeeps(cfg, users, s, email, account, ends, why, c, at, f);
    case Miss(c, e, revoking, at) => MissStepKeeps(cfg, s, email, account, ends, why, c, e, revoking, at);
  }

  lemma {:induction false} LastIsLater(t: Time, ops: seq<SplitOp>)
    requires InOrder(t, ops)
    ensures t <= LastTime(t, ops)
    decreases |ops|
  {
    if ops != [] {
      LastIsLater(TimeOf(ops[0]), ops[1..]);
    }
  }

  lemma {:induction false} RunKeepsGrant(cfg: Config, users: iset<string>, s: Shared, t: Time, email: string,
                                         account: string, ends: Time, why: string, ops: seq<SplitOp>)
    requires SplitHome(cfg, users, s) && DecodesHome(cfg, users) && TellsApart(cfg, users)
    requires cfg.enabled && !cfg.dryRun && InOrder(t, ops) && SplitByUsers(users, ops)
    requires (forall op :: op in ops ==> LeavesAlone(op, email)) && RecheckedFor(cfg, s, ops, email)
    requires Standing(s, email, account, ends, why) && LastTime(t, ops) < ToSecond(ends)
    ensures InForce(SplitRun(cfg, s, ops).world, email, account, ends, why)
    decreases |ops|
  {
    if ops != [] {
      assert ops[0] in ops;
      LastIsLater(TimeOf(ops[0]), ops[1..]);
      StepKeepsGrant(cfg, users, s, email, account, ends, why, ops[0]);
      SplitHomeStep(cfg, users, s, ops[0]);
      RunKeepsGrant(cfg, users, Step(cfg, s, ops[0]), TimeOf(ops[0]), email, account, ends, why, ops[1..]);
    }
  }

  /** A grant in any reachable state is in force, and nothing under way disturbs it. */
  lemma GrantTakesForce(cfg: Config, users: iset<string>, s: Shared, t: Time, email: string, requester: string,
                        why: string, now: Time, stamp: nat)
    requires WithinReach(s, t) && t <= now && CanGrant(cfg, s.world, email, now, stamp)
    requires forall c :: c in s.pending && s.pending[c].email == email ==> !s.pending[c].revoking
    ensures Standing(Step(cfg, s, Whole(Op.Grant(email, requester, why, now, stamp, NO_FAULTS))),
                     email, AccountFor(cfg, email, stamp), now + ACCESS_DURATION, why)
  {
    GrantedWorld(cfg, s.world, email, requester, why, now, stamp);
  }

  lemma AskingAgain(cfg: Config, w: World, email: string, account: string, ends: Time, why: string, requester: string,
                    later: Time, stamp: nat)
    requires cfg.enabled && !cfg.dryRun && InForce(w, email, account, ends, why) && later < ToSecond(ends)
    ensures Active(TempBinding(account, ends, why), later)
    ensures GrantAccess(cfg, w, email, requester, why, later, stamp, NO_FAULTS) == (w, Granted(ends))
  {
  }

  /** The user is told the account and the end that were granted, whatever fails. */
  lemma LookingUp(cfg: Config, w: World, email: string, account: string, ends: Time, why: string, faults: LookupFaults)
    requires cfg.enabled && InForce(w, email, account, ends, why)
    ensures Reports(GetUserGrant(cfg, w, email, faults), w, account, ends)
  {
  }

  /** The answer changes nothing and gives this account and end. */
  predicate Reports(answer: (World, Outcome), w: World, account: string, ends: Time) {
    && answer.0 == w && answer.1.Found? && answer.1.grant.Some?
    && answer.1.grant.value.account == account && answer.1.grant.value.expiresAt == ends
  }

  /** The binding gives the account the bot's role under the user's reason until the second of the end. */
  predicate Gives(b: Binding, account: string, ends: Time, why: string) {
    && b.role == "projects/openshift-crt-ephemeral-access/roles/chat_bot_user"
    && b.members == ["serviceAccount:" + account]
    && b.condition.Some? && b.condition.value.title == "Temp Access" && b.condition.value.description == why
    && b.condition.value.expression.ExpiresAt?
    && b.condition.value.expression.at <= ends < b.condition.value.expression.at + 1_000_000_000
  }

  lemma BindingGives(account: string, ends: Time, why: string)
    ensures Gives(TempBinding(account, ends, why), account, ends, why)
  {
  }

  lemma FreshIsWithinReach(cfg: Config, users: iset<string>, w: World, t: Time)
    requires FreshStart(w)
    ensures SplitHome(cfg, users, Shared(w, map[])) && WithinReach(Shared(w, map[]), t)
  {
    FreshIsHome(cfg, users, w);
  }

  /**
   * A grant given after any interleaving stays in force over every further one that starts no
   * revoke for the user and in which the user's own lookups pass the re-check when they finish:
   * until the second in which it ends its binding is in the policy and active, its account is the
   * user's, asking again changes nothing and reports the same end, and a lookup, whatever fails in it,
   * reports exactly the account and the end that the grant returned.
   */
  lemma GrantLasts(cfg: Config, users: iset<string>, w0: World, t: Time, before: seq<SplitOp>, email: string,
                   requester: string, why: string, now: Time, stamp: nat, after: seq<SplitOp>, later: Time, stamp2: nat,
                   faults: LookupFaults)
    requires cfg.enabled && !cfg.dryRun && DecodesHome(cfg, users) && TellsApart(cfg, users) && email in users
    requires FreshStart(w0) && InOrder(t, before) && SplitByUsers(users, before) && LastTime(t, before) <= now
    requires var s := SplitRun(cfg, Shared(w0, map[]), before);
             && CanGrant(cfg, s.world, email, now, stamp)
             && (forall c :: c in s.pending && s.pending[c].email == email ==> !s.pending[c].revoking)
             && RecheckedFor(cfg, Step(cfg, s, Whole(Op.Grant(email, requester, why, now, stamp, NO_FAULTS))),
                             after, email)
    requires InOrder(now, after) && SplitByUsers(users, after) && (forall op :: op in after ==> LeavesAlone(op, email))
    requires LastTime(now, after) <= later < ToSecond(now + ACCESS_DURATION)
    ensures var s := SplitRun(cfg, Shared(w0, map[]), before);
            var s1 := Step(cfg, s, Whole(Op.Grant(email, requester, why, now, stamp, NO_FAULTS)));
            var w2 := SplitRun(cfg, s1, after).world;
            var account := AccountFor(cfg, email, stamp);
            var ends := now + 7 * 24 * 3600 * 1_000_000_000;
            && GrantAccess(cfg, s.world, email, requester, why, now, stamp, NO_FAULTS) == (s1.world, Granted(ends))
            && (exists b :: b in w2.policy && Gives(b, account, ends, why) && Active(b, later))
            && account in w2.accounts && w2.accounts[account] == email
            && GrantAccess(cfg, w2, email, requester, why, later, stamp2, NO_FAULTS) == (w2, Granted(ends))
            && Reports(GetUserGrant(cfg, w2, email, faults), w2, account, ends)
  {
    var s := SplitRun(cfg, Shared(w0, map[]), before);
    var op := Whole(Op.Grant(email, requester, why, now, stamp, NO_FAULTS));
    var s1 := Step(cfg, s, op);
    var account, ends := AccountFor(cfg, email, stamp), now + ACCESS_DURATION;
    FreshIsWithinReach(cfg, users, w0, t);
    RunWithinReach(cfg, users, Shared(w0, map[]), t, before);
    GrantTakesForce(cfg, users, s, LastTime(t, before), email, requester, why, now, stamp);
    SplitHomeStep(cfg, users, s, op);
    RunKeepsGrant(cfg, users, s1, now, email, account, ends, why, after);
    AskingAgain(cfg, SplitRun(cfg, s1, after).world, email, account, ends, why, requester, later, stamp2);
    LookingUp(cfg, SplitRun(cfg, s1, after).world, email, account, ends, why, faults);
    BindingGives(account, ends, why);
    assert TempBinding(account, ends, why) in SplitRun(cfg, s1, after).world.policy;
    GrantedWorld(cfg, s.world, email, requester, why, now, stamp);
  }
}
