/**
 * What happens without the second look: runs from an empty project, every grant
 * successful, in which one user ends up with two active bindings.
 */
module AccessRaces {
  import opened Wrappers
  import opened AccessPolicy
  import opened AccessSafety
  import opened AccessEffects
  import opened AccessSplit
  import Names = AccountNames

  /** A grant is answered with a grant. */
  predicate Answered(cfg: Config, s: Shared, op: SplitOp) {
    op.Whole? && op.op.Grant? ==>
      var g := op.op;
      GrantAccess(cfg, s.world, g.email, g.requestedBy, g.justification, g.now, g.stamp, g.grantFaults).1.Granted?
  }

  /** The run goes by the clock, its grants succeed, and one user ends up with two active bindings. */
  predicate GrantsTwice(cfg: Config, s: Shared, t: Time, ops: seq<SplitOp>)
    decreases |ops|
  {
    if ops == [] then BoundAccountsLive(s.world) && !OneActivePerUser(s.world, t)
    else
      && t <= TimeOf(ops[0])
      && Answered(cfg, s, ops[0])
      && GrantsTwice(cfg, Step(cfg, s, ops[0]), TimeOf(ops[0]), ops[1..])
  }

  /** Said of the run as a whole. */
  lemma {:induction false} GrantsTwiceBreaks(cfg: Config, s: Shared, t: Time, ops: seq<SplitOp>)
    requires GrantsTwice(cfg, s, t, ops)
    ensures InOrder(t, ops) && !Safe(SplitRun(cfg, s, ops).world, LastTime(t, ops))
    decreases |ops|
  {
    if ops != [] {
      GrantsTwiceBreaks(cfg, Step(cfg, s, ops[0]), TimeOf(ops[0]), ops[1..]);
    }
  }

  lemma Prepend(cfg: Config, s: Shared, t: Time, op: SplitOp, rest: seq<SplitOp>)
    requires t <= TimeOf(op) && !op.Whole?
    requires GrantsTwice(cfg, Step(cfg, s, op), TimeOf(op), rest)
    ensures GrantsTwice(cfg, s, t, [op] + rest)
  {
    assert ([op] + rest)[0] == op && ([op] + rest)[1..] == rest;
  }

  lemma PrependWhole(cfg: Config, s: Shared, t: Time, op: Op, rest: seq<SplitOp>)
    requires t <= op.now && !op.Grant?
    requires GrantsTwice(cfg, Step(cfg, s, Whole(op)), op.now, rest)
    ensures GrantsTwice(cfg, s, t, [Whole(op)] + rest)
  {
    assert ([Whole(op)] + rest)[0] == Whole(op) && ([Whole(op)] + rest)[1..] == rest;
  }

  function PlainGrant(email: string, now: Time, stamp: nat): Op {
    Op.Grant(email, "", "", now, stamp, NO_FAULTS)
  }

  /** The world a grant leaves. */
  function WithGrant(cfg: Config, w: World, email: string, now: Time, stamp: nat): World {
    var account := AccountFor(cfg, email, stamp);
    var grant := AccessPolicy.Grant(email, now, now + ACCESS_DURATION, "", "", account);
    World(w.policy + [TempBinding(account, now + ACCESS_DURATION, "")], w.accounts[account := email],
          w.cache[email := grant])
  }

  lemma PrependGrant(cfg: Config, s: Shared, t: Time, email: string, now: Time, stamp: nat, rest: seq<SplitOp>)
    requires t <= now && CanGrant(cfg, s.world, email, now, stamp)
    requires GrantsTwice(cfg, s.(world := WithGrant(cfg, s.world, email, now, stamp)), now, rest)
    ensures GrantsTwice(cfg, s, t, [Whole(PlainGrant(email, now, stamp))] + rest)
  {
    var op := Whole(PlainGrant(email, now, stamp));
    GrantedWorld(cfg, s.world, email, "", "", now, stamp);
    assert ([op] + rest)[0] == op && ([op] + rest)[1..] == rest;
  }

  lemma LastGrant(cfg: Config, s: Shared, t: Time, email: string, b: Binding, now: Time, stamp: nat)
    requires t <= now && CanGrant(cfg, s.world, email, now, stamp) && BoundAccountsLive(s.world)
    requires b in s.world.policy && Active(b, now) && s.world.accounts[BoundAccount(b)] == email
    ensures GrantsTwice(cfg, s, t, [Whole(PlainGrant(email, now, stamp))])
  {
    var op := Whole(PlainGrant(email, now, stamp));
    GrantedWorld(cfg, s.world, email, "", "", now, stamp);
    SecondGrant(cfg, s.world, email, b, now, stamp);
    assert [op][0] == op && [op][1..] == [];
    assert GrantsTwice(cfg, Step(cfg, s, op), now, []);
  }

  /** The pending call ends between two grants. */
  function FinishBetween(email: string, now: Time, later: Time, s1: nat, s2: nat): seq<SplitOp> {
    [Whole(PlainGrant(email, now, s1))] +
    ([Finish(0, now, NO_REVOKE_FAULTS)] + [Whole(PlainGrant(email, later, s2))])
  }

  /** It takes the new grant out of the cache: a revoke that found nothing, or a lookup that found an old grant. */
  predicate Overwrites(revoking: bool, found: Option<AccessPolicy.Grant>, later: Time) {
    if revoking then found.None? else found.Some? && found.value.expiresAt <= later
  }

  lemma GrantKeepsLive(cfg: Config, w: World, email: string, now: Time, stamp: nat)
    requires BoundAccountsLive(w) && AccountFor(cfg, email, stamp) !in w.accounts
    ensures BoundAccountsLive(WithGrant(cfg, w, email, now, stamp))
  {
    var w1 := WithGrant(cfg, w, email, now, stamp);
    MemberRoundTrip(AccountFor(cfg, email, stamp));
    forall c | c in w1.policy && IsTemp(c) ensures |c.members| == 1 && BoundAccount(c) in w1.accounts {
      if c in w.policy {
        assert BoundAccount(c) in w.accounts;
      }
    }
  }

  /** The end of the call leaves policy and accounts alone and the user without a valid entry. */
  lemma FinishOverwrites(cfg: Config, w: World, email: string, revoking: bool, found: Option<AccessPolicy.Grant>,
                         later: Time)
    requires Overwrites(revoking, found, later)
    ensures var w' := FinishCall(cfg, w, email, revoking, found, NO_REVOKE_FAULTS);
            && w'.policy == w.policy && w'.accounts == w.accounts
            && (email in w'.cache ==> w'.cache[email].expiresAt <= later)
  {
  }

  lemma GrantAfterOverwrite(cfg: Config, s: Shared, w: World, email: string, now: Time, later: Time, s1: nat, s2: nat)
    requires cfg.enabled && !cfg.dryRun && now <= later < ToSecond(now + ACCESS_DURATION) && s1 != s2
    requires BoundAccountsLive(w)
    requires AccountFor(cfg, email, s1) !in w.accounts && AccountFor(cfg, email, s2) !in w.accounts
    requires var w1 := WithGrant(cfg, w, email, now, s1);
             s.world.policy == w1.policy && s.world.accounts == w1.accounts
    requires email in s.world.cache ==> s.world.cache[email].expiresAt <= later
    ensures GrantsTwice(cfg, s, now, [Whole(PlainGrant(email, later, s2))])
  {
    var a1 := AccountFor(cfg, email, s1);
    var b := TempBinding(a1, now + ACCESS_DURATION, "");
    Names.AccountsDiffer(email, cfg.project, s1, s2);
    MemberRoundTrip(a1);
    GrantKeepsLive(cfg, w, email, now, s1);
    assert b in s.world.policy && BoundAccount(b) == a1;
    LastGrant(cfg, s, now, email, b, later, s2);
  }

  lemma FinishStep(cfg: Config, w: World, email: string, revoking: bool, found: Option<AccessPolicy.Grant>, now: Time)
    requires cfg.enabled
    ensures Step(cfg, Shared(w, map[0 := Read(email, revoking, found)]), Finish(0, now, NO_REVOKE_FAULTS))
         == Shared(FinishCall(cfg, w, email, revoking, found, NO_REVOKE_FAULTS), map[])
  {
  }

  lemma FinishThenGrant(cfg: Config, w: World, email: string, revoking: bool, found: Option<AccessPolicy.Grant>,
                        now: Time, later: Time, s1: nat, s2: nat)
    requires cfg.enabled && !cfg.dryRun && now <= later < ToSecond(now + ACCESS_DURATION) && s1 != s2
    requires BoundAccountsLive(w) && Overwrites(revoking, found, later)
    requires AccountFor(cfg, email, s1) !in w.accounts && AccountFor(cfg, email, s2) !in w.accounts
    ensures GrantsTwice(cfg, Shared(WithGrant(cfg, w, email, now, s1), map[0 := Read(email, revoking, found)]), now,
                        [Finish(0, now, NO_REVOKE_FAULTS)] + [Whole(PlainGrant(email, later, s2))])
  {
    var w1 := WithGrant(cfg, w, email, now, s1);
    var granted := Shared(w1, map[0 := Read(email, revoking, found)]);
    var finished := Shared(FinishCall(cfg, w1, email, revoking, found, NO_REVOKE_FAULTS), map[]);
    FinishStep(cfg, w1, email, revoking, found, now);
    FinishOverwrites(cfg, w1, email, revoking, found, later);
    GrantAfterOverwrite(cfg, finished, w, email, now, later, s1, s2);
    Prepend(cfg, granted, now, Finish(0, now, NO_REVOKE_FAULTS), [Whole(PlainGrant(email, later, s2))]);
  }

  lemma FinishBetweenGrantsTwice(cfg: Config, w: World, email: string, revoking: bool,
                                 found: Option<AccessPolicy.Grant>, now: Time, later: Time, s1: nat, s2: nat)
    requires now <= later < ToSecond(now + ACCESS_DURATION) && s1 != s2
    requires BoundAccountsLive(w) && CanGrant(cfg, w, email, now, s1) && AccountFor(cfg, email, s2) !in w.accounts
    requires Overwrites(revoking, found, later)
    ensures GrantsTwice(cfg, Shared(w, map[0 := Read(email, revoking, found)]), now,
                        FinishBetween(email, now, later, s1, s2))
  {
    FinishThenGrant(cfg, w, email, revoking, found, now, later, s1, s2);
    PrependGrant(cfg, Shared(w, map[0 := Read(email, revoking, found)]), now, email, now, s1,
                 [Finish(0, now, NO_REVOKE_FAULTS)] + [Whole(PlainGrant(email, later, s2))]);
  }

  /** A call misses the cache and reads the policy before the rest happens. */
  function AfterRead(email: string, revoking: bool, now: Time, rest: seq<SplitOp>): seq<SplitOp> {
    [Miss(0, email, revoking, now)] + ([ReadPolicy(0, now, NO_REVOKE_FAULTS.lookup)] + rest)
  }

  /** Nothing is written by that. */
  lemma MissThenRead(cfg: Config, w: World, email: string, revoking: bool, now: Time, rest: seq<SplitOp>)
    requires cfg.enabled && email !in w.cache
    requires var found := FindInPolicy(w.accounts, w.policy, email, NO_REVOKE_FAULTS.lookup);
             GrantsTwice(cfg, Shared(w, map[0 := Read(email, revoking, found)]), now, rest)
    ensures GrantsTwice(cfg, Shared(w, map[]), now, AfterRead(email, revoking, now, rest))
  {
    var found := FindInPolicy(w.accounts, w.policy, email, NO_REVOKE_FAULTS.lookup);
    var missed := Shared(w, map[0 := Missed(email, revoking)]);
    assert Step(cfg, missed, ReadPolicy(0, now, NO_REVOKE_FAULTS.lookup))
        == Shared(w, map[0 := Read(email, revoking, found)]);
    Prepend(cfg, missed, now, ReadPolicy(0, now, NO_REVOKE_FAULTS.lookup), rest);
    Prepend(cfg, Shared(w, map[]), now, Miss(0, email, revoking, now),
            [ReadPolicy(0, now, NO_REVOKE_FAULTS.lookup)] + rest);
  }

  /**
   * A revoke that read the policy before the user was granted access forgets the
   * grant made meanwhile: for every user, the next grant opens a second account.
   */
  lemma RevokeRaceGrantsTwice(cfg: Config, email: string, now: Time, later: Time, s1: nat, s2: nat)
    requires cfg.enabled && !cfg.dryRun && s1 != s2
    requires now <= later < ToSecond(now + ACCESS_DURATION)
    ensures GrantsTwice(cfg, Shared(NOBODY, map[]), now,
                        AfterRead(email, true, now, FinishBetween(email, now, later, s1, s2)))
  {
    FinishBetweenGrantsTwice(cfg, NOBODY, email, true, None, now, later, s1, s2);
    MissThenRead(cfg, NOBODY, email, true, now, FinishBetween(email, now, later, s1, s2));
  }

  const NO_WRITE := CleanupFaults(false, true, {})

  /** The world after a grant has expired and a cleanup has failed to write the policy. */
  function Lapsed(account: string, email: string, ends: Time): World {
    World([TempBinding(account, ends, "")], map[account := email], map[])
  }

  /** Such a cleanup takes the expired grant out of the cache and leaves it in the policy. */
  lemma FailedCleanup(cfg: Config, email: string, grant: AccessPolicy.Grant, now: Time)
    requires cfg.enabled && grant.account != "" && ToSecond(grant.expiresAt) < now
    ensures var w := Lapsed(grant.account, email, grant.expiresAt);
            CleanupExpired(cfg, w.(cache := map[email := grant]), now, NO_WRITE).0 == w
  {
    var b := TempBinding(grant.account, grant.expiresAt, "");
    MemberRoundTrip(grant.account);
    assert Expired([b][0], now);
    BoundIsListed([b], now, b);
  }

  lemma LapsedIsFound(cfg: Config, email: string, ends: Time, stamp: nat)
    requires Recognizable(email, AccountFor(cfg, email, stamp))
    ensures var account := AccountFor(cfg, email, stamp);
            var w := Lapsed(account, email, ends);
            && BoundAccountsLive(w)
            && FindInPolicy(w.accounts, w.policy, email, NO_REVOKE_FAULTS.lookup)
               == Some(GrantFromIAM(email, ToSecond(ends), account))
  {
    var account := AccountFor(cfg, email, stamp);
    EmailNotEmpty(Names.AccountId(email, stamp), cfg.project);
    MemberRoundTrip(account);
    FindSingle(map[account := email], account, ends, "", email, NO_REVOKE_FAULTS.lookup);
  }

  lemma FoundLapsed(cfg: Config, w: World, email: string, found: Option<AccessPolicy.Grant>, now: Time, later: Time,
                    s1: nat, s2: nat)
    requires cfg.enabled && !cfg.dryRun && s1 != s2 && now <= later < ToSecond(now + ACCESS_DURATION)
    requires BoundAccountsLive(w) && w.cache == map[]
    requires AccountFor(cfg, email, s1) !in w.accounts && AccountFor(cfg, email, s2) !in w.accounts
    requires FindInPolicy(w.accounts, w.policy, email, NO_REVOKE_FAULTS.lookup) == found
    requires found.Some? && found.value.expiresAt <= later
    ensures GrantsTwice(cfg, Shared(w, map[]), now,
                        AfterRead(email, false, now, FinishBetween(email, now, later, s1, s2)))
  {
    FinishBetweenGrantsTwice(cfg, w, email, false, found, now, later, s1, s2);
    MissThenRead(cfg, w, email, false, now, FinishBetween(email, now, later, s1, s2));
  }

  lemma LapsedLookup(cfg: Config, email: string, ends: Time, now: Time, later: Time, s0: nat, s1: nat, s2: nat)
    requires cfg.enabled && !cfg.dryRun && s0 != s1 && s1 != s2 && s0 != s2
    requires Recognizable(email, AccountFor(cfg, email, s0))
    requires ends < now <= later < ToSecond(now + ACCESS_DURATION)
    ensures GrantsTwice(cfg, Shared(Lapsed(AccountFor(cfg, email, s0), email, ends), map[]), now,
                        AfterRead(email, false, now, FinishBetween(email, now, later, s1, s2)))
  {
    var account := AccountFor(cfg, email, s0);
    LapsedIsFound(cfg, email, ends, s0);
    Names.AccountsDiffer(email, cfg.project, s0, s1);
    Names.AccountsDiffer(email, cfg.project, s0, s2);
    FoundLapsed(cfg, Lapsed(account, email, ends), email, Some(GrantFromIAM(email, ToSecond(ends), account)),
                now, later, s1, s2);
  }

  /** A grant and, after its end, a cleanup that fails to write the policy, before the rest happens. */
  function AfterLapse(email: string, first: Time, now: Time, stamp: nat, rest: seq<SplitOp>): seq<SplitOp> {
    [Whole(PlainGrant(email, first, stamp))] + ([Whole(Cleanup(now, NO_WRITE))] + rest)
  }

  lemma StartLapsed(cfg: Config, email: string, first: Time, now: Time, s0: nat, rest: seq<SplitOp>)
    requires cfg.enabled && !cfg.dryRun && first + ACCESS_DURATION < now
    requires var w := Lapsed(AccountFor(cfg, email, s0), email, first + ACCESS_DURATION);
             GrantsTwice(cfg, Shared(w, map[]), now, rest)
    ensures GrantsTwice(cfg, Shared(NOBODY, map[]), first, AfterLapse(email, first, now, s0, rest))
  {
    var a0, ends := AccountFor(cfg, email, s0), first + ACCESS_DURATION;
    var g0 := AccessPolicy.Grant(email, first, ends, "", "", a0);
    var granted := Lapsed(a0, email, ends).(cache := map[email := g0]);
    EmailNotEmpty(Names.AccountId(email, s0), cfg.project);
    FailedCleanup(cfg, email, g0, now);
    PrependWhole(cfg, Shared(granted, map[]), first, Cleanup(now, NO_WRITE), rest);
    assert [] + [TempBinding(a0, ends, "")] == [TempBinding(a0, ends, "")];
    PrependGrant(cfg, Shared(NOBODY, map[]), first, email, first, s0, [Whole(Cleanup(now, NO_WRITE))] + rest);
  }

  /** The same with a name for the end of the grant, which keeps the terms in later proofs alike. */
  lemma StartLapsedAt(cfg: Config, email: string, first: Time, ends: Time, now: Time, s0: nat, rest: seq<SplitOp>)
    requires cfg.enabled && !cfg.dryRun && ends == first + ACCESS_DURATION < now
    requires GrantsTwice(cfg, Shared(Lapsed(AccountFor(cfg, email, s0), email, ends), map[]), now, rest)
    ensures GrantsTwice(cfg, Shared(NOBODY, map[]), first, AfterLapse(email, first, now, s0, rest))
  {
    StartLapsed(cfg, email, first, now, s0, rest);
  }

  lemma LapsedRace(cfg: Config, email: string, first: Time, ends: Time, now: Time, later: Time,
                   s0: nat, s1: nat, s2: nat)
    requires cfg.enabled && !cfg.dryRun && s0 != s1 && s1 != s2 && s0 != s2
    requires Recognizable(email, AccountFor(cfg, email, s0))
    requires ends == first + ACCESS_DURATION < now <= later < ToSecond(now + ACCESS_DURATION)
    ensures GrantsTwice(cfg, Shared(NOBODY, map[]), first,
                        AfterLapse(email, first, now, s0,
                                   AfterRead(email, false, now, FinishBetween(email, now, later, s1, s2))))
  {
    LapsedLookup(cfg, email, ends, now, later, s0, s1, s2);
    StartLapsedAt(cfg, email, first, ends, now, s0,
                  AfterRead(email, false, now, FinishBetween(email, now, later, s1, s2)));
  }

  /**
   * A lookup that read an expired grant puts it back over the grant made meanwhile:
   * for every user a scan recognizes, by account name or display name, the next grant
   * opens a second account.
   */
  lemma LookupRaceGrantsTwice(cfg: Config, email: string, first: Time, now: Time, later: Time,
                              s0: nat, s1: nat, s2: nat)
    requires cfg.enabled && !cfg.dryRun && s0 != s1 && s1 != s2 && s0 != s2
    requires Recognizable(email, AccountFor(cfg, email, s0))
    requires first + ACCESS_DURATION < now <= later < ToSecond(now + ACCESS_DURATION)
    ensures GrantsTwice(cfg, Shared(NOBODY, map[]), first,
                        AfterLapse(email, first, now, s0,
                                   AfterRead(email, false, now, FinishBetween(email, now, later, s1, s2))))
  {
    LapsedRace(cfg, email, first, first + ACCESS_DURATION, now, later, s0, s1, s2);
  }
}
