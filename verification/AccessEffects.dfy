/** What the access operations bring about, and how they undo and find each other's work. */
module AccessEffects {
  import opened Wrappers
  import opened AccessPolicy
  import opened AccessSafety
  import Names = AccountNames

  /** A project without bindings and accounts, and an empty cache. */
  const NOBODY := World([], map[], map[])

  const NO_FAULTS := GrantFaults(false, false, false, false, false)

  function AccountFor(cfg: Config, email: string, stamp: nat): string {
    Names.AccountEmail(Names.AccountId(email, stamp), cfg.project)
  }

  /** Nothing in the cache stops a new grant, and the account name is free. */
  predicate CanGrant(cfg: Config, w: World, email: string, now: Time, stamp: nat) {
    && cfg.enabled && !cfg.dryRun
    && (email in w.cache ==> w.cache[email].expiresAt <= now)
    && AccountFor(cfg, email, stamp) !in w.accounts
  }

  /** The success branch of a grant, in one piece. */
  lemma GrantedWorld(cfg: Config, w: World, email: string, requester: string, why: string, now: Time, stamp: nat)
    requires CanGrant(cfg, w, email, now, stamp)
    ensures var account := AccountFor(cfg, email, stamp);
            var grant := AccessPolicy.Grant(email, now, now + ACCESS_DURATION, requester, why, account);
            GrantAccess(cfg, w, email, requester, why, now, stamp, NO_FAULTS) ==
              (World(w.policy + [TempBinding(account, now + ACCESS_DURATION, why)],
                     w.accounts[account := email], w.cache[email := grant]),
               Granted(now + ACCESS_DURATION))
  {
  }

  const NO_REVOKE_FAULTS := RevokeFaults(LookupFaults(false, {}), false, false, false)

  lemma {:induction false} RemoveAppended(policy: seq<Binding>, b: Binding, member: string)
    requires forall c :: c in policy ==> !Holds(c, member)
    requires Holds(b, member) && b.members == [member]
    ensures RemoveMember(policy + [b], member) == policy
  {
    if policy == [] {
      assert (policy + [b])[1..] == [];
      WithoutAbsent(b.members, member);
      assert RemoveFrom(b, member) == [];
      assert RemoveMember([b][1..], member) == [];
    } else {
      assert (policy + [b])[1..] == policy[1..] + [b];
      RemoveAppended(policy[1..], b, member);
    }
  }

  /** Revoking undoes granting: policy, accounts and cache are back where they were. */
  lemma GrantThenRevoke(cfg: Config, w: World, email: string, requester: string, why: string, now: Time, stamp: nat)
    requires Inv(cfg, w, now) && CanGrant(cfg, w, email, now, stamp) && email !in w.cache
    ensures var w' := GrantAccess(cfg, w, email, requester, why, now, stamp, NO_FAULTS).0;
            RevokeAccess(cfg, w', email, NO_REVOKE_FAULTS) == (w, Done)
  {
    var account := AccountFor(cfg, email, stamp);
    var b := TempBinding(account, now + ACCESS_DURATION, why);
    var w' := GrantAccess(cfg, w, email, requester, why, now, stamp, NO_FAULTS).0;
    GrantedWorld(cfg, w, email, requester, why, now, stamp);
    EmailNotEmpty(Names.AccountId(email, stamp), cfg.project);
    forall c | c in w.policy ensures !Holds(c, Member(account)) {
      UnboundAccount(cfg, w, now, account, c);
    }
    assert Holds(b, Member(account));
    RemoveAppended(w.policy, b, Member(account));
    assert w'.cache[email := w'.cache[email]] == w'.cache;
    assert RevokeAccess(cfg, w', email, NO_REVOKE_FAULTS) ==
           RevokeAccount(cfg, w', email, account, NO_REVOKE_FAULTS);
    assert w'.accounts - {account} == w.accounts;
    assert w'.cache - {email} == w.cache;
  }

  /** An account that is not live is bound nowhere. */
  lemma UnboundAccount(cfg: Config, w: World, t: Time, account: string, c: Binding)
    requires Inv(cfg, w, t) && account !in w.accounts && c in w.policy
    ensures !Holds(c, Member(account))
  {
    MemberRoundTrip(account);
    if IsTemp(c) {
      assert Sound(w, c);
    }
  }

  /** A revoke that reports success leaves the user without access and without a cache entry. */
  lemma RevokeEndsAccess(cfg: Config, w: World, email: string, faults: RevokeFaults, t: Time)
    requires Inv(cfg, w, t) && CacheNamed(w) && cfg.enabled && !cfg.dryRun
    ensures var (w', r) := RevokeAccess(cfg, w, email, faults);
            r == Done ==> OwnsNoActive(w', email, t) && email !in w'.cache
  {
    var (w', r) := RevokeAccess(cfg, w, email, faults);
    RevokeKeeps(cfg, w, t, email, faults);
    if r == Done {
      assert email !in w'.cache;
      UncachedOwnsNothing(cfg, w', email, t);
    }
  }

  const NO_CLEANUP_FAULTS := CleanupFaults(false, false, {})

  /** After a cleanup nothing expired is left: no binding, no account, no cached grant. */
  lemma CleanupLeavesNothingExpired(cfg: Config, w: World, now: Time, b: Binding)
    requires Inv(cfg, w, now) && cfg.enabled && b in w.policy && Expired(b, now)
    ensures var w' := CleanupExpired(cfg, w, now, NO_CLEANUP_FAULTS).0;
            && (forall c :: c in w'.policy ==> !Expired(c, now))
            && BoundAccount(b) !in w'.accounts
            && (forall u :: u in w'.cache ==> w'.cache[u].account != BoundAccount(b))
  {
    assert Sound(w, b);
    var i :| 0 <= i < |w.policy| && w.policy[i] == b;
    UnexpiredIsFilter(w.policy, now);
    BoundIsListed(w.policy, now, b);
  }

  lemma {:induction false} BoundIsListed(policy: seq<Binding>, now: Time, b: Binding)
    requires b in policy && Expired(b, now) && |b.members| == 1 && BoundAccount(b) != ""
    ensures BoundAccount(b) in ExpiredAccounts(policy, now)
  {
    if policy[0] == b {
      assert NamedAccounts(b.members)[0] == BoundAccount(b);
    } else {
      BoundIsListed(policy[1..], now, b);
    }
  }

  // ----- failures -----

  /** The user has an unexpired entry. */
  predicate HeldInCache(w: World, email: string, now: Time) {
    email in w.cache && now < w.cache[email].expiresAt
  }

  /** A call the grant needs fails: the key for a held account, or any on the way to a new one. */
  predicate GrantCallFails(cfg: Config, w: World, email: string, now: Time, stamp: nat, faults: GrantFaults) {
    && !cfg.dryRun
    && (if HeldInCache(w, email, now) then faults.key
        else faults.create || AccountFor(cfg, email, stamp) in w.accounts
             || faults.key || faults.getPolicy || faults.setPolicy)
  }

  /**
   * A grant fails exactly when the bot is off or a call it needs fails. Then everything is as before,
   * but for the new account when its roll-back fails as well, and that account is bound to nothing.
   */
  lemma GrantFailsIff(cfg: Config, w: World, t: Time, email: string, requester: string, why: string, now: Time,
                      stamp: nat, faults: GrantFaults)
    requires Inv(cfg, w, t)
    ensures var (w', r) := GrantAccess(cfg, w, email, requester, why, now, stamp, faults);
            var account := AccountFor(cfg, email, stamp);
            && (r == Failed <==> !cfg.enabled || GrantCallFails(cfg, w, email, now, stamp, faults))
            && (r == Failed ==>
                  if cfg.enabled && !HeldInCache(w, email, now) && !faults.create && account !in w.accounts
                     && faults.rollback
                  then w' == w.(accounts := w.accounts[account := email])
                       && forall b :: b in w'.policy ==> !Holds(b, Member(account))
                  else w' == w)
            && (r != Failed ==> r.Granted?)
  {
    var account := AccountFor(cfg, email, stamp);
    if account !in w.accounts {
      assert w.accounts[account := email] - {account} == w.accounts;
      forall b | b in w.policy ensures !Holds(b, Member(account)) {
        UnboundAccount(cfg, w, t, account, b);
      }
    }
  }

  /** A grant that succeeds reports the end of the entry it leaves in the cache, which a lookup then returns. */
  lemma GrantIsCached(cfg: Config, w: World, email: string, requester: string, why: string, now: Time, stamp: nat,
                      faults: GrantFaults, lookup: LookupFaults)
    ensures var (w', r) := GrantAccess(cfg, w, email, requester, why, now, stamp, faults);
            r.Granted? ==>
              && HeldInCache(w', email, now) && w'.cache[email].expiresAt == r.expiresAt
              && GetUserGrant(cfg, w', email, lookup) == (w', Found(Some(w'.cache[email])))
              && (HeldInCache(w, email, now) ==> w' == w)
              && (!HeldInCache(w, email, now) ==>
                    && r.expiresAt == now + 7 * 24 * 3600 * 1_000_000_000
                    && w'.cache[email].email == email && w'.cache[email].grantedAt == now
                    && w'.cache[email].requestedBy == requester && w'.cache[email].justification == why
                    && (forall u :: u != email ==> (u in w'.cache <==> u in w.cache))
                    && (forall u :: u != email && u in w.cache ==> w'.cache[u] == w.cache[u]))
  {
  }

  lemma SuccessIgnoresRollback(cfg: Config, w: World, email: string, requester: string, why: string, now: Time,
                               stamp: nat, faults: GrantFaults)
    requires GrantAccess(cfg, w, email, requester, why, now, stamp, faults).1.Granted?
    ensures GrantAccess(cfg, w, email, requester, why, now, stamp, faults)
         == GrantAccess(cfg, w, email, requester, why, now, stamp, NO_FAULTS)
  {
  }

  /** A failed revoke changes neither policy nor accounts, and a retry gives what it would have given at once. */
  lemma RevokeCanBeRetried(cfg: Config, w: World, email: string, failed: RevokeFaults, retry: RevokeFaults)
    requires cfg.enabled && RevokeAccess(cfg, w, email, failed).1 == Failed && retry.lookup == failed.lookup
    ensures var w1 := RevokeAccess(cfg, w, email, failed).0;
            && w1.policy == w.policy && w1.accounts == w.accounts
            && RevokeAccess(cfg, w1, email, retry) == RevokeAccess(cfg, w, email, retry)
  {
    var w1 := RevokeAccess(cfg, w, email, failed).0;
    FoundInPolicyIsNamed(w.accounts, w.policy, email, failed.lookup);
    assert email in w1.cache && w1.cache[email].account != "";
    assert w1.cache[email := w1.cache[email]] == w1.cache;
    assert w1 == w.(cache := w.cache[email := w1.cache[email]]);
  }

  lemma {:induction false} ExpiredAccountsGrow(policy: seq<Binding>, now: Time, later: Time, a: string)
    requires now <= later && a in ExpiredAccounts(policy, now)
    ensures a in ExpiredAccounts(policy, later)
  {
    if !(Expired(policy[0], now) && a in NamedAccounts(policy[0].members)) {
      ExpiredAccountsGrow(policy[1..], now, later, a);
    }
  }

  lemma ForgetTwice(cache: map<string, AccessPolicy.Grant>, few: set<string>, more: set<string>)
    requires few <= more
    ensures Forget(Forget(cache, few), more) == Forget(cache, more)
  {
  }

  /** A failed cleanup changes neither policy nor accounts, and a later one gives what it would have given anyway. */
  lemma CleanupCanBeRetried(cfg: Config, w: World, now: Time, failed: CleanupFaults, later: Time, retry: CleanupFaults)
    requires CleanupExpired(cfg, w, now, failed).1 == Failed && now <= later && !retry.getPolicy
    ensures var w1 := CleanupExpired(cfg, w, now, failed).0;
            && w1.policy == w.policy && w1.accounts == w.accounts
            && CleanupExpired(cfg, w1, later, retry) == CleanupExpired(cfg, w, later, retry)
  {
    var w1 := CleanupExpired(cfg, w, now, failed).0;
    if !failed.getPolicy {
      var few := set a | a in ExpiredAccounts(w.policy, now);
      var more := set a | a in ExpiredAccounts(w.policy, later);
      forall a | a in few ensures a in more {
        ExpiredAccountsGrow(w.policy, now, later, a);
      }
      ForgetTwice(w.cache, few, more);
      var i :| 0 <= i < |w.policy| && Expired(w.policy[i], now);
      assert Expired(w.policy[i], later);
    }
  }

  // ----- a bot that has lost its cache -----

  lemma {:induction false} FindAppended(accounts: map<string, string>, policy: seq<Binding>, b: Binding, email: string,
                                        faults: LookupFaults)
    requires FindInPolicy(accounts, policy, email, faults).None?
    ensures FindInPolicy(accounts, policy + [b], email, faults) == FindInPolicy(accounts, [b], email, faults)
  {
    if policy == [] {
      assert policy + [b] == [b];
    } else {
      assert (policy + [b])[1..] == policy[1..] + [b];
      FindAppended(accounts, policy[1..], b, email, faults);
    }
  }

  lemma FindSingle(accounts: map<string, string>, account: string, expiresAt: Time, why: string, email: string,
                   faults: LookupFaults)
    requires account != "" && Recognized(accounts, email, account, faults)
    ensures FindInPolicy(accounts, [TempBinding(account, expiresAt, why)], email, faults)
         == Some(GrantFromIAM(email, ToSecond(expiresAt), account))
  {
    MemberRoundTrip(account);
  }

  /** The scan takes the account for the user's: its name decodes, or its display name can be read. */
  predicate FoundByScan(email: string, account: string, faults: LookupFaults) {
    || Names.UserEmailOf(account) == email
    || (Names.NeedsDisplayNameFallback(email) && account !in faults.getAccount)
  }

  lemma GrantIsScanned(cfg: Config, w: World, email: string, why: string, now: Time, account: string,
                       faults: LookupFaults)
    requires account != "" && FoundByScan(email, account, faults)
    requires FindInPolicy(w.accounts[account := email], w.policy, email, faults).None?
    ensures var ends := now + ACCESS_DURATION;
            FindInPolicy(w.accounts[account := email], w.policy + [TempBinding(account, ends, why)], email, faults)
            == Some(GrantFromIAM(email, ToSecond(ends), account))
  {
    var b := TempBinding(account, now + ACCESS_DURATION, why);
    FindAppended(w.accounts[account := email], w.policy, b, email, faults);
    FindSingle(w.accounts[account := email], account, now + ACCESS_DURATION, why, email, faults);
  }

  lemma UncachedLookup(cfg: Config, w: World, email: string, found: AccessPolicy.Grant, faults: LookupFaults)
    requires cfg.enabled && email !in w.cache && !faults.getPolicy
    requires FindInPolicy(w.accounts, w.policy, email, faults) == Some(found)
    ensures GetUserGrant(cfg, w, email, faults).1 == Found(Some(found))
  {
  }

  /** The start of a grant can be read from its end. */
  lemma StartInSeconds(email: string, now: Time, account: string)
    ensures GrantFromIAM(email, ToSecond(now + ACCESS_DURATION), account)
         == AccessPolicy.Grant(email, ToSecond(now), ToSecond(now + ACCESS_DURATION), "", "", account)
  {
  }

  lemma RestartLookup(cfg: Config, w: World, email: string, requester: string, why: string, now: Time, stamp: nat,
                      account: string, found: AccessPolicy.Grant, faults: LookupFaults)
    requires CanGrant(cfg, w, email, now, stamp) && !faults.getPolicy && account == AccountFor(cfg, email, stamp)
    requires FindInPolicy(w.accounts[account := email],
                          w.policy + [TempBinding(account, now + ACCESS_DURATION, why)], email, faults) == Some(found)
    ensures var w' := GrantAccess(cfg, w, email, requester, why, now, stamp, NO_FAULTS).0;
            GetUserGrant(cfg, w'.(cache := map[]), email, faults).1 == Found(Some(found))
  {
    var w' := GrantAccess(cfg, w, email, requester, why, now, stamp, NO_FAULTS).0;
    GrantedWorld(cfg, w, email, requester, why, now, stamp);
    UncachedLookup(cfg, w'.(cache := map[]), email, found, faults);
  }

  /**
   * After a restart the empty cache is refilled from the policy: a lookup returns the account of
   * the grant, and its start and end in whole seconds. Who asked and why are not in the policy.
   */
  lemma RestartFindsGrant(cfg: Config, w: World, email: string, requester: string, why: string, now: Time, stamp: nat,
                          faults: LookupFaults)
    requires CanGrant(cfg, w, email, now, stamp) && !faults.getPolicy
    requires FoundByScan(email, AccountFor(cfg, email, stamp), faults)
    requires FindInPolicy(w.accounts[AccountFor(cfg, email, stamp) := email], w.policy, email, faults).None?
    ensures var w' := GrantAccess(cfg, w, email, requester, why, now, stamp, NO_FAULTS).0;
            var account := AccountFor(cfg, email, stamp);
            GetUserGrant(cfg, w'.(cache := map[]), email, faults).1 ==
              Found(Some(AccessPolicy.Grant(email, ToSecond(now), ToSecond(now + ACCESS_DURATION), "", "", account)))
  {
    var account := AccountFor(cfg, email, stamp);
    var found := AccessPolicy.Grant(email, ToSecond(now), ToSecond(now + ACCESS_DURATION), "", "", account);
    EmailNotEmpty(Names.AccountId(email, stamp), cfg.project);
    GrantIsScanned(cfg, w, email, why, now, account, faults);
    StartInSeconds(email, now, account);
    RestartLookup(cfg, w, email, requester, why, now, stamp, account, found, faults);
  }

  /** And a revoke finds it there too: policy and accounts are as before the grant. */
  lemma RestartThenRevoke(cfg: Config, w: World, email: string, requester: string, why: string, now: Time, stamp: nat)
    requires Inv(cfg, w, now) && CanGrant(cfg, w, email, now, stamp)
    requires FoundByScan(email, AccountFor(cfg, email, stamp), NO_REVOKE_FAULTS.lookup)
    requires var account := AccountFor(cfg, email, stamp);
             FindInPolicy(w.accounts[account := email], w.policy, email, NO_REVOKE_FAULTS.lookup).None?
    ensures var w' := GrantAccess(cfg, w, email, requester, why, now, stamp, NO_FAULTS).0;
            RevokeAccess(cfg, w'.(cache := map[]), email, NO_REVOKE_FAULTS) == (w.(cache := map[]), Done)
  {
    var account := AccountFor(cfg, email, stamp);
    var b := TempBinding(account, now + ACCESS_DURATION, why);
    GrantedWorld(cfg, w, email, requester, why, now, stamp);
    EmailNotEmpty(Names.AccountId(email, stamp), cfg.project);
    GrantIsScanned(cfg, w, email, why, now, account, NO_REVOKE_FAULTS.lookup);
    forall c | c in w.policy ensures !Holds(c, Member(account)) {
      UnboundAccount(cfg, w, now, account, c);
    }
    RemoveAppended(w.policy, b, Member(account));
    RevokesFound(cfg, w, email, account, b, GrantFromIAM(email, ToSecond(now + ACCESS_DURATION), account));
  }

  lemma RevokesFound(cfg: Config, w: World, email: string, account: string, b: Binding, found: AccessPolicy.Grant)
    requires cfg.enabled && !cfg.dryRun && account !in w.accounts && found.account == account
    requires RemoveMember(w.policy + [b], Member(account)) == w.policy
    requires FindInPolicy(w.accounts[account := email], w.policy + [b], email, NO_REVOKE_FAULTS.lookup) == Some(found)
    ensures RevokeAccess(cfg, World(w.policy + [b], w.accounts[account := email], map[]), email, NO_REVOKE_FAULTS)
         == (w.(cache := map[]), Done)
  {
    assert w.accounts[account := email] - {account} == w.accounts;
    assert map[][email := found] - {email} == map[];
  }

  lemma EmailNotEmpty(id: string, project: string)
    ensures Names.AccountEmail(id, project) != ""
  {
    assert |Names.AccountEmail(id, project)| > |id|;
  }
}
