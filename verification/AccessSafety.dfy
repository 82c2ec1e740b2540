/**
 * Safety of the GCP access manager over whole runs: one active grant per user,
 * cached under its owner, on a live account; and nothing else in the IAM policy
 * is ever touched.
 */
module AccessSafety {
  import opened GoStrings
  import opened Wrappers
  import opened AccessPolicy
  import Names = AccountNames

  // ----- runs -----

  datatype Op =
    | Grant(email: string, requestedBy: string, justification: string, now: Time, stamp: nat, grantFaults: GrantFaults)
    | Lookup(email: string, now: Time, lookupFaults: LookupFaults)
    | Revoke(email: string, now: Time, revokeFaults: RevokeFaults)
    | Cleanup(now: Time, cleanupFaults: CleanupFaults)

  function Apply(cfg: Config, w: World, op: Op): World {
    match op
    case Grant(e, r, j, now, stamp, f) => GrantAccess(cfg, w, e, r, j, now, stamp, f).0
    case Lookup(e, _, f) => GetUserGrant(cfg, w, e, f).0
    case Revoke(e, _, f) => RevokeAccess(cfg, w, e, f).0
    case Cleanup(now, f) => CleanupExpired(cfg, w, now, f).0
  }

  function Run(cfg: Config, w: World, ops: seq<Op>): World
    decreases |ops|
  {
    if ops == [] then w else Run(cfg, Apply(cfg, w, ops[0]), ops[1..])
  }

  predicate Ordered(t: Time, ops: seq<Op>)
    decreases |ops|
  {
    ops != [] ==> t <= ops[0].now && Ordered(ops[0].now, ops[1..])
  }

  function EndTime(t: Time, ops: seq<Op>): Time
    decreases |ops|
  {
    if ops == [] then t else EndTime(ops[0].now, ops[1..])
  }

  // ----- what is promised -----

  /** A temporary binding that still lets its members in. */
  predicate Active(b: Binding, t: Time) {
    IsTemp(b) && Expiration(b).Some? && t < Expiration(b).value
  }

  function BoundAccount(b: Binding): string
    requires |b.members| == 1
  {
    AccountOf(b.members[0])
  }

  /** Every temporary binding has one member, and it is a live account. */
  predicate BoundAccountsLive(w: World) {
    forall b :: b in w.policy && IsTemp(b) ==> |b.members| == 1 && BoundAccount(b) in w.accounts
  }

  /** The account of every active binding is cached under the user it was created for. */
  predicate ActiveCached(w: World, t: Time)
    requires BoundAccountsLive(w)
  {
    forall b :: b in w.policy && Active(b, t) ==>
      var owner := w.accounts[BoundAccount(b)];
      owner in w.cache && w.cache[owner].account == BoundAccount(b)
  }

  predicate OneActivePerUser(w: World, t: Time)
    requires BoundAccountsLive(w)
  {
    forall i, j | 0 <= i < |w.policy| && 0 <= j < |w.policy| && Active(w.policy[i], t) && Active(w.policy[j], t) ::
      w.accounts[BoundAccount(w.policy[i])] == w.accounts[BoundAccount(w.policy[j])] ==> i == j
  }

  // ----- the invariant -----

  predicate Sound(w: World, b: Binding) {
    && |b.members| == 1
    && BoundAccount(b) != ""
    && b.members[0] == Member(BoundAccount(b))
    && BoundAccount(b) in w.accounts
    && Expiration(b).Some?
  }

  predicate Guarded(w: World, b: Binding, t: Time)
    requires Sound(w, b)
  {
    t < Expiration(b).value ==>
      var owner := w.accounts[BoundAccount(b)];
      && owner in w.cache
      && w.cache[owner].account == BoundAccount(b)
      && w.cache[owner].expiresAt >= Expiration(b).value
  }

  predicate DistinctAccounts(policy: seq<Binding>) {
    policy != [] ==>
      && DistinctAccounts(policy[1..])
      && (IsTemp(policy[0]) ==>
            forall b :: b in policy[1..] && IsTemp(b) ==> b.members != policy[0].members)
  }

  predicate Inv(cfg: Config, w: World, t: Time) {
    && (forall b :: b in w.policy && IsTemp(b) ==> Sound(w, b) && Guarded(w, b, t))
    && DistinctAccounts(w.policy)
    && (cfg.dryRun ==> forall b :: b in w.policy ==> !IsTemp(b))
  }

  /** The part of the invariant that does not speak of the cache. */
  predicate Shape(cfg: Config, w: World) {
    && (forall b :: b in w.policy && IsTemp(b) ==> Sound(w, b))
    && DistinctAccounts(w.policy)
    && (cfg.dryRun ==> forall b :: b in w.policy ==> !IsTemp(b))
  }

  lemma MemberRoundTrip(account: string)
    ensures AccountOf(Member(account)) == account
  {
    assert Member(account)[|MEMBER_PREFIX|..] == account;
  }

  lemma InvLater(cfg: Config, w: World, t: Time, t': Time)
    requires Inv(cfg, w, t) && t <= t'
    ensures Inv(cfg, w, t')
  {
  }

  predicate OwnsNoActive(w: World, email: string, t: Time) {
    forall b :: b in w.policy && Active(b, t) && |b.members| == 1 && BoundAccount(b) in w.accounts
      ==> w.accounts[BoundAccount(b)] != email
  }

  /** The cache alone decides whether a new account is made, and that is enough. */
  lemma UncachedOwnsNothing(cfg: Config, w: World, email: string, t: Time)
    requires Inv(cfg, w, t)
    requires email in w.cache ==> w.cache[email].expiresAt <= t
    ensures OwnsNoActive(w, email, t)
  {
  }

  lemma CacheWriteKeeps(cfg: Config, w: World, email: string, t: Time, grant: AccessPolicy.Grant)
    requires Inv(cfg, w, t) && OwnsNoActive(w, email, t)
    ensures Inv(cfg, w.(cache := w.cache[email := grant]), t)
    ensures Inv(cfg, w.(cache := w.cache - {email}), t)
  {
    var w1, w2 := w.(cache := w.cache[email := grant]), w.(cache := w.cache - {email});
    forall b | b in w.policy && IsTemp(b)
      ensures Sound(w1, b) && Guarded(w1, b, t) && Sound(w2, b) && Guarded(w2, b, t)
    {
      assert Sound(w, b) && Guarded(w, b, t);
    }
  }

  lemma {:induction false} DistinctAppend(policy: seq<Binding>, b: Binding)
    requires DistinctAccounts(policy)
    requires forall c :: c in policy && IsTemp(c) ==> c.members != b.members
    ensures DistinctAccounts(policy + [b])
  {
    if policy == [] {
      assert (policy + [b])[1..] == [];
    } else {
      DistinctAppend(policy[1..], b);
      assert (policy + [b])[1..] == policy[1..] + [b];
    }
  }

  lemma {:induction false} DistinctUnique(policy: seq<Binding>, i: nat, j: nat)
    requires DistinctAccounts(policy) && i < |policy| && j < |policy|
    requires IsTemp(policy[i]) && IsTemp(policy[j]) && policy[i].members == policy[j].members
    ensures i == j
    decreases |policy|
  {
    assert forall k :: 0 < k < |policy| ==> policy[k] == policy[1..][k - 1];
    if i > 0 && j > 0 {
      DistinctUnique(policy[1..], i - 1, j - 1);
    }
  }

  // ----- grant -----

  lemma BindKeeps(cfg: Config, w: World, t: Time, email: string, account: string, grant: AccessPolicy.Grant,
                  justification: string)
    requires Inv(cfg, w, t) && OwnsNoActive(w, email, t) && !cfg.dryRun
    requires account !in w.accounts && account != ""
    requires grant.account == account
    ensures Inv(cfg, World(w.policy + [TempBinding(account, grant.expiresAt, justification)],
                           w.accounts[account := email], w.cache[email := grant]), t)
  {
    var nb := TempBinding(account, grant.expiresAt, justification);
    var w' := World(w.policy + [nb], w.accounts[account := email], w.cache[email := grant]);
    MemberRoundTrip(account);
    forall b | b in w.policy && IsTemp(b)
      ensures Sound(w', b) && Guarded(w', b, t) && b.members != nb.members
    {
      assert Sound(w, b) && Guarded(w, b, t);
      assert BoundAccount(b) != account;
    }
    assert Sound(w', nb) && Guarded(w', nb, t);
    DistinctAppend(w.policy, nb);
  }

  lemma AccountsKeep(cfg: Config, w: World, t: Time, accounts: map<string, string>)
    requires Inv(cfg, w, t)
    requires forall b :: b in w.policy && IsTemp(b) && Sound(w, b) ==>
      BoundAccount(b) in accounts && accounts[BoundAccount(b)] == w.accounts[BoundAccount(b)]
    ensures Inv(cfg, w.(accounts := accounts), t)
  {
    var w' := w.(accounts := accounts);
    forall b | b in w.policy && IsTemp(b) ensures Sound(w', b) && Guarded(w', b, t) {
      assert Sound(w, b) && Guarded(w, b, t);
    }
  }

  lemma GrantKeeps(cfg: Config, w: World, t: Time, email: string, requestedBy: string, justification: string,
                   now: Time, stamp: nat, faults: GrantFaults)
    requires Inv(cfg, w, t) && t <= now
    ensures Inv(cfg, GrantAccess(cfg, w, email, requestedBy, justification, now, stamp, faults).0, now)
  {
    InvLater(cfg, w, t, now);
    if cfg.enabled && !(email in w.cache && w.cache[email].expiresAt > now) {
      UncachedOwnsNothing(cfg, w, email, now);
      var expiresAt := now + ACCESS_DURATION;
      if cfg.dryRun {
        var account := Names.AccountEmail("dry-run-" + ReplaceAll(email, "@", "-at-"), cfg.project);
        CacheWriteKeeps(cfg, w, email, now,
                        AccessPolicy.Grant(email, now, expiresAt, requestedBy, justification, account));
      } else {
        var account := Names.AccountEmail(Names.AccountId(email, stamp), cfg.project);
        NewAccountKeeps(cfg, w, now, email, account, faults,
                        AccessPolicy.Grant(email, now, expiresAt, requestedBy, justification, account));
      }
    }
  }

  lemma NewAccountKeeps(cfg: Config, w: World, now: Time, email: string, account: string, faults: GrantFaults,
                        grant: AccessPolicy.Grant)
    requires Inv(cfg, w, now) && OwnsNoActive(w, email, now) && !cfg.dryRun
    requires grant.account == account && account != ""
    ensures account !in w.accounts ==>
      var created := w.accounts[account := email];
      && Inv(cfg, w.(accounts := DeleteAccount(created, account, faults.rollback)), now)
      && Inv(cfg, World(w.policy + [TempBinding(account, grant.expiresAt, grant.justification)],
                        created, w.cache[email := grant]), now)
  {
    if account !in w.accounts {
      AccountsKeep(cfg, w, now, DeleteAccount(w.accounts[account := email], account, faults.rollback));
      BindKeeps(cfg, w, now, email, account, grant, grant.justification);
    }
  }

  // ----- lookup -----

  lemma LookupKeeps(cfg: Config, w: World, t: Time, email: string, faults: LookupFaults)
    requires Inv(cfg, w, t)
    ensures Inv(cfg, GetUserGrant(cfg, w, email, faults).0, t)
  {
    var found := FindInPolicy(w.accounts, w.policy, email, faults);
    if email !in w.cache && found.Some? {
      UncachedOwnsNothing(cfg, w, email, t);
      CacheWriteKeeps(cfg, w, email, t, found.value);
    }
  }

  // ----- revoke -----

  lemma WithoutAbsent(members: seq<string>, member: string)
    ensures member !in Without(members, member)
    ensures |members| == 1 && member in members ==> Without(members, member) == []
  {
    if |members| == 1 {
      assert Without(members[1..], member) == [];
    }
  }

  /** On single-member bindings a revoke is a filter. */
  lemma {:induction false} RemoveIsFilter(policy: seq<Binding>, member: string)
    requires forall b :: b in policy && IsTemp(b) ==> |b.members| == 1
    ensures forall b :: b in RemoveMember(policy, member) ==> b in policy && !Holds(b, member)
    ensures DistinctAccounts(policy) ==> DistinctAccounts(RemoveMember(policy, member))
  {
    if policy != [] {
      RemoveIsFilter(policy[1..], member);
      WithoutAbsent(policy[0].members, member);
      var rest := RemoveMember(policy[1..], member);
      if Holds(policy[0], member) {
        assert RemoveMember(policy, member) == rest;
      } else {
        assert RemoveMember(policy, member) == [policy[0]] + rest;
        assert ([policy[0]] + rest)[1..] == rest;
      }
    }
  }

  lemma RevokeAccountKeeps(cfg: Config, w: World, t: Time, email: string, account: string, faults: RevokeFaults)
    requires Inv(cfg, w, t) && !cfg.dryRun
    requires email in w.cache && w.cache[email].account == account
    ensures Inv(cfg, World(RemoveMember(w.policy, Member(account)),
                           DeleteAccount(w.accounts, account, faults.delete), w.cache - {email}), t)
  {
    var policy := RemoveMember(w.policy, Member(account));
    var w' := World(policy, DeleteAccount(w.accounts, account, faults.delete), w.cache - {email});
    RemoveIsFilter(w.policy, Member(account));
    forall b | b in policy && IsTemp(b) ensures Sound(w', b) && Guarded(w', b, t) {
      assert Sound(w, b) && Guarded(w, b, t);
      assert BoundAccount(b) != account;
    }
  }

  lemma RevokeKeeps(cfg: Config, w: World, t: Time, email: string, faults: RevokeFaults)
    requires Inv(cfg, w, t)
    requires forall u :: u in w.cache ==> w.cache[u].account != ""
    ensures Inv(cfg, RevokeAccess(cfg, w, email, faults).0, t)
  {
    if cfg.enabled {
      var found := if email in w.cache then Some(w.cache[email])
                   else if faults.lookup.getPolicy then None
                   else FindInPolicy(w.accounts, w.policy, email, faults.lookup);
      if email !in w.cache {
        UncachedOwnsNothing(cfg, w, email, t);
        if found.Some? {
          CacheWriteKeeps(cfg, w, email, t, found.value);
        }
        assert w.cache - {email} == w.cache;
      } else {
        assert w.cache[email := w.cache[email]] == w.cache;
      }
      if found.Some? {
        var w1 := w.(cache := w.cache[email := found.value]);
        if cfg.dryRun {
          CacheWriteKeeps(cfg, w1, email, t, found.value);
        } else {
          RevokeAccountKeeps(cfg, w1, t, email, found.value.account, faults);
        }
      }
    }
  }

  // ----- cleanup -----

  lemma {:induction false} UnexpiredIsFilter(policy: seq<Binding>, now: Time)
    ensures forall b :: b in Unexpired(policy, now) <==> b in policy && !Expired(b, now)
    ensures DistinctAccounts(policy) ==> DistinctAccounts(Unexpired(policy, now))
  {
    if policy != [] {
      UnexpiredIsFilter(policy[1..], now);
      var rest := Unexpired(policy[1..], now);
      assert policy == [policy[0]] + policy[1..];
      if Expired(policy[0], now) {
        assert Unexpired(policy, now) == rest;
      } else {
        assert Unexpired(policy, now) == [policy[0]] + rest;
        assert ([policy[0]] + rest)[1..] == rest;
      }
    }
  }

  lemma {:induction false} ExpiredAccountsAreBound(policy: seq<Binding>, now: Time, a: string)
    requires forall b :: b in policy && IsTemp(b) ==> |b.members| == 1
    requires a in ExpiredAccounts(policy, now)
    ensures exists b :: b in policy && Expired(b, now) && |b.members| == 1 && BoundAccount(b) == a
  {
    var b := policy[0];
    if Expired(b, now) && a in NamedAccounts(b.members) {
      assert NamedAccounts(b.members[1..]) == [];
      assert BoundAccount(b) == a;
    } else {
      ExpiredAccountsAreBound(policy[1..], now, a);
    }
  }

  /** Accounts of bindings that stay are not among the expired ones. */
  lemma KeptAccountsStay(cfg: Config, w: World, now: Time, b: Binding)
    requires Shape(cfg, w) && b in w.policy && IsTemp(b) && !Expired(b, now)
    ensures BoundAccount(b) !in ExpiredAccounts(w.policy, now)
  {
    var a := BoundAccount(b);
    if a in ExpiredAccounts(w.policy, now) {
      ExpiredAccountsAreBound(w.policy, now, a);
      var e :| e in w.policy && Expired(e, now) && |e.members| == 1 && BoundAccount(e) == a;
      assert Sound(w, e) && Sound(w, b);
      assert e.members == [Member(a)] == b.members;
      var i :| 0 <= i < |w.policy| && w.policy[i] == b;
      var j :| 0 <= j < |w.policy| && w.policy[j] == e;
      DistinctUnique(w.policy, i, j);
    }
  }

  lemma CleanupKeeps(cfg: Config, w: World, t: Time, now: Time, faults: CleanupFaults)
    requires Inv(cfg, w, t) && t <= now
    ensures Inv(cfg, CleanupExpired(cfg, w, now, faults).0, now)
  {
    InvLater(cfg, w, t, now);
    var gone := set a | a in ExpiredAccounts(w.policy, now);
    var trimmed := w.(cache := Forget(w.cache, gone));
    var cleaned := World(Unexpired(w.policy, now), w.accounts - (gone - faults.delete), trimmed.cache);
    UnexpiredIsFilter(w.policy, now);
    forall b | b in w.policy && IsTemp(b)
      ensures Sound(trimmed, b) && Guarded(trimmed, b, now)
      ensures b in cleaned.policy ==> Sound(cleaned, b) && Guarded(cleaned, b, now)
    {
      assert Sound(w, b) && Guarded(w, b, now);
      if !Expired(b, now) {
        KeptAccountsStay(cfg, w, now, b);
      }
    }
  }

  // ----- every run -----

  /** No cached grant has an empty account name. */
  predicate CacheNamed(w: World) {
    forall u :: u in w.cache ==> w.cache[u].account != ""
  }

  lemma GrantNamed(cfg: Config, email: string, stamp: nat)
    ensures Names.AccountEmail(Names.AccountId(email, stamp), cfg.project) != ""
    ensures Names.AccountEmail("dry-run-" + ReplaceAll(email, "@", "-at-"), cfg.project) != ""
  {
  }

  lemma CacheStaysNamed(cfg: Config, w: World, op: Op)
    requires CacheNamed(w)
    ensures CacheNamed(Apply(cfg, w, op))
  {
    match op
    case Lookup(e, _, f) => FoundInPolicyIsNamed(w.accounts, w.policy, e, f);
    case Revoke(e, _, f) => FoundInPolicyIsNamed(w.accounts, w.policy, e, f.lookup);
    case Grant(e, r, j, now, stamp, f) => GrantNamed(cfg, e, stamp);
    case _ =>
  }

  lemma StepKeeps(cfg: Config, w: World, t: Time, op: Op)
    requires Inv(cfg, w, t) && CacheNamed(w) && t <= op.now
    ensures Inv(cfg, Apply(cfg, w, op), op.now)
  {
    InvLater(cfg, w, t, op.now);
    match op
    case Grant(e, r, j, now, stamp, f) => GrantKeeps(cfg, w, t, e, r, j, now, stamp, f);
    case Lookup(e, _, f) => LookupKeeps(cfg, w, op.now, e, f);
    case Revoke(e, _, f) => RevokeKeeps(cfg, w, op.now, e, f);
    case Cleanup(now, f) => CleanupKeeps(cfg, w, t, now, f);
  }

  lemma {:induction false} RunKeeps(cfg: Config, w: World, t: Time, ops: seq<Op>)
    requires Inv(cfg, w, t) && CacheNamed(w) && Ordered(t, ops)
    ensures Inv(cfg, Run(cfg, w, ops), EndTime(t, ops))
    decreases |ops|
  {
    if ops != [] {
      StepKeeps(cfg, w, t, ops[0]);
      CacheStaysNamed(cfg, w, ops[0]);
      RunKeeps(cfg, Apply(cfg, w, ops[0]), ops[0].now, ops[1..]);
    }
  }

  lemma {:induction false} NoTempIsDistinct(policy: seq<Binding>)
    requires forall b :: b in policy ==> !IsTemp(b)
    ensures DistinctAccounts(policy)
  {
    if policy != [] {
      NoTempIsDistinct(policy[1..]);
    }
  }

  /**
   * From a policy without temporary bindings and an empty cache, whatever the
   * operations and whichever remote calls fail: bound accounts are live, an
   * active binding is cached under its owner, and no user owns two of them.
   */
  lemma EveryAtomicRunIsSafe(cfg: Config, w: World, t: Time, ops: seq<Op>)
    requires forall b :: b in w.policy ==> !IsTemp(b)
    requires w.cache == map[] && Ordered(t, ops)
    ensures var w', t' := Run(cfg, w, ops), EndTime(t, ops);
            BoundAccountsLive(w') && ActiveCached(w', t') && OneActivePerUser(w', t')
  {
    NoTempIsDistinct(w.policy);
    RunKeeps(cfg, w, t, ops);
    var w', t' := Run(cfg, w, ops), EndTime(t, ops);
    InvIsSafe(cfg, w', t');
  }

  lemma InvIsSafe(cfg: Config, w: World, t: Time)
    requires Inv(cfg, w, t)
    ensures BoundAccountsLive(w) && ActiveCached(w, t) && OneActivePerUser(w, t)
  {
    assert BoundAccountsLive(w);
    forall i, j | 0 <= i < |w.policy| && 0 <= j < |w.policy| && Active(w.policy[i], t) && Active(w.policy[j], t)
      && w.accounts[BoundAccount(w.policy[i])] == w.accounts[BoundAccount(w.policy[j])]
      ensures i == j
    {
      assert Sound(w, w.policy[i]) && Sound(w, w.policy[j]);
      DistinctUnique(w.policy, i, j);
    }
  }

  // ----- nothing else is touched -----

  function Foreign(policy: seq<Binding>): seq<Binding> {
    if policy == [] then []
    else (if IsTemp(policy[0]) then [] else [policy[0]]) + Foreign(policy[1..])
  }

  lemma {:induction false} ForeignConcat(p: seq<Binding>, q: seq<Binding>)
    ensures Foreign(p + q) == Foreign(p) + Foreign(q)
  {
    if p == [] {
      assert p + q == q;
    } else {
      assert (p + q)[1..] == p[1..] + q && (p + q)[0] == p[0];
      ForeignConcat(p[1..], q);
      var head := if IsTemp(p[0]) then [] else [p[0]];
      assert head + (Foreign(p[1..]) + Foreign(q)) == (head + Foreign(p[1..])) + Foreign(q);
    }
  }

  lemma {:induction false} ForeignRemove(policy: seq<Binding>, member: string)
    ensures Foreign(RemoveMember(policy, member)) == Foreign(policy)
  {
    if policy != [] {
      ForeignRemove(policy[1..], member);
      ForeignConcat(RemoveFrom(policy[0], member), RemoveMember(policy[1..], member));
      ForeignOfRemoved(policy[0], member);
    }
  }

  lemma ForeignOfRemoved(b: Binding, member: string)
    ensures Foreign(RemoveFrom(b, member)) == Foreign([b])
  {
    var r := RemoveFrom(b, member);
    if |r| == 1 {
      assert r[1..] == [] && [b][1..] == [];
    } else {
      assert Foreign([b][1..]) == [];
    }
  }

  lemma {:induction false} ForeignUnexpired(policy: seq<Binding>, now: Time)
    ensures Foreign(Unexpired(policy, now)) == Foreign(policy)
  {
    if policy != [] {
      ForeignUnexpired(policy[1..], now);
      var rest := Unexpired(policy[1..], now);
      if Expired(policy[0], now) {
        assert Unexpired(policy, now) == rest;
      } else {
        assert Unexpired(policy, now) == [policy[0]] + rest;
        assert ([policy[0]] + rest)[1..] == rest;
      }
    }
  }

  lemma ForeignGrant(cfg: Config, w: World, e: string, r: string, j: string, now: Time, stamp: nat, f: GrantFaults)
    ensures Foreign(GrantAccess(cfg, w, e, r, j, now, stamp, f).0.policy) == Foreign(w.policy)
  {
    var account := Names.AccountEmail(Names.AccountId(e, stamp), cfg.project);
    var nb := TempBinding(account, now + ACCESS_DURATION, j);
    ForeignConcat(w.policy, [nb]);
    assert Foreign([nb]) == Foreign([nb][1..]) == [];
  }

  lemma ForeignStep(cfg: Config, w: World, op: Op)
    ensures Foreign(Apply(cfg, w, op).policy) == Foreign(w.policy)
  {
    match op
    case Grant(e, r, j, now, stamp, f) => ForeignGrant(cfg, w, e, r, j, now, stamp, f);
    case Revoke(e, _, f) =>
      var w' := Apply(cfg, w, op);
      if w'.policy != w.policy {
        var account :| w'.policy == RemoveMember(w.policy, Member(account));
        ForeignRemove(w.policy, Member(account));
      }
    case Cleanup(now, f) => ForeignUnexpired(w.policy, now);
    case _ =>
  }

  /** Over every run the other bindings of the policy stay as they are, in order. */
  lemma {:induction false} ForeignBindingsSurvive(cfg: Config, w: World, ops: seq<Op>)
    ensures Foreign(Run(cfg, w, ops).policy) == Foreign(w.policy)
    decreases |ops|
  {
    if ops != [] {
      ForeignStep(cfg, w, ops[0]);
      ForeignBindingsSurvive(cfg, Apply(cfg, w, ops[0]), ops[1..]);
    }
  }

  // ----- exactly what a revoke and a cleanup remove -----

  datatype Entry = Entry(role: string, member: string, condition: Option<Condition>)

  function Filter<T>(s: seq<T>, keep: T -> bool): seq<T> {
    if s == [] then [] else (if keep(s[0]) then [s[0]] else []) + Filter(s[1..], keep)
  }

  function EntriesOf(b: Binding, members: seq<string>): seq<Entry> {
    if members == [] then []
    else [Entry(b.role, members[0], b.condition)] + EntriesOf(b, members[1..])
  }

  /** The memberships of a policy, in order. */
  function Entries(policy: seq<Binding>): seq<Entry> {
    if policy == [] then [] else EntriesOf(policy[0], policy[0].members) + Entries(policy[1..])
  }

  predicate TempEntry(e: Entry) {
    e.role == IAM_ROLE && e.condition.Some? && e.condition.value.title == TEMP_TITLE
  }

  /** Everything but the temporary memberships of `member`. */
  function NotTempOf(member: string): Entry -> bool {
    (e: Entry) => !(TempEntry(e) && e.member == member)
  }

  /** Everything but the temporary memberships that can be read to have expired. */
  function NotExpiredAt(now: Time): Entry -> bool {
    (e: Entry) => !(TempEntry(e) && e.condition.value.expression.ExpiresAt? && e.condition.value.expression.at < now)
  }

  lemma {:induction false} FilterConcat<T>(s: seq<T>, t: seq<T>, keep: T -> bool)
    ensures Filter(s + t, keep) == Filter(s, keep) + Filter(t, keep)
  {
    if s == [] {
      assert s + t == t;
    } else {
      assert (s + t)[1..] == s[1..] + t && (s + t)[0] == s[0];
      FilterConcat(s[1..], t, keep);
      var head := if keep(s[0]) then [s[0]] else [];
      assert head + (Filter(s[1..], keep) + Filter(t, keep)) == (head + Filter(s[1..], keep)) + Filter(t, keep);
    }
  }

  lemma {:induction false} FilterEntries(b: Binding, members: seq<string>, member: string)
    ensures Filter(EntriesOf(b, members), NotTempOf(member)) ==
            EntriesOf(b, if IsTemp(b) then Without(members, member) else members)
  {
    if members != [] {
      var head := Entry(b.role, members[0], b.condition);
      assert EntriesOf(b, members)[1..] == EntriesOf(b, members[1..]);
      FilterEntries(b, members[1..], member);
      if IsTemp(b) && members[0] == member {
        assert Without(members, member) == Without(members[1..], member);
      } else if IsTemp(b) {
        assert Without(members, member) == [members[0]] + Without(members[1..], member);
        assert Without(members, member)[1..] == Without(members[1..], member);
      }
    }
  }

  lemma {:induction false} WithoutOther(members: seq<string>, member: string)
    requires member !in members
    ensures Without(members, member) == members
  {
    if members != [] {
      WithoutOther(members[1..], member);
    }
  }

  lemma EntriesIgnoreMembers(b: Binding, c: Binding, members: seq<string>)
    requires b.role == c.role && b.condition == c.condition
    ensures EntriesOf(b, members) == EntriesOf(c, members)
  {
  }

  lemma EntriesOfRemoved(b: Binding, member: string)
    ensures Entries(RemoveFrom(b, member)) == Filter(EntriesOf(b, b.members), NotTempOf(member))
  {
    FilterEntries(b, b.members, member);
    if !Holds(b, member) {
      WithoutOther(if IsTemp(b) then b.members else [], member);
    } else {
      var kept := Without(b.members, member);
      EntriesIgnoreMembers(b, b.(members := kept), kept);
    }
    var r := RemoveFrom(b, member);
    if r != [] {
      assert r[1..] == [];
    }
  }

  lemma {:induction false} EntriesConcat(p: seq<Binding>, q: seq<Binding>)
    ensures Entries(p + q) == Entries(p) + Entries(q)
  {
    if p == [] {
      assert p + q == q;
    } else {
      assert (p + q)[1..] == p[1..] + q && (p + q)[0] == p[0];
      EntriesConcat(p[1..], q);
      var head := EntriesOf(p[0], p[0].members);
      assert head + (Entries(p[1..]) + Entries(q)) == (head + Entries(p[1..])) + Entries(q);
    }
  }

  /** A revoke takes out the account's temporary memberships and no others, keeping the order. */
  lemma {:induction false} RevokeRemovesExactly(policy: seq<Binding>, member: string)
    ensures Entries(RemoveMember(policy, member)) == Filter(Entries(policy), NotTempOf(member))
  {
    if policy != [] {
      RevokeRemovesExactly(policy[1..], member);
      EntriesConcat(RemoveFrom(policy[0], member), RemoveMember(policy[1..], member));
      EntriesOfRemoved(policy[0], member);
      FilterConcat(EntriesOf(policy[0], policy[0].members), Entries(policy[1..]), NotTempOf(member));
    }
  }

  /** Bindings it does not shrink stay whole, and no binding is left empty by it. */
  lemma {:induction false} RevokeKeepsBindings(policy: seq<Binding>, member: string)
    ensures forall b :: b in policy && !Holds(b, member) ==> b in RemoveMember(policy, member)
    ensures forall b :: b in RemoveMember(policy, member) ==>
              !Holds(b, member) && (b in policy || b.members != [])
  {
    if policy != [] {
      RevokeKeepsBindings(policy[1..], member);
      WithoutAbsent(policy[0].members, member);
      assert policy == [policy[0]] + policy[1..];
    }
  }

  lemma {:induction false} FilterAll(b: Binding, members: seq<string>, now: Time)
    ensures Filter(EntriesOf(b, members), NotExpiredAt(now)) == if Expired(b, now) then [] else EntriesOf(b, members)
  {
    if members != [] {
      assert EntriesOf(b, members)[1..] == EntriesOf(b, members[1..]);
      FilterAll(b, members[1..], now);
    }
  }

  /** A cleanup takes out the readably expired temporary memberships and no others. */
  lemma {:induction false} CleanupRemovesExactly(policy: seq<Binding>, now: Time)
    ensures Entries(Unexpired(policy, now)) == Filter(Entries(policy), NotExpiredAt(now))
  {
    if policy != [] {
      CleanupRemovesExactly(policy[1..], now);
      FilterAll(policy[0], policy[0].members, now);
      FilterConcat(EntriesOf(policy[0], policy[0].members), Entries(policy[1..]), NotExpiredAt(now));
      var rest := Unexpired(policy[1..], now);
      if Expired(policy[0], now) {
        assert Unexpired(policy, now) == rest;
      } else {
        assert Unexpired(policy, now) == [policy[0]] + rest;
        assert ([policy[0]] + rest)[1..] == rest;
      }
    }
  }
}
