/**
 * Whose account a user is given. The cache is keyed by user, but a lookup decides by
 * the account's name whose it is, so names have to decode to their owners. Here for
 * runs of whole operations; `AccessSplitOwnership` has the calls that give up the lock.
 */
module AccessOwnership {
  import opened Wrappers
  import opened AccessPolicy
  import opened AccessSafety
  import opened AccessEffects
  import Names = AccountNames

  /** Every cached account is live and was created for the user it is cached under. */
  predicate Owned(w: World) {
    forall u :: u in w.cache ==> w.cache[u].account in w.accounts && w.accounts[w.cache[u].account] == u
  }

  /** The same of the cached accounts that are still live. */
  predicate OwnedWhereLive(w: World) {
    forall u :: u in w.cache && w.cache[u].account in w.accounts ==> w.accounts[w.cache[u].account] == u
  }

  /** Among these users, no account name decodes to another user than its owner. */
  ghost predicate DecodesHome(cfg: Config, users: iset<string>) {
    forall a, b, stamp: nat | a in users && b in users :: Names.UserEmailOf(AccountFor(cfg, a, stamp)) == b ==> a == b
  }

  predicate FreshStart(w: World) {
    w.cache == map[] && forall b :: b in w.policy ==> !IsTemp(b)
  }

  ghost predicate ByUser(users: iset<string>, op: Op) {
    !op.Cleanup? ==> op.email in users
  }

  ghost predicate ByUsers(users: iset<string>, ops: seq<Op>) {
    forall op :: op in ops ==> ByUser(users, op)
  }

  // ----- the invariant -----

  ghost predicate Stamped(cfg: Config, account: string, owner: string) {
    exists stamp: nat :: account == AccountFor(cfg, owner, stamp)
  }

  /** The account was made for the user; if it is gone, the user still goes by its name. */
  ghost predicate Belongs(cfg: Config, w: World, user: string, account: string) {
    && Stamped(cfg, account, user)
    && (account in w.accounts ==> w.accounts[account] == user)
    && (account !in w.accounts ==> Recognizable(user, account))
  }

  /** Bound accounts carry the names of their owners, who are among the users. */
  ghost predicate Labelled(cfg: Config, users: iset<string>, w: World) {
    forall b :: b in w.policy && IsTemp(b) && Sound(w, b) ==>
      w.accounts[BoundAccount(b)] in users && Stamped(cfg, BoundAccount(b), w.accounts[BoundAccount(b)])
  }

  ghost predicate CacheHome(cfg: Config, users: iset<string>, w: World) {
    forall u :: u in w.cache ==> u in users && Belongs(cfg, w, u, w.cache[u].account)
  }

  ghost predicate Home(cfg: Config, users: iset<string>, w: World) {
    Shape(cfg, w) && Labelled(cfg, users, w) && CacheHome(cfg, users, w)
  }

  // ----- what a lookup finds -----

  lemma {:induction false} FoundIsMember(accounts: map<string, string>, members: seq<string>, expiration: Option<Time>,
                                         email: string, faults: LookupFaults)
    ensures var g := FindInMembers(accounts, members, expiration, email, faults);
            g.Some? ==>
              && Recognized(accounts, email, g.value.account, faults)
              && expiration == Some(g.value.expiresAt)
              && exists m :: m in members && AccountOf(m) == g.value.account
  {
    if members != [] {
      FoundIsMember(accounts, members[1..], expiration, email, faults);
      assert members[0] in members;
    }
  }

  /** The grant can be read from the binding. */
  ghost predicate Carries(b: Binding, g: AccessPolicy.Grant) {
    && IsTemp(b) && Expiration(b) == Some(g.expiresAt)
    && exists m :: m in b.members && AccountOf(m) == g.account
  }

  /** What a lookup finds is a member of a temporary binding that it takes for the user's. */
  lemma {:induction false} FoundIsBound(accounts: map<string, string>, policy: seq<Binding>, email: string,
                                        faults: LookupFaults)
    ensures var g := FindInPolicy(accounts, policy, email, faults);
            g.Some? ==>
              && Recognized(accounts, email, g.value.account, faults)
              && exists b :: b in policy && Carries(b, g.value)
  {
    if policy != [] {
      FoundIsBound(accounts, policy[1..], email, faults);
      assert policy[0] in policy;
      if IsTemp(policy[0]) {
        FoundIsMember(accounts, policy[0].members, Expiration(policy[0]), email, faults);
      }
    }
  }

  lemma RecognizedIsOwn(cfg: Config, users: iset<string>, account: string, owner: string, email: string)
    requires DecodesHome(cfg, users) && owner in users && email in users && Stamped(cfg, account, owner)
    requires Names.UserEmailOf(account) == email
    ensures owner == email
  {
    var stamp: nat :| account == AccountFor(cfg, owner, stamp);
  }

  lemma BoundMember(cfg: Config, users: iset<string>, w: World, b: Binding, member: string)
    requires Shape(cfg, w) && Labelled(cfg, users, w) && b in w.policy && IsTemp(b) && member in b.members
    ensures var account := AccountOf(member);
            account in w.accounts && w.accounts[account] in users && Stamped(cfg, account, w.accounts[account])
  {
    assert Sound(w, b);
    assert BoundAccount(b) == AccountOf(member);
  }

  /** Among users whose names decode home, a lookup finds the user's own account. */
  lemma FoundIsOwn(cfg: Config, users: iset<string>, w: World, email: string, faults: LookupFaults)
    requires Shape(cfg, w) && Labelled(cfg, users, w) && DecodesHome(cfg, users) && email in users
    ensures var g := FindInPolicy(w.accounts, w.policy, email, faults);
            g.Some? ==>
              && g.value.account in w.accounts && Belongs(cfg, w, email, g.value.account)
              && Recognizable(email, g.value.account)
  {
    var g := FindInPolicy(w.accounts, w.policy, email, faults);
    FoundIsBound(w.accounts, w.policy, email, faults);
    if g.Some? {
      var account := g.value.account;
      var b :| b in w.policy && Carries(b, g.value);
      var m :| m in b.members && AccountOf(m) == account;
      BoundMember(cfg, users, w, b, m);
      if Names.UserEmailOf(account) == email {
        RecognizedIsOwn(cfg, users, account, w.accounts[account], email);
      }
    }
  }

  // ----- every operation keeps it -----

  /** The grant does not bring back the name of a deleted account another user is cached with. */
  predicate NoClash(cfg: Config, w: World, email: string, stamp: nat) {
    var account := AccountFor(cfg, email, stamp);
    account in w.accounts || forall u :: u in w.cache && w.cache[u].account == account ==> u == email
  }

  lemma HomeCreate(cfg: Config, users: iset<string>, w: World, email: string, stamp: nat)
    requires Home(cfg, users, w) && NoClash(cfg, w, email, stamp) && AccountFor(cfg, email, stamp) !in w.accounts
    ensures Home(cfg, users, w.(accounts := w.accounts[AccountFor(cfg, email, stamp) := email]))
  {
    var account := AccountFor(cfg, email, stamp);
    var w' := w.(accounts := w.accounts[account := email]);
    forall b | b in w.policy && IsTemp(b)
      ensures Sound(w', b) && w'.accounts[BoundAccount(b)] in users
      ensures Stamped(cfg, BoundAccount(b), w'.accounts[BoundAccount(b)])
    {
      assert Sound(w, b);
    }
  }

  lemma ShapeBind(cfg: Config, w: World, account: string, expiresAt: Time, why: string)
    requires Shape(cfg, w) && !cfg.dryRun && account in w.accounts && account != ""
    requires forall b :: b in w.policy ==> !Holds(b, Member(account))
    ensures Shape(cfg, w.(policy := w.policy + [TempBinding(account, expiresAt, why)]))
  {
    var nb := TempBinding(account, expiresAt, why);
    var w' := w.(policy := w.policy + [nb]);
    MemberRoundTrip(account);
    forall b | b in w.policy && IsTemp(b) ensures Sound(w', b) && b.members != nb.members {
      assert Sound(w, b) && !Holds(b, Member(account));
    }
    assert Sound(w', nb);
    DistinctAppend(w.policy, nb);
  }

  lemma HomeBind(cfg: Config, users: iset<string>, w: World, email: string, account: string, expiresAt: Time,
                 why: string)
    requires Home(cfg, users, w) && !cfg.dryRun && email in users && Stamped(cfg, account, email)
    requires account in w.accounts && w.accounts[account] == email && account != ""
    requires forall b :: b in w.policy ==> !Holds(b, Member(account))
    ensures Home(cfg, users, w.(policy := w.policy + [TempBinding(account, expiresAt, why)]))
  {
    var nb := TempBinding(account, expiresAt, why);
    var w' := w.(policy := w.policy + [nb]);
    ShapeBind(cfg, w, account, expiresAt, why);
    MemberRoundTrip(account);
    forall b | b in w'.policy && IsTemp(b) && Sound(w', b)
      ensures w'.accounts[BoundAccount(b)] in users && Stamped(cfg, BoundAccount(b), w'.accounts[BoundAccount(b)])
    {
      if b in w.policy {
        assert Sound(w, b);
      } else {
        assert BoundAccount(b) == account;
      }
    }
  }

  /** Changing the cache leaves the rest of the invariant alone. */
  lemma CacheChange(cfg: Config, users: iset<string>, w: World, cache: map<string, AccessPolicy.Grant>)
    requires Shape(cfg, w) && Labelled(cfg, users, w)
    ensures Shape(cfg, w.(cache := cache)) && Labelled(cfg, users, w.(cache := cache))
  {
    var w' := w.(cache := cache);
    forall b | b in w.policy && IsTemp(b) ensures Sound(w', b) {
      assert Sound(w, b);
    }
  }

  lemma HomeStore(cfg: Config, users: iset<string>, w: World, email: string, grant: AccessPolicy.Grant)
    requires Home(cfg, users, w) && email in users && Belongs(cfg, w, email, grant.account)
    ensures Home(cfg, users, w.(cache := w.cache[email := grant]))
  {
    var w' := w.(cache := w.cache[email := grant]);
    CacheChange(cfg, users, w, w'.cache);
    forall u | u in w'.cache ensures u in users && Belongs(cfg, w', u, w'.cache[u].account) {
      assert u != email ==> Belongs(cfg, w, u, w.cache[u].account);
    }
  }

  lemma HomeForget(cfg: Config, users: iset<string>, w: World, email: string)
    requires Home(cfg, users, w)
    ensures Home(cfg, users, w.(cache := w.cache - {email}))
  {
    var w' := w.(cache := w.cache - {email});
    CacheChange(cfg, users, w, w'.cache);
    forall u | u in w'.cache ensures u in users && Belongs(cfg, w', u, w'.cache[u].account) {
      assert Belongs(cfg, w, u, w.cache[u].account);
    }
  }

  /** An account that is not live is bound nowhere. */
  lemma DeadIsUnbound(cfg: Config, w: World, account: string, b: Binding)
    requires Shape(cfg, w) && account !in w.accounts && b in w.policy
    ensures !Holds(b, Member(account))
  {
    MemberRoundTrip(account);
    if IsTemp(b) {
      assert Sound(w, b);
    }
  }

  lemma HomeGranted(cfg: Config, users: iset<string>, w: World, email: string, stamp: nat, why: string,
                    grant: AccessPolicy.Grant)
    requires Home(cfg, users, w) && !cfg.dryRun && email in users && NoClash(cfg, w, email, stamp)
    requires grant.account == AccountFor(cfg, email, stamp) && grant.account !in w.accounts
    ensures Home(cfg, users, World(w.policy + [TempBinding(grant.account, grant.expiresAt, why)],
                                   w.accounts[grant.account := email], w.cache[email := grant]))
  {
    var w1 := w.(accounts := w.accounts[grant.account := email]);
    HomeCreate(cfg, users, w, email, stamp);
    EmailNotEmpty(Names.AccountId(email, stamp), cfg.project);
    forall b | b in w.policy ensures !Holds(b, Member(grant.account)) {
      DeadIsUnbound(cfg, w, grant.account, b);
    }
    assert Stamped(cfg, grant.account, email);
    HomeBind(cfg, users, w1, email, grant.account, grant.expiresAt, why);
    var w2 := w1.(policy := w1.policy + [TempBinding(grant.account, grant.expiresAt, why)]);
    HomeStore(cfg, users, w2, email, grant);
  }

  lemma HomeGrant(cfg: Config, users: iset<string>, w: World, email: string, r: string, why: string, now: Time,
                  stamp: nat, f: GrantFaults)
    requires Home(cfg, users, w) && !cfg.dryRun && email in users && NoClash(cfg, w, email, stamp)
    ensures Home(cfg, users, GrantAccess(cfg, w, email, r, why, now, stamp, f).0)
  {
    var account := AccountFor(cfg, email, stamp);
    if account !in w.accounts {
      assert w.accounts[account := email] - {account} == w.accounts;
      HomeCreate(cfg, users, w, email, stamp);
      HomeGranted(cfg, users, w, email, stamp, why,
                  AccessPolicy.Grant(email, now, now + ACCESS_DURATION, r, why, account));
    }
  }

  lemma OwnedGrant(cfg: Config, w: World, email: string, r: string, why: string, now: Time, stamp: nat, f: GrantFaults)
    requires Owned(w) && !cfg.dryRun
    ensures Owned(GrantAccess(cfg, w, email, r, why, now, stamp, f).0)
  {
  }

  lemma ShapeRemoval(cfg: Config, w: World, email: string, account: string, faults: RevokeFaults)
    requires Shape(cfg, w)
    ensures Shape(cfg, RevokeAccount(cfg, w, email, account, faults).0)
  {
    var w' := RevokeAccount(cfg, w, email, account, faults).0;
    MemberRoundTrip(account);
    RemoveIsFilter(w.policy, Member(account));
    forall b | b in w'.policy && IsTemp(b) ensures Sound(w', b) {
      assert Sound(w, b);
      assert w'.policy != w.policy ==> !Holds(b, Member(account));
    }
  }

  lemma LabelledRemoval(cfg: Config, users: iset<string>, w: World, email: string, account: string,
                        faults: RevokeFaults)
    requires Shape(cfg, w) && Labelled(cfg, users, w)
    ensures Labelled(cfg, users, RevokeAccount(cfg, w, email, account, faults).0)
  {
    var w' := RevokeAccount(cfg, w, email, account, faults).0;
    RemoveIsFilter(w.policy, Member(account));
    forall b | b in w'.policy && IsTemp(b) && Sound(w', b)
      ensures w'.accounts[BoundAccount(b)] in users && Stamped(cfg, BoundAccount(b), w'.accounts[BoundAccount(b)])
    {
      assert Sound(w, b);
    }
  }

  /** A removed account was nobody else's. */
  lemma CacheRemoval(cfg: Config, users: iset<string>, w: World, email: string, account: string, faults: RevokeFaults)
    requires CacheHome(cfg, users, w) && Belongs(cfg, w, email, account)
    ensures var w' := RevokeAccount(cfg, w, email, account, faults).0;
            CacheHome(cfg, users, w') && (Owned(w) ==> Owned(w'))
  {
    var w' := RevokeAccount(cfg, w, email, account, faults).0;
    forall u | u in w'.cache ensures u in users && Belongs(cfg, w', u, w'.cache[u].account) {
      assert Belongs(cfg, w, u, w.cache[u].account);
    }
  }

  lemma HomeRemoval(cfg: Config, users: iset<string>, w: World, email: string, account: string, faults: RevokeFaults)
    requires Home(cfg, users, w) && Belongs(cfg, w, email, account)
    ensures var w' := RevokeAccount(cfg, w, email, account, faults).0;
            Home(cfg, users, w') && (Owned(w) ==> Owned(w'))
  {
    ShapeRemoval(cfg, w, email, account, faults);
    LabelledRemoval(cfg, users, w, email, account, faults);
    CacheRemoval(cfg, users, w, email, account, faults);
  }

  /** What a revoke goes by. */
  function FoundFor(w: World, email: string, faults: LookupFaults): Option<AccessPolicy.Grant> {
    if email in w.cache then Some(w.cache[email])
    else if faults.getPolicy then None
    else FindInPolicy(w.accounts, w.policy, email, faults)
  }

  lemma RevokeByFound(cfg: Config, w: World, email: string, faults: RevokeFaults)
    requires cfg.enabled && (email in w.cache ==> w.cache[email].account != "")
    ensures var found := FoundFor(w, email, faults.lookup);
            RevokeAccess(cfg, w, email, faults).0 ==
              if found.None? then w.(cache := w.cache - {email})
              else RevokeAccount(cfg, w.(cache := w.cache[email := found.value]), email, found.value.account, faults).0
  {
  }

  lemma FoundForBelongs(cfg: Config, users: iset<string>, w: World, email: string, faults: LookupFaults)
    requires Home(cfg, users, w) && DecodesHome(cfg, users) && email in users
    ensures var found := FoundFor(w, email, faults);
            found.Some? ==>
              && Belongs(cfg, w, email, found.value.account)
              && (Owned(w) ==> found.value.account in w.accounts)
  {
    FoundIsOwn(cfg, users, w, email, faults);
  }

  lemma HomeStoreRemoval(cfg: Config, users: iset<string>, w: World, email: string, grant: AccessPolicy.Grant,
                         faults: RevokeFaults)
    requires Home(cfg, users, w) && email in users && Belongs(cfg, w, email, grant.account)
    ensures var w' := RevokeAccount(cfg, w.(cache := w.cache[email := grant]), email, grant.account, faults).0;
            Home(cfg, users, w') && (Owned(w) && grant.account in w.accounts ==> Owned(w'))
  {
    var w1 := w.(cache := w.cache[email := grant]);
    HomeStore(cfg, users, w, email, grant);
    assert Belongs(cfg, w1, email, grant.account);
    HomeRemoval(cfg, users, w1, email, grant.account, faults);
  }

  lemma HomeRevoke(cfg: Config, users: iset<string>, w: World, email: string, faults: RevokeFaults)
    requires Home(cfg, users, w) && DecodesHome(cfg, users) && email in users
    ensures var w' := RevokeAccess(cfg, w, email, faults).0;
            Home(cfg, users, w') && (Owned(w) ==> Owned(w'))
  {
    if cfg.enabled {
      var found := FoundFor(w, email, faults.lookup);
      FoundForBelongs(cfg, users, w, email, faults.lookup);
      if email in w.cache {
        NotEmpty(cfg, email, w.cache[email].account);
      }
      RevokeByFound(cfg, w, email, faults);
      if found.None? {
        HomeForget(cfg, users, w, email);
      } else {
        HomeStoreRemoval(cfg, users, w, email, found.value, faults);
      }
    }
  }

  lemma NotEmpty(cfg: Config, user: string, account: string)
    requires Stamped(cfg, account, user)
    ensures account != ""
  {
    var stamp: nat :| account == AccountFor(cfg, user, stamp);
    EmailNotEmpty(Names.AccountId(user, stamp), cfg.project);
  }

  lemma ShapeCleanup(cfg: Config, w: World, now: Time, faults: CleanupFaults)
    requires Shape(cfg, w)
    ensures Shape(cfg, CleanupExpired(cfg, w, now, faults).0)
  {
    var w' := CleanupExpired(cfg, w, now, faults).0;
    UnexpiredIsFilter(w.policy, now);
    forall b | b in w'.policy && IsTemp(b) ensures Sound(w', b) {
      assert Sound(w, b);
      if !Expired(b, now) {
        KeptAccountsStay(cfg, w, now, b);
      }
    }
  }

  lemma HomeCleanup(cfg: Config, users: iset<string>, w: World, now: Time, faults: CleanupFaults)
    requires Home(cfg, users, w)
    ensures var w' := CleanupExpired(cfg, w, now, faults).0;
            Home(cfg, users, w') && (Owned(w) ==> Owned(w'))
  {
    var w' := CleanupExpired(cfg, w, now, faults).0;
    ShapeCleanup(cfg, w, now, faults);
    UnexpiredIsFilter(w.policy, now);
    forall b | b in w'.policy && IsTemp(b) && Sound(w', b)
      ensures w'.accounts[BoundAccount(b)] in users && Stamped(cfg, BoundAccount(b), w'.accounts[BoundAccount(b)])
    {
      assert Sound(w, b);
    }
    forall u | u in w'.cache ensures u in users && Belongs(cfg, w', u, w'.cache[u].account) {
      assert Belongs(cfg, w, u, w.cache[u].account);
    }
  }

  lemma HomeLookup(cfg: Config, users: iset<string>, w: World, email: string, faults: LookupFaults)
    requires Home(cfg, users, w) && DecodesHome(cfg, users) && email in users
    ensures var w' := GetUserGrant(cfg, w, email, faults).0;
            Home(cfg, users, w') && (Owned(w) ==> Owned(w'))
  {
    var found := FindInPolicy(w.accounts, w.policy, email, faults);
    FoundIsOwn(cfg, users, w, email, faults);
    if found.Some? {
      HomeStore(cfg, users, w, email, found.value);
    }
  }

  lemma HomeStep(cfg: Config, users: iset<string>, w: World, op: Op)
    requires Home(cfg, users, w) && DecodesHome(cfg, users) && !cfg.dryRun && ByUser(users, op)
    requires op.Grant? ==> NoClash(cfg, w, op.email, op.stamp)
    ensures var w' := Apply(cfg, w, op); Home(cfg, users, w') && (Owned(w) ==> Owned(w'))
  {
    match op
    case Grant(e, r, j, now, stamp, f) =>
      HomeGrant(cfg, users, w, e, r, j, now, stamp, f);
      if Owned(w) {
        OwnedGrant(cfg, w, e, r, j, now, stamp, f);
      }
    case Lookup(e, _, f) => HomeLookup(cfg, users, w, e, f);
    case Revoke(e, _, f) => HomeRevoke(cfg, users, w, e, f);
    case Cleanup(now, f) => HomeCleanup(cfg, users, w, now, f);
  }

  lemma {:induction false} OwnedRun(cfg: Config, users: iset<string>, w: World, ops: seq<Op>)
    requires Home(cfg, users, w) && Owned(w) && DecodesHome(cfg, users) && !cfg.dryRun && ByUsers(users, ops)
    ensures Home(cfg, users, Run(cfg, w, ops)) && Owned(Run(cfg, w, ops))
    decreases |ops|
  {
    if ops != [] {
      assert ops[0] in ops;
      HomeStep(cfg, users, w, ops[0]);
      OwnedRun(cfg, users, Apply(cfg, w, ops[0]), ops[1..]);
    }
  }

  lemma FreshIsHome(cfg: Config, users: iset<string>, w: World)
    requires FreshStart(w)
    ensures Home(cfg, users, w) && Owned(w)
  {
    NoTempIsDistinct(w.policy);
  }

  // ----- exactly when every user gets an account of their own -----

  ghost predicate AlwaysOwned(cfg: Config, users: iset<string>) {
    forall w, t, ops | FreshStart(w) && Ordered(t, ops) && ByUsers(users, ops) :: Owned(Run(cfg, w, ops))
  }

  const NO_LOOKUP_FAULTS := LookupFaults(false, {})

  lemma LookupFinds(cfg: Config, w: World, a: string, b: string, account: string, ends: Time)
    requires cfg.enabled && account != "" && Names.UserEmailOf(account) == b && a != b && b !in w.cache
    requires w.policy == [TempBinding(account, ends, "")] && w.accounts == map[account := a]
    ensures !OwnedWhereLive(Apply(cfg, w, Lookup(b, 0, NO_LOOKUP_FAULTS)))
  {
    FindSingle(w.accounts, account, ends, "", b, NO_LOOKUP_FAULTS);
    var w' := Apply(cfg, w, Lookup(b, 0, NO_LOOKUP_FAULTS));
    assert b in w'.cache && w'.cache[b].account == account && w'.accounts[account] == a;
  }

  /** A grant for `a` and a lookup for `b`, who is taken for the owner of the account. */
  lemma LookupTakesAccount(cfg: Config, a: string, b: string, stamp: nat)
    requires cfg.enabled && !cfg.dryRun && a != b
    requires Names.UserEmailOf(AccountFor(cfg, a, stamp)) == b
    ensures var w := Apply(cfg, NOBODY, Op.Grant(a, "", "", 0, stamp, NO_FAULTS));
            !OwnedWhereLive(Apply(cfg, w, Lookup(b, 0, NO_LOOKUP_FAULTS)))
  {
    var account := AccountFor(cfg, a, stamp);
    var w := Apply(cfg, NOBODY, Op.Grant(a, "", "", 0, stamp, NO_FAULTS));
    GrantedWorld(cfg, NOBODY, a, "", "", 0, stamp);
    EmailNotEmpty(Names.AccountId(a, stamp), cfg.project);
    assert [] + [TempBinding(account, 0 + ACCESS_DURATION, "")] == [TempBinding(account, 0 + ACCESS_DURATION, "")];
    LookupFinds(cfg, w, a, b, account, 0 + ACCESS_DURATION);
  }

  lemma TwoSteps(cfg: Config, users: iset<string>, x: Op, y: Op)
    requires 0 <= x.now <= y.now && ByUsers(users, [x, y])
    requires !Owned(Apply(cfg, Apply(cfg, NOBODY, x), y))
    ensures !AlwaysOwned(cfg, users)
  {
    assert [x, y][1..] == [y] && [y][1..] == [];
    assert Ordered(x.now, [y]) && Ordered(y.now, []);
    assert Run(cfg, Apply(cfg, NOBODY, x), [y]) == Run(cfg, Apply(cfg, Apply(cfg, NOBODY, x), y), []);
    assert Ordered(0, [x, y]) && FreshStart(NOBODY) && !Owned(Run(cfg, NOBODY, [x, y]));
  }

  lemma SharedByName(cfg: Config, users: iset<string>, a: string, b: string, stamp: nat)
    requires cfg.enabled && !cfg.dryRun && a in users && b in users && a != b
    requires Names.UserEmailOf(AccountFor(cfg, a, stamp)) == b
    ensures !AlwaysOwned(cfg, users)
  {
    LookupTakesAccount(cfg, a, b, stamp);
    TwoSteps(cfg, users, Op.Grant(a, "", "", 0, stamp, NO_FAULTS), Lookup(b, 0, NO_LOOKUP_FAULTS));
  }

  /**
   * In every run of whole operations by these users each cached account is live and the
   * user's own, if and only if no account name of one of them decodes to another.
   */
  lemma OwnedIff(cfg: Config, users: iset<string>)
    requires cfg.enabled && !cfg.dryRun
    ensures AlwaysOwned(cfg, users) <==> DecodesHome(cfg, users)
  {
    if DecodesHome(cfg, users) {
      forall w, t, ops | FreshStart(w) && Ordered(t, ops) && ByUsers(users, ops) ensures Owned(Run(cfg, w, ops)) {
        FreshIsHome(cfg, users, w);
        OwnedRun(cfg, users, w, ops);
      }
    } else {
      var a, b, stamp: nat :| a in users && b in users && Names.UserEmailOf(AccountFor(cfg, a, stamp)) == b && a != b;
      SharedByName(cfg, users, a, b, stamp);
    }
  }

  // ----- users whose names do decode home, and users whose names do not -----

  /** Lower-case ASCII names that are short and reversible, at `redhat.com`. */
  ghost predicate HomeName(name: string) {
    && '@' !in name && Names.NoUpper(name) && Names.Reversible(name)
    && (forall c :: c in name ==> c as int < 128)
    && !Names.NeedsDisplayNameFallback(Names.RedHatEmail(name))
  }

  ghost function HomeUsers(): iset<string> {
    iset name | HomeName(name) :: Names.RedHatEmail(name)
  }

  lemma NameDecodesHome(cfg: Config, name: string, stamp: nat, b: string)
    requires '@' !in cfg.project && HomeName(name) && b != ""
    requires Names.UserEmailOf(AccountFor(cfg, Names.RedHatEmail(name), stamp)) == b
    ensures Names.RedHatEmail(name) == b
  {
    if 1_000_000_000 <= stamp < 10_000_000_000 {
      Names.AccountNameRoundTrip(name, stamp, cfg.project);
    } else {
      Names.OddTimeDecodesToNobody(name, stamp, cfg.project);
    }
  }

  /** All such users get accounts of their own in every run of whole operations. */
  lemma HomeUsersOwn(cfg: Config)
    requires cfg.enabled && !cfg.dryRun && '@' !in cfg.project
    ensures AlwaysOwned(cfg, HomeUsers())
  {
    var users := HomeUsers();
    forall a, b, stamp: nat | a in users && b in users && Names.UserEmailOf(AccountFor(cfg, a, stamp)) == b
      ensures a == b
    {
      var name :| HomeName(name) && a == Names.RedHatEmail(name);
      var other :| HomeName(other) && b == Names.RedHatEmail(other);
      NameDecodesHome(cfg, name, stamp, b);
    }
    OwnedIff(cfg, users);
  }

  /** Users of the same name in another domain are not told apart. */
  lemma OtherDomainShares(cfg: Config, users: iset<string>, name: string, domain: string)
    requires cfg.enabled && !cfg.dryRun && '@' !in cfg.project
    requires HomeName(name) && '@' !in domain && domain != Names.DOMAIN
    requires name + "@" + domain in users && Names.RedHatEmail(name) in users
    ensures !AlwaysOwned(cfg, users)
  {
    var a := name + "@" + domain;
    var stamp := 1_000_000_000;
    Names.DomainIgnored(name, domain, stamp);
    Names.AccountNameRoundTrip(name, stamp, cfg.project);
    assert a != Names.RedHatEmail(name) by {
      assert a[|name| + 1..] == domain && Names.RedHatEmail(name)[|name| + 1..] == Names.DOMAIN;
    }
    SharedByName(cfg, users, a, Names.RedHatEmail(name), stamp);
  }
}
