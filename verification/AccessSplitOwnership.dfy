/**
 * Whose account a user is given when lookups and revokes give up the lock: a call may
 * then cache an account that has been deleted meanwhile.
 */
module AccessSplitOwnership {
  import opened Wrappers
  import opened AccessPolicy
  import opened AccessSafety
  import opened AccessEffects
  import opened AccessSplit
  import opened AccessOwnership
  import opened AccessRaces
  import Names = AccountNames

  /** No account name of one user can be made for another, unless no scan takes it for the first one's. */
  ghost predicate TellsApart(cfg: Config, users: iset<string>) {
    forall a, b, s: nat, s2: nat | a in users && b in users && AccountFor(cfg, a, s) == AccountFor(cfg, b, s2) ::
      Recognizable(a, AccountFor(cfg, a, s)) ==> a == b
  }

  ghost predicate SplitByUser(users: iset<string>, op: SplitOp) {
    (op.Whole? ==> ByUser(users, op.op)) && (op.Miss? ==> op.email in users)
  }

  ghost predicate SplitByUsers(users: iset<string>, ops: seq<SplitOp>) {
    forall op :: op in ops ==> SplitByUser(users, op)
  }

  // ----- the invariant -----

  ghost predicate ReadHome(cfg: Config, users: iset<string>, w: World, p: Pending) {
    && p.email in users
    && (p.Read? && p.found.Some? ==>
          Belongs(cfg, w, p.email, p.found.value.account) && Recognizable(p.email, p.found.value.account))
  }

  ghost predicate SplitHome(cfg: Config, users: iset<string>, s: Shared) {
    Home(cfg, users, s.world) && forall c :: c in s.pending ==> ReadHome(cfg, users, s.world, s.pending[c])
  }

  /** Where the live accounts after an operation come from. */
  lemma AccountsFrom(cfg: Config, w: World, op: Op, a: string)
    requires !cfg.dryRun && a in Apply(cfg, w, op).accounts
    ensures || (a in w.accounts && Apply(cfg, w, op).accounts[a] == w.accounts[a])
            || (op.Grant? && a == AccountFor(cfg, op.email, op.stamp) && Apply(cfg, w, op).accounts[a] == op.email)
  {
  }

  lemma SameOwner(cfg: Config, users: iset<string>, account: string, u: string, v: string, stamp: nat)
    requires TellsApart(cfg, users) && u in users && v in users
    requires Stamped(cfg, account, u) && Recognizable(u, account) && account == AccountFor(cfg, v, stamp)
    ensures u == v
  {
    var s: nat :| account == AccountFor(cfg, u, s);
  }

  lemma ApartMeansNoClash(cfg: Config, users: iset<string>, w: World, email: string, stamp: nat)
    requires CacheHome(cfg, users, w) && TellsApart(cfg, users) && email in users
    ensures NoClash(cfg, w, email, stamp)
  {
    var account := AccountFor(cfg, email, stamp);
    if account !in w.accounts {
      forall u | u in w.cache && w.cache[u].account == account ensures u == email {
        assert Belongs(cfg, w, u, w.cache[u].account);
        SameOwner(cfg, users, account, u, email, stamp);
      }
    }
  }

  /** What a call has read stays the user's through any operation. */
  lemma ReadStaysHome(cfg: Config, users: iset<string>, w: World, op: Op, p: Pending)
    requires ReadHome(cfg, users, w, p) && TellsApart(cfg, users) && !cfg.dryRun && ByUser(users, op)
    ensures ReadHome(cfg, users, Apply(cfg, w, op), p)
  {
    var w' := Apply(cfg, w, op);
    if p.Read? && p.found.Some? && p.found.value.account in w'.accounts {
      var a := p.found.value.account;
      AccountsFrom(cfg, w, op, a);
      if !(a in w.accounts && w'.accounts[a] == w.accounts[a]) {
        SameOwner(cfg, users, a, p.email, op.email, op.stamp);
      }
    }
  }

  /** Fewer accounts leave it the user's as well. */
  lemma ReadSurvivesDeletion(cfg: Config, users: iset<string>, w: World, w': World, p: Pending)
    requires ReadHome(cfg, users, w, p)
    requires forall a :: a in w'.accounts ==> a in w.accounts && w'.accounts[a] == w.accounts[a]
    ensures ReadHome(cfg, users, w', p)
  {
  }

  lemma FinishHome(cfg: Config, users: iset<string>, w: World, p: Pending, faults: RevokeFaults)
    requires Home(cfg, users, w) && p.Read? && ReadHome(cfg, users, w, p)
    ensures Home(cfg, users, FinishCall(cfg, w, p.email, p.revoking, p.found, faults))
  {
    if p.found.None? {
      HomeForget(cfg, users, w, p.email);
    } else {
      HomeStore(cfg, users, w, p.email, p.found.value);
      HomeStoreRemoval(cfg, users, w, p.email, p.found.value, faults);
    }
  }

  lemma WholeStepHome(cfg: Config, users: iset<string>, s: Shared, op: Op)
    requires SplitHome(cfg, users, s) && DecodesHome(cfg, users) && TellsApart(cfg, users)
    requires cfg.enabled && !cfg.dryRun && ByUser(users, op)
    ensures SplitHome(cfg, users, Step(cfg, s, Whole(op)))
  {
    if op.Grant? {
      ApartMeansNoClash(cfg, users, s.world, op.email, op.stamp);
    }
    HomeStep(cfg, users, s.world, op);
    forall c | c in s.pending ensures ReadHome(cfg, users, Apply(cfg, s.world, op), s.pending[c]) {
      ReadStaysHome(cfg, users, s.world, op, s.pending[c]);
    }
  }

  lemma ReadStepHome(cfg: Config, users: iset<string>, s: Shared, call: nat, at: Time, faults: LookupFaults)
    requires SplitHome(cfg, users, s) && DecodesHome(cfg, users)
    ensures SplitHome(cfg, users, Step(cfg, s, ReadPolicy(call, at, faults)))
  {
    if call in s.pending {
      FoundIsOwn(cfg, users, s.world, s.pending[call].email, faults);
    }
  }

  lemma FinishStepHome(cfg: Config, users: iset<string>, s: Shared, call: nat, at: Time, faults: RevokeFaults)
    requires SplitHome(cfg, users, s)
    ensures SplitHome(cfg, users, Step(cfg, s, Finish(call, at, faults)))
  {
    if cfg.enabled && call in s.pending && s.pending[call].Read? {
      var p := s.pending[call];
      var w' := FinishCall(cfg, s.world, p.email, p.revoking, p.found, faults);
      FinishHome(cfg, users, s.world, p, faults);
      forall c | c in s.pending ensures ReadHome(cfg, users, w', s.pending[c]) {
        ReadSurvivesDeletion(cfg, users, s.world, w', s.pending[c]);
      }
    }
  }

  lemma SplitHomeStep(cfg: Config, users: iset<string>, s: Shared, op: SplitOp)
    requires SplitHome(cfg, users, s) && DecodesHome(cfg, users) && TellsApart(cfg, users)
    requires !cfg.dryRun && SplitByUser(users, op)
    ensures SplitHome(cfg, users, Step(cfg, s, op))
  {
    if cfg.enabled {
      match op
      case Whole(o) => WholeStepHome(cfg, users, s, o);
      case ReadPolicy(c, at, f) => ReadStepHome(cfg, users, s, c, at, f);
      case Finish(c, at, f) => FinishStepHome(cfg, users, s, c, at, f);
      case Miss(_, _, _, _) =>
    }
  }

  lemma {:induction false} SplitHomeRun(cfg: Config, users: iset<string>, s: Shared, ops: seq<SplitOp>)
    requires SplitHome(cfg, users, s) && DecodesHome(cfg, users) && TellsApart(cfg, users)
    requires !cfg.dryRun && SplitByUsers(users, ops)
    ensures SplitHome(cfg, users, SplitRun(cfg, s, ops))
    decreases |ops|
  {
    if ops != [] {
      assert ops[0] in ops;
      SplitHomeStep(cfg, users, s, ops[0]);
      SplitHomeRun(cfg, users, Step(cfg, s, ops[0]), ops[1..]);
    }
  }

  lemma HomeIsOwnedWhereLive(cfg: Config, users: iset<string>, w: World)
    requires Home(cfg, users, w)
    ensures OwnedWhereLive(w)
  {
    forall u | u in w.cache && w.cache[u].account in w.accounts ensures w.accounts[w.cache[u].account] == u {
      assert Belongs(cfg, w, u, w.cache[u].account);
    }
  }

  // ----- exactly when a run keeps the cached accounts live -----

  /** The call leaves what it found in the cache. */
  predicate Stores(cfg: Config, w: World, p: Pending, faults: RevokeFaults) {
    && p.Read? && p.found.Some?
    && (p.revoking ==> !cfg.dryRun && !Completes(w, p.found.value.account, faults))
  }

  /** Whatever a finishing call leaves in the cache is still live then. */
  predicate StoresLive(cfg: Config, s: Shared, op: SplitOp) {
    op.Finish? && op.call in s.pending && Stores(cfg, s.world, s.pending[op.call], op.revokeFaults) ==>
      s.pending[op.call].found.value.account in s.world.accounts
  }

  predicate AlwaysStoresLive(cfg: Config, s: Shared, ops: seq<SplitOp>)
    decreases |ops|
  {
    ops != [] ==> StoresLive(cfg, s, ops[0]) && AlwaysStoresLive(cfg, Step(cfg, s, ops[0]), ops[1..])
  }

  /** Every cached account is live and its user's own, now and after each step. */
  predicate OwnedAlong(cfg: Config, s: Shared, ops: seq<SplitOp>)
    decreases |ops|
  {
    Owned(s.world) && (ops != [] ==> OwnedAlong(cfg, Step(cfg, s, ops[0]), ops[1..]))
  }

  lemma StoreOwnedIff(w: World, email: string, grant: AccessPolicy.Grant)
    requires Owned(w) && (grant.account in w.accounts ==> w.accounts[grant.account] == email)
    ensures Owned(w.(cache := w.cache[email := grant])) <==> grant.account in w.accounts
  {
    var w' := w.(cache := w.cache[email := grant]);
    assert email in w'.cache && w'.cache[email] == grant;
  }

  /** A call that does not store leaves no other entry behind on the account it removes. */
  lemma RemovalStaysOwned(cfg: Config, w: World, email: string, grant: AccessPolicy.Grant, faults: RevokeFaults)
    requires Owned(w) && (grant.account in w.accounts ==> w.accounts[grant.account] == email)
    requires cfg.dryRun || Completes(w, grant.account, faults)
    ensures Owned(RevokeAccount(cfg, w.(cache := w.cache[email := grant]), email, grant.account, faults).0)
  {
    var w' := RevokeAccount(cfg, w.(cache := w.cache[email := grant]), email, grant.account, faults).0;
    forall u | u in w'.cache ensures w'.cache[u].account in w'.accounts && w'.accounts[w'.cache[u].account] == u {
      assert u in w.cache && u != email && w'.cache[u] == w.cache[u];
    }
  }

  lemma FinishOwnedIff(cfg: Config, users: iset<string>, w: World, p: Pending, faults: RevokeFaults)
    requires Owned(w) && p.Read? && ReadHome(cfg, users, w, p)
    ensures Owned(FinishCall(cfg, w, p.email, p.revoking, p.found, faults)) <==>
            (Stores(cfg, w, p, faults) ==> p.found.value.account in w.accounts)
  {
    if p.found.Some? {
      var account := p.found.value.account;
      assert Belongs(cfg, w, p.email, account);
      if Stores(cfg, w, p, faults) {
        StoreOwnedIff(w, p.email, p.found.value);
      } else {
        RemovalStaysOwned(cfg, w, p.email, p.found.value, faults);
      }
    }
  }

  lemma OwnedStepIff(cfg: Config, users: iset<string>, s: Shared, op: SplitOp)
    requires SplitHome(cfg, users, s) && Owned(s.world) && DecodesHome(cfg, users)
    requires cfg.enabled && !cfg.dryRun && SplitByUser(users, op)
    ensures Owned(Step(cfg, s, op).world) <==> StoresLive(cfg, s, op)
  {
    match op
    case Whole(o) => HomeStep(cfg, users, s.world, o);
    case Finish(c, at, f) =>
      if c in s.pending && s.pending[c].Read? {
        FinishOwnedIff(cfg, users, s.world, s.pending[c], f);
      }
    case _ =>
  }

  lemma {:induction false} OwnedAlongIffFrom(cfg: Config, users: iset<string>, s: Shared, ops: seq<SplitOp>)
    requires SplitHome(cfg, users, s) && Owned(s.world) && DecodesHome(cfg, users) && TellsApart(cfg, users)
    requires cfg.enabled && !cfg.dryRun && SplitByUsers(users, ops)
    ensures OwnedAlong(cfg, s, ops) <==> AlwaysStoresLive(cfg, s, ops)
    decreases |ops|
  {
    if ops != [] {
      assert ops[0] in ops;
      OwnedStepIff(cfg, users, s, ops[0]);
      SplitHomeStep(cfg, users, s, ops[0]);
      if StoresLive(cfg, s, ops[0]) {
        OwnedAlongIffFrom(cfg, users, Step(cfg, s, ops[0]), ops[1..]);
      }
    }
  }

  /**
   * Among users whose names tell them apart: in a run of any interleaving every cached account
   * is live and its user's own throughout, if and only if each call that stores what it read
   * finds that account still live.
   */
  lemma OwnedAlongIff(cfg: Config, users: iset<string>, w: World, ops: seq<SplitOp>)
    requires FreshStart(w) && DecodesHome(cfg, users) && TellsApart(cfg, users)
    requires cfg.enabled && !cfg.dryRun && SplitByUsers(users, ops)
    ensures OwnedAlong(cfg, Shared(w, map[]), ops) <==> AlwaysStoresLive(cfg, Shared(w, map[]), ops)
  {
    FreshIsHome(cfg, users, w);
    OwnedAlongIffFrom(cfg, users, Shared(w, map[]), ops);
  }

  // ----- a lookup that caches a deleted account -----

  /** The run goes by the clock, every finishing call passes the re-check, and it ends in `goal`. */
  predicate Leads(cfg: Config, s: Shared, t: Time, ops: seq<SplitOp>, goal: Shared)
    decreases |ops|
  {
    if ops == [] then s == goal
    else
      && t <= TimeOf(ops[0])
      && Passes(s, ops[0])
      && Leads(cfg, Step(cfg, s, ops[0]), TimeOf(ops[0]), ops[1..], goal)
  }

  lemma {:induction false} LeadsIsRun(cfg: Config, s: Shared, t: Time, ops: seq<SplitOp>, goal: Shared)
    requires Leads(cfg, s, t, ops, goal)
    ensures InOrder(t, ops) && Rechecked(cfg, s, ops) && SplitRun(cfg, s, ops) == goal
    decreases |ops|
  {
    if ops != [] {
      LeadsIsRun(cfg, Step(cfg, s, ops[0]), TimeOf(ops[0]), ops[1..], goal);
    }
  }

  lemma LeadsNext(cfg: Config, s: Shared, t: Time, op: SplitOp, rest: seq<SplitOp>, goal: Shared)
    requires t <= TimeOf(op) && Passes(s, op) && Leads(cfg, Step(cfg, s, op), TimeOf(op), rest, goal)
    ensures Leads(cfg, s, t, [op] + rest, goal)
  {
    assert ([op] + rest)[0] == op && ([op] + rest)[1..] == rest;
  }

  /** A successful cleanup takes the lapsed grant out of policy and accounts. */
  lemma LapsedIsCleaned(cfg: Config, email: string, account: string, ends: Time, now: Time)
    requires cfg.enabled && account != "" && ToSecond(ends) < now
    ensures CleanupExpired(cfg, Lapsed(account, email, ends), now, NO_CLEANUP_FAULTS).0 == NOBODY
  {
    var b := TempBinding(account, ends, "");
    MemberRoundTrip(account);
    assert Expired([b][0], now);
    BoundIsListed([b], now, b);
    assert Unexpired([b][1..], now) == [];
  }

  /** The account is cleaned up between the read and the store, before the rest happens. */
  function CleanThenStore(now: Time, rest: seq<SplitOp>): seq<SplitOp> {
    [Whole(Cleanup(now, NO_CLEANUP_FAULTS))] + ([Finish(0, now, NO_REVOKE_FAULTS)] + rest)
  }

  function DeadEntry(email: string, account: string, ends: Time): Shared {
    Shared(NOBODY.(cache := map[email := GrantFromIAM(email, ToSecond(ends), account)]), map[])
  }

  lemma FinishPasses(cfg: Config, s: Shared, now: Time, rest: seq<SplitOp>, goal: Shared)
    requires s.world.cache == map[] && Leads(cfg, Step(cfg, s, Finish(0, now, NO_REVOKE_FAULTS)), now, rest, goal)
    ensures Leads(cfg, s, now, [Finish(0, now, NO_REVOKE_FAULTS)] + rest, goal)
  {
    LeadsNext(cfg, s, now, Finish(0, now, NO_REVOKE_FAULTS), rest, goal);
  }

  lemma StoresDead(cfg: Config, email: string, account: string, ends: Time, now: Time, rest: seq<SplitOp>, goal: Shared)
    requires cfg.enabled && account != "" && ends < now
    requires Leads(cfg, DeadEntry(email, account, ends), now, rest, goal)
    ensures var found := Some(GrantFromIAM(email, ToSecond(ends), account));
            Leads(cfg, Shared(Lapsed(account, email, ends), map[0 := Read(email, false, found)]), now,
                  CleanThenStore(now, rest), goal)
  {
    var found := Some(GrantFromIAM(email, ToSecond(ends), account));
    var read := map[0 := Read(email, false, found)];
    LapsedIsCleaned(cfg, email, account, ends, now);
    FinishStep(cfg, NOBODY, email, false, found, now);
    FinishPasses(cfg, Shared(NOBODY, read), now, rest, goal);
    LeadsNext(cfg, Shared(Lapsed(account, email, ends), read), now, Whole(Cleanup(now, NO_CLEANUP_FAULTS)),
              [Finish(0, now, NO_REVOKE_FAULTS)] + rest, goal);
  }

  lemma ReadsThen(cfg: Config, w: World, email: string, now: Time, rest: seq<SplitOp>, goal: Shared)
    requires cfg.enabled && email !in w.cache
    requires var found := FindInPolicy(w.accounts, w.policy, email, NO_REVOKE_FAULTS.lookup);
             Leads(cfg, Shared(w, map[0 := Read(email, false, found)]), now, rest, goal)
    ensures Leads(cfg, Shared(w, map[]), now, AfterRead(email, false, now, rest), goal)
  {
    var found := FindInPolicy(w.accounts, w.policy, email, NO_REVOKE_FAULTS.lookup);
    var missed := Shared(w, map[0 := Missed(email, false)]);
    assert Step(cfg, missed, ReadPolicy(0, now, NO_REVOKE_FAULTS.lookup))
        == Shared(w, map[0 := Read(email, false, found)]);
    LeadsNext(cfg, missed, now, ReadPolicy(0, now, NO_REVOKE_FAULTS.lookup), rest, goal);
    LeadsNext(cfg, Shared(w, map[]), now, Miss(0, email, false, now),
              [ReadPolicy(0, now, NO_REVOKE_FAULTS.lookup)] + rest, goal);
  }

  lemma LapsesThen(cfg: Config, email: string, first: Time, now: Time, stamp: nat, rest: seq<SplitOp>, goal: Shared)
    requires cfg.enabled && !cfg.dryRun && first + ACCESS_DURATION < now
    requires var w := Lapsed(AccountFor(cfg, email, stamp), email, first + ACCESS_DURATION);
             Leads(cfg, Shared(w, map[]), now, rest, goal)
    ensures Leads(cfg, Shared(NOBODY, map[]), first, AfterLapse(email, first, now, stamp, rest), goal)
  {
    var account, ends := AccountFor(cfg, email, stamp), first + ACCESS_DURATION;
    var grant := AccessPolicy.Grant(email, first, ends, "", "", account);
    var granted := Shared(Lapsed(account, email, ends).(cache := map[email := grant]), map[]);
    EmailNotEmpty(Names.AccountId(email, stamp), cfg.project);
    FailedCleanup(cfg, email, grant, now);
    LeadsNext(cfg, granted, first, Whole(Cleanup(now, NO_WRITE)), rest, goal);
    GrantedWorld(cfg, NOBODY, email, "", "", first, stamp);
    assert [] + [TempBinding(account, ends, "")] == [TempBinding(account, ends, "")];
    assert Step(cfg, Shared(NOBODY, map[]), Whole(PlainGrant(email, first, stamp))) == granted;
    LeadsNext(cfg, Shared(NOBODY, map[]), first, Whole(PlainGrant(email, first, stamp)),
              [Whole(Cleanup(now, NO_WRITE))] + rest, goal);
  }

  /** The same with a name for the end of the grant. */
  lemma LapsesThenAt(cfg: Config, email: string, first: Time, ends: Time, now: Time, stamp: nat, rest: seq<SplitOp>,
                     goal: Shared)
    requires cfg.enabled && !cfg.dryRun && ends == first + ACCESS_DURATION < now
    requires Leads(cfg, Shared(Lapsed(AccountFor(cfg, email, stamp), email, ends), map[]), now, rest, goal)
    ensures Leads(cfg, Shared(NOBODY, map[]), first, AfterLapse(email, first, now, stamp, rest), goal)
  {
    LapsesThen(cfg, email, first, now, stamp, rest, goal);
  }

  /** A grant lapses, a lookup reads it, a cleanup deletes its account, and the lookup caches it. */
  function DeadRun(email: string, first: Time, now: Time, stamp: nat, rest: seq<SplitOp>): seq<SplitOp> {
    AfterLapse(email, first, now, stamp, AfterRead(email, false, now, CleanThenStore(now, rest)))
  }

  lemma DeadRunLeads(cfg: Config, email: string, first: Time, ends: Time, now: Time, stamp: nat, rest: seq<SplitOp>,
                     goal: Shared)
    requires cfg.enabled && !cfg.dryRun && ends == first + ACCESS_DURATION < now
    requires Recognizable(email, AccountFor(cfg, email, stamp))
    requires Leads(cfg, DeadEntry(email, AccountFor(cfg, email, stamp), ends), now, rest, goal)
    ensures Leads(cfg, Shared(NOBODY, map[]), first, DeadRun(email, first, now, stamp, rest), goal)
  {
    var account := AccountFor(cfg, email, stamp);
    EmailNotEmpty(Names.AccountId(email, stamp), cfg.project);
    LapsedIsFound(cfg, email, ends, stamp);
    StoresDead(cfg, email, account, ends, now, rest, goal);
    ReadsThen(cfg, Lapsed(account, email, ends), email, now, CleanThenStore(now, rest), goal);
    LapsesThenAt(cfg, email, first, ends, now, stamp, AfterRead(email, false, now, CleanThenStore(now, rest)), goal);
  }

  lemma DeadIsRun(cfg: Config, first: Time, ops: seq<SplitOp>, goal: Shared, email: string)
    requires Leads(cfg, Shared(NOBODY, map[]), first, ops, goal)
    requires goal.world.accounts == map[] && email in goal.world.cache
    ensures InOrder(first, ops) && Rechecked(cfg, Shared(NOBODY, map[]), ops)
    ensures !Owned(SplitRun(cfg, Shared(NOBODY, map[]), ops).world)
  {
    LeadsIsRun(cfg, Shared(NOBODY, map[]), first, ops, goal);
  }

  lemma DeadRunCaches(cfg: Config, email: string, first: Time, ends: Time, now: Time, stamp: nat)
    requires cfg.enabled && !cfg.dryRun && ends == first + ACCESS_DURATION < now
    requires Recognizable(email, AccountFor(cfg, email, stamp))
    ensures var ops := DeadRun(email, first, now, stamp, []);
            && InOrder(first, ops) && Rechecked(cfg, Shared(NOBODY, map[]), ops)
            && !Owned(SplitRun(cfg, Shared(NOBODY, map[]), ops).world)
  {
    var goal := DeadEntry(email, AccountFor(cfg, email, stamp), ends);
    assert Leads(cfg, goal, now, [], goal);
    DeadRunLeads(cfg, email, first, ends, now, stamp, [], goal);
    DeadIsRun(cfg, first, DeadRun(email, first, now, stamp, []), goal, email);
  }

  /** So even with the re-check, and for every user a scan recognizes, a deleted account can be cached. */
  lemma DeadAccountCached(cfg: Config, email: string, first: Time, now: Time, stamp: nat)
    requires cfg.enabled && !cfg.dryRun && first + ACCESS_DURATION < now
    requires Recognizable(email, AccountFor(cfg, email, stamp))
    ensures var ops := DeadRun(email, first, now, stamp, []);
            && InOrder(first, ops) && Rechecked(cfg, Shared(NOBODY, map[]), ops)
            && !Owned(SplitRun(cfg, Shared(NOBODY, map[]), ops).world)
  {
    DeadRunCaches(cfg, email, first, first + ACCESS_DURATION, now, stamp);
  }

  // ----- exactly when live cached accounts are the users' own -----

  ghost predicate AlwaysOwnedWhereLive(cfg: Config, users: iset<string>) {
    forall w, t, ops | FreshStart(w) && InOrder(t, ops) && SplitByUsers(users, ops) ::
      OwnedWhereLive(SplitRun(cfg, Shared(w, map[]), ops).world)
  }

  lemma RunBreaks(cfg: Config, users: iset<string>, first: Time, ops: seq<SplitOp>, goal: Shared)
    requires Leads(cfg, Shared(NOBODY, map[]), first, ops, goal) && SplitByUsers(users, ops)
    requires !OwnedWhereLive(goal.world)
    ensures !AlwaysOwnedWhereLive(cfg, users)
  {
    LeadsIsRun(cfg, Shared(NOBODY, map[]), first, ops, goal);
  }

  lemma MisreadBreaks(cfg: Config, users: iset<string>, a: string, b: string, stamp: nat)
    requires cfg.enabled && !cfg.dryRun && a in users && b in users && a != b
    requires Names.UserEmailOf(AccountFor(cfg, a, stamp)) == b
    ensures !AlwaysOwnedWhereLive(cfg, users)
  {
    var x, y := Op.Grant(a, "", "", 0, stamp, NO_FAULTS), Lookup(b, 0, NO_LOOKUP_FAULTS);
    LookupTakesAccount(cfg, a, b, stamp);
    TwoWholeSteps(cfg, users, x, y);
  }

  lemma TwoWholeSteps(cfg: Config, users: iset<string>, x: Op, y: Op)
    requires cfg.enabled && x.now == y.now && ByUser(users, x) && ByUser(users, y)
    requires !OwnedWhereLive(Apply(cfg, Apply(cfg, NOBODY, x), y))
    ensures !AlwaysOwnedWhereLive(cfg, users)
  {
    var s1 := Shared(Apply(cfg, NOBODY, x), map[]);
    var s2 := Shared(Apply(cfg, s1.world, y), map[]);
    assert Leads(cfg, s2, y.now, [], s2);
    LeadsNext(cfg, s1, x.now, Whole(y), [], s2);
    LeadsNext(cfg, Shared(NOBODY, map[]), x.now, Whole(x), [Whole(y)] + [], s2);
    RunBreaks(cfg, users, x.now, [Whole(x)] + ([Whole(y)] + []), s2);
  }

  /** A deleted account that is still cached is made again for someone else. */
  lemma MadeAgain(cfg: Config, a: string, b: string, account: string, ends: Time, now: Time, stamp: nat)
    requires cfg.enabled && !cfg.dryRun && a != b && account == AccountFor(cfg, b, stamp)
    ensures var dead := DeadEntry(a, account, ends);
            var goal := Step(cfg, dead, Whole(PlainGrant(b, now, stamp)));
            !OwnedWhereLive(goal.world) && Leads(cfg, dead, now, [Whole(PlainGrant(b, now, stamp))] + [], goal)
  {
    var dead := DeadEntry(a, account, ends);
    var goal := Step(cfg, dead, Whole(PlainGrant(b, now, stamp)));
    GrantedWorld(cfg, dead.world, b, "", "", now, stamp);
    assert a in goal.world.cache && goal.world.cache[a].account == account && goal.world.accounts[account] == b;
    assert Leads(cfg, goal, now, [], goal);
    LeadsNext(cfg, dead, now, Whole(PlainGrant(b, now, stamp)), [], goal);
  }

  lemma DeadRunBy(users: iset<string>, a: string, first: Time, now: Time, stamp: nat, rest: seq<SplitOp>)
    requires a in users && SplitByUsers(users, rest)
    ensures SplitByUsers(users, DeadRun(a, first, now, stamp, rest))
  {
  }

  lemma DeadRunBreaks(cfg: Config, users: iset<string>, a: string, ends: Time, now: Time, s: nat, rest: seq<SplitOp>,
                      goal: Shared)
    requires cfg.enabled && !cfg.dryRun && a in users && ends == ACCESS_DURATION < now && SplitByUsers(users, rest)
    requires Recognizable(a, AccountFor(cfg, a, s)) && !OwnedWhereLive(goal.world)
    requires Leads(cfg, DeadEntry(a, AccountFor(cfg, a, s), ends), now, rest, goal)
    ensures !AlwaysOwnedWhereLive(cfg, users)
  {
    DeadRunLeads(cfg, a, 0, ends, now, s, rest, goal);
    DeadRunBy(users, a, 0, now, s, rest);
    RunBreaks(cfg, users, 0, DeadRun(a, 0, now, s, rest), goal);
  }

  lemma ClashBreaks(cfg: Config, users: iset<string>, a: string, b: string, s: nat, s2: nat, ends: Time, now: Time)
    requires cfg.enabled && !cfg.dryRun && a in users && b in users && a != b
    requires AccountFor(cfg, a, s) == AccountFor(cfg, b, s2) && Recognizable(a, AccountFor(cfg, a, s))
    requires ends == ACCESS_DURATION < now
    ensures !AlwaysOwnedWhereLive(cfg, users)
  {
    var account := AccountFor(cfg, a, s);
    var rest := [Whole(PlainGrant(b, now, s2))] + [];
    MadeAgain(cfg, a, b, account, ends, now, s2);
    DeadRunBreaks(cfg, users, a, ends, now, s, rest,
                  Step(cfg, DeadEntry(a, account, ends), Whole(PlainGrant(b, now, s2))));
  }

  /**
   * In every interleaving of these users' calls a cached account that is live is its user's own,
   * if and only if no account name of one of them decodes to another, and none that a scan would
   * take for one of them can be made for another.
   */
  lemma OwnedWhereLiveIff(cfg: Config, users: iset<string>)
    requires cfg.enabled && !cfg.dryRun
    ensures AlwaysOwnedWhereLive(cfg, users) <==> DecodesHome(cfg, users) && TellsApart(cfg, users)
  {
    if !DecodesHome(cfg, users) {
      var a, b, stamp: nat :| a in users && b in users && Names.UserEmailOf(AccountFor(cfg, a, stamp)) == b && a != b;
      MisreadBreaks(cfg, users, a, b, stamp);
    } else if !TellsApart(cfg, users) {
      var a, b, s: nat, s2: nat :| a in users && b in users && AccountFor(cfg, a, s) == AccountFor(cfg, b, s2)
        && Recognizable(a, AccountFor(cfg, a, s)) && a != b;
      ClashBreaks(cfg, users, a, b, s, s2, ACCESS_DURATION, ACCESS_DURATION + 1);
    } else {
      forall w, t, ops | FreshStart(w) && InOrder(t, ops) && SplitByUsers(users, ops)
        ensures OwnedWhereLive(SplitRun(cfg, Shared(w, map[]), ops).world)
      {
        FreshIsHome(cfg, users, w);
        SplitHomeRun(cfg, users, Shared(w, map[]), ops);
        HomeIsOwnedWhereLive(cfg, users, SplitRun(cfg, Shared(w, map[]), ops).world);
      }
    }
  }

  /** Short names that decode home tell their users apart. */
  lemma ShortNamesTellApart(cfg: Config, users: iset<string>)
    requires DecodesHome(cfg, users) && forall u :: u in users ==> !Names.NeedsDisplayNameFallback(u)
    ensures TellsApart(cfg, users)
  {
  }

  /** So live cached accounts of home users are their own in every interleaving. */
  lemma HomeUsersOwnLive(cfg: Config)
    requires cfg.enabled && !cfg.dryRun && '@' !in cfg.project
    ensures AlwaysOwnedWhereLive(cfg, HomeUsers())
  {
    HomeUsersOwn(cfg);
    OwnedIff(cfg, HomeUsers());
    forall u | u in HomeUsers() ensures !Names.NeedsDisplayNameFallback(u) {
      var name :| HomeName(name) && u == Names.RedHatEmail(name);
    }
    ShortNamesTellApart(cfg, HomeUsers());
    OwnedWhereLiveIff(cfg, HomeUsers());
  }
}
