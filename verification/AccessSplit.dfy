/**
 * A lookup and a revoke of a user who is not cached give up the lock: they miss
 * the cache, read the policy, and change the cache afterwards without looking at
 * it again. Here those three steps interleave with everything else.
 */
module AccessSplit {
  import opened Wrappers
  import opened AccessPolicy
  import opened AccessSafety
  import opened AccessEffects
  import Names = AccountNames

  /** A call that does not hold the lock: after its cache miss, or with what it read from the policy. */
  datatype Pending =
    | Missed(email: string, revoking: bool)
    | Read(email: string, revoking: bool, found: Option<AccessPolicy.Grant>)

  datatype Shared = Shared(world: World, pending: map<nat, Pending>)

  datatype SplitOp =
    | Whole(op: Op)
    | Miss(call: nat, email: string, revoking: bool, at: Time)
    | ReadPolicy(call: nat, at: Time, lookupFaults: LookupFaults)
    | Finish(call: nat, at: Time, revokeFaults: RevokeFaults)

  function TimeOf(op: SplitOp): Time {
    if op.Whole? then op.op.now else op.at
  }

  /** What a call does once it holds the lock again. */
  function FinishCall(cfg: Config, w: World, email: string, revoking: bool, found: Option<AccessPolicy.Grant>,
                      faults: RevokeFaults): World
  {
    if found.None? then
      if revoking then w.(cache := w.cache - {email}) else w
    else
      var stored := w.(cache := w.cache[email := found.value]);
      if revoking then RevokeAccount(cfg, stored, email, found.value.account, faults).0 else stored
  }

  predicate Misses(w: World, email: string, revoking: bool) {
    email !in w.cache || (revoking && w.cache[email].account == "")
  }

  function Step(cfg: Config, s: Shared, op: SplitOp): Shared {
    if !cfg.enabled then s
    else
      match op
      case Whole(o) => s.(world := Apply(cfg, s.world, o))
      case Miss(c, email, revoking, _) =>
        if c in s.pending || !Misses(s.world, email, revoking) then s
        else s.(pending := s.pending[c := Missed(email, revoking)])
      case ReadPolicy(c, _, f) =>
        if c !in s.pending || s.pending[c].Read? then s
        else
          var p := s.pending[c];
          if !f.getPolicy then
            var found := FindInPolicy(s.world.accounts, s.world.policy, p.email, f);
            s.(pending := s.pending[c := Read(p.email, p.revoking, found)])
          else if p.revoking then s.(pending := s.pending[c := Read(p.email, true, None)])
          else s.(pending := s.pending - {c})
      case Finish(c, _, f) =>
        if c !in s.pending || s.pending[c].Missed? then s
        else
          var p := s.pending[c];
          Shared(FinishCall(cfg, s.world, p.email, p.revoking, p.found, f), s.pending - {c})
  }

  function SplitRun(cfg: Config, s: Shared, ops: seq<SplitOp>): Shared
    decreases |ops|
  {
    if ops == [] then s else SplitRun(cfg, Step(cfg, s, ops[0]), ops[1..])
  }

  predicate InOrder(t: Time, ops: seq<SplitOp>)
    decreases |ops|
  {
    ops != [] ==> t <= TimeOf(ops[0]) && InOrder(TimeOf(ops[0]), ops[1..])
  }

  function LastTime(t: Time, ops: seq<SplitOp>): Time
    decreases |ops|
  {
    if ops == [] then t else LastTime(TimeOf(ops[0]), ops[1..])
  }

  // ----- the steps make up the operations -----

  /** Three steps with nothing in between are the whole lookup, and the whole revoke of such a user. */
  lemma UninterruptedIsWhole(cfg: Config, s: Shared, call: nat, email: string, revoking: bool, now: Time, at: Time,
                             faults: RevokeFaults)
    requires cfg.enabled && call !in s.pending && Misses(s.world, email, revoking)
    ensures var missed := Step(cfg, s, Miss(call, email, revoking, at));
            var read := Step(cfg, missed, ReadPolicy(call, at, faults.lookup));
            var done := Step(cfg, read, Finish(call, at, faults));
            && done.pending == s.pending
            && done.world == Apply(cfg, s.world, if revoking then Revoke(email, now, faults)
                                                 else Lookup(email, now, faults.lookup))
  {
    var missed := Step(cfg, s, Miss(call, email, revoking, at));
    var read := Step(cfg, missed, ReadPolicy(call, at, faults.lookup));
    var done := Step(cfg, read, Finish(call, at, faults));
    assert missed.pending - {call} == s.pending;
    assert read.pending - {call} == s.pending;
    assert done.pending == s.pending;
  }

  // ----- when the end of a call is safe -----

  predicate Safe(w: World, t: Time) {
    BoundAccountsLive(w) && ActiveCached(w, t) && OneActivePerUser(w, t)
  }

  /** Binding `b` lets the user in on the very account cached for the user. */
  predicate StandsOn(w: World, email: string, b: Binding, t: Time) {
    && email in w.cache && Active(b, t)
    && b.members == [Member(w.cache[email].account)]
    && w.cache[email].account in w.accounts && w.accounts[w.cache[email].account] == email
  }

  /** The call leaves the account of the user's entry cached for as long as the binding lasts, or removes it. */
  predicate Respects(w: World, p: Pending, faults: RevokeFaults, b: Binding)
    requires p.Read? && p.email in w.cache && Expiration(b).Some?
  {
    if p.found.None? then !p.revoking
    else
      && p.found.value.account == w.cache[p.email].account
      && (p.found.value.expiresAt >= Expiration(b).value
          || (p.revoking && Completes(w, p.found.value.account, faults)))
  }

  /** Does the removal get through? */
  predicate Completes(w: World, account: string, faults: RevokeFaults) {
    !faults.getPolicy && !(Touches(w.policy, Member(account)) && faults.setPolicy)
  }

  /** A call may finish: the user's cache entry has no active binding behind it, or the call respects it. */
  predicate MayFinish(w: World, p: Pending, faults: RevokeFaults, t: Time)
    requires p.Read?
  {
    forall b :: b in w.policy && StandsOn(w, p.email, b, t) ==> Respects(w, p, faults, b)
  }

  /** Under the invariant an owner's active binding is the one its cache entry stands on. */
  lemma OwnedStands(cfg: Config, w: World, email: string, b: Binding, t: Time)
    requires Inv(cfg, w, t) && b in w.policy && Active(b, t)
    ensures Sound(w, b)
    ensures w.accounts[BoundAccount(b)] == email <==> StandsOn(w, email, b, t)
  {
    assert Sound(w, b) && Guarded(w, b, t);
    if StandsOn(w, email, b, t) {
      MemberRoundTrip(w.cache[email].account);
    }
  }

  lemma StoreIff(cfg: Config, w: World, p: Pending, faults: RevokeFaults, t: Time)
    requires Inv(cfg, w, t) && p.Read? && p.found.Some?
    requires !p.revoking || (!cfg.dryRun && !Completes(w, p.found.value.account, faults))
    ensures Inv(cfg, w.(cache := w.cache[p.email := p.found.value]), t) <==> MayFinish(w, p, faults, t)
  {
    var w' := w.(cache := w.cache[p.email := p.found.value]);
    forall b | b in w.policy && IsTemp(b)
      ensures Sound(w', b)
      ensures Guarded(w', b, t) <==> (StandsOn(w, p.email, b, t) ==> Respects(w, p, faults, b))
    {
      assert Sound(w, b) && Guarded(w, b, t);
      if Active(b, t) {
        OwnedStands(cfg, w, p.email, b, t);
      }
    }
  }

  lemma ForgetIff(cfg: Config, w: World, p: Pending, faults: RevokeFaults, t: Time)
    requires Inv(cfg, w, t) && p.Read? && p.found.None? && p.revoking
    ensures Inv(cfg, w.(cache := w.cache - {p.email}), t) <==> MayFinish(w, p, faults, t)
  {
    var w' := w.(cache := w.cache - {p.email});
    forall b | b in w.policy && IsTemp(b)
      ensures Sound(w', b)
      ensures Guarded(w', b, t) <==> !StandsOn(w, p.email, b, t)
    {
      assert Sound(w, b) && Guarded(w, b, t);
      if Active(b, t) {
        OwnedStands(cfg, w, p.email, b, t);
      }
    }
  }

  function Removed(w: World, email: string, account: string, faults: RevokeFaults): World {
    World(RemoveMember(w.policy, Member(account)), DeleteAccount(w.accounts, account, faults.delete), w.cache - {email})
  }

  /** After a removal, a binding stays exactly when it is on another account, and is guarded unless it is the user's. */
  lemma RemovedBinding(cfg: Config, w: World, email: string, account: string, faults: RevokeFaults, t: Time, b: Binding)
    requires Inv(cfg, w, t) && b in w.policy && IsTemp(b)
    ensures var w' := Removed(w, email, account, faults);
            && (b in w'.policy <==> BoundAccount(b) != account)
            && (b in w'.policy ==>
                  Sound(w', b) && (Guarded(w', b, t) <==> !(Active(b, t) && w.accounts[BoundAccount(b)] == email)))
  {
    MemberRoundTrip(account);
    RemoveIsFilter(w.policy, Member(account));
    RevokeKeepsBindings(w.policy, Member(account));
    assert Sound(w, b) && Guarded(w, b, t);
    assert Holds(b, Member(account)) <==> BoundAccount(b) == account;
  }

  lemma RemoveIff(cfg: Config, w: World, p: Pending, faults: RevokeFaults, t: Time)
    requires Inv(cfg, w, t) && !cfg.dryRun && p.Read? && p.found.Some? && p.revoking
    requires Completes(w, p.found.value.account, faults)
    ensures Inv(cfg, Removed(w, p.email, p.found.value.account, faults), t) <==> MayFinish(w, p, faults, t)
  {
    var account := p.found.value.account;
    var w' := Removed(w, p.email, account, faults);
    RemoveIsFilter(w.policy, Member(account));
    forall b | b in w.policy && IsTemp(b)
      ensures StandsOn(w, p.email, b, t) ==> (Respects(w, p, faults, b) <==> b !in w'.policy)
      ensures b in w'.policy ==> Sound(w', b) && (Guarded(w', b, t) <==> !StandsOn(w, p.email, b, t))
    {
      RemovedBinding(cfg, w, p.email, account, faults, t, b);
      if Active(b, t) {
        OwnedStands(cfg, w, p.email, b, t);
      }
    }
  }

  /** The end of a call keeps the invariant if and only if it may finish. */
  lemma FinishKeepsIff(cfg: Config, w: World, p: Pending, faults: RevokeFaults, t: Time)
    requires Inv(cfg, w, t) && p.Read?
    ensures Inv(cfg, FinishCall(cfg, w, p.email, p.revoking, p.found, faults), t) <==> MayFinish(w, p, faults, t)
  {
    if p.found.None? {
      if p.revoking {
        ForgetIff(cfg, w, p, faults, t);
      }
    } else {
      var stored := w.(cache := w.cache[p.email := p.found.value]);
      assert stored.cache - {p.email} == w.cache - {p.email};
      if p.revoking && cfg.dryRun {
        assert forall b :: b in w.policy ==> !IsTemp(b);
      } else if p.revoking && Completes(w, p.found.value.account, faults) {
        RemoveIff(cfg, w, p, faults, t);
      } else {
        StoreIff(cfg, w, p, faults, t);
      }
    }
  }

  // ----- the condition is exact for the promises, not only for the invariant -----

  /** Whatever whole operations follow, the promises hold. */
  ghost predicate StaysSafe(cfg: Config, w: World, t: Time) {
    forall ops :: Ordered(t, ops) ==> Safe(Run(cfg, w, ops), EndTime(t, ops))
  }

  lemma FinishKeepsShape(cfg: Config, w: World, p: Pending, faults: RevokeFaults, t: Time)
    requires Inv(cfg, w, t) && p.Read?
    ensures Shape(cfg, FinishCall(cfg, w, p.email, p.revoking, p.found, faults))
  {
    if p.revoking && !cfg.dryRun && p.found.Some? && Completes(w, p.found.value.account, faults) {
      var account := p.found.value.account;
      RemoveIsFilter(w.policy, Member(account));
      var w' := Removed(w, p.email, account, faults);
      forall b | b in w'.policy && IsTemp(b) ensures Sound(w', b) {
        RemovedBinding(cfg, w, p.email, account, faults, t, b);
      }
      assert w.cache[p.email := p.found.value] - {p.email} == w.cache - {p.email};
    } else {
      var w' := FinishCall(cfg, w, p.email, p.revoking, p.found, faults);
      assert w'.policy == w.policy && w'.accounts == w.accounts;
      forall b | b in w.policy && IsTemp(b) ensures Sound(w', b) {
        assert Sound(w, b);
      }
    }
  }

  /** A grant on top of an active binding of the same user. */
  lemma SecondGrant(cfg: Config, w: World, email: string, b: Binding, now: Time, stamp: nat)
    requires CanGrant(cfg, w, email, now, stamp) && BoundAccountsLive(w)
    requires b in w.policy && Active(b, now) && w.accounts[BoundAccount(b)] == email
    ensures var w' := GrantAccess(cfg, w, email, "", "", now, stamp, NO_FAULTS).0;
            BoundAccountsLive(w') && !OneActivePerUser(w', now)
  {
    var account := AccountFor(cfg, email, stamp);
    var nb := TempBinding(account, now + ACCESS_DURATION, "");
    var w' := GrantAccess(cfg, w, email, "", "", now, stamp, NO_FAULTS).0;
    GrantedWorld(cfg, w, email, "", "", now, stamp);
    MemberRoundTrip(account);
    forall c | c in w'.policy && IsTemp(c) ensures |c.members| == 1 && BoundAccount(c) in w'.accounts {
      if c in w.policy {
        assert BoundAccount(c) in w.accounts;
      }
    }
    var i :| 0 <= i < |w.policy| && w.policy[i] == b;
    var n := |w.policy|;
    assert w'.policy[i] == b && w'.policy[n] == nb;
    assert Active(w'.policy[i], now) && Active(w'.policy[n], now);
    assert w'.accounts[BoundAccount(w'.policy[i])] == email == w'.accounts[BoundAccount(w'.policy[n])];
  }

  lemma RunOfOne(cfg: Config, w: World, t: Time, op: Op)
    requires t <= op.now
    ensures Ordered(t, [op]) && EndTime(t, [op]) == op.now && Run(cfg, w, [op]) == Apply(cfg, w, op)
  {
    assert [op][1..] == [];
    assert Ordered(op.now, []) && EndTime(op.now, []) == op.now;
    assert Run(cfg, Apply(cfg, w, op), []) == Apply(cfg, w, op);
  }

  /** A binding the cache does not guard leads to a broken promise, at once or after one grant. */
  lemma UnguardedBreaks(cfg: Config, w: World, b: Binding, t: Time)
    requires cfg.enabled && Shape(cfg, w) && b in w.policy && IsTemp(b) && !Guarded(w, b, t)
    ensures !StaysSafe(cfg, w, t)
  {
    var owner := w.accounts[BoundAccount(b)];
    assert Active(b, t);
    if owner !in w.cache || w.cache[owner].account != BoundAccount(b) {
      assert Run(cfg, w, []) == w && EndTime(t, []) == t && Ordered(t, []);
      assert BoundAccountsLive(w) ==> !ActiveCached(w, t);
    } else {
      var now := if w.cache[owner].expiresAt > t then w.cache[owner].expiresAt else t;
      var stamp := Names.FreshStamp(owner, cfg.project, w.accounts.Keys);
      var op := Op.Grant(owner, "", "", now, stamp, NO_FAULTS);
      RunOfOne(cfg, w, t, op);
      SecondGrant(cfg, w, owner, b, now, stamp);
    }
  }

  lemma InvStaysSafe(cfg: Config, w: World, t: Time)
    requires Inv(cfg, w, t) && CacheNamed(w)
    ensures StaysSafe(cfg, w, t)
  {
    forall ops | Ordered(t, ops) ensures Safe(Run(cfg, w, ops), EndTime(t, ops)) {
      RunKeeps(cfg, w, t, ops);
      InvIsSafe(cfg, Run(cfg, w, ops), EndTime(t, ops));
    }
  }

  predicate FoundNamed(p: Pending) {
    p.Read? && p.found.Some? ==> p.found.value.account != ""
  }

  /**
   * A call that gave up the lock may finish if and only if the promises then hold
   * in every continuation. Everything is said about the user's cache entry: if an active
   * binding stands on its account, the call must have found that account, with an end no
   * earlier than the binding's, or be removing it.
   */
  lemma FinishSafeIff(cfg: Config, w: World, p: Pending, faults: RevokeFaults, t: Time)
    requires cfg.enabled && Inv(cfg, w, t) && CacheNamed(w) && p.Read? && FoundNamed(p)
    ensures StaysSafe(cfg, FinishCall(cfg, w, p.email, p.revoking, p.found, faults), t)
       <==> MayFinish(w, p, faults, t)
  {
    var w' := FinishCall(cfg, w, p.email, p.revoking, p.found, faults);
    FinishKeepsIff(cfg, w, p, faults, t);
    FinishKeepsShape(cfg, w, p, faults, t);
    if Inv(cfg, w', t) {
      InvStaysSafe(cfg, w', t);
    } else {
      var b :| b in w'.policy && IsTemp(b) && !Guarded(w', b, t);
      UnguardedBreaks(cfg, w', b, t);
    }
  }

  // ----- the missing second look -----

  /** What the code could test when it holds the lock again. */
  predicate Recheck(cache: map<string, AccessPolicy.Grant>, email: string, found: Option<AccessPolicy.Grant>, now: Time)
  {
    || email !in cache
    || cache[email].expiresAt <= now
    || (found.Some? && found.value.account == cache[email].account && found.value.expiresAt >= cache[email].expiresAt)
  }

  lemma RecheckMayFinish(cfg: Config, w: World, p: Pending, faults: RevokeFaults, now: Time)
    requires Inv(cfg, w, now) && p.Read? && Recheck(w.cache, p.email, p.found, now)
    ensures MayFinish(w, p, faults, now)
  {
    forall b | b in w.policy && StandsOn(w, p.email, b, now) ensures Respects(w, p, faults, b) {
      OwnedStands(cfg, w, p.email, b, now);
      assert Guarded(w, b, now);
    }
  }

  /** A call that finishes finds the cache as `Recheck` wants it. */
  predicate Passes(s: Shared, op: SplitOp) {
    op.Finish? && op.call in s.pending && s.pending[op.call].Read? ==>
      var p := s.pending[op.call];
      Recheck(s.world.cache, p.email, p.found, op.at)
  }

  /** Every call in the run does. */
  predicate Rechecked(cfg: Config, s: Shared, ops: seq<SplitOp>)
    decreases |ops|
  {
    ops != [] ==> Passes(s, ops[0]) && Rechecked(cfg, Step(cfg, s, ops[0]), ops[1..])
  }

  predicate PendingNamed(s: Shared) {
    forall c :: c in s.pending ==> FoundNamed(s.pending[c])
  }

  lemma FinishStaysNamed(cfg: Config, w: World, p: Pending, faults: RevokeFaults)
    requires CacheNamed(w) && p.Read? && FoundNamed(p)
    ensures CacheNamed(FinishCall(cfg, w, p.email, p.revoking, p.found, faults))
  {
  }

  lemma StepStaysNamed(cfg: Config, s: Shared, op: SplitOp)
    requires CacheNamed(s.world) && PendingNamed(s)
    ensures CacheNamed(Step(cfg, s, op).world) && PendingNamed(Step(cfg, s, op))
  {
    match op
    case Whole(o) => CacheStaysNamed(cfg, s.world, o);
    case ReadPolicy(c, _, f) =>
      if c in s.pending {
        FoundInPolicyIsNamed(s.world.accounts, s.world.policy, s.pending[c].email, f);
      }
    case Finish(c, _, f) =>
      if c in s.pending && s.pending[c].Read? {
        FinishStaysNamed(cfg, s.world, s.pending[c], f);
      }
    case _ =>
  }

  lemma SplitStepKeeps(cfg: Config, s: Shared, t: Time, op: SplitOp)
    requires Inv(cfg, s.world, t) && CacheNamed(s.world) && t <= TimeOf(op)
    requires Passes(s, op)
    ensures Inv(cfg, Step(cfg, s, op).world, TimeOf(op))
  {
    InvLater(cfg, s.world, t, TimeOf(op));
    match op
    case Whole(o) => AccessSafety.StepKeeps(cfg, s.world, t, o);
    case Finish(c, at, f) =>
      if c in s.pending && s.pending[c].Read? {
        RecheckMayFinish(cfg, s.world, s.pending[c], f, at);
        FinishKeepsIff(cfg, s.world, s.pending[c], f, at);
      }
    case _ =>
  }

  lemma {:induction false} SplitRunKeeps(cfg: Config, s: Shared, t: Time, ops: seq<SplitOp>)
    requires Inv(cfg, s.world, t) && CacheNamed(s.world) && PendingNamed(s)
    requires InOrder(t, ops) && Rechecked(cfg, s, ops)
    ensures Inv(cfg, SplitRun(cfg, s, ops).world, LastTime(t, ops))
    decreases |ops|
  {
    if ops != [] {
      SplitStepKeeps(cfg, s, t, ops[0]);
      StepStaysNamed(cfg, s, ops[0]);
      SplitRunKeeps(cfg, Step(cfg, s, ops[0]), TimeOf(ops[0]), ops[1..]);
    }
  }

  /**
   * The promises hold in every interleaving, with any number of calls between their
   * steps, in which the cache passes `Recheck` whenever a call finishes.
   */
  lemma EverySplitRunIsSafe(cfg: Config, w: World, t: Time, ops: seq<SplitOp>)
    requires forall b :: b in w.policy ==> !IsTemp(b)
    requires w.cache == map[] && InOrder(t, ops)
    requires Rechecked(cfg, Shared(w, map[]), ops)
    ensures Safe(SplitRun(cfg, Shared(w, map[]), ops).world, LastTime(t, ops))
  {
    NoTempIsDistinct(w.policy);
    SplitRunKeeps(cfg, Shared(w, map[]), t, ops);
    InvIsSafe(cfg, SplitRun(cfg, Shared(w, map[]), ops).world, LastTime(t, ops));
  }
}
