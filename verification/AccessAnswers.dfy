/** What the access operations answer and leave behind, said without the functions that compute it. */
module AccessAnswers {
  import opened Wrappers
  import GoStrings
  import opened AccessPolicy
  import opened AccessSafety
  import opened AccessEffects
  import Names = AccountNames

  // ----- lookups -----

  /** Whoever owns an active binding is told its account and an end no earlier than the binding's. */
  lemma OwnerIsAnswered(cfg: Config, w: World, t: Time, b: Binding, faults: LookupFaults)
    requires cfg.enabled && Inv(cfg, w, t) && b in w.policy && Active(b, t)
    ensures Sound(w, b)
    ensures var (w', r) := GetUserGrant(cfg, w, w.accounts[BoundAccount(b)], faults);
            && w' == w && r.Found? && r.grant.Some?
            && r.grant.value.account == BoundAccount(b)
            && r.grant.value.expiresAt >= Expiration(b).value
  {
    assert Sound(w, b) && Guarded(w, b, t);
  }

  /** So after every run of whole operations, whatever failed in it and whatever fails now. */
  lemma EveryOwnerIsAnswered(cfg: Config, w: World, t: Time, ops: seq<Op>, b: Binding, faults: LookupFaults)
    requires cfg.enabled && w.cache == map[] && Ordered(t, ops) && forall c :: c in w.policy ==> !IsTemp(c)
    requires b in Run(cfg, w, ops).policy && Active(b, EndTime(t, ops))
    ensures var w' := Run(cfg, w, ops);
            && |b.members| == 1 && BoundAccount(b) in w'.accounts
            && var r := GetUserGrant(cfg, w', w'.accounts[BoundAccount(b)], faults).1;
               && r.Found? && r.grant.Some?
               && r.grant.value.account == BoundAccount(b)
               && r.grant.value.expiresAt >= Expiration(b).value
  {
    NoTempIsDistinct(w.policy);
    RunKeeps(cfg, w, t, ops);
    OwnerIsAnswered(cfg, Run(cfg, w, ops), EndTime(t, ops), b, faults);
  }

  /** The member is a service account that goes by the user: its name decodes, or its display name can be read. */
  predicate GoesBy(accounts: map<string, string>, member: string, email: string, faults: LookupFaults) {
    && MEMBER_PREFIX <= member && member != MEMBER_PREFIX
    && var account := member[|MEMBER_PREFIX|..];
       || Names.UserEmailOf(account) == email
       || (|Names.SanitizeUsername(email)| > 19 && account in accounts && accounts[account] == email
           && account !in faults.getAccount)
  }

  /** Member `j` of binding `i` is the user's in a temporary grant whose end can be read. */
  predicate Matches(accounts: map<string, string>, policy: seq<Binding>, email: string, faults: LookupFaults,
                    i: int, j: int)
  {
    && 0 <= i < |policy| && IsTemp(policy[i]) && policy[i].condition.value.expression.ExpiresAt?
    && 0 <= j < |policy[i].members| && GoesBy(accounts, policy[i].members[j], email, faults)
  }

  ghost predicate FirstMatch(accounts: map<string, string>, policy: seq<Binding>, email: string, faults: LookupFaults,
                             i: int, j: int)
  {
    && Matches(accounts, policy, email, faults, i, j)
    && forall k, m :: Matches(accounts, policy, email, faults, k, m) ==> i < k || (i == k && j <= m)
  }

  /** What is read from that place. */
  function ReadAt(policy: seq<Binding>, email: string, i: int, j: int): AccessPolicy.Grant
    requires 0 <= i < |policy| && 0 <= j < |policy[i].members| && Expiration(policy[i]).Some?
  {
    var ends := Expiration(policy[i]).value;
    AccessPolicy.Grant(email, ends - 7 * 24 * 3600 * 1_000_000_000, ends, "", "", AccountOf(policy[i].members[j]))
  }

  lemma AccountOfIff(member: string, account: string)
    requires account != ""
    ensures AccountOf(member) == account <==> member == MEMBER_PREFIX + account
  {
    MemberRoundTrip(account);
    if AccountOf(member) == account {
      assert member == MEMBER_PREFIX + member[|MEMBER_PREFIX|..];
    }
  }

  lemma GoesByIff(accounts: map<string, string>, member: string, email: string, faults: LookupFaults)
    ensures GoesBy(accounts, member, email, faults) <==>
            AccountOf(member) != "" && Recognized(accounts, email, AccountOf(member), faults)
  {
  }

  lemma {:induction false} MembersScanned(accounts: map<string, string>, members: seq<string>, expiration: Option<Time>,
                                          email: string, faults: LookupFaults) returns (j: int)
    ensures var g := FindInMembers(accounts, members, expiration, email, faults);
            if g.None? then expiration.None? || forall m :: m in members ==> !GoesBy(accounts, m, email, faults)
            else
              && expiration.Some? && 0 <= j < |members| && GoesBy(accounts, members[j], email, faults)
              && (forall k :: 0 <= k < j ==> !GoesBy(accounts, members[k], email, faults))
              && g.value == GrantFromIAM(email, expiration.value, AccountOf(members[j]))
  {
    j := 0;
    if members != [] {
      var rest := MembersScanned(accounts, members[1..], expiration, email, faults);
      GoesByIff(accounts, members[0], email, faults);
      assert forall k :: 0 < k < |members| ==> members[k] == members[1..][k - 1];
      if !(expiration.Some? && GoesBy(accounts, members[0], email, faults)) {
        j := rest + 1;
      }
    }
  }

  lemma HeadMatches(accounts: map<string, string>, policy: seq<Binding>, email: string, faults: LookupFaults, j: int)
    requires policy != [] && IsTemp(policy[0]) && Expiration(policy[0]).Some?
    requires 0 <= j < |policy[0].members| && GoesBy(accounts, policy[0].members[j], email, faults)
    requires forall k :: 0 <= k < j ==> !GoesBy(accounts, policy[0].members[k], email, faults)
    ensures FirstMatch(accounts, policy, email, faults, 0, j)
  {
  }

  lemma HeadMisses(accounts: map<string, string>, policy: seq<Binding>, email: string, faults: LookupFaults)
    requires policy != []
    requires IsTemp(policy[0]) && Expiration(policy[0]).Some? ==>
      forall m :: m in policy[0].members ==> !GoesBy(accounts, m, email, faults)
    ensures forall m :: !Matches(accounts, policy, email, faults, 0, m)
  {
  }

  lemma MatchesTail(accounts: map<string, string>, policy: seq<Binding>, email: string, faults: LookupFaults, k: int,
                    m: int)
    requires policy != [] && k > 0
    ensures Matches(accounts, policy, email, faults, k, m) <==> Matches(accounts, policy[1..], email, faults, k - 1, m)
  {
    assert k < |policy| ==> policy[1..][k - 1] == policy[k];
  }

  lemma NoMatch(accounts: map<string, string>, policy: seq<Binding>, email: string, faults: LookupFaults)
    requires policy != [] && forall m :: !Matches(accounts, policy, email, faults, 0, m)
    requires forall k, m :: !Matches(accounts, policy[1..], email, faults, k, m)
    ensures forall k, m :: !Matches(accounts, policy, email, faults, k, m)
  {
    forall k, m ensures !Matches(accounts, policy, email, faults, k, m) {
      if k > 0 {
        MatchesTail(accounts, policy, email, faults, k, m);
      }
    }
  }

  lemma TailMatches(accounts: map<string, string>, policy: seq<Binding>, email: string, faults: LookupFaults, i: int,
                    j: int)
    requires policy != [] && forall m :: !Matches(accounts, policy, email, faults, 0, m)
    requires FirstMatch(accounts, policy[1..], email, faults, i, j)
    ensures FirstMatch(accounts, policy, email, faults, i + 1, j)
  {
    MatchesTail(accounts, policy, email, faults, i + 1, j);
    forall k, m | Matches(accounts, policy, email, faults, k, m) ensures i + 1 < k || (i + 1 == k && j <= m) {
      if k > 0 {
        MatchesTail(accounts, policy, email, faults, k, m);
      }
    }
  }

  /** The scan finds the first match in the order of the policy, and nothing only when there is none. */
  lemma {:induction false} ScanFindsFirst(accounts: map<string, string>, policy: seq<Binding>, email: string,
                                          faults: LookupFaults) returns (i: int, j: int)
    ensures var g := FindInPolicy(accounts, policy, email, faults);
            if g.None? then forall k, m :: !Matches(accounts, policy, email, faults, k, m)
            else FirstMatch(accounts, policy, email, faults, i, j) && g.value == ReadAt(policy, email, i, j)
  {
    i, j := 0, 0;
    if policy != [] {
      var b := policy[0];
      var m := MembersScanned(accounts, b.members, Expiration(b), email, faults);
      if IsTemp(b) && FindInMembers(accounts, b.members, Expiration(b), email, faults).Some? {
        j := m;
        HeadMatches(accounts, policy, email, faults, m);
      } else {
        HeadMisses(accounts, policy, email, faults);
        i, j := ScanFindsFirst(accounts, policy[1..], email, faults);
        if FindInPolicy(accounts, policy[1..], email, faults).None? {
          NoMatch(accounts, policy, email, faults);
        } else {
          TailMatches(accounts, policy, email, faults, i, j);
        }
        i := i + 1;
      }
    }
  }

  /**
   * A lookup fails exactly when the bot is off or a needed policy cannot be read. It answers a cached
   * user with the entry, and any other with the first match in the policy, which it caches.
   */
  lemma LookupAnswers(cfg: Config, w: World, email: string, faults: LookupFaults) returns (i: int, j: int)
    ensures var (w', r) := GetUserGrant(cfg, w, email, faults);
            && (r == Failed <==> !cfg.enabled || (email !in w.cache && faults.getPolicy))
            && (r != Failed && email in w.cache ==> w' == w && r == Found(Some(w.cache[email])))
            && (r == Failed ==> w' == w)
            && (r != Failed && email !in w.cache ==>
                  if forall k, m :: !Matches(w.accounts, w.policy, email, faults, k, m)
                  then w' == w && r == Found(None)
                  else
                    && FirstMatch(w.accounts, w.policy, email, faults, i, j)
                    && var g := ReadAt(w.policy, email, i, j);
                       w' == w.(cache := w.cache[email := g]) && r == Found(Some(g)))
  {
    i, j := ScanFindsFirst(w.accounts, w.policy, email, faults);
  }

  // ----- revokes -----

  /** The account a revoke goes for. */
  ghost predicate Aims(w: World, email: string, faults: LookupFaults, account: string) {
    if email in w.cache && w.cache[email].account != "" then account == w.cache[email].account
    else
      && !faults.getPolicy
      && exists i, j :: FirstMatch(w.accounts, w.policy, email, faults, i, j)
           && account == AccountOf(w.policy[i].members[j])
  }

  /** A call the removal needs fails. */
  predicate RemovalFails(cfg: Config, w: World, account: string, faults: RevokeFaults) {
    && !cfg.dryRun
    && (faults.getPolicy
        || (faults.setPolicy && exists b :: b in w.policy && IsTemp(b) && Member(account) in b.members))
  }

  lemma AimedAt(cfg: Config, w: World, email: string, faults: RevokeFaults) returns (found: Option<AccessPolicy.Grant>)
    ensures found.None? <==> !exists a :: Aims(w, email, faults.lookup, a)
    ensures found.Some? ==> Aims(w, email, faults.lookup, found.value.account)
    ensures cfg.enabled ==>
      RevokeAccess(cfg, w, email, faults) ==
        if found.None? then (w.(cache := w.cache - {email}), Done)
        else RevokeAccount(cfg, w.(cache := w.cache[email := found.value]), email, found.value.account, faults)
  {
    if email in w.cache && w.cache[email].account != "" {
      found := Some(w.cache[email]);
      assert Aims(w, email, faults.lookup, w.cache[email].account);
    } else if faults.lookup.getPolicy {
      found := None;
    } else {
      found := FindInPolicy(w.accounts, w.policy, email, faults.lookup);
      var i, j := ScanFindsFirst(w.accounts, w.policy, email, faults.lookup);
      if found.Some? {
        assert Aims(w, email, faults.lookup, AccountOf(w.policy[i].members[j]));
      }
    }
  }

  /**
   * A revoke fails exactly when the bot is off or a call it needs fails; it then keeps policy and
   * accounts and has the account it went for cached. Otherwise the user is forgotten, that account has no
   * temporary membership left, and it alone is gone, unless its deletion fails.
   */
  lemma RevokeAnswers(cfg: Config, w: World, email: string, faults: RevokeFaults, a: string)
    ensures var (w', r) := RevokeAccess(cfg, w, email, faults);
            && (r == Failed <==>
                  (!cfg.enabled || exists x :: Aims(w, email, faults.lookup, x) && RemovalFails(cfg, w, x, faults)))
            && (r == Failed ==> w'.policy == w.policy && w'.accounts == w.accounts)
            && (r == Failed && cfg.enabled ==>
                  && email in w'.cache && Aims(w, email, faults.lookup, w'.cache[email].account)
                  && w'.cache - {email} == w.cache - {email})
            && (r != Failed ==> r == Done && w'.cache == w.cache - {email})
            && (r != Failed && !Aims(w, email, faults.lookup, a) ==> (a in w'.accounts <==> a in w.accounts))
            && (r != Failed && Aims(w, email, faults.lookup, a) && !cfg.dryRun ==>
                  && (a in w'.accounts <==> a in w.accounts && faults.delete)
                  && w'.policy == RemoveMember(w.policy, Member(a)))
            && (a in w'.accounts ==> w'.accounts[a] == w.accounts[a])
            && (r != Failed && (cfg.dryRun || !exists x :: Aims(w, email, faults.lookup, x)) ==>
                  w'.policy == w.policy && w'.accounts == w.accounts)
  {
    var found := AimedAt(cfg, w, email, faults);
    AimsOnce(w, email, faults.lookup);
    if found.Some? {
      var account := found.value.account;
      assert w.cache[email := found.value] - {email} == w.cache - {email};
      TouchesIff(w.policy, Member(account));
    }
  }

  lemma TouchesIff(policy: seq<Binding>, member: string)
    ensures Touches(policy, member) <==> exists b :: b in policy && IsTemp(b) && member in b.members
  {
    if b :| b in policy && IsTemp(b) && member in b.members {
      var i :| 0 <= i < |policy| && policy[i] == b;
      assert Holds(policy[i], member);
    }
  }

  lemma AimsOnce(w: World, email: string, faults: LookupFaults)
    ensures forall x, y :: Aims(w, email, faults, x) && Aims(w, email, faults, y) ==> x == y
  {
  }

  // ----- cleanups -----

  /** A temporary binding that ended before `now`, by what is written in it. */
  predicate Over(b: Binding, now: Time) {
    && b.role == "projects/openshift-crt-ephemeral-access/roles/chat_bot_user"
    && b.condition.Some? && b.condition.value.title == "Temp Access"
    && b.condition.value.expression.ExpiresAt? && b.condition.value.expression.at < now
  }

  /** A service account that is a member of such a binding. */
  ghost predicate IsOver(policy: seq<Binding>, now: Time, account: string) {
    account != "" && exists b :: b in policy && Over(b, now) && "serviceAccount:" + account in b.members
  }

  lemma {:induction false} NamedIff(members: seq<string>, account: string)
    requires account != ""
    ensures account in NamedAccounts(members) <==> MEMBER_PREFIX + account in members
    ensures "" !in NamedAccounts(members)
  {
    if members != [] {
      AccountOfIff(members[0], account);
      NamedIff(members[1..], account);
    }
  }

  lemma {:induction false} NeverUnnamed(policy: seq<Binding>, now: Time)
    ensures "" !in ExpiredAccounts(policy, now)
  {
    if policy != [] {
      NamedIff(policy[0].members, "x");
      NeverUnnamed(policy[1..], now);
    }
  }

  lemma {:induction false} ExpiredIff(policy: seq<Binding>, now: Time, account: string)
    ensures account in ExpiredAccounts(policy, now) <==> IsOver(policy, now, account)
  {
    if account == "" {
      NeverUnnamed(policy, now);
    } else if policy != [] {
      NamedIff(policy[0].members, account);
      ExpiredIff(policy[1..], now, account);
      assert policy == [policy[0]] + policy[1..];
    }
  }

  /**
   * A cleanup fails exactly when a policy call it needs fails. If it does not, exactly the bindings
   * that are over leave the policy and exactly their accounts, and the entries on them, go, but for the
   * accounts whose deletion fails. If the write fails, the entries are forgotten all the same.
   */
  lemma CleanupAnswers(cfg: Config, w: World, now: Time, faults: CleanupFaults, a: string, u: string, b: Binding)
    ensures var (w', r) := CleanupExpired(cfg, w, now, faults);
            var any := exists c :: c in w.policy && Over(c, now);
            && (r == Failed <==> cfg.enabled && (faults.getPolicy || (any && faults.setPolicy)))
            && (r == Failed || r == Done)
            && (!cfg.enabled || faults.getPolicy ==> w' == w)
            && (r == Failed ==> w'.policy == w.policy && w'.accounts == w.accounts)
            && (cfg.enabled && r == Done ==>
                  && (b in w'.policy <==> b in w.policy && !Over(b, now))
                  && (a in w'.accounts <==> a in w.accounts && (IsOver(w.policy, now, a) ==> a in faults.delete)))
            && (cfg.enabled && !faults.getPolicy ==>
                  (u in w'.cache <==> u in w.cache && !IsOver(w.policy, now, w.cache[u].account)))
            && (a in w'.accounts ==> w'.accounts[a] == w.accounts[a])
            && (u in w'.cache ==> w'.cache[u] == w.cache[u])
  {
    forall c | c in w.policy ensures Over(c, now) <==> Expired(c, now) {
    }
    ExpiredIff(w.policy, now, a);
    if u in w.cache {
      ExpiredIff(w.policy, now, w.cache[u].account);
    }
    UnexpiredIsFilter(w.policy, now);
    if c :| c in w.policy && Over(c, now) {
      var i :| 0 <= i < |w.policy| && w.policy[i] == c;
      assert Expired(w.policy[i], now);
    }
  }

  // ----- what is never touched -----

  lemma {:induction false} ForeignIff(policy: seq<Binding>, b: Binding)
    ensures b in Foreign(policy) <==> b in policy && !IsTemp(b)
  {
    if policy != [] {
      ForeignIff(policy[1..], b);
      assert policy == [policy[0]] + policy[1..];
    }
  }

  /** A binding of another role, without a condition or under another title stays through every run. */
  lemma OthersSurvive(cfg: Config, w: World, ops: seq<Op>, b: Binding)
    requires b in w.policy
    requires b.role == "projects/openshift-crt-ephemeral-access/roles/chat_bot_user" && b.condition.Some? ==>
      b.condition.value.title != "Temp Access"
    ensures b in Run(cfg, w, ops).policy
  {
    ForeignBindingsSurvive(cfg, w, ops);
    ForeignIff(w.policy, b);
    ForeignIff(Run(cfg, w, ops).policy, b);
  }

  /** A dry run keeps its grants to the cache: where nobody has access, nobody gets any. */
  lemma {:induction false} DryRunTouchesNothing(cfg: Config, w: World, ops: seq<Op>)
    requires cfg.dryRun && forall b :: b in w.policy ==> !IsTemp(b)
    ensures Run(cfg, w, ops).policy == w.policy && Run(cfg, w, ops).accounts == w.accounts
    decreases |ops|
  {
    if ops != [] {
      assert ops[0].Cleanup? ==> forall i :: 0 <= i < |w.policy| ==> !Expired(w.policy[i], ops[0].now);
      DryRunTouchesNothing(cfg, Apply(cfg, w, ops[0]), ops[1..]);
    }
  }

  /** It names an account that is marked as one of a dry run. */
  lemma DryRunAnswers(cfg: Config, w: World, email: string, requester: string, why: string, now: Time, stamp: nat,
                      faults: GrantFaults)
    requires cfg.enabled && cfg.dryRun && !HeldInCache(w, email, now)
    ensures var (w', r) := GrantAccess(cfg, w, email, requester, why, now, stamp, faults);
            && r == Granted(now + 7 * 24 * 3600 * 1_000_000_000)
            && email in w'.cache && "dry-run-" <= w'.cache[email].account
  {
    var id := "dry-run-" + GoStrings.ReplaceAll(email, "@", "-at-");
    assert "dry-run-" <= id <= Names.AccountEmail(id, cfg.project);
  }
}
