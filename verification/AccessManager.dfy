/** The access manager as it runs: a cache, a remote policy, and loops over its bindings. */
module AccessManager {
  import opened GoStrings
  import opened Wrappers
  import opened AccessPolicy
  import Names = AccountNames

  /** The remote side. Each call is told whether it fails, and then changes nothing. */
  class Cloud {
    var policy: seq<Binding>
    var accounts: map<string, string>

    method CreateAccount(account: string, displayName: string, fails: bool) returns (ok: bool)
      modifies this`accounts
      ensures ok <==> !fails && account !in old(accounts)
      ensures accounts == if ok then old(accounts)[account := displayName] else old(accounts)
    {
      ok := !fails && account !in accounts;
      if ok {
        accounts := accounts[account := displayName];
      }
    }

    method Delete(account: string, fails: bool)
      modifies this`accounts
      ensures accounts == DeleteAccount(old(accounts), account, fails)
    {
      if !fails {
        accounts := accounts - {account};
      }
    }
  }

  lemma {:induction false} RemoveConcat(p: seq<Binding>, q: seq<Binding>, member: string)
    ensures RemoveMember(p + q, member) == RemoveMember(p, member) + RemoveMember(q, member)
  {
    if p == [] {
      assert p + q == q;
    } else {
      assert (p + q)[0] == p[0] && (p + q)[1..] == p[1..] + q;
      RemoveConcat(p[1..], q, member);
      Associate(RemoveFrom(p[0], member), RemoveMember(p[1..], member), RemoveMember(q, member));
    }
  }

  lemma Associate(a: seq<Binding>, b: seq<Binding>, c: seq<Binding>)
    ensures a + (b + c) == (a + b) + c && a + [] == a
  {
  }

  lemma RemoveNext(policy: seq<Binding>, i: nat, member: string)
    requires i < |policy|
    ensures RemoveMember(policy[..i + 1], member) == RemoveMember(policy[..i], member) + RemoveFrom(policy[i], member)
  {
    assert policy[..i + 1] == policy[..i] + [policy[i]];
    RemoveConcat(policy[..i], [policy[i]], member);
    assert [policy[i]][1..] == [];
    Associate(RemoveFrom(policy[i], member), [], []);
  }

  class Manager {
    const cfg: Config
    const cloud: Cloud
    var grantsCache: map<string, Grant>

    constructor (cfg: Config, cloud: Cloud)
      ensures this.cfg == cfg && this.cloud == cloud && grantsCache == map[]
    {
      this.cfg := cfg;
      this.cloud := cloud;
      grantsCache := map[];
    }

    function View(): World
      reads this, cloud
    {
      World(cloud.policy, cloud.accounts, grantsCache)
    }

    method Grant(email: string, requestedBy: string, justification: string, now: Time, stamp: nat, faults: GrantFaults)
      returns (r: Outcome)
      modifies this, cloud
      ensures (View(), r) == GrantAccess(cfg, old(View()), email, requestedBy, justification, now, stamp, faults)
    {
      if !cfg.enabled {
        return Failed;
      }
      if email in grantsCache && grantsCache[email].expiresAt > now {
        if !cfg.dryRun && faults.key {
          return Failed;
        }
        return Granted(grantsCache[email].expiresAt);
      }
      var expiresAt := now + ACCESS_DURATION;
      var account;
      if cfg.dryRun {
        account := Names.AccountEmail("dry-run-" + ReplaceAll(email, "@", "-at-"), cfg.project);
      } else {
        account := Names.AccountEmail(Names.AccountId(email, stamp), cfg.project);
        var created := cloud.CreateAccount(account, email, faults.create);
        if !created {
          return Failed;
        }
        if faults.key || faults.getPolicy {
          cloud.Delete(account, faults.rollback);
          return Failed;
        }
        var bindings := cloud.policy + [TempBinding(account, expiresAt, justification)];
        if faults.setPolicy {
          cloud.Delete(account, faults.rollback);
          return Failed;
        }
        cloud.policy := bindings;
      }
      var grant := AccessPolicy.Grant(email, now, expiresAt, requestedBy, justification, account);
      grantsCache := grantsCache[email := grant];
      r := Granted(expiresAt);
    }

    method FindGrant(email: string, faults: LookupFaults) returns (found: Option<AccessPolicy.Grant>)
      ensures found == FindInPolicy(cloud.accounts, cloud.policy, email, faults)
    {
      var i := 0;
      while i < |cloud.policy|
        invariant i <= |cloud.policy|
        invariant FindInPolicy(cloud.accounts, cloud.policy, email, faults)
               == FindInPolicy(cloud.accounts, cloud.policy[i..], email, faults)
      {
        var b := cloud.policy[i];
        assert cloud.policy[i..][1..] == cloud.policy[i + 1..];
        if IsTemp(b) {
          found := FindMember(b, email, faults);
          if found.Some? {
            return;
          }
        }
        i := i + 1;
      }
      found := None;
    }

    method FindMember(b: Binding, email: string, faults: LookupFaults) returns (found: Option<AccessPolicy.Grant>)
      ensures found == FindInMembers(cloud.accounts, b.members, Expiration(b), email, faults)
    {
      var j := 0;
      while j < |b.members|
        invariant j <= |b.members|
        invariant FindInMembers(cloud.accounts, b.members, Expiration(b), email, faults)
               == FindInMembers(cloud.accounts, b.members[j..], Expiration(b), email, faults)
      {
        var account := AccountOf(b.members[j]);
        assert b.members[j..][1..] == b.members[j + 1..];
        if account != "" && Recognized(cloud.accounts, email, account, faults) && Expiration(b).Some? {
          return Some(GrantFromIAM(email, Expiration(b).value, account));
        }
        j := j + 1;
      }
      found := None;
    }

    method Lookup(email: string, faults: LookupFaults) returns (r: Outcome)
      modifies this`grantsCache
      ensures (View(), r) == GetUserGrant(cfg, old(View()), email, faults)
    {
      if !cfg.enabled {
        return Failed;
      }
      if email in grantsCache {
        return Found(Some(grantsCache[email]));
      }
      if faults.getPolicy {
        return Failed;
      }
      var found := FindGrant(email, faults);
      if found.Some? {
        grantsCache := grantsCache[email := found.value];
      }
      r := Found(found);
    }

    method RemoveMembers(member: string) returns (bindings: seq<Binding>, modified: bool)
      ensures bindings == RemoveMember(cloud.policy, member)
      ensures modified <==> Touches(cloud.policy, member)
    {
      bindings, modified := [], false;
      for i := 0 to |cloud.policy|
        invariant bindings == RemoveMember(cloud.policy[..i], member)
        invariant modified <==> exists k :: 0 <= k < i && Holds(cloud.policy[k], member)
      {
        var b := cloud.policy[i];
        RemoveNext(cloud.policy, i, member);
        if IsTemp(b) && member in b.members {
          modified := true;
          var members := Without(b.members, member);
          if |members| > 0 {
            bindings := bindings + [b.(members := members)];
          }
        } else {
          bindings := bindings + [b];
        }
      }
      assert cloud.policy[..|cloud.policy|] == cloud.policy;
    }

    method Revoke(email: string, faults: RevokeFaults) returns (r: Outcome)
      modifies this, cloud
      ensures (View(), r) == RevokeAccess(cfg, old(View()), email, faults)
    {
      if !cfg.enabled {
        return Failed;
      }
      var account := "";
      if email in grantsCache {
        account := grantsCache[email].account;
      }
      if account == "" {
        var found := None;
        if !faults.lookup.getPolicy {
          found := FindGrant(email, faults.lookup);
          FoundInPolicyIsNamed(cloud.accounts, cloud.policy, email, faults.lookup);
        }
        if found.Some? {
          account := found.value.account;
          grantsCache := grantsCache[email := found.value];
        }
      } else {
        assert grantsCache == grantsCache[email := grantsCache[email]];
      }
      if account == "" {
        grantsCache := grantsCache - {email};
        return Done;
      }
      r := RevokeFound(email, account, faults);
    }

    method RevokeFound(email: string, account: string, faults: RevokeFaults) returns (r: Outcome)
      modifies this, cloud
      ensures (View(), r) == RevokeAccount(cfg, old(View()), email, account, faults)
    {
      if cfg.dryRun {
        grantsCache := grantsCache - {email};
        return Done;
      }
      if faults.getPolicy {
        return Failed;
      }
      var bindings, modified := RemoveMembers(Member(account));
      if modified {
        if faults.setPolicy {
          return Failed;
        }
        cloud.policy := bindings;
      } else {
        UntouchedPolicy(cloud.policy, Member(account));
      }
      cloud.Delete(account, faults.delete);
      grantsCache := grantsCache - {email};
      r := Done;
    }

    method ForgetAccount(account: string)
      modifies this`grantsCache
      ensures grantsCache == Forget(old(grantsCache), {account})
    {
      var users := grantsCache.Keys;
      ghost var before := grantsCache;
      while users != {}
        invariant users <= before.Keys
        invariant grantsCache == map u | u in before && (u in users || before[u].account != account) :: before[u]
        decreases |users|
      {
        var u :| u in users;
        if grantsCache[u].account == account {
          grantsCache := grantsCache - {u};
        }
        users := users - {u};
      }
    }

    /** Collects the accounts of an expired binding and drops them from the cache. */
    method ForgetMembers(members: seq<string>, gone: seq<string>) returns (accounts: seq<string>)
      modifies this`grantsCache
      ensures accounts == gone + NamedAccounts(members)
      ensures grantsCache == Forget(old(grantsCache), set a | a in NamedAccounts(members))
    {
      accounts := gone;
      var j := 0;
      while j < |members|
        invariant j <= |members|
        invariant accounts == gone + NamedAccounts(members[..j])
        invariant grantsCache == Forget(old(grantsCache), set a | a in NamedAccounts(members[..j]))
      {
        var account := AccountOf(members[j]);
        assert members[..j + 1] == members[..j] + [members[j]];
        NamedAccountsAppend(members[..j], members[j]);
        if account != "" {
          accounts := accounts + [account];
          ForgetAccount(account);
        }
        j := j + 1;
      }
      assert members[..j] == members;
    }

    /** The loop over the bindings; the cache is trimmed on the way. */
    method ScanExpired(policy: seq<Binding>, now: Time)
      returns (bindings: seq<Binding>, gone: seq<string>, expiredCount: nat)
      modifies this`grantsCache
      ensures bindings == Unexpired(policy, now)
      ensures gone == ExpiredAccounts(policy, now)
      ensures expiredCount == 0 <==> forall k :: 0 <= k < |policy| ==> !Expired(policy[k], now)
      ensures grantsCache == Forget(old(grantsCache), set a | a in gone)
    {
      bindings, gone, expiredCount := [], [], 0;
      var i := 0;
      while i < |policy|
        invariant i <= |policy|
        invariant bindings + Unexpired(policy[i..], now) == Unexpired(policy, now)
        invariant gone + ExpiredAccounts(policy[i..], now) == ExpiredAccounts(policy, now)
        invariant grantsCache == Forget(old(grantsCache), set a | a in gone)
        invariant expiredCount == 0 <==> forall k :: 0 <= k < i ==> !Expired(policy[k], now)
      {
        var b := policy[i];
        assert policy[i..][1..] == policy[i + 1..];
        ghost var restB, restA := Unexpired(policy[i + 1..], now), ExpiredAccounts(policy[i + 1..], now);
        if IsTemp(b) && Expiration(b).Some? && Expiration(b).value < now {
          assert Unexpired(policy[i..], now) == [] + restB == restB;
          assert gone + (NamedAccounts(b.members) + restA) == (gone + NamedAccounts(b.members)) + restA;
          expiredCount := expiredCount + 1;
          gone := ForgetMembers(b.members, gone);
        } else {
          assert bindings + ([b] + restB) == (bindings + [b]) + restB;
          assert ExpiredAccounts(policy[i..], now) == [] + restA == restA;
          bindings := bindings + [b];
        }
        i := i + 1;
      }
      assert policy[i..] == [];
    }

    method Cleanup(now: Time, faults: CleanupFaults) returns (r: Outcome)
      modifies this, cloud
      ensures (View(), r) == CleanupExpired(cfg, old(View()), now, faults)
    {
      if !cfg.enabled {
        return Done;
      }
      if faults.getPolicy {
        return Failed;
      }
      var bindings, gone, expiredCount := ScanExpired(cloud.policy, now);
      if expiredCount == 0 {
        NothingExpired(cloud.policy, now);
        assert grantsCache == old(grantsCache);
        return Done;
      }
      if faults.setPolicy {
        return Failed;
      }
      cloud.policy := bindings;
      DeleteAll(gone, faults.delete);
      r := Done;
    }

    method DeleteAll(gone: seq<string>, undeletable: set<string>)
      modifies cloud`accounts
      ensures cloud.accounts == old(cloud.accounts) - ((set a | a in gone) - undeletable)
    {
      var j := 0;
      while j < |gone|
        modifies cloud`accounts
        invariant j <= |gone|
        invariant cloud.accounts == old(cloud.accounts) - ((set a | a in gone[..j]) - undeletable)
      {
        assert gone[..j + 1] == gone[..j] + [gone[j]];
        cloud.Delete(gone[j], gone[j] in undeletable);
        j := j + 1;
      }
      assert gone[..j] == gone;
    }
  }

  lemma {:induction false} NamedAccountsAppend(members: seq<string>, m: string)
    ensures NamedAccounts(members + [m]) ==
            NamedAccounts(members) + (if AccountOf(m) != "" then [AccountOf(m)] else [])
  {
    if members == [] {
      assert (members + [m])[1..] == [];
      assert NamedAccounts([]) == [];
    } else {
      assert (members + [m])[1..] == members[1..] + [m] && (members + [m])[0] == members[0];
      NamedAccountsAppend(members[1..], m);
      var head := if AccountOf(members[0]) != "" then [AccountOf(members[0])] else [];
      var last := if AccountOf(m) != "" then [AccountOf(m)] else [];
      assert head + (NamedAccounts(members[1..]) + last) == (head + NamedAccounts(members[1..])) + last;
    }
  }

  lemma {:induction false} UntouchedPolicy(policy: seq<Binding>, member: string)
    requires !Touches(policy, member)
    ensures RemoveMember(policy, member) == policy
  {
    if policy != [] {
      assert !Holds(policy[0], member);
      assert !Touches(policy[1..], member) by {
        forall k | 0 <= k < |policy[1..]| ensures !Holds(policy[1..][k], member) {
          assert policy[1..][k] == policy[k + 1];
        }
      }
      UntouchedPolicy(policy[1..], member);
    }
  }

  lemma {:induction false} NothingExpired(policy: seq<Binding>, now: Time)
    requires forall k :: 0 <= k < |policy| ==> !Expired(policy[k], now)
    ensures ExpiredAccounts(policy, now) == []
  {
    if policy != [] {
      assert forall k :: 0 <= k < |policy[1..]| ==> policy[1..][k] == policy[k + 1];
      NothingExpired(policy[1..], now);
    }
  }
}
