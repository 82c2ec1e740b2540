/**
 * The same sync over shared objects. Readers hold references into earlier
 * caches, so a sync may write only to objects it has just fetched.
 */
module ProvisionObjects {
  import opened Wrappers
  import opened Provisions

  class ProvisionObject {
    var value: Provision

    constructor (value: Provision)
      ensures this.value == value
    {
      this.value := value;
    }
  }

  /** The scan for the newest listed provision. */
  method FindNewest(r: Remote, keys: seq<Key>) returns (newest: nat)
    requires WellFormed(r) && keys != [] && forall k :: k in keys ==> k in r.objects
    ensures IsNewest(r, keys, newest) && newest == Newest(r, keys)
  {
    newest := 0;
    for i := 1 to |keys|
      invariant IsNewest(r, keys[..i], newest)
    {
      assert forall j :: 0 <= j < i ==> keys[..i + 1][j] == keys[..i][j] == keys[j];
      assert keys[..i + 1][i] == keys[i];
      if r.objects[keys[i]].created > r.objects[keys[newest]].created {
        newest := i;
      }
    }
    assert keys[..|keys|] == keys;
    NewestUnique(r, keys, newest, Newest(r, keys));
  }

  lemma NewestUnique(r: Remote, keys: seq<Key>, i: int, j: int)
    requires forall k :: k in keys ==> k in r.objects
    requires IsNewest(r, keys, i) && IsNewest(r, keys, j)
    ensures i == j
  {
    assert r.objects[keys[i]].created == r.objects[keys[j]].created;
  }

  /** The loop over the namespaces; the namespace is also the name of its cluster and of its deployment. */
  method ListManagedClusters(namespaces: seq<string>, clusterGone: set<string>, deploymentGone: set<string>)
    returns (clusters: seq<string>, deployments: seq<string>)
    ensures clusters == Present(namespaces, clusterGone) && deployments == Present(namespaces, deploymentGone)
  {
    clusters, deployments := [], [];
    for i := 0 to |namespaces|
      invariant clusters == Present(namespaces[..i], clusterGone)
      invariant deployments == Present(namespaces[..i], deploymentGone)
    {
      assert namespaces[..i + 1][..i] == namespaces[..i];
      if namespaces[i] !in clusterGone {
        clusters := clusters + [namespaces[i]];
      }
      if namespaces[i] !in deploymentGone {
        deployments := deployments + [namespaces[i]];
      }
    }
    assert namespaces[..|namespaces|] == namespaces;
  }

  class MceClusters {
    var provisions: map<string, ProvisionObject>

    ghost function Cached(): map<string, Provision>
      reads this, set n | n in provisions :: provisions[n]
    {
      map n | n in provisions :: provisions[n].value
    }

    constructor ()
      ensures provisions == map[]
    {
      provisions := map[];
    }

    method Entry(f: Fetch) returns (o: Option<ProvisionObject>, isNew: bool)
      requires FetchOk(f)
      ensures var e := SyncOne(Cached(), f);
              && (o.Some? <==> e.Some?)
              && (isNew <==> e.Some? && e.value.Fetched?)
              && (o.Some? ==> o.value.value == e.value.p)
              && (o.Some? && e.value.Fetched? ==> fresh(o.value))
              && (o.Some? && e.value.Reused? ==> f.deployment in provisions && o.value == provisions[f.deployment])
    {
      var d := f.deployment;
      var carried := if d in provisions then Some(provisions[d]) else None;
      if f.list.None? {
        return carried, false;
      }
      var keys := Listed(f.list.value, d);
      if keys == [] {
        return None, false;
      }
      var newest := FindNewest(f.list.value, keys);
      assert keys[newest] in f.list.value.objects;
      var meta := f.list.value.objects[keys[newest]];
      if d in provisions && provisions[d].value.key == meta.key && provisions[d].value.version == meta.version {
        return carried, false;
      }
      if f.get.None? || meta.key !in f.get.value.objects {
        return carried, false;
      }
      var full := new ProvisionObject(f.get.value.objects[meta.key]);
      o, isNew := Some(full), true;
    }

    method SyncProvisions(fetches: seq<Fetch>) returns (result: map<string, ProvisionObject>, fetched: set<string>)
      requires FetchesOk(fetches)
      ensures result.Keys == Entries(Cached(), fetches).Keys
      ensures fetched == FetchedNames(Cached(), fetches)
      ensures forall n :: n in result ==>
        var e := Entries(Cached(), fetches)[n];
        && result[n].value == e.p
        && (e.Fetched? ==> fresh(result[n]))
        && (e.Reused? ==> n in provisions && result[n] == provisions[n])
    {
      ghost var previous := Cached();
      result, fetched := map[], {};
      for i := 0 to |fetches|
        invariant Cached() == previous
        invariant result.Keys == Entries(previous, fetches[..i]).Keys
        invariant fetched == FetchedNames(previous, fetches[..i])
        invariant forall n :: n in result ==>
          var e := Entries(previous, fetches[..i])[n];
          && result[n].value == e.p
          && (e.Fetched? ==> fresh(result[n]))
          && (e.Reused? ==> n in provisions && result[n] == provisions[n])
      {
        var f := fetches[i];
        assert fetches[..i + 1][..i] == fetches[..i];
        var o, isNew := Entry(f);
        if o.Some? {
          result := result[f.deployment := o.value];
          if isNew {
            fetched := fetched + {f.deployment};
          }
        }
      }
      assert fetches[..|fetches|] == fetches;
    }

    method StripInstallLogs(result: map<string, ProvisionObject>, fetched: set<string>)
      requires forall m, n :: m in result && n in result && m in fetched && n !in fetched ==> result[m] != result[n]
      modifies set n | n in result && n in fetched :: result[n]
      ensures forall n :: n in result ==>
        result[n].value == if n in fetched then Bare(old(result[n].value)) else old(result[n].value)
    {
      var names := result.Keys;
      ghost var done: set<ProvisionObject> := {};
      while names != {}
        invariant names <= result.Keys
        invariant forall o :: o in done ==> exists m :: m in result && m in fetched && result[m] == o
        invariant forall m :: m in result && m in fetched && m !in names ==> result[m] in done
        invariant forall n :: n in result ==>
          result[n].value == if result[n] in done then Bare(old(result[n].value)) else old(result[n].value)
        decreases |names|
      {
        var n :| n in names;
        if n in fetched {
          result[n].value := result[n].value.(installLog := None);
          done := done + {result[n]};
        }
        names := names - {n};
      }
    }

    /** Fetches and strips; nothing that existed before is written to. */
    method FetchAndStrip(fetches: seq<Fetch>) returns (result: map<string, ProvisionObject>)
      requires FetchesOk(fetches) && DistinctNames(fetches)
      ensures result.Keys == Entries(old(Cached()), fetches).Keys
      ensures forall n :: n in result ==>
        if n in FetchedNames(old(Cached()), fetches)
        then fresh(result[n]) && result[n].value == Bare(Entries(old(Cached()), fetches)[n].p)
        else n in provisions && result[n] == provisions[n] && result[n].value == Entries(old(Cached()), fetches)[n].p
    {
      ghost var previous := Cached();
      var fetched;
      result, fetched := SyncProvisions(fetches);
      forall n | n in result ensures n in fetched <==> Entries(previous, fetches)[n].Fetched? {
        FetchedEntries(previous, fetches, n);
      }
      StripInstallLogs(result, fetched);
    }

    /**
     * A sync publishes the cache the value model gives, and writes to nothing
     * but the cache field: every object that existed before is as it was.
     */
    method Sync(fetches: seq<Fetch>)
      requires FetchesOk(fetches) && DistinctNames(fetches)
      modifies this
      ensures Cached() == Provisions.Sync(old(Cached()), fetches)
      ensures forall n :: n in provisions ==>
        if n in FetchedNames(old(Cached()), fetches) then fresh(provisions[n])
        else n in old(provisions) && provisions[n] == old(provisions)[n]
    {
      provisions := FetchAndStrip(fetches);
    }

    /** The sync as it is fed: a failed list of the namespaces changes nothing. */
    method SyncListed(namespaces: Option<seq<string>>, clusterGone: set<string>, deploymentGone: set<string>,
                      calls: string -> Calls)
      requires namespaces.Some? ==> Distinct(namespaces.value)
      requires forall d :: FetchOk(Fetch(d, calls(d).list, calls(d).get))
      modifies this
      ensures namespaces.None? ==> provisions == old(provisions) && Cached() == old(Cached())
      ensures namespaces.Some? ==>
        Cached() == Provisions.Sync(old(Cached()), FetchesFor(Present(namespaces.value, deploymentGone), calls))
      ensures forall n :: n in provisions ==>
        fresh(provisions[n]) || (n in old(provisions) && provisions[n] == old(provisions)[n])
    {
      if namespaces.None? {
        return;
      }
      var _, deployments := ListManagedClusters(namespaces.value, clusterGone, deploymentGone);
      ListedNamesDistinct(namespaces.value, deploymentGone, calls);
      Sync(FetchesFor(deployments, calls));
    }

    /** The reader: a failed provision the remote side still has is fetched again, any other comes from the cache. */
    method ProvisionForNotification(name: string, remote: Option<Remote>) returns (p: ProvisionObject?)
      ensures p == null <==> name !in provisions
      ensures name in provisions ==>
        var cached := provisions[name].value;
        if cached.stage == "failed" && remote.Some? && cached.key in remote.value.objects
        then fresh(p) && p.value == remote.value.objects[cached.key]
        else p == provisions[name]
    {
      if name !in provisions {
        return null;
      }
      var cached := provisions[name];
      if cached.value.stage != FAILED || remote.None? || cached.value.key !in remote.value.objects {
        return cached;
      }
      p := new ProvisionObject(remote.value.objects[cached.value.key]);
    }
  }
}
