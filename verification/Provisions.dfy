/**
 * The provision cache of the MCE sync: only metadata is listed, and the full
 * object is fetched when its resource version is not the cached one.
 */
module Provisions {
  import opened Wrappers

  type Time = int

  datatype Key = Key(namespace: string, name: string)

  datatype Provision = Provision(key: Key, version: nat, created: Time, stage: string, installLog: Option<string>)

  const FAILED := "failed"

  /** One state of the remote side: its objects, and those listed for each deployment, in order. */
  datatype Remote = Remote(objects: map<Key, Provision>, listed: map<string, seq<Key>>)

  function Listed(r: Remote, deployment: string): seq<Key> {
    if deployment in r.listed then r.listed[deployment] else []
  }

  predicate WellFormed(r: Remote) {
    && (forall k :: k in r.objects ==> r.objects[k].key == k)
    && (forall d :: d in r.listed ==> forall k :: k in r.listed[d] ==> k in r.objects)
  }

  /** A provision as it is cached. */
  function Bare(p: Provision): Provision {
    p.(installLog := None)
  }

  /**
   * What one deployment meets in a sync: the remote state its list call saw and
   * the one its get call saw, which may be a later one; `None` for a failed call.
   */
  datatype Fetch = Fetch(deployment: string, list: Option<Remote>, get: Option<Remote>)

  predicate FetchOk(f: Fetch) {
    (f.list.Some? ==> WellFormed(f.list.value)) && (f.get.Some? ==> WellFormed(f.get.value))
  }

  /** The first of the listed provisions with the latest creation. */
  predicate IsNewest(r: Remote, keys: seq<Key>, i: int)
    requires forall k :: k in keys ==> k in r.objects
  {
    && 0 <= i < |keys|
    && (forall j :: 0 <= j < |keys| ==> r.objects[keys[j]].created <= r.objects[keys[i]].created)
    && (forall j :: 0 <= j < i ==> r.objects[keys[j]].created < r.objects[keys[i]].created)
  }

  function Newest(r: Remote, keys: seq<Key>): (i: int)
    requires forall k :: k in keys ==> k in r.objects
    requires keys != []
    ensures IsNewest(r, keys, i)
  {
    var last := |keys| - 1;
    if last == 0 then 0
    else
      var i := Newest(r, keys[..last]);
      assert forall j :: 0 <= j < last ==> keys[..last][j] == keys[j];
      if r.objects[keys[last]].created > r.objects[keys[i]].created then last else i
  }

  /** How a deployment's entry comes about. */
  datatype Entry = Reused(p: Provision) | Fetched(p: Provision)

  function CarryOver(previous: map<string, Provision>, deployment: string): Option<Entry> {
    if deployment in previous then Some(Reused(previous[deployment])) else None
  }

  function SyncOne(previous: map<string, Provision>, f: Fetch): Option<Entry>
    requires FetchOk(f)
  {
    if f.list.None? then CarryOver(previous, f.deployment)
    else
      var keys := Listed(f.list.value, f.deployment);
      if keys == [] then None
      else
        var meta := f.list.value.objects[keys[Newest(f.list.value, keys)]];
        if f.deployment in previous && previous[f.deployment].key == meta.key
           && previous[f.deployment].version == meta.version
        then Some(Reused(previous[f.deployment]))
        else if f.get.Some? && meta.key in f.get.value.objects then Some(Fetched(f.get.value.objects[meta.key]))
        else CarryOver(previous, f.deployment)
  }

  predicate FetchesOk(fetches: seq<Fetch>) {
    forall f :: f in fetches ==> FetchOk(f)
  }

  /** The entries a sync collects; a later deployment of the same name wins. */
  function Entries(previous: map<string, Provision>, fetches: seq<Fetch>): map<string, Entry>
    requires FetchesOk(fetches)
  {
    if fetches == [] then map[]
    else
      var last := fetches[|fetches| - 1];
      var entries := Entries(previous, fetches[..|fetches| - 1]);
      var e := SyncOne(previous, last);
      if e.Some? then entries[last.deployment := e.value] else entries
  }

  /** The names for which an object was fetched. */
  function FetchedNames(previous: map<string, Provision>, fetches: seq<Fetch>): set<string>
    requires FetchesOk(fetches)
  {
    if fetches == [] then {}
    else
      var last := fetches[|fetches| - 1];
      var names := FetchedNames(previous, fetches[..|fetches| - 1]);
      var e := SyncOne(previous, last);
      if e.Some? && e.value.Fetched? then names + {last.deployment} else names
  }

  /** What a sync publishes: fetched entries lose their logs, reused ones are shared as they are. */
  function Sync(previous: map<string, Provision>, fetches: seq<Fetch>): map<string, Provision>
    requires FetchesOk(fetches)
  {
    var entries, fetched := Entries(previous, fetches), FetchedNames(previous, fetches);
    map n | n in entries :: if n in fetched then Bare(entries[n].p) else entries[n].p
  }

  predicate DistinctNames(fetches: seq<Fetch>) {
    forall i, j :: 0 <= i < j < |fetches| ==> fetches[i].deployment != fetches[j].deployment
  }

  // ----- every cached provision is real -----

  /** `p` without its log is a version of an object that was once listed for `deployment`. */
  predicate Real(history: seq<Remote>, deployment: string, p: Provision) {
    exists i, j :: 0 <= i < |history| && 0 <= j < |history| && p.key in history[i].objects
      && Bare(history[i].objects[p.key]) == Bare(p) && p.key in Listed(history[j], deployment)
  }

  predicate CacheReal(history: seq<Remote>, cache: map<string, Provision>) {
    forall n :: n in cache ==> cache[n].installLog.None? && Real(history, n, cache[n])
  }

  predicate SeenIn(f: Fetch, history: seq<Remote>) {
    (f.list.Some? ==> f.list.value in history) && (f.get.Some? ==> f.get.value in history)
  }

  lemma EntryReal(history: seq<Remote>, previous: map<string, Provision>, f: Fetch)
    requires CacheReal(history, previous) && FetchOk(f) && SeenIn(f, history)
    ensures SyncOne(previous, f).Some? ==> Real(history, f.deployment, SyncOne(previous, f).value.p)
  {
    var e := SyncOne(previous, f);
    if e.Some? && e.value.Fetched? {
      var keys := Listed(f.list.value, f.deployment);
      var meta := f.list.value.objects[keys[Newest(f.list.value, keys)]];
      var i :| 0 <= i < |history| && history[i] == f.get.value;
      var j :| 0 <= j < |history| && history[j] == f.list.value;
      assert e.value.p.key == meta.key;
      assert meta.key == keys[Newest(f.list.value, keys)];
    }
  }

  predicate FetchesSeen(fetches: seq<Fetch>, history: seq<Remote>) {
    forall f :: f in fetches ==> FetchOk(f) && SeenIn(f, history)
  }

  /** Each entry comes from one of the fetches. */
  lemma {:induction false} EntrySource(previous: map<string, Provision>, fetches: seq<Fetch>, n: string)
    returns (f: Fetch)
    requires FetchesOk(fetches) && n in Entries(previous, fetches)
    ensures f in fetches && f.deployment == n && SyncOne(previous, f) == Some(Entries(previous, fetches)[n])
    ensures Entries(previous, fetches)[n].Fetched? ==> n in FetchedNames(previous, fetches)
  {
    f := fetches[|fetches| - 1];
    if !(SyncOne(previous, f).Some? && f.deployment == n) {
      f := EntrySource(previous, fetches[..|fetches| - 1], n);
    }
  }

  lemma EntriesReal(history: seq<Remote>, previous: map<string, Provision>, fetches: seq<Fetch>, n: string)
    requires CacheReal(history, previous) && FetchesSeen(fetches, history)
    requires n in Entries(previous, fetches)
    ensures var e := Entries(previous, fetches)[n];
            && Real(history, n, e.p)
            && (e.Reused? ==> e.p.installLog.None?)
            && (e.Fetched? ==> n in FetchedNames(previous, fetches))
  {
    var f := EntrySource(previous, fetches, n);
    EntryReal(history, previous, f);
  }

  lemma BareReal(history: seq<Remote>, n: string, p: Provision)
    requires Real(history, n, p)
    ensures Real(history, n, Bare(p))
  {
    var i, j :| 0 <= i < |history| && 0 <= j < |history| && p.key in history[i].objects
      && Bare(history[i].objects[p.key]) == Bare(p) && p.key in Listed(history[j], n);
    assert Bare(history[i].objects[Bare(p).key]) == Bare(Bare(p));
  }

  lemma SyncReal(history: seq<Remote>, previous: map<string, Provision>, fetches: seq<Fetch>)
    requires CacheReal(history, previous) && FetchesSeen(fetches, history)
    ensures CacheReal(history, Sync(previous, fetches))
  {
    var cache := Sync(previous, fetches);
    forall n | n in cache ensures cache[n].installLog.None? && Real(history, n, cache[n]) {
      EntriesReal(history, previous, fetches, n);
      BareReal(history, n, Entries(previous, fetches)[n].p);
    }
  }

  predicate RunSeen(syncs: seq<seq<Fetch>>, history: seq<Remote>) {
    syncs != [] ==> FetchesSeen(syncs[0], history) && RunSeen(syncs[1..], history)
  }

  function Syncs(cache: map<string, Provision>, syncs: seq<seq<Fetch>>, history: seq<Remote>): map<string, Provision>
    requires RunSeen(syncs, history)
    decreases |syncs|
  {
    if syncs == [] then cache else Syncs(Sync(cache, syncs[0]), syncs[1..], history)
  }

  /** Over every run of syncs, whatever fails, the cache holds only provisions the remote had, without logs. */
  lemma {:induction false} EveryCacheReal(history: seq<Remote>, cache: map<string, Provision>, syncs: seq<seq<Fetch>>)
    requires CacheReal(history, cache) && RunSeen(syncs, history)
    ensures CacheReal(history, Syncs(cache, syncs, history))
    decreases |syncs|
  {
    if syncs != [] {
      SyncReal(history, cache, syncs[0]);
      EveryCacheReal(history, Sync(cache, syncs[0]), syncs[1..]);
    }
  }

  // ----- the cache agrees with fetching everything -----

  /** A resource version fixes the content of an object. */
  predicate VersionFixesContent(history: seq<Remote>) {
    forall i, j, k | 0 <= i < |history| && 0 <= j < |history| && k in history[i].objects && k in history[j].objects ::
      history[i].objects[k].version == history[j].objects[k].version ==> history[i].objects[k] == history[j].objects[k]
  }

  function NewestOf(r: Remote, d: string): Provision
    requires WellFormed(r) && Listed(r, d) != []
  {
    r.objects[Listed(r, d)[Newest(r, Listed(r, d))]]
  }

  /** The simple sync: fetch the newest provision of every deployment. */
  function FetchEverything(r: Remote, deployments: seq<string>): map<string, Provision>
    requires WellFormed(r)
  {
    map d | d in deployments && Listed(r, d) != [] :: Bare(NewestOf(r, d))
  }

  function Quiet(r: Remote, deployments: seq<string>): seq<Fetch> {
    seq(|deployments|, i requires 0 <= i < |deployments| => Fetch(deployments[i], Some(r), Some(r)))
  }

  /** The entry stands for the newest provision, and has a log only if it was fetched. */
  predicate Agrees(r: Remote, d: string, e: Entry) {
    && WellFormed(r) && Listed(r, d) != []
    && Bare(e.p) == Bare(NewestOf(r, d))
    && (e.Reused? ==> e.p.installLog.None?)
  }

  lemma QuietEntry(history: seq<Remote>, previous: map<string, Provision>, r: Remote, d: string)
    requires WellFormed(r) && r in history && VersionFixesContent(history) && CacheReal(history, previous)
    ensures var e := SyncOne(previous, Fetch(d, Some(r), Some(r)));
            (e.Some? <==> Listed(r, d) != []) && (e.Some? ==> Agrees(r, d, e.value))
  {
    var e := SyncOne(previous, Fetch(d, Some(r), Some(r)));
    var keys := Listed(r, d);
    if keys != [] {
      var k := keys[Newest(r, keys)];
      assert k in r.objects;
      if e.value.Reused? {
        var p := previous[d];
        assert Real(history, d, p);
        var i, j :| 0 <= i < |history| && 0 <= j < |history| && p.key in history[i].objects
          && Bare(history[i].objects[p.key]) == Bare(p) && p.key in Listed(history[j], d);
        var m :| 0 <= m < |history| && history[m] == r;
        assert p.key == k;
        assert history[i].objects[k].version == history[m].objects[k].version;
      }
    }
  }

  lemma QuietLast(r: Remote, deployments: seq<string>)
    requires deployments != []
    ensures var last, fetches := |deployments| - 1, Quiet(r, deployments);
            && |fetches| == last + 1
            && fetches[..last] == Quiet(r, deployments[..last])
            && fetches[last] == Fetch(deployments[last], Some(r), Some(r))
  {
  }

  lemma {:induction false} QuietEntries(history: seq<Remote>, previous: map<string, Provision>, r: Remote,
                                        deployments: seq<string>, n: string)
    requires WellFormed(r) && r in history && VersionFixesContent(history) && CacheReal(history, previous)
    ensures var fetches := Quiet(r, deployments);
            var entries, fetched := Entries(previous, fetches), FetchedNames(previous, fetches);
            && (n in entries <==> n in deployments && Listed(r, n) != [])
            && (n in entries ==> Agrees(r, n, entries[n]) && (entries[n].Fetched? ==> n in fetched))
    decreases |deployments|
  {
    if deployments != [] {
      var d := deployments[|deployments| - 1];
      var front := deployments[..|deployments| - 1];
      QuietLast(r, deployments);
      QuietEntries(history, previous, r, front, n);
      QuietEntry(history, previous, r, d);
      assert deployments == front + [d];
    }
  }

  lemma QuietName(history: seq<Remote>, previous: map<string, Provision>, r: Remote, deployments: seq<string>,
                  n: string)
    requires WellFormed(r) && r in history && VersionFixesContent(history) && CacheReal(history, previous)
    ensures var cache, plain := Sync(previous, Quiet(r, deployments)), FetchEverything(r, deployments);
            (n in cache <==> n in plain) && (n in cache ==> cache[n] == plain[n])
  {
    QuietEntries(history, previous, r, deployments, n);
  }

  lemma SameCache(a: map<string, Provision>, b: map<string, Provision>)
    requires forall n :: (n in a <==> n in b) && (n in a ==> a[n] == b[n])
    ensures a == b
  {
    assert a.Keys == b.Keys;
  }

  /** A failure-free sync against a resting remote caches what fetching everything would. */
  lemma CacheIsTransparent(history: seq<Remote>, previous: map<string, Provision>, r: Remote, deployments: seq<string>)
    requires WellFormed(r) && r in history && VersionFixesContent(history) && CacheReal(history, previous)
    ensures Sync(previous, Quiet(r, deployments)) == FetchEverything(r, deployments)
  {
    var cache, plain := Sync(previous, Quiet(r, deployments)), FetchEverything(r, deployments);
    forall n ensures (n in cache <==> n in plain) && (n in cache ==> cache[n] == plain[n]) {
      QuietName(history, previous, r, deployments, n);
    }
    SameCache(cache, plain);
  }

  /** Each deployment with listed provisions then has its newest one cached, without its log, and no other has any. */
  lemma CachedIsNewest(history: seq<Remote>, previous: map<string, Provision>, r: Remote, deployments: seq<string>,
                       d: string)
    returns (i: int)
    requires WellFormed(r) && r in history && VersionFixesContent(history) && CacheReal(history, previous)
    ensures var cache := Sync(previous, Quiet(r, deployments));
            && (d in cache <==> d in deployments && d in r.listed && r.listed[d] != [])
            && (d in cache ==>
                  IsNewest(r, r.listed[d], i) && cache[d] == r.objects[r.listed[d][i]].(installLog := None))
  {
    CacheIsTransparent(history, previous, r, deployments);
    i := if Listed(r, d) != [] then Newest(r, Listed(r, d)) else 0;
  }

  /** Which fetch made the entry of a deployment, when names are distinct. */
  lemma {:induction false} EntryOf(previous: map<string, Provision>, fetches: seq<Fetch>, i: nat)
    requires FetchesOk(fetches) && DistinctNames(fetches) && i < |fetches|
    ensures var d, e := fetches[i].deployment, SyncOne(previous, fetches[i]);
            && (d in Entries(previous, fetches) <==> e.Some?)
            && (e.Some? ==> Entries(previous, fetches)[d] == e.value)
  {
    var n := |fetches| - 1;
    if i < n {
      EntryOf(previous, fetches[..n], i);
    } else {
      assert forall f :: f in fetches[..n] ==> f.deployment != fetches[n].deployment;
      EntriesAreDeployments(previous, fetches[..n], fetches[n].deployment);
    }
  }

  /** The list call fails, or the get call for the newest provision fails or finds it gone. */
  predicate CannotRetrieve(f: Fetch) {
    && FetchOk(f)
    && (|| f.list.None?
        || (Listed(f.list.value, f.deployment) != []
            && (f.get.None? || NewestOf(f.list.value, f.deployment).key !in f.get.value.objects)))
  }

  /** A failed list or get, or an object that is gone by then, neither drops the cached provision nor replaces it. */
  lemma FailureKeepsCached(history: seq<Remote>, previous: map<string, Provision>, fetches: seq<Fetch>, i: nat)
    requires FetchesOk(fetches) && DistinctNames(fetches) && i < |fetches| && CacheReal(history, previous)
    requires fetches[i].deployment in previous
    requires CannotRetrieve(fetches[i])
    ensures var d := fetches[i].deployment;
            d in Sync(previous, fetches) && Sync(previous, fetches)[d] == previous[d]
  {
    EntryOf(previous, fetches, i);
    FetchedEntries(previous, fetches, fetches[i].deployment);
  }

  // ----- only fetched objects are stripped -----

  lemma {:induction false} EntriesAreDeployments(previous: map<string, Provision>, fetches: seq<Fetch>, n: string)
    requires FetchesOk(fetches)
    requires forall f :: f in fetches ==> f.deployment != n
    ensures n !in Entries(previous, fetches) && n !in FetchedNames(previous, fetches)
  {
    if fetches != [] {
      EntriesAreDeployments(previous, fetches[..|fetches| - 1], n);
    }
  }

  /** With distinct names the fetched names are exactly those whose entry is a fetched object. */
  lemma {:induction false} FetchedEntries(previous: map<string, Provision>, fetches: seq<Fetch>, n: string)
    requires FetchesOk(fetches) && DistinctNames(fetches)
    ensures n in FetchedNames(previous, fetches) <==>
            n in Entries(previous, fetches) && Entries(previous, fetches)[n].Fetched?
  {
    if fetches != [] {
      var front := fetches[..|fetches| - 1];
      var last := fetches[|fetches| - 1];
      FetchedEntries(previous, front, n);
      EntriesAreDeployments(previous, front, last.deployment);
    }
  }

  // ----- what is listed -----

  /** Deployments are looked up one per namespace, under the namespace's own name; `gone` are not found. */
  function Present(namespaces: seq<string>, gone: set<string>): seq<string> {
    if namespaces == [] then []
    else
      var last := namespaces[|namespaces| - 1];
      Present(namespaces[..|namespaces| - 1], gone) + if last in gone then [] else [last]
  }

  predicate Distinct(names: seq<string>) {
    forall i, j :: 0 <= i < j < |names| ==> names[i] != names[j]
  }

  /** What the two calls for a deployment meet. */
  datatype Calls = Calls(list: Option<Remote>, get: Option<Remote>)

  function FetchesFor(deployments: seq<string>, calls: string -> Calls): seq<Fetch> {
    seq(|deployments|,
        i requires 0 <= i < |deployments| =>
          Fetch(deployments[i], calls(deployments[i]).list, calls(deployments[i]).get))
  }

  lemma {:induction false} PresentIsFilter(namespaces: seq<string>, gone: set<string>)
    ensures forall n :: n in Present(namespaces, gone) <==> n in namespaces && n !in gone
    ensures Distinct(namespaces) ==> Distinct(Present(namespaces, gone))
  {
    if namespaces != [] {
      var last := namespaces[|namespaces| - 1];
      var front := namespaces[..|namespaces| - 1];
      assert namespaces == front + [last];
      PresentIsFilter(front, gone);
      if Distinct(namespaces) {
        assert Distinct(front) && last !in front;
      }
    }
  }

  /**
   * The deployments of a sync always have distinct names, because there is one per
   * namespace and it is named like the namespace.
   */
  lemma ListedNamesDistinct(namespaces: seq<string>, gone: set<string>, calls: string -> Calls)
    requires Distinct(namespaces)
    ensures DistinctNames(FetchesFor(Present(namespaces, gone), calls))
  {
    PresentIsFilter(namespaces, gone);
  }
}
