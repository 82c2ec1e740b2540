/**
 * The ROSA cluster limit: creations reserve a slot, create remotely, enter the
 * cached list and give the slot back, while syncs replace the list with what
 * they saw earlier.
 */
module RosaCapacity {
  import opened FiniteSets

  type Id = nat
  type Thread = nat

  /** Where a creation stands; all three phases hold a slot. */
  datatype Phase = Admitted | Created(id: Id) | Inserted(id: Id)

  datatype State = State(
    limit: nat,
    existing: set<Id>,                // clusters that exist remotely
    cached: set<Id>,                  // the bot's cluster list
    pending: int,                     // its slot counter
    creations: map<Thread, Phase>,
    listings: map<Thread, set<Id>>)   // what running syncs have fetched

  datatype Action =
    | Admit(creation: Thread)
    | Create(creation: Thread, id: Id)
    | Insert(creation: Thread)
    | Release(creation: Thread)
    | Delete(id: Id)
    | List(sync: Thread)
    | Publish(sync: Thread)

  predicate Refused(s: State) {
    s.limit != 0 && |s.cached| + s.pending >= s.limit
  }

  predicate Enabled(s: State, a: Action) {
    match a
    case Admit(t) => t !in s.creations
    case Create(t, id) => t in s.creations && s.creations[t] == Admitted && id !in s.existing
    case Insert(t) => t in s.creations && s.creations[t].Created?
    // a creation ends before the remote call succeeded, or after the insertion
    case Release(t) => t in s.creations && !s.creations[t].Created?
    case Delete(id) => true
    case List(y) => y !in s.listings
    case Publish(y) => y in s.listings
  }

  function Step(s: State, a: Action): State
    requires Enabled(s, a)
  {
    match a
    case Admit(t) =>
      if Refused(s) then s else s.(pending := s.pending + 1, creations := s.creations[t := Admitted])
    case Create(t, id) =>
      s.(existing := s.existing + {id}, creations := s.creations[t := Created(id)])
    case Insert(t) =>
      s.(cached := s.cached + {s.creations[t].id}, creations := s.creations[t := Inserted(s.creations[t].id)])
    case Release(t) =>
      s.(pending := s.pending - 1, creations := s.creations - {t})
    case Delete(id) =>
      s.(existing := s.existing - {id})
    case List(y) =>
      s.(listings := s.listings[y := s.existing])
    case Publish(y) =>
      s.(cached := s.listings[y], listings := s.listings - {y})
  }

  predicate Legal(s: State, run: seq<Action>)
    decreases |run|
  {
    run != [] ==> Enabled(s, run[0]) && Legal(Step(s, run[0]), run[1..])
  }

  function Run(s: State, run: seq<Action>): State
    requires Legal(s, run)
    decreases |run|
  {
    if run == [] then s else Run(Step(s, run[0]), run[1..])
  }

  // ----- the bound -----

  /** Creations that have not created anything yet. */
  function AdmittedIn(s: State): set<Thread> {
    set t | t in s.creations && s.creations[t].Admitted?
  }

  function CreatedIn(s: State): set<Thread> {
    set t | t in s.creations && s.creations[t].Created?
  }

  function CreatedIds(s: State): set<Id> {
    set t | t in s.creations && s.creations[t].Created? :: s.creations[t].id
  }

  /** Clusters that exist plus creations that may still add one. */
  function Load(s: State): nat {
    |s.existing| + |AdmittedIn(s)|
  }

  /** Existing clusters that neither the list nor a creation about to insert accounts for. */
  function Missed(s: State): set<Id> {
    s.existing - s.cached - CreatedIds(s)
  }

  predicate SlotsCounted(s: State) {
    s.pending == |s.creations|
  }

  lemma RemoveKey<K, V>(m: map<K, V>, k: K)
    requires k in m
    ensures |m - {k}| == |m| - 1
  {
    assert (m - {k}).Keys == m.Keys - {k};
  }

  lemma SetKey<K, V>(m: map<K, V>, k: K, v: V)
    ensures |m[k := v]| == if k in m then |m| else |m| + 1
  {
    assert m[k := v].Keys == m.Keys + {k};
  }

  lemma SlotsStep(s: State, a: Action)
    requires SlotsCounted(s) && Enabled(s, a)
    ensures SlotsCounted(Step(s, a))
  {
    match a
    case Create(t, id) => SetKey(s.creations, t, Created(id));
    case Insert(t) => SetKey(s.creations, t, Inserted(s.creations[t].id));
    case Release(t) => RemoveKey(s.creations, t);
    case Admit(t) => SetKey(s.creations, t, Admitted);
    case Delete(id) =>
    case List(y) =>
    case Publish(y) =>
  }

  /** Each creation accounts for at most one id. */
  lemma {:induction false} IdsAtMostThreads(s: State, threads: set<Thread>, ids: set<Id>)
    requires threads <= s.creations.Keys
    requires forall t :: t in threads ==> s.creations[t].Created?
    requires forall i :: i in ids ==> exists t :: t in threads && s.creations[t].id == i
    ensures |ids| <= |threads|
    decreases threads
  {
    if ids != {} {
      var i :| i in ids;
      var t :| t in threads && s.creations[t].id == i;
      forall j | j in ids - {i} ensures exists u :: u in threads - {t} && s.creations[u].id == j {
        var u :| u in threads && s.creations[u].id == j;
        assert u in threads - {t};
      }
      IdsAtMostThreads(s, threads - {t}, ids - {i});
    }
  }

  lemma UnionSize(a: set<Id>, b: set<Id>, c: set<Id>)
    ensures |a + b + c| <= |a| + |b| + |c|
  {
  }

  lemma ExistingAccountedFor(s: State)
    requires SlotsCounted(s)
    ensures |s.existing| + |AdmittedIn(s)| <= |s.cached| + s.pending + |Missed(s)|
  {
    var ids, missed, admitted, created := CreatedIds(s), Missed(s), AdmittedIn(s), CreatedIn(s);
    SubsetSize(s.existing, s.cached + ids + missed);
    UnionSize(s.cached, ids, missed);
    IdsAtMostThreads(s, created, ids);
    SubsetSize(admitted + created, s.creations.Keys);
    assert admitted !! created && |admitted + created| == |admitted| + |created|;
  }

  lemma AdmittedGrows(s: State, t: Thread)
    requires Enabled(s, Admit(t))
    ensures |AdmittedIn(Step(s, Admit(t)))| <= |AdmittedIn(s)| + 1
  {
    SubsetSize(AdmittedIn(Step(s, Admit(t))), AdmittedIn(s) + {t});
  }

  lemma AdmitBound(s: State, t: Thread)
    requires s.limit != 0 && SlotsCounted(s) && Enabled(s, Admit(t)) && !Refused(s)
    ensures Load(Step(s, Admit(t))) <= s.limit + |Missed(s)|
  {
    ExistingAccountedFor(s);
    AdmittedGrows(s, t);
  }

  lemma LoadStep(s: State, a: Action)
    requires Enabled(s, a) && !a.Admit?
    ensures Load(Step(s, a)) <= Load(s)
  {
    var s' := Step(s, a);
    match a
    case Create(t, id) => assert AdmittedIn(s') == AdmittedIn(s) - {t};
    case Insert(t) => assert AdmittedIn(s') == AdmittedIn(s);
    case Release(t) => assert AdmittedIn(s') == AdmittedIn(s) - {t};
    case Delete(id) => assert AdmittedIn(s') == AdmittedIn(s);
    case List(y) => assert AdmittedIn(s') == AdmittedIn(s);
    case Publish(y) => assert AdmittedIn(s') == AdmittedIn(s);
  }

  /** At most `slack` clusters are missed whenever a creation is let in. */
  predicate MissedAtMost(s: State, run: seq<Action>, slack: nat)
    requires Legal(s, run)
    decreases |run|
  {
    run != [] ==>
      && (run[0].Admit? && !Refused(s) ==> |Missed(s)| <= slack)
      && MissedAtMost(Step(s, run[0]), run[1..], slack)
  }

  /** In every run the limit is overshot by at most the clusters missed at an admission. */
  lemma {:induction false} OvershootBounded(s: State, run: seq<Action>, slack: nat)
    requires s.limit != 0 && SlotsCounted(s) && Load(s) <= s.limit + slack
    requires Legal(s, run) && MissedAtMost(s, run, slack)
    ensures Load(Run(s, run)) <= s.limit + slack
    decreases |run|
  {
    if run != [] {
      var s' := Step(s, run[0]);
      SlotsStep(s, run[0]);
      if run[0].Admit? {
        if !Refused(s) {
          AdmitBound(s, run[0].creation);
        }
      } else {
        LoadStep(s, run[0]);
      }
      OvershootBounded(s', run[1..], slack);
    }
  }

  /** Each published listing has every existing cluster that no running creation is about to insert. */
  predicate ListsComplete(s: State, run: seq<Action>)
    requires Legal(s, run)
    decreases |run|
  {
    run != [] ==>
      && (run[0].Publish? ==> s.existing - CreatedIds(s) <= s.listings[run[0].sync])
      && ListsComplete(Step(s, run[0]), run[1..])
  }

  lemma NothingMissedStep(s: State, a: Action)
    requires Enabled(s, a) && Missed(s) == {}
    requires a.Publish? ==> s.existing - CreatedIds(s) <= s.listings[a.sync]
    ensures Missed(Step(s, a)) == {}
  {
    var s' := Step(s, a);
    forall i | i in s'.existing ensures i in s'.cached || i in CreatedIds(s') {
      if i in CreatedIds(s) {
        var u :| u in s.creations && s.creations[u].Created? && s.creations[u].id == i;
        if a != Insert(u) {
          assert u in s'.creations && s'.creations[u] == Created(i);
        }
      } else if a.Create? && a.id == i {
        assert s'.creations[a.creation] == Created(i);
      } else {
        assert i in s.existing && i !in Missed(s);
      }
    }
  }

  lemma {:induction false} CompleteListsMissNothing(s: State, run: seq<Action>)
    requires Legal(s, run) && Missed(s) == {} && ListsComplete(s, run)
    ensures MissedAtMost(s, run, 0)
    decreases |run|
  {
    if run != [] {
      NothingMissedStep(s, run[0]);
      CompleteListsMissNothing(Step(s, run[0]), run[1..]);
    }
  }

  /** With complete listings the limit holds over every interleaving. */
  lemma LimitHolds(s: State, run: seq<Action>)
    requires s.limit != 0 && s.creations == map[] && s.pending == 0
    requires s.existing <= s.cached && |s.existing| <= s.limit
    requires Legal(s, run) && ListsComplete(s, run)
    ensures Load(Run(s, run)) <= s.limit
  {
    assert AdmittedIn(s) == {};
    CompleteListsMissNothing(s, run);
    OvershootBounded(s, run, 0);
  }

  lemma Unfold(s: State, a: Action, s': State, rest: seq<Action>)
    requires Enabled(s, a) && Step(s, a) == s' && Legal(s', rest)
    ensures Legal(s, [a] + rest) && Run(s, [a] + rest) == Run(s', rest)
    ensures forall slack: nat ::
      MissedAtMost(s', rest, slack) && (a.Admit? && !Refused(s) ==> |Missed(s)| <= slack) ==>
        MissedAtMost(s, [a] + rest, slack)
  {
    assert ([a] + rest)[1..] == rest;
  }

  /** A whole creation adds its cluster on both sides and gives its slot back. */
  lemma CreationRoundTrip(s: State, t: Thread, id: Id)
    requires t !in s.creations && !Refused(s) && id !in s.existing
    ensures var run := [Admit(t), Create(t, id), Insert(t), Release(t)];
            Legal(s, run) &&
            Run(s, run) == s.(existing := s.existing + {id}, cached := s.cached + {id})
  {
    var s1 := Step(s, Admit(t));
    var s2 := Step(s1, Create(t, id));
    var s3 := Step(s2, Insert(t));
    var s4 := Step(s3, Release(t));
    Unfold(s3, Release(t), s4, []);
    Unfold(s2, Insert(t), s3, [Release(t)]);
    Unfold(s1, Create(t, id), s2, [Insert(t), Release(t)]);
    Unfold(s, Admit(t), s1, [Create(t, id), Insert(t), Release(t)]);
    assert [Insert(t)] + [Release(t)] == [Insert(t), Release(t)];
    assert [Create(t, id)] + [Insert(t), Release(t)] == [Create(t, id), Insert(t), Release(t)];
    assert [Admit(t)] + [Create(t, id), Insert(t), Release(t)] == [Admit(t), Create(t, id), Insert(t), Release(t)];
    assert s4.creations == s.creations;
  }

  lemma DeletionListed(s: State, id: Id, y: Thread)
    requires y !in s.listings
    ensures var run := [Delete(id), List(y), Publish(y)];
            Legal(s, run) && Run(s, run) == s.(existing := s.existing - {id}, cached := s.existing - {id})
  {
    var s1 := Step(s, Delete(id));
    var s2 := Step(s1, List(y));
    var s3 := Step(s2, Publish(y));
    assert s3.listings == s.listings;
    assert Legal(s3, []) && Run(s3, []) == s3;
    Unfold(s2, Publish(y), s3, []);
    assert [Publish(y)] + [] == [Publish(y)];
    Unfold(s1, List(y), s2, [Publish(y)]);
    assert [List(y)] + [Publish(y)] == [List(y), Publish(y)];
    Unfold(s, Delete(id), s1, [List(y), Publish(y)]);
    assert [Delete(id)] + [List(y), Publish(y)] == [Delete(id), List(y), Publish(y)];
  }

  /** Whatever is deleted makes room as soon as a sync has listed and published again. */
  lemma DeletionMakesRoom(s: State, id: Id, y: Thread, t: Thread)
    requires y !in s.listings && t !in s.creations
    ensures var run := [Delete(id), List(y), Publish(y)];
            && Legal(s, run) && Enabled(Run(s, run), Admit(t))
            && (t in Step(Run(s, run), Admit(t)).creations <==>
                  s.limit == 0 || |s.existing - {id}| + s.pending < s.limit)
  {
    DeletionListed(s, id, y);
  }

  // ----- the bound is reached -----

  /** Some run leads from `s` to `s'` and misses at most `slack` clusters at its admissions. */
  ghost predicate Reaches(s: State, s': State, slack: nat) {
    exists run :: Legal(s, run) && MissedAtMost(s, run, slack) && Run(s, run) == s'
  }

  lemma {:induction false} RunConcat(s: State, x: seq<Action>, y: seq<Action>, slack: nat)
    requires Legal(s, x) && MissedAtMost(s, x, slack) && Legal(Run(s, x), y) && MissedAtMost(Run(s, x), y, slack)
    ensures Legal(s, x + y) && MissedAtMost(s, x + y, slack) && Run(s, x + y) == Run(Run(s, x), y)
    decreases |x|
  {
    if x == [] {
      assert x + y == y;
    } else {
      assert (x + y)[0] == x[0] && (x + y)[1..] == x[1..] + y;
      RunConcat(Step(s, x[0]), x[1..], y, slack);
    }
  }

  lemma ReachesThrough(s: State, mid: State, s': State, slack: nat)
    requires Reaches(s, mid, slack) && Reaches(mid, s', slack)
    ensures Reaches(s, s', slack)
  {
    var x :| Legal(s, x) && MissedAtMost(s, x, slack) && Run(s, x) == mid;
    var y :| Legal(mid, y) && MissedAtMost(mid, y, slack) && Run(mid, y) == s';
    RunConcat(s, x, y, slack);
  }

  lemma ReachesItself(s: State, slack: nat)
    ensures Reaches(s, s, slack)
  {
    assert Legal(s, []) && MissedAtMost(s, [], slack) && Run(s, []) == s;
  }

  lemma ReachesByStep(s: State, a: Action, slack: nat)
    requires Enabled(s, a) && !a.Admit?
    ensures Reaches(s, Step(s, a), slack)
  {
    Unfold(s, a, Step(s, a), []);
    assert MissedAtMost(s, [a] + [], slack);
  }

  lemma ReachesByCreation(s: State, t: Thread, id: Id, slack: nat)
    requires t !in s.creations && !Refused(s) && id !in s.existing && |Missed(s)| <= slack
    ensures Reaches(s, s.(existing := s.existing + {id}, cached := s.cached + {id}), slack)
  {
    var run := [Admit(t), Create(t, id), Insert(t), Release(t)];
    CreationRoundTrip(s, t, id);
    assert run[1..] == [Create(t, id), Insert(t), Release(t)];
    var s1 := Step(s, Admit(t));
    OnlyFirstAdmits(s1, run[1..], slack);
  }

  lemma {:induction false} OnlyFirstAdmits(s: State, run: seq<Action>, slack: nat)
    requires Legal(s, run) && forall a :: a in run ==> !a.Admit?
    ensures MissedAtMost(s, run, slack)
    decreases |run|
  {
    if run != [] {
      assert run[0] in run;
      OnlyFirstAdmits(Step(s, run[0]), run[1..], slack);
    }
  }

  predicate Below(i: Id, n: nat) {
    i < n
  }

  function Upto(n: nat): set<Id> {
    set i: Id | i < n && Below(i, n)
  }

  lemma {:induction false} UptoSize(n: nat)
    ensures |Upto(n)| == n
  {
    if n > 0 {
      UptoSize(n - 1);
      assert Upto(n) == Upto(n - 1) + {n - 1};
    }
  }

  lemma GapSize(a: nat, b: nat)
    requires b <= a
    ensures |Upto(a) - Upto(b)| == a - b
  {
    UptoSize(a);
    UptoSize(b);
    assert Upto(a) == Upto(b) + (Upto(a) - Upto(b));
  }

  /** `a` clusters exist, the list has forgotten the first `b`, and the syncs from `k` to `m` hold empty listings. */
  function Idle(limit: nat, a: nat, b: nat, k: nat, m: nat): State {
    State(limit, Upto(a), Upto(a) - Upto(b), 0, map[], map y: Thread | y < m && Below(y, m) && k <= y :: {})
  }

  lemma IdleMissed(limit: nat, a: nat, b: nat, k: nat, m: nat)
    requires b <= a
    ensures |Missed(Idle(limit, a, b, k, m))| == b && |Idle(limit, a, b, k, m).cached| == a - b
    ensures Load(Idle(limit, a, b, k, m)) == a
  {
    var s := Idle(limit, a, b, k, m);
    assert CreatedIds(s) == {} && AdmittedIn(s) == {};
    assert Missed(s) == Upto(b);
    UptoSize(a);
    UptoSize(b);
    GapSize(a, b);
  }

  lemma IdleGrows(limit: nat, a: nat, b: nat, k: nat, m: nat)
    requires b <= a
    ensures var s := Idle(limit, a, b, k, m);
            s.(existing := s.existing + {a}, cached := s.cached + {a}) == Idle(limit, a + 1, b, k, m)
  {
    assert Upto(a + 1) == Upto(a) + {a};
    assert Upto(a + 1) - Upto(b) == (Upto(a) - Upto(b)) + {a};
  }

  lemma IdleStart(limit: nat)
    ensures Idle(limit, 0, 0, 0, 0) == State(limit, {}, {}, 0, map[], map[])
  {
    assert Upto(0) == {};
  }

  lemma FillOne(limit: nat, a: nat, b: nat, k: nat, m: nat, slack: nat)
    requires b <= a < b + limit && b <= slack
    ensures Reaches(Idle(limit, a, b, k, m), Idle(limit, a + 1, b, k, m), slack)
  {
    IdleMissed(limit, a, b, k, m);
    IdleGrows(limit, a, b, k, m);
    ReachesByCreation(Idle(limit, a, b, k, m), 0, a, slack);
  }

  /** Clusters are created while the list has room. */
  lemma {:induction false} FillUp(limit: nat, a: nat, full: nat, b: nat, k: nat, m: nat, slack: nat)
    requires b <= a <= full <= b + limit && b <= slack
    ensures Reaches(Idle(limit, a, b, k, m), Idle(limit, full, b, k, m), slack)
    decreases full - a
  {
    if a == full {
      ReachesItself(Idle(limit, a, b, k, m), slack);
    } else {
      FillOne(limit, a, b, k, m, slack);
      FillUp(limit, a + 1, full, b, k, m, slack);
      ReachesThrough(Idle(limit, a, b, k, m), Idle(limit, a + 1, b, k, m), Idle(limit, full, b, k, m), slack);
    }
  }

  /** A late sync empties the list. */
  lemma PublishEmpties(limit: nat, a: nat, b: nat, k: nat, m: nat, slack: nat)
    requires b <= a && k < m
    ensures Reaches(Idle(limit, a, b, k, m), Idle(limit, a, a, k + 1, m), slack)
  {
    var s := Idle(limit, a, b, k, m);
    ReachesByStep(s, Publish(k), slack);
    assert Step(s, Publish(k)) == Idle(limit, a, a, k + 1, m) by {
      assert Upto(a) - Upto(a) == {};
      assert s.listings - {k} == Idle(limit, a, a, k + 1, m).listings;
    }
  }

  lemma {:induction false} ListEmpty(limit: nat, m: nat, slack: nat)
    ensures Reaches(Idle(limit, 0, 0, 0, 0), Idle(limit, 0, 0, 0, m), slack)
  {
    if m == 0 {
      ReachesItself(Idle(limit, 0, 0, 0, 0), slack);
    } else {
      ListEmpty(limit, m - 1, slack);
      var s := Idle(limit, 0, 0, 0, m - 1);
      ReachesByStep(s, List(m - 1), slack);
      assert Upto(0) == {};
      assert Step(s, List(m - 1)) == Idle(limit, 0, 0, 0, m) by {
        assert s.listings[m - 1 := {}] == Idle(limit, 0, 0, 0, m).listings;
      }
      ReachesThrough(Idle(limit, 0, 0, 0, 0), s, Idle(limit, 0, 0, 0, m), slack);
    }
  }

  /** A late sync and another limit's worth of clusters. */
  lemma PublishAndFill(limit: nat, a: nat, b: nat, k: nat, m: nat, slack: nat)
    requires b <= a <= slack && k < m
    ensures Reaches(Idle(limit, a, b, k, m), Idle(limit, a + limit, a, k + 1, m), slack)
  {
    var emptied := Idle(limit, a, a, k + 1, m);
    PublishEmpties(limit, a, b, k, m, slack);
    FillUp(limit, a, a + limit, a, k + 1, m, slack);
    ReachesThrough(Idle(limit, a, b, k, m), emptied, Idle(limit, a + limit, a, k + 1, m), slack);
  }

  /** `n` batches of `limit` clusters. */
  function Batches(n: nat, limit: nat): nat {
    if n == 0 then 0 else Batches(n - 1, limit) + limit
  }

  lemma {:induction false} BatchesProduct(m: nat, limit: nat)
    ensures Batches(m, limit) == m * limit
  {
    if m > 0 {
      BatchesProduct(m - 1, limit);
    }
  }

  lemma FewThenSync(limit: nat, few: nat, m: nat, slack: nat)
    requires few <= limit && few <= slack && 0 < m
    ensures Reaches(Idle(limit, 0, 0, 0, m), Idle(limit, few + limit, few, 1, m), slack)
  {
    FillUp(limit, 0, few, 0, 0, m, slack);
    PublishAndFill(limit, few, 0, 0, m, slack);
    ReachesThrough(Idle(limit, 0, 0, 0, m), Idle(limit, few, 0, 0, m), Idle(limit, few + limit, few, 1, m), slack);
  }

  lemma OneMoreSync(limit: nat, a: nat, b: nat, full: nat, j: nat, k: nat, m: nat, slack: nat)
    requires b == a + limit <= slack && full == b + limit && j < m && k == j + 1
    requires Reaches(Idle(limit, 0, 0, 0, m), Idle(limit, b, a, j, m), slack)
    ensures Reaches(Idle(limit, 0, 0, 0, m), Idle(limit, full, b, k, m), slack)
  {
    PublishAndFill(limit, b, a, j, m, slack);
    ReachesThrough(Idle(limit, 0, 0, 0, m), Idle(limit, b, a, j, m), Idle(limit, full, b, k, m), slack);
  }

  /** First `few` clusters, and then after each of `k` late syncs a limit's worth. */
  lemma {:induction false} LateSyncs(limit: nat, few: nat, b: nat, full: nat, k: nat, m: nat, slack: nat)
    requires few <= limit && 1 <= k <= m && b == few + Batches(k - 1, limit) <= slack && full == b + limit
    ensures Reaches(Idle(limit, 0, 0, 0, m), Idle(limit, full, b, k, m), slack)
    decreases k
  {
    if k == 1 {
      FewThenSync(limit, few, m, slack);
    } else {
      var a, j := b - limit, k - 1;
      LateSyncs(limit, few, a, b, j, m, slack);
      OneMoreSync(limit, a, b, full, j, k, m, slack);
    }
  }

  lemma ListThenLateSyncs(limit: nat, few: nat, full: nat, m: nat, slack: nat)
    requires few <= limit && 1 <= m && slack == few + Batches(m - 1, limit) && full == slack + limit
    ensures Reaches(Idle(limit, 0, 0, 0, 0), Idle(limit, full, slack, m, m), slack)
  {
    ListEmpty(limit, m, slack);
    LateSyncs(limit, few, slack, full, m, m, slack);
    ReachesThrough(Idle(limit, 0, 0, 0, 0), Idle(limit, 0, 0, 0, m), Idle(limit, full, slack, m, m), slack);
  }

  lemma InBatches(slack: nat, limit: nat)
    requires limit > 0
    ensures slack == slack % limit + Batches(slack / limit, limit)
  {
    BatchesProduct(slack / limit, limit);
  }

  /**
   * The bound is exact and nothing bounds the overshoot itself: for every limit and every number
   * of missed clusters, syncs that listed before the creations and publish after them let the load
   * exceed the limit by that number.
   */
  lemma StaleListingsReachBound(limit: nat, slack: nat)
    requires limit > 0
    ensures var s := State(limit, {}, {}, 0, map[], map[]);
            exists s' :: Reaches(s, s', slack) && Load(s') == limit + slack
  {
    var m, full := slack / limit + 1, limit + slack;
    InBatches(slack, limit);
    IdleStart(limit);
    ListThenLateSyncs(limit, slack % limit, full, m, slack);
    IdleMissed(limit, full, slack, m, m);
  }

  // ----- the locked sections -----

  datatype Cluster = Cluster(id: Id, name: string)

  /** The bot's side: each method is one section under the clusters lock. */
  class RosaClusters {
    const limit: nat
    var clusters: map<Id, Cluster>
    var pendingClusters: int

    constructor (limit: nat)
      ensures this.limit == limit && clusters == map[] && pendingClusters == 0
    {
      this.limit := limit;
      clusters := map[];
      pendingClusters := 0;
    }

    ghost predicate Matches(s: State)
      reads this
    {
      limit == s.limit && clusters.Keys == s.cached && pendingClusters == s.pending
    }

    method TryAdmit(ghost s: State, ghost t: Thread) returns (ok: bool)
      requires Matches(s) && Enabled(s, Admit(t))
      modifies this
      ensures Matches(Step(s, Admit(t))) && clusters == old(clusters)
      ensures ok <==> !Refused(s)
    {
      assert |clusters| == |clusters.Keys|;
      if limit != 0 && |clusters| + pendingClusters >= limit {
        return false;
      }
      pendingClusters := pendingClusters + 1;
      ok := true;
    }

    /** A sync may have added the cluster already; its entry then stays. */
    method InsertCreated(c: Cluster, ghost s: State, ghost t: Thread)
      requires Matches(s) && Enabled(s, Insert(t)) && s.creations[t].id == c.id
      modifies this
      ensures Matches(Step(s, Insert(t)))
      ensures clusters == if c.id in old(clusters) then old(clusters) else old(clusters)[c.id := c]
    {
      if c.id !in clusters {
        clusters := clusters[c.id := c];
      }
    }

    method ReleaseSlot(ghost s: State, ghost t: Thread)
      requires Matches(s) && Enabled(s, Release(t))
      modifies this
      ensures Matches(Step(s, Release(t))) && clusters == old(clusters)
    {
      pendingClusters := pendingClusters - 1;
    }

    method PublishListing(listing: map<Id, Cluster>, ghost s: State, ghost y: Thread)
      requires Matches(s) && Enabled(s, Publish(y)) && listing.Keys == s.listings[y]
      modifies this
      ensures Matches(Step(s, Publish(y))) && clusters == listing
    {
      clusters := listing;
    }
  }
}
