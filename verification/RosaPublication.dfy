/** Which publications of a ROSA listing keep the cluster limit from then on. */
module RosaPublication {
  import opened FiniteSets
  import opened RosaCapacity

  /** The clusters the bot knows of: its list, and what running creations are about to insert. */
  function Known(s: State): set<Id> {
    s.cached + CreatedIds(s)
  }

  /** Remote ids are not used again while the bot knows them. */
  predicate FreshIds(s: State, run: seq<Action>)
    requires Legal(s, run)
    decreases |run|
  {
    run != [] ==> (run[0].Create? ==> run[0].id !in Known(s)) && FreshIds(Step(s, run[0]), run[1..])
  }

  /** Every continuation with complete listings keeps the limit. */
  ghost predicate StaysWithin(s: State) {
    forall run :: Legal(s, run) && ListsComplete(s, run) && FreshIds(s, run) ==> Load(Run(s, run)) <= s.limit
  }

  // ----- enough known clusters keep the limit -----

  lemma CreatedIdsStep(s: State, a: Action)
    requires Enabled(s, a) && !a.Create? && !a.Insert?
    ensures CreatedIds(Step(s, a)) == CreatedIds(s)
  {
    var s' := Step(s, a);
    forall t ensures t in CreatedIn(s') <==> t in CreatedIn(s) {
    }
    forall t | t in CreatedIn(s) ensures s'.creations[t] == s.creations[t] {
    }
  }

  lemma KnownCreate(s: State, t: Thread, id: Id)
    requires Enabled(s, Create(t, id))
    ensures Known(Step(s, Create(t, id))) == Known(s) + {id}
  {
    var s' := Step(s, Create(t, id));
    assert forall u :: u in s.creations && u != t ==> s'.creations[u] == s.creations[u];
    assert s'.creations[t] == Created(id);
  }

  lemma KnownInsert(s: State, t: Thread)
    requires Enabled(s, Insert(t))
    ensures Known(Step(s, Insert(t))) == Known(s)
  {
    var s' := Step(s, Insert(t));
    assert forall u :: u in s.creations && u != t ==> s'.creations[u] == s.creations[u];
  }

  predicate EnoughKnown(s: State) {
    |s.existing| <= |Known(s)|
  }

  lemma EnoughStep(s: State, a: Action)
    requires Enabled(s, a) && EnoughKnown(s)
    requires a.Create? ==> a.id !in Known(s)
    requires a.Publish? ==> s.existing - CreatedIds(s) <= s.listings[a.sync]
    ensures EnoughKnown(Step(s, a))
  {
    var s' := Step(s, a);
    match a
    case Create(t, id) => KnownCreate(s, t, id);
    case Insert(t) => KnownInsert(s, t);
    case Delete(id) =>
      CreatedIdsStep(s, a);
      SubsetSize(s'.existing, s.existing);
    case Publish(y) =>
      CreatedIdsStep(s, a);
      SubsetSize(s'.existing, Known(s'));
    case _ => CreatedIdsStep(s, a);
  }

  lemma KnownFits(s: State)
    requires SlotsCounted(s)
    ensures |Known(s)| + |AdmittedIn(s)| <= |s.cached| + s.pending
  {
    var ids, admitted, created := CreatedIds(s), AdmittedIn(s), CreatedIn(s);
    UnionSize(s.cached, ids, {});
    assert s.cached + ids + {} == Known(s);
    IdsAtMostThreads(s, created, ids);
    SubsetSize(admitted + created, s.creations.Keys);
    assert admitted !! created && |admitted + created| == |admitted| + |created|;
  }

  lemma LimitStep(s: State, a: Action)
    requires s.limit != 0 && SlotsCounted(s) && Enabled(s, a) && EnoughKnown(s) && Load(s) <= s.limit
    ensures Load(Step(s, a)) <= s.limit
  {
    if a.Admit? {
      KnownFits(s);
      AdmittedGrows(s, a.creation);
    } else {
      LoadStep(s, a);
    }
  }

  lemma {:induction false} EnoughRun(s: State, run: seq<Action>)
    requires s.limit != 0 && SlotsCounted(s) && EnoughKnown(s) && Load(s) <= s.limit
    requires Legal(s, run) && ListsComplete(s, run) && FreshIds(s, run)
    ensures Load(Run(s, run)) <= s.limit
    decreases |run|
  {
    if run != [] {
      SlotsStep(s, run[0]);
      EnoughStep(s, run[0]);
      LimitStep(s, run[0]);
      EnoughRun(Step(s, run[0]), run[1..]);
    }
  }

  // ----- too few known clusters break it -----

  ghost predicate Onward(s: State, s': State) {
    exists run :: Legal(s, run) && ListsComplete(s, run) && FreshIds(s, run) && Run(s, run) == s'
  }

  lemma OnwardSelf(s: State)
    ensures Onward(s, s)
  {
    assert Legal(s, []) && ListsComplete(s, []) && FreshIds(s, []) && Run(s, []) == s;
  }

  /** Neither creations nor publications are needed. */
  lemma OnwardFirst(s: State, a: Action, s': State)
    requires Enabled(s, a) && !a.Create? && !a.Publish? && Onward(Step(s, a), s')
    ensures Onward(s, s')
  {
    var run :| Legal(Step(s, a), run) && ListsComplete(Step(s, a), run) && FreshIds(Step(s, a), run)
      && Run(Step(s, a), run) == s';
    var whole := [a] + run;
    assert whole[0] == a && whole[1..] == run;
    assert Legal(s, whole) && ListsComplete(s, whole) && FreshIds(s, whole) && Run(s, whole) == s';
  }

  lemma {:induction false} ThreadAbove(used: set<Thread>) returns (t: Thread)
    ensures forall v :: v in used ==> v < t
  {
    t := 0;
    if used != {} {
      var u :| u in used;
      var rest := ThreadAbove(used - {u});
      t := if u < rest then rest else u + 1;
      forall v | v in used ensures v < t {
        assert v == u || v in used - {u};
      }
    }
  }

  lemma AdmitAdds(s: State, t: Thread)
    requires Enabled(s, Admit(t)) && !Refused(s)
    ensures var s' := Step(s, Admit(t));
            Load(s') == Load(s) + 1 && s'.pending == s.pending + 1 && s'.cached == s.cached && s'.limit == s.limit
  {
    assert AdmittedIn(Step(s, Admit(t))) == AdmittedIn(s) + {t};
  }

  /** Creations are let in until the counted clusters reach the limit. */
  lemma {:induction false} AdmitUp(s: State) returns (s': State)
    requires |s.cached| + s.pending <= s.limit
    ensures Onward(s, s') && Load(s') == Load(s) + s.limit - |s.cached| - s.pending
    decreases s.limit - |s.cached| - s.pending
  {
    if |s.cached| + s.pending == s.limit {
      s' := s;
      OnwardSelf(s);
    } else {
      var t := ThreadAbove(s.creations.Keys);
      AdmitAdds(s, t);
      s' := AdmitUp(Step(s, Admit(t)));
      OnwardFirst(s, Admit(t), s');
    }
  }

  lemma DrainStep(s: State, a: Action)
    requires Enabled(s, a) && SlotsCounted(s)
    requires a.Insert? || (a.Release? && s.creations[a.creation].Inserted?)
    ensures var s' := Step(s, a);
            && SlotsCounted(s') && s'.limit == s.limit && s'.existing == s.existing
            && Known(s') == Known(s) && AdmittedIn(s') == AdmittedIn(s)
  {
    SlotsStep(s, a);
    var s' := Step(s, a);
    assert AdmittedIn(s') == AdmittedIn(s);
    if a.Insert? {
      KnownInsert(s, a.creation);
    } else {
      CreatedIdsStep(s, a);
    }
  }

  lemma AllAdmitted(s: State)
    requires SlotsCounted(s) && forall t :: t in s.creations ==> s.creations[t].Admitted?
    ensures |s.cached| + s.pending == |Known(s)| + |AdmittedIn(s)|
  {
    assert CreatedIds(s) == {} && AdmittedIn(s) == s.creations.Keys;
    assert Known(s) == s.cached;
  }

  /**
   * Running creations that have their cluster come to their end, so that no slot is held for a
   * cluster already counted; then more creations are let in than the limit allows.
   */
  lemma {:induction false} TooFewBreaks(s: State) returns (s': State)
    requires SlotsCounted(s) && Load(s) <= s.limit && !EnoughKnown(s)
    ensures Onward(s, s') && Load(s') > s.limit
    decreases |s.creations|, |CreatedIn(s)|
  {
    if t :| t in s.creations && s.creations[t].Created? {
      DrainStep(s, Insert(t));
      assert CreatedIn(Step(s, Insert(t))) == CreatedIn(s) - {t};
      assert Step(s, Insert(t)).creations.Keys == s.creations.Keys;
      s' := TooFewBreaks(Step(s, Insert(t)));
      OnwardFirst(s, Insert(t), s');
    } else if t :| t in s.creations && s.creations[t].Inserted? {
      DrainStep(s, Release(t));
      RemoveKey(s.creations, t);
      s' := TooFewBreaks(Step(s, Release(t)));
      OnwardFirst(s, Release(t), s');
    } else {
      AllAdmitted(s);
      s' := AdmitUp(s);
    }
  }

  /** Within the limit, a state stays there if and only if at least as many clusters are known as exist. */
  lemma StaysWithinIff(s: State)
    requires s.limit != 0 && SlotsCounted(s) && Load(s) <= s.limit
    ensures StaysWithin(s) <==> |s.existing| <= |Known(s)|
  {
    if EnoughKnown(s) {
      forall run | Legal(s, run) && ListsComplete(s, run) && FreshIds(s, run) ensures Load(Run(s, run)) <= s.limit {
        EnoughRun(s, run);
      }
    } else {
      var s' := TooFewBreaks(s);
      var run :| Legal(s, run) && ListsComplete(s, run) && FreshIds(s, run) && Run(s, run) == s';
    }
  }

  /**
   * A publication keeps the limit in all continuations with complete listings if and only if the
   * listing, with what running creations are about to insert, has at least as many clusters as exist: each
   * one it misses is made up for by one it lists that is gone.
   */
  lemma PublicationHarmlessIff(s: State, y: Thread)
    requires s.limit != 0 && SlotsCounted(s) && Load(s) <= s.limit && Enabled(s, Publish(y))
    ensures StaysWithin(Step(s, Publish(y))) <==> |s.existing| <= |s.listings[y] + CreatedIds(s)|
  {
    SlotsStep(s, Publish(y));
    LoadStep(s, Publish(y));
    CreatedIdsStep(s, Publish(y));
    StaysWithinIff(Step(s, Publish(y)));
  }
}
