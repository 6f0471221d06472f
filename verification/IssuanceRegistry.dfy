/** The mark of an order counts the handlers at work on it; absorption extends that to workers. */
module IssuanceRegistry {
  import opened Prelude
  import opened OrderTable
  import opened IssuanceProtocol

  /** The calls whose handler still holds its mark on the order. */
  ghost function MarksOn(calls: map<CallId, Call>, o: OrderId): (marks: set<CallId>) {
    set c | c in calls && calls[c].order == o && calls[c].handler != Left
  }

  /** The reference count is exactly the number of marks held. */
  ghost predicate RegistryOk(active: map<OrderId, nat>, calls: map<CallId, Call>) {
    forall o :: ActiveCount(active, o) == |MarksOn(calls, o)|
  }

  ghost predicate NoneLeft(calls: map<CallId, Call>) {
    forall c :: c in calls ==> calls[c].handler != Left
  }

  ghost predicate NoneDropped(fate: map<ReqId, Fate>) {
    forall r :: r in fate ==> fate[r] != Dropped
  }

  /** With absorption, no handler leaves its worker behind and no result goes astray. */
  ghost predicate RegistryInv(m: Regime, s: State) {
    RegistryOk(s.active, s.calls) && (m.absorbs ==> NoneLeft(s.calls) && NoneDropped(s.fate))
  }

  // --- How the marks of an order change ---------------------------------------------

  lemma MarkAdded(calls: map<CallId, Call>, c: CallId, k: Call, o: OrderId)
    requires c !in calls && k.handler != Left
    ensures |MarksOn(calls[c := k], o)| == |MarksOn(calls, o)| + (if o == k.order then 1 else 0)
  {
    if o == k.order {
      assert MarksOn(calls[c := k], o) == MarksOn(calls, o) + {c};
    } else {
      assert MarksOn(calls[c := k], o) == MarksOn(calls, o);
    }
  }

  lemma MarkGone(calls: map<CallId, Call>, after: map<CallId, Call>, c: CallId, o: OrderId)
    requires c in calls && calls[c].handler != Left
    requires forall d :: d != c ==> (d in calls <==> d in after) && (d in calls && d in after ==> calls[d] == after[d])
    requires c in after ==> after[c].handler == Left
    ensures |MarksOn(after, o)| == |MarksOn(calls, o)| - (if o == calls[c].order then 1 else 0)
  {
    if o == calls[c].order {
      assert c in MarksOn(calls, o);
      assert MarksOn(after, o) == MarksOn(calls, o) - {c};
    } else {
      assert MarksOn(after, o) == MarksOn(calls, o);
    }
  }

  /** One call moves on and keeps its mark, or stays without one. */
  ghost predicate Unmoved(calls: map<CallId, Call>, after: map<CallId, Call>, c: CallId) {
    && c in calls && c in after && after == calls[c := after[c]]
    && after[c].order == calls[c].order && (after[c].handler == Left <==> calls[c].handler == Left)
  }

  lemma UnmovedKeeps(active: map<OrderId, nat>, calls: map<CallId, Call>, after: map<CallId, Call>, c: CallId)
    requires RegistryOk(active, calls) && Unmoved(calls, after, c)
    ensures RegistryOk(active, after)
  {
    forall o
      ensures MarksOn(after, o) == MarksOn(calls, o)
    {
    }
  }

  lemma EnterKeeps(active: map<OrderId, nat>, calls: map<CallId, Call>, c: CallId, k: Call)
    requires RegistryOk(active, calls) && c !in calls && k.handler != Left
    ensures RegistryOk(EnterMark(active, k.order), calls[c := k])
  {
    forall o
      ensures ActiveCount(EnterMark(active, k.order), o) == |MarksOn(calls[c := k], o)|
    {
      MarkAdded(calls, c, k, o);
    }
  }

  lemma GoneKeeps(active: map<OrderId, nat>, calls: map<CallId, Call>, after: map<CallId, Call>, c: CallId)
    requires RegistryOk(active, calls) && c in calls && calls[c].handler != Left
    requires forall d :: d != c ==> (d in calls <==> d in after) && (d in calls && d in after ==> calls[d] == after[d])
    requires c in after ==> after[c].handler == Left
    ensures RegistryOk(ExitMark(active, calls[c].order), after)
  {
    forall o
      ensures ActiveCount(ExitMark(active, calls[c].order), o) == |MarksOn(after, o)|
    {
      MarkGone(calls, after, c, o);
    }
  }

  // --- The steps -------------------------------------------------------------------------

  lemma FrontKeeps(m: Regime, s: State, a: FrontStep)
    requires RegistryInv(m, s) && FrontEnabled(m, s, a)
    ensures RegistryInv(m, FrontNext(m, s, a))
  {
    if a.Begin? {
      EnterKeeps(s.active, s.calls, a.c, FrontNext(m, s, a).calls[a.c]);
    } else if a.Leave? {
      GoneKeeps(s.active, s.calls, FrontNext(m, s, a).calls, a.c);
    } else {
      UnmovedKeeps(s.active, s.calls, FrontNext(m, s, a).calls, a.c);
    }
  }

  lemma AnswerIsUnmoved(m: Regime, s: State, a: BackStep)
    requires BackEnabled(m, s, a)
    requires a.Submit? || a.RevertDenied? || a.MarkPending? || a.UnlockAccount? || a.Verify? || a.ReadExisting?
    ensures var t := BackNext(m, s, a); Unmoved(s.calls, t.calls, a.c) && t.active == s.active
  {
  }

  lemma EvidenceIsUnmoved(m: Regime, s: State, a: BackStep)
    requires BackEnabled(m, s, a)
    requires a.SaveOrphan? || a.NoteOrphan? || a.CloseOrphan? || a.Record? || a.SaveRejected? || a.NoteRejected?
    ensures var t := BackNext(m, s, a); Unmoved(s.calls, t.calls, a.c) && t.active == s.active
  {
  }

  lemma BackDropsNothing(m: Regime, s: State, a: BackStep)
    requires BackEnabled(m, s, a) && NoneLeft(s.calls) && NoneDropped(s.fate)
    ensures NoneDropped(BackNext(m, s, a).fate)
  {
  }

  lemma UncountedGoneKeeps(active: map<OrderId, nat>, calls: map<CallId, Call>, c: CallId)
    requires RegistryOk(active, calls) && c in calls && calls[c].handler == Left
    ensures RegistryOk(active, calls - {c})
  {
    forall o
      ensures MarksOn(calls - {c}, o) == MarksOn(calls, o)
    {
    }
  }

  lemma CountedGoneKeeps(active: map<OrderId, nat>, calls: map<CallId, Call>, c: CallId)
    requires RegistryOk(active, calls) && c in calls && calls[c].handler != Left
    ensures RegistryOk(ExitMark(active, calls[c].order), calls - {c})
  {
    GoneKeeps(active, calls, calls - {c}, c);
  }

  lemma ExitKeeps(s: State, c: CallId)
    requires RegistryOk(s.active, s.calls) && c in s.calls
    ensures RegistryOk(DoExit(s, c).active, DoExit(s, c).calls)
  {
    var t := DoExit(s, c);
    assert t.calls == s.calls - {c};
    assert t.active == if s.calls[c].handler == Left then s.active else ExitMark(s.active, s.calls[c].order);
    if s.calls[c].handler == Left {
      UncountedGoneKeeps(s.active, s.calls, c);
    } else {
      CountedGoneKeeps(s.active, s.calls, c);
    }
  }

  lemma BackKeeps(m: Regime, s: State, a: BackStep)
    requires RegistryInv(m, s) && BackEnabled(m, s, a)
    ensures RegistryInv(m, BackNext(m, s, a))
  {
    if m.absorbs {
      BackDropsNothing(m, s, a);
    }
    if a.Exit? {
      ExitKeeps(s, a.c);
    } else {
      if a.SaveOrphan? || a.NoteOrphan? || a.CloseOrphan? || a.Record? || a.SaveRejected? || a.NoteRejected? {
        EvidenceIsUnmoved(m, s, a);
      } else {
        AnswerIsUnmoved(m, s, a);
      }
      UnmovedKeeps(s.active, s.calls, BackNext(m, s, a).calls, a.c);
    }
  }

  lemma TableKeeps(m: Regime, s: State, a: TableStep)
    requires RegistryInv(m, s) && TableEnabled(m, s, a)
    ensures RegistryInv(m, TableNext(m, s, a))
  {
    if a.Restart? {
      forall o
        ensures MarksOn(map[], o) == {}
      {
      }
    }
  }

  ghost predicate SameMarks(s: State, t: State) {
    t.active == s.active && t.calls == s.calls && t.fate == s.fate
  }

  lemma ReclaimTakesNoMark(m: Regime, s: State, a: ReclaimStep)
    requires ReclaimEnabled(m, s, a)
    ensures SameMarks(s, ReclaimNext(m, s, a))
  {
  }

  lemma MutatorTakesNoMark(m: Regime, s: State, a: MutatorStep)
    requires MutatorEnabled(m, s, a)
    ensures SameMarks(s, MutatorNext(m, s, a))
  {
  }

  /** Every step keeps the registry exact, in every regime. */
  lemma StepKeepsRegistry(m: Regime, s: State, a: Action)
    requires RegistryInv(m, s) && Enabled(m, s, a)
    ensures RegistryInv(m, Next(m, s, a))
  {
    match a
    case Front(f) => FrontKeeps(m, s, f);
    case Back(b) => BackKeeps(m, s, b);
    case Table(t) => TableKeeps(m, s, t);
    case Reclaiming(q) => ReclaimTakesNoMark(m, s, q);
    case Mutating(u) => MutatorTakesNoMark(m, s, u);
  }

  /** An order without a mark has no call at all, once cancellations are absorbed. */
  lemma UnmarkedHasNoCall(m: Regime, s: State, o: OrderId)
    requires RegistryInv(m, s) && m.absorbs && ActiveCount(s.active, o) == 0
    ensures forall c :: c in s.calls ==> s.calls[c].order != o
  {
    forall c | c in s.calls
      ensures s.calls[c].order != o
    {
      assert s.calls[c].order == o ==> c in MarksOn(s.calls, o);
    }
  }
}
