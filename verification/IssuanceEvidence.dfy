/** No issued request whose ReqID was learned goes unaccounted for. */
module IssuanceEvidence {
  import opened Prelude
  import opened OrderTable
  import opened IssuanceProtocol
  import opened IssuanceInvariant

  /** The part of the lease invariant that evidence rests on. */
  ghost predicate TablesOk(m: Regime, s: State) {
    CallsOk(m, s.orders, s.ca, s.certs, s.calls) && RowsOk(s.ca, s.certs)
  }

  /** Nothing a claim about evidence reads has changed, except where calls are. */
  ghost predicate SameEvidence(s: State, t: State) {
    t.ca == s.ca && t.certs == s.certs && t.events == s.events && t.fate == s.fate
  }

  /** One call moves and still carries what it carried. */
  ghost predicate QuietMove(s: State, t: State, c: CallId) {
    && c in s.calls && c in t.calls && t.calls == s.calls[c := t.calls[c]]
    && Carried(t.calls[c].pc) == Carried(s.calls[c].pc)
    && SameEvidence(s, t)
  }

  /** An event that mentions request `r` of order `o`, or no request at all. */
  ghost predicate EventAbout(e: Event, o: OrderId, r: ReqId) {
    e == RejectionAudit(o) || (!e.RejectionAudit? && e.order == o && e.req == r)
  }

  /** The call with `r` in hand leaves its evidence, or the lack of it, behind. */
  ghost predicate Finishes(s: State, t: State, c: CallId, r: ReqId, e: Event) {
    && c in s.calls && Carried(s.calls[c].pc) == Some(r) && r in s.ca
    && c in t.calls && t.calls == s.calls[c := t.calls[c]] && Carried(t.calls[c].pc).None?
    && var o := s.ca[r].order;
    && t.ca == s.ca && EventAbout(e, o, r)
    && (t.events == s.events || t.events == s.events + {e})
    && (t.certs == s.certs ||
        (o !in s.certs && o in t.certs && t.certs[o].req == r && t.certs == s.certs[o := t.certs[o]]))
    && r in t.fate && t.fate == s.fate[r := t.fate[r]] && !t.fate[r].InHand?
    && FateOk(t.certs, t.events, t.calls, o, r, t.fate[r])
  }

  lemma FinishKeeps(s: State, t: State, c: CallId, r: ReqId, e: Event)
    requires EvidenceInv(s) && Finishes(s, t, c, r, e)
    ensures EvidenceInv(t)
  {
    forall q | q in t.fate && q in t.ca
      ensures FateOk(t.certs, t.events, t.calls, t.ca[q].order, q, t.fate[q])
    {
    }
  }

  /** A fresh request is named nowhere. */
  lemma FreshIsUnnamed(s: State, o: OrderId, r: ReqId)
    requires EventsOk(s.ca, s.events) && RowsOk(s.ca, s.certs) && r !in s.ca
    ensures !Named(s.certs, s.events, o, r)
  {
    assert o in s.certs ==> RowOk(s.ca, o, s.certs[o]);
  }

  lemma SubmitKeepsOthers(m: Regime, s: State, c: CallId, r: ReqId, outcome: Outcome, q: ReqId)
    requires TablesOk(m, s) && EvidenceInv(s) && BackEnabled(m, s, Submit(c, r, outcome))
    requires q in s.fate && q in s.ca
    ensures var t := DoSubmit(s, c, r, outcome);
            q in t.fate && q in t.ca && FateOk(t.certs, t.events, t.calls, t.ca[q].order, q, t.fate[q])
  {
    assert FateOk(s.certs, s.events, s.calls, s.ca[q].order, q, s.fate[q]);
  }

  lemma SubmitKeepsOwn(m: Regime, s: State, c: CallId, r: ReqId, outcome: Outcome)
    requires TablesOk(m, s) && EvidenceInv(s) && BackEnabled(m, s, Submit(c, r, outcome))
    ensures var t := DoSubmit(s, c, r, outcome);
            r in t.fate && r in t.ca ==> FateOk(t.certs, t.events, t.calls, t.ca[r].order, r, t.fate[r])
  {
    FreshIsUnnamed(s, s.calls[c].order, r);
  }

  lemma SubmitKeeps(m: Regime, s: State, c: CallId, r: ReqId, outcome: Outcome)
    requires TablesOk(m, s) && EvidenceInv(s) && BackEnabled(m, s, Submit(c, r, outcome))
    ensures EvidenceInv(DoSubmit(s, c, r, outcome))
  {
    var t := DoSubmit(s, c, r, outcome);
    assert t.certs == s.certs && t.events == s.events;
    SubmitKeepsOwn(m, s, c, r, outcome);
    forall q | q in t.fate && q in t.ca
      ensures FateOk(t.certs, t.events, t.calls, t.ca[q].order, q, t.fate[q])
    {
      if q != r {
        SubmitKeepsOthers(m, s, c, r, outcome, q);
      }
    }
  }

  /** Whoever carries a request has it from its own submission, with no row yet. */
  lemma CarrierFacts(m: Regime, s: State, c: CallId)
    requires TablesOk(m, s) && EvidenceInv(s) && c in s.calls && Carried(s.calls[c].pc).Some?
    ensures var k, r := s.calls[c], Carried(s.calls[c].pc).value;
            && r in s.ca && s.ca[r].order == k.order && Holds(s.orders, k.order, k.generation)
            && k.order !in s.certs && (k.pc.Recording? ==> !k.pc.existed)
            && r in s.fate && s.fate[r] == InHand(c) && !Named(s.certs, s.events, k.order, r)
  {
    assert CallOk(m, s.orders, s.ca, s.certs, c, s.calls[c]);
    var r := Carried(s.calls[c].pc).value;
    assert FateOk(s.certs, s.events, s.calls, s.ca[r].order, r, s.fate[r]);
  }

  lemma SaveKeeps(m: Regime, s: State, c: CallId, ok: bool, saved: Pc, unsaved: Pc)
    requires TablesOk(m, s) && EvidenceInv(s) && c in s.calls && Carried(s.calls[c].pc).Some?
    requires Carried(saved).None? && Carried(unsaved) == Carried(s.calls[c].pc)
    ensures EvidenceInv(DoSave(s, c, Carried(s.calls[c].pc).value, ok, saved, unsaved))
  {
    var r := Carried(s.calls[c].pc).value;
    var t := DoSave(s, c, r, ok, saved, unsaved);
    CarrierFacts(m, s, c);
    if QuarantineCommits(s, s.calls[c].order, ok) {
      FinishKeeps(s, t, c, r, QuarantineAudit(s.calls[c].order, r));
    }
  }

  /** A rejected certificate is evidenced, and named at all, exactly if its quarantine commits. */
  lemma SaveRejectedFacts(m: Regime, s: State, c: CallId, r: ReqId, ok: bool)
    requires TablesOk(m, s) && EvidenceInv(s) && At(s, c, Rejecting(r))
    ensures var o := s.calls[c].order;
            var t := DoSave(s, c, r, ok, Exiting, RejectUnsaved(r));
            && t.calls[c].pc == (if ok then Exiting else RejectUnsaved(r))
            && (Evidenced(t.certs, t.events, o, r) <==> ok)
            && (Named(t.certs, t.events, o, r) <==> ok)
  {
    CarrierFacts(m, s, c);
  }

  /** What is left of an orphan once its quarantine, and failing that its audit row, has been tried. */
  ghost function SettledOrphan(s: State, c: CallId, r: ReqId, quarantined: bool, audited: bool): (t: State)
    requires c in s.calls
  {
    var saved := DoSave(s, c, r, quarantined, OrphanNoted, OrphanUnsaved(r));
    if saved.calls[c].pc.OrphanUnsaved? then DoNoteOrphan(saved, c, audited) else saved
  }

  lemma SavedOrphanFacts(m: Regime, s: State, c: CallId, r: ReqId, ok: bool)
    requires TablesOk(m, s) && EvidenceInv(s) && At(s, c, Orphan(r))
    ensures var o := s.calls[c].order;
            var t := DoSave(s, c, r, ok, OrphanNoted, OrphanUnsaved(r));
            && t.calls[c] == s.calls[c].(pc := if ok then OrphanNoted else OrphanUnsaved(r))
            && (ok ==> Evidenced(t.certs, t.events, o, r))
            && (!ok ==> t.certs == s.certs && t.events == s.events)
  {
    CarrierFacts(m, s, c);
  }

  lemma NotedOrphanFacts(t: State, c: CallId, r: ReqId, ok: bool)
    requires At(t, c, OrphanUnsaved(r)) && !Named(t.certs, t.events, t.calls[c].order, r)
    ensures var u := DoNoteOrphan(t, c, ok);
            && (Evidenced(u.certs, u.events, t.calls[c].order, r) <==> ok)
            && (Named(u.certs, u.events, t.calls[c].order, r) <==> ok)
  {
  }

  /** An orphan with its bytes leaves evidence if and only if one of its two rows commits. */
  lemma SettledOrphanFacts(m: Regime, s: State, c: CallId, r: ReqId, quarantined: bool, audited: bool)
    requires TablesOk(m, s) && EvidenceInv(s) && At(s, c, Orphan(r))
    ensures var t := SettledOrphan(s, c, r, quarantined, audited);
            && (Evidenced(t.certs, t.events, s.calls[c].order, r) <==> quarantined || audited)
            && (Named(t.certs, t.events, s.calls[c].order, r) <==> quarantined || audited)
  {
    var saved := DoSave(s, c, r, quarantined, OrphanNoted, OrphanUnsaved(r));
    SavedOrphanFacts(m, s, c, r, quarantined);
    if !quarantined {
      CarrierFacts(m, s, c);
      NotedOrphanFacts(saved, c, r, audited);
    }
  }

  lemma RecordKeeps(m: Regime, s: State, c: CallId, ok: bool, unwritable: bool, delivered: bool)
    requires TablesOk(m, s) && EvidenceInv(s) && c in s.calls && s.calls[c].pc.Recording?
    ensures EvidenceInv(DoRecord(s, c, ok, unwritable, delivered))
  {
    CarrierFacts(m, s, c);
    FinishKeeps(s, DoRecord(s, c, ok, unwritable, delivered), c, s.calls[c].pc.r, IssuanceEvent(s, s.calls[c], ok));
  }

  /** A verified certificate leaves evidence if and only if its row commits or the hook takes the event. */
  lemma RecordFacts(m: Regime, s: State, c: CallId, ok: bool, unwritable: bool, delivered: bool)
    requires TablesOk(m, s) && EvidenceInv(s) && c in s.calls && s.calls[c].pc.Recording?
    ensures var k, t := s.calls[c], DoRecord(s, c, ok, unwritable, delivered);
            && (Evidenced(t.certs, t.events, k.order, k.pc.r) <==> ok || delivered)
            && (Named(t.certs, t.events, k.order, k.pc.r) <==> ok || delivered)
  {
    CarrierFacts(m, s, c);
  }

  lemma NoteOrphanKeeps(m: Regime, s: State, c: CallId, ok: bool)
    requires TablesOk(m, s) && EvidenceInv(s) && c in s.calls && s.calls[c].pc.OrphanUnsaved?
    ensures EvidenceInv(DoNoteOrphan(s, c, ok))
  {
    CarrierFacts(m, s, c);
    FinishKeeps(s, DoNoteOrphan(s, c, ok), c, s.calls[c].pc.r, OrphanAudit(s.calls[c].order, s.calls[c].pc.r));
  }

  lemma NoteRejectedKeeps(m: Regime, s: State, c: CallId, ok: bool)
    requires TablesOk(m, s) && EvidenceInv(s) && c in s.calls && s.calls[c].pc.RejectUnsaved?
    ensures EvidenceInv(DoNoteRejected(s, c, ok))
  {
    CarrierFacts(m, s, c);
    FinishKeeps(s, DoNoteRejected(s, c, ok), c, s.calls[c].pc.r, RejectionAudit(s.calls[c].order));
  }

  /** A result that no handler waits for is dropped, and nothing names it. */
  lemma LeaveKeeps(m: Regime, s: State, c: CallId)
    requires TablesOk(m, s) && EvidenceInv(s) && c in s.calls
    ensures EvidenceInv(DoLeave(s, c))
  {
    var t := DoLeave(s, c);
    if s.calls[c].pc.Completing? {
      CarrierFacts(m, s, c);
      FinishKeeps(s, t, c, s.calls[c].pc.r, RejectionAudit(s.calls[c].order));
    }
  }

  lemma UnlockKeeps(m: Regime, s: State, c: CallId)
    requires TablesOk(m, s) && EvidenceInv(s) && c in s.calls && (s.calls[c].pc.Releasing? || s.calls[c].pc.Returned?)
    ensures EvidenceInv(DoUnlock(s, c))
  {
    var t := DoUnlock(s, c);
    if s.calls[c].pc.Returned? && s.calls[c].handler == Left {
      CarrierFacts(m, s, c);
      FinishKeeps(s, t, c, s.calls[c].pc.r, RejectionAudit(s.calls[c].order));
    }
  }

  lemma FrontIsQuiet(m: Regime, s: State, a: FrontStep)
    requires FrontEnabled(m, s, a) && !a.Begin? && !a.Leave?
    ensures QuietMove(s, FrontNext(m, s, a), a.c)
  {
  }

  lemma FrontKeeps(m: Regime, s: State, a: FrontStep)
    requires TablesOk(m, s) && EvidenceInv(s) && FrontEnabled(m, s, a)
    ensures EvidenceInv(FrontNext(m, s, a))
  {
    if a.Leave? {
      LeaveKeeps(m, s, a.c);
    } else if !a.Begin? {
      FrontIsQuiet(m, s, a);
    }
  }

  lemma BackIsQuiet(m: Regime, s: State, a: BackStep)
    requires BackEnabled(m, s, a)
    requires a.RevertDenied? || a.CloseOrphan? || a.Verify? || a.ReadExisting?
    ensures QuietMove(s, BackNext(m, s, a), a.c)
  {
  }

  lemma FinishingKeeps(m: Regime, s: State, a: BackStep)
    requires TablesOk(m, s) && EvidenceInv(s) && BackEnabled(m, s, a)
    requires a.SaveOrphan? || a.SaveRejected? || a.Record? || a.NoteOrphan? || a.NoteRejected?
    ensures EvidenceInv(BackNext(m, s, a))
  {
    match a
    case SaveOrphan(c, ok) => SaveKeeps(m, s, c, ok, OrphanNoted, OrphanUnsaved(s.calls[c].pc.r));
    case SaveRejected(c, ok) => SaveKeeps(m, s, c, ok, Exiting, RejectUnsaved(s.calls[c].pc.r));
    case Record(c, ok, unwritable, delivered) => RecordKeeps(m, s, c, ok, unwritable, delivered);
    case NoteOrphan(c, ok) => NoteOrphanKeeps(m, s, c, ok);
    case NoteRejected(c, ok) => NoteRejectedKeeps(m, s, c, ok);
  }

  /** The audit row of a pending request is no evidence about an issued one. */
  lemma MarkPendingKeeps(m: Regime, s: State, c: CallId, ok: bool, audited: bool)
    requires TablesOk(m, s) && EvidenceInv(s) && c in s.calls && s.calls[c].pc.Pended?
    ensures EvidenceInv(DoMarkPending(s, c, ok, audited))
  {
    var t := DoMarkPending(s, c, ok, audited);
    assert CallOk(m, s.orders, s.ca, s.certs, c, s.calls[c]);
    assert t.certs == s.certs && t.fate == s.fate && t.ca == s.ca;
    forall r | r in t.fate && r in t.ca
      ensures FateOk(t.certs, t.events, t.calls, t.ca[r].order, r, t.fate[r])
    {
      assert FateOk(s.certs, s.events, s.calls, s.ca[r].order, r, s.fate[r]);
    }
  }

  lemma QuietBackKeeps(m: Regime, s: State, a: BackStep)
    requires EvidenceInv(s) && BackEnabled(m, s, a)
    requires a.RevertDenied? || a.CloseOrphan? || a.Verify? || a.ReadExisting?
    ensures EvidenceInv(BackNext(m, s, a))
  {
    BackIsQuiet(m, s, a);
  }

  lemma BackKeeps(m: Regime, s: State, a: BackStep)
    requires TablesOk(m, s) && EvidenceInv(s) && BackEnabled(m, s, a)
    ensures EvidenceInv(BackNext(m, s, a))
  {
    if a.Submit? {
      SubmitKeeps(m, s, a.c, a.r, a.outcome);
    } else if a.UnlockAccount? {
      UnlockKeeps(m, s, a.c);
    } else if a.MarkPending? {
      MarkPendingKeeps(m, s, a.c, a.ok, a.audited);
    } else if a.SaveOrphan? || a.SaveRejected? || a.Record? || a.NoteOrphan? || a.NoteRejected? {
      FinishingKeeps(m, s, a);
    } else if !a.Exit? {
      QuietBackKeeps(m, s, a);
    }
  }

  lemma TableKeeps(m: Regime, s: State, a: TableStep)
    requires EvidenceInv(s) && TableEnabled(m, s, a)
    ensures EvidenceInv(TableNext(m, s, a))
  {
    forall r | r in s.fate
      ensures var t := TableNext(m, s, a);
              r in t.fate && r in t.ca && FateOk(t.certs, t.events, t.calls, t.ca[r].order, r, t.fate[r])
    {
    }
  }

  lemma ReclaimKeeps(m: Regime, s: State, a: ReclaimStep)
    requires EvidenceInv(s) && ReclaimEnabled(m, s, a)
    ensures EvidenceInv(ReclaimNext(m, s, a))
  {
  }

  lemma MutatorKeeps(m: Regime, s: State, a: MutatorStep)
    requires EvidenceInv(s) && MutatorEnabled(m, s, a)
    ensures EvidenceInv(MutatorNext(m, s, a))
  {
  }

  lemma StepKeepsEvidence(m: Regime, s: State, a: Action)
    requires TablesOk(m, s) && EvidenceInv(s) && Enabled(m, s, a)
    ensures EvidenceInv(Next(m, s, a))
  {
    match a
    case Front(f) => FrontKeeps(m, s, f);
    case Back(b) => BackKeeps(m, s, b);
    case Table(t) => TableKeeps(m, s, t);
    case Reclaiming(q) => ReclaimKeeps(m, s, q);
    case Mutating(u) => MutatorKeeps(m, s, u);
  }
}
