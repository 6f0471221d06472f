/** What holds in every reachable state of the issuance protocol: after every run from an empty store. */
module IssuanceTheorems {
  import opened Prelude
  import opened OrderTable
  import opened IssuanceProtocol
  import opened IssuanceInvariant
  import opened IssuanceLeases
  import opened IssuanceLeaseSteps
  import opened IssuanceRegistry
  import Accounts = IssuanceAccounts
  import Evidence = IssuanceEvidence

  lemma {:induction false} RunKeepsRegistry(m: Regime, s: State, actions: seq<Action>)
    requires RegistryInv(m, s) && Runs(m, s, actions)
    ensures RegistryInv(m, End(m, s, actions))
    decreases actions
  {
    if actions != [] {
      StepKeepsRegistry(m, s, actions[0]);
      RunKeepsRegistry(m, Next(m, s, actions[0]), actions[1..]);
    }
  }

  lemma {:induction false} RunKeepsInvariants(m: Regime, s: State, actions: seq<Action>)
    requires Safe(m) && RegistryInv(m, s) && LeaseInv(m, s) && EvidenceInv(s) && Runs(m, s, actions)
    ensures LeaseInv(m, End(m, s, actions)) && EvidenceInv(End(m, s, actions))
    decreases actions
  {
    if actions != [] {
      StepKeepsRegistry(m, s, actions[0]);
      StepKeepsLeases(m, s, actions[0]);
      Evidence.StepKeepsEvidence(m, s, actions[0]);
      RunKeepsInvariants(m, Next(m, s, actions[0]), actions[1..]);
    }
  }

  lemma {:induction false} RunKeepsAccounts(m: Regime, s: State, actions: seq<Action>)
    requires AccountInv(s) && Runs(m, s, actions)
    ensures AccountInv(End(m, s, actions))
    decreases actions
  {
    if actions != [] {
      Accounts.StepKeepsAccounts(m, s, actions[0]);
      RunKeepsAccounts(m, Next(m, s, actions[0]), actions[1..]);
    }
  }

  lemma ReachableRegistry(m: Regime, s: State)
    requires Reachable(m, s)
    ensures RegistryInv(m, s)
  {
    var actions :| Runs(m, Init, actions) && End(m, Init, actions) == s;
    RunKeepsRegistry(m, Init, actions);
  }

  lemma ReachableInv(m: Regime, s: State)
    requires Safe(m) && Reachable(m, s)
    ensures LeaseInv(m, s) && EvidenceInv(s)
  {
    var actions :| Runs(m, Init, actions) && End(m, Init, actions) == s;
    RunKeepsInvariants(m, Init, actions);
  }

  lemma ReachableAccounts(m: Regime, s: State)
    requires Reachable(m, s)
    ensures AccountInv(s)
  {
    var actions :| Runs(m, Init, actions) && End(m, Init, actions) == s;
    RunKeepsAccounts(m, Init, actions);
  }

  /**
   Single issuance.  Over every interleaving, in every safe regime, an order has at
   most one request that the CA issued or may still issue, and no lease ever
   reaches the CA twice.
   */
  lemma AtMostOneCertificate(m: Regime, s: State)
    requires Safe(m) && Reachable(m, s)
    ensures var ca := s.ca;
            && (forall o, r1, r2 :: Live(ca, r1, o) && Live(ca, r2, o) ==> r1 == r2)
            && (forall r1, r2 | r1 in ca && r2 in ca && ca[r1].order == ca[r2].order && r1 != r2
                  :: ca[r1].disposition == Denied || ca[r2].disposition == Denied)
            && OnePerLease(ca)
  {
    ReachableInv(m, s);
    forall o, r1, r2 | Live(s.ca, r1, o) && Live(s.ca, r2, o)
      ensures r1 == r2
    {
      SingleLive(m, s, o, r1, r2);
    }
    forall r1, r2 | r1 in s.ca && r2 in s.ca && s.ca[r1].order == s.ca[r2].order && r1 != r2
      ensures s.ca[r1].disposition == Denied || s.ca[r2].disposition == Denied
    {
      if s.ca[r1].disposition != Denied && s.ca[r2].disposition != Denied {
        SingleLive(m, s, s.ca[r1].order, r1, r2);
      }
    }
  }

  /**
   At the moment of every CA call the caller's lease is current, the order has no
   certificate row and no issued or undecided request: a worker whose lease lapsed
   while it was queued never calls the CA, in any safe regime.
   */
  lemma SubmissionIsFenced(m: Regime, s: State, c: CallId, r: ReqId, outcome: Outcome)
    requires Safe(m) && Reachable(m, s)
    requires BackEnabled(m, s, Submit(c, r, outcome))
    ensures var k := s.calls[c];
            Holds(s.orders, k.order, k.generation) && NoneLive(s.ca, k.order) && k.order !in s.certs
  {
    ReachableInv(m, s);
    SubmitIsFirst(m, s, c, r, outcome);
  }

  /** In every regime the reference count of an order is the number of handlers still at work on it. */
  lemma MarksAreCounted(m: Regime, s: State, o: OrderId)
    requires Reachable(m, s)
    ensures ActiveCount(s.active, o) == |MarksOn(s.calls, o)|
  {
    ReachableRegistry(m, s);
  }

  /**
   The mark outlives the worker, however often its client disconnects: as long as
   the gate absorbs cancellations, no order with a worker reads as inactive.
   */
  lemma MarkCoversEveryCall(m: Regime, s: State, c: CallId)
    requires m.absorbs && Reachable(m, s) && c in s.calls
    ensures ActiveCount(s.active, s.calls[c].order) >= 1
  {
    ReachableRegistry(m, s);
    if ActiveCount(s.active, s.calls[c].order) == 0 {
      UnmarkedHasNoCall(m, s, s.calls[c].order);
    }
  }

  /**
   Recording an issuance always finds the order under the caller's own lease and
   without a row, so the branch that reuses an existing row and the branch that
   loses the compare-and-set are both dead: every recorded issuance gets its own
   row and a `certificate-issued` audit row from the same transaction.
   */
  lemma RecordingIsUncontended(m: Regime, s: State, c: CallId, unwritable: bool, delivered: bool)
    requires Safe(m) && Reachable(m, s)
    requires c in s.calls && s.calls[c].pc.Recording?
    ensures var k := s.calls[c];
            var t := DoRecord(s, c, true, unwritable, delivered);
            && !k.pc.existed && k.order !in s.certs
            && t.certs == s.certs[k.order := CertRow(k.pc.r, Served)]
            && CertificateIssued(k.order, k.pc.r) in t.events
            && k.order in t.orders && t.orders[k.order].status == Valid
            && t.orders[k.order].certificate == Some(k.pc.r)
  {
    ReachableInv(m, s);
    Evidence.CarrierFacts(m, s, c);
  }

  /** It is evidenced if and only if that transaction commits or the emergency event is delivered. */
  lemma RecordedIffCommittedOrDelivered(m: Regime, s: State, c: CallId,
                                        ok: bool, unwritable: bool, delivered: bool)
    requires Safe(m) && Reachable(m, s)
    requires c in s.calls && s.calls[c].pc.Recording?
    ensures var k := s.calls[c];
            var t := DoRecord(s, c, ok, unwritable, delivered);
            && (Evidenced(t.certs, t.events, k.order, k.pc.r) <==> ok || delivered)
            && (Named(t.certs, t.events, k.order, k.pc.r) <==> ok || delivered)
  {
    ReachableInv(m, s);
    Evidence.RecordFacts(m, s, c, ok, unwritable, delivered);
  }

  /**
   No silent issuance.  A request the CA issued and whose ReqID the leg learned is
   in the hands of a live call, evidenced, named nowhere because every write and
   emission that would have named it failed, or lost to a restart; it is evidenced
   exactly when it is tracked.  With absorption no result goes astray between worker
   and handler.
   */
  lemma NoSilentIssuance(m: Regime, s: State, r: ReqId)
    requires Safe(m) && Reachable(m, s) && r in s.fate
    ensures && r in s.ca
            && (s.fate[r].InHand? ==> s.fate[r].c in s.calls && Carried(s.calls[s.fate[r].c].pc) == Some(r))
            && (Evidenced(s.certs, s.events, s.ca[r].order, r) <==> s.fate[r] == Tracked)
            && (s.fate[r] == Unnamed ==> RejectionAudit(s.ca[r].order) in s.events)
            && (m.absorbs ==> s.fate[r] != Dropped)
  {
    ReachableInv(m, s);
    ReachableRegistry(m, s);
    assert FateOk(s.certs, s.events, s.calls, s.ca[r].order, r, s.fate[r]);
  }

  /** A call that has ended, and was not killed, has left nothing in its hands. */
  lemma EndedCallsAreAccountedFor(m: Regime, s: State, r: ReqId)
    requires Safe(m) && m.absorbs && Reachable(m, s)
    requires s.calls == map[] && r in s.fate
    ensures s.fate[r] in {Tracked, Unnamed, Unrecorded, LostToRestart}
  {
    NoSilentIssuance(m, s, r);
  }

  /**
   A certificate that was issued and then lost to a transport fault is evidenced,
   and named at all, if and only if its quarantine or the audit row after it commits.
   */
  lemma OrphanIsEvidencedIffRecorded(m: Regime, s: State, c: CallId, r: ReqId,
                                     quarantined: bool, audited: bool)
    requires Safe(m) && Reachable(m, s) && At(s, c, Orphan(r))
    ensures var o, t := s.calls[c].order, Evidence.SettledOrphan(s, c, r, quarantined, audited);
            && (Evidenced(t.certs, t.events, o, r) <==> quarantined || audited)
            && (Named(t.certs, t.events, o, r) <==> quarantined || audited)
  {
    ReachableInv(m, s);
    Evidence.SettledOrphanFacts(m, s, c, r, quarantined, audited);
  }

  /** Without the bytes there is no row to write, and the audit row alone decides. */
  lemma BareOrphanIsEvidencedIffAudited(m: Regime, s: State, c: CallId, r: ReqId, audited: bool)
    requires Safe(m) && Reachable(m, s) && At(s, c, OrphanUnsaved(r))
    ensures var o, t := s.calls[c].order, DoNoteOrphan(s, c, audited);
            && (Evidenced(t.certs, t.events, o, r) <==> audited)
            && (Named(t.certs, t.events, o, r) <==> audited)
  {
    ReachableInv(m, s);
    Evidence.CarrierFacts(m, s, c);
    Evidence.NotedOrphanFacts(s, c, r, audited);
  }

  /**
   The one path on which a write that succeeds still loses the ReqID: a certificate
   that a post-issuance verifier rejects is evidenced if its quarantine commits; if
   it does not, the fallback that follows names the order and never the request.
   */
  lemma RejectedIsNamedIffQuarantined(m: Regime, s: State, c: CallId, r: ReqId, ok: bool)
    requires Safe(m) && Reachable(m, s) && At(s, c, Rejecting(r))
    ensures var o := s.calls[c].order;
            var t := DoSave(s, c, r, ok, Exiting, RejectUnsaved(r));
            && t.calls[c].pc == (if ok then Exiting else RejectUnsaved(r))
            && (Evidenced(t.certs, t.events, o, r) <==> ok)
            && (Named(t.certs, t.events, o, r) <==> ok)
  {
    ReachableInv(m, s);
    Evidence.SaveRejectedFacts(m, s, c, r, ok);
  }

  lemma FallbackNeverNamesTheRequest(m: Regime, s: State, c: CallId, r: ReqId, ok: bool)
    requires Safe(m) && Reachable(m, s) && At(s, c, RejectUnsaved(r))
    ensures var o := s.calls[c].order;
            var t := DoNoteRejected(s, c, ok);
            && !Named(t.certs, t.events, o, r)
            && (ok ==> RejectionAudit(o) in t.events)
            && r in t.fate && t.fate[r] == if ok then Unnamed else Unrecorded
  {
    ReachableInv(m, s);
    Evidence.CarrierFacts(m, s, c);
  }

  /**
   Submissions follow the account.  In every regime and every interleaving, at each
   CA submission the key that signed the finalize request is the account's current
   key, and no submission follows a committed deactivation of its account.
   */
  lemma SubmissionsFollowTheAccount(m: Regime, s: State)
    requires Reachable(m, s)
    ensures var log := s.log;
            && (forall j :: 0 <= j < |log| && log[j].Submitted? ==> KeyAt(log[..j], log[j].account) == Some(log[j].key))
            && (forall i, j :: 0 <= i < j < |log| && log[i].Deactivated? && log[j].Submitted? ==>
                  log[i].account != log[j].account)
  {
    ReachableAccounts(m, s);
    var log := s.log;
    forall i, j | 0 <= i < j < |log| && log[i].Deactivated? && log[j].Submitted?
      ensures log[i].account != log[j].account
    {
    }
  }

  /**
   At every CA call, in every regime and interleaving, the account exists, is active,
   was addressed with its current key, and its external-account kid is still allowed.
   */
  lemma SubmissionsAreAuthorized(m: Regime, s: State, c: CallId, r: ReqId, outcome: Outcome)
    requires Reachable(m, s) && BackEnabled(m, s, Submit(c, r, outcome))
    ensures var k := s.calls[c];
            && k.account in s.accounts && s.accounts[k.account].active
            && s.accounts[k.account].key == k.key && s.accounts[k.account].kid in s.allowlist
  {
    ReachableAccounts(m, s);
  }

  /** So is every deactivation and key change, at the moment it is written. */
  lemma MutationsAreAuthorized(m: Regime, s: State, u: MutatorId, admitted: bool)
    requires Reachable(m, s) && MutatorEnabled(m, s, MutatorWrite(u, admitted))
    ensures var k := s.mutators[u];
            && k.account in s.accounts && s.accounts[k.account].active
            && s.accounts[k.account].key == k.key && s.accounts[k.account].kid in s.allowlist
  {
    ReachableAccounts(m, s);
  }

  /** With the registry and absorption no reclaim, to valid or to ready, begins while a call is at work on its order. */
  lemma ReclaimsFindNoCall(m: Regime, s: State, o: OrderId, c: CallId)
    requires Covered(m) && Reachable(m, s) && c in s.calls && s.calls[c].order == o
    ensures forall k :: !ReclaimEnabled(m, s, ReclaimOpen(k, o))
    ensures forall g, resolved :: !TableEnabled(m, s, ReclaimToValid(o, g, resolved))
  {
    MarkCoversEveryCall(m, s, c);
  }

  /** No order is reopened while the CA has issued for it or may still: it has no live request and no row. */
  lemma ReopenedOrdersHaveNothingLive(m: Regime, s: State, k: ReclaimId)
    requires Safe(m) && Reachable(m, s) && ReclaimEnabled(m, s, ReclaimReopen(k))
    requires Holds(s.orders, s.reclaims[k].order, s.reclaims[k].generation)
    ensures var o := s.reclaims[k].order;
            && o !in s.certs
            && forall r :: r in s.ca && s.ca[r].order == o ==> s.ca[r].disposition == Denied
  {
    ReachableInv(m, s);
    var o := s.reclaims[k].order;
    assert ReclaimOk(m, s.orders, s.ca, s.reclaims[k]);
    assert NoneLive(s.ca, o);
    forall r | r in s.ca && s.ca[r].order == o
      ensures s.ca[r].disposition == Denied
    {
      assert !Live(s.ca, r, o);
    }
    assert o in s.certs ==> RowOk(s.ca, o, s.certs[o]);
  }
}
