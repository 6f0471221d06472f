/** What calls leave behind: the halt they latched, the lease they gave back, the locks they held. */
module IssuanceCalls {
  import opened Prelude
  import opened OrderTable
  import opened IssuanceProtocol
  import opened IssuanceInvariant
  import opened IssuanceCertificates

  // --- The halt ------------------------------------------------------------------------------

  /** The call is past the gate and has not ended. */
  ghost predicate Inside(calls: map<CallId, Call>, c: CallId) {
    c in calls && !calls[c].pc.Marked? && !calls[c].pc.Leased? && !calls[c].pc.Exiting?
  }

  ghost predicate NoneEnters(s: State, t: State) {
    t.halted && forall c :: Inside(t.calls, c) ==> Inside(s.calls, c)
  }

  lemma FrontLetsNoneIn(m: Regime, s: State, a: FrontStep)
    requires s.halted && FrontEnabled(m, s, a)
    ensures NoneEnters(s, FrontNext(m, s, a))
  {
  }

  lemma BackLetsNoneIn(m: Regime, s: State, a: BackStep)
    requires s.halted && BackEnabled(m, s, a)
    ensures NoneEnters(s, BackNext(m, s, a))
  {
  }

  lemma TableLetsNoneIn(m: Regime, s: State, a: TableStep)
    requires s.halted && TableEnabled(m, s, a) && !a.Restart?
    ensures NoneEnters(s, TableNext(m, s, a))
  {
  }

  lemma ReclaimLetsNoneIn(m: Regime, s: State, a: ReclaimStep)
    requires s.halted && ReclaimEnabled(m, s, a)
    ensures NoneEnters(s, ReclaimNext(m, s, a))
  {
  }

  lemma MutatorLetsNoneIn(m: Regime, s: State, a: MutatorStep)
    requires s.halted && MutatorEnabled(m, s, a)
    ensures NoneEnters(s, MutatorNext(m, s, a))
  {
  }

  lemma StepLetsNoneIn(m: Regime, s: State, a: Action)
    requires s.halted && Enabled(m, s, a) && !(a.Table? && a.table.Restart?)
    ensures NoneEnters(s, Next(m, s, a))
  {
    match a
    case Front(f) => FrontLetsNoneIn(m, s, f);
    case Back(b) => BackLetsNoneIn(m, s, b);
    case Table(t) => TableLetsNoneIn(m, s, t);
    case Reclaiming(q) => ReclaimLetsNoneIn(m, s, q);
    case Mutating(u) => MutatorLetsNoneIn(m, s, u);
  }

  /**
   Once issuance is halted it stays so until the process restarts, and no call passes
   the gate: whichever calls the CA afterwards was inside when the halt was latched.
   */
  lemma {:induction false} HaltLetsNoneIn(m: Regime, s: State, actions: seq<Action>, c: CallId)
    requires s.halted && Runs(m, s, actions)
    requires forall a :: a in actions ==> !(a.Table? && a.table.Restart?)
    ensures End(m, s, actions).halted
    ensures Inside(End(m, s, actions).calls, c) ==> Inside(s.calls, c)
    decreases actions
  {
    if actions != [] {
      StepLetsNoneIn(m, s, actions[0]);
      HaltLetsNoneIn(m, Next(m, s, actions[0]), actions[1..], c);
    }
  }

  // --- The lease -------------------------------------------------------------------------------

  /** What handing the lease of a call back makes of the orders: its own is ready again, no other changes. */
  ghost function HandedBack(orders: Orders, k: Call, ok: bool): (after: Orders) {
    if ok && k.order in orders && orders[k.order].status == Processing && orders[k.order].generation == k.generation
    then orders[k.order := orders[k.order].(status := Ready)] else orders
  }

  lemma RevertHandsBack(s: State, c: CallId, pc: Pc, ok: bool)
    requires c in s.calls
    ensures DoRevert(s, c, pc, ok).orders == HandedBack(s.orders, s.calls[c], ok)
  {
  }

  /**
   Shed at a full gate, turned back without authorization or denied by the CA: if the
   write commits, the order is ready again for another try, unless the lease had lapsed.
   A call that the halt refuses keeps its lease, and only a reclaim reopens its order.
   */
  lemma UnspentLeaseIsHandedBack(m: Regime, s: State, c: CallId, ok: bool)
    ensures FrontEnabled(m, s, Shed(c, ok)) ==>
              FrontNext(m, s, Shed(c, ok)).orders == HandedBack(s.orders, s.calls[c], ok)
    ensures FrontEnabled(m, s, Abandon(c, ok)) ==>
              FrontNext(m, s, Abandon(c, ok)).orders == HandedBack(s.orders, s.calls[c], ok)
    ensures BackEnabled(m, s, RevertDenied(c, ok)) ==>
              BackNext(m, s, RevertDenied(c, ok)).orders == HandedBack(s.orders, s.calls[c], ok)
    ensures FrontEnabled(m, s, Refuse(c)) ==> FrontNext(m, s, Refuse(c)).orders == s.orders
  {
    if c in s.calls {
      RevertHandsBack(s, c, Exiting, ok);
      RevertHandsBack(s, c, Releasing, ok);
    }
  }

  /**
   The reclaim that reopens an order finds it under the generation it read, or changes
   nothing; it clears the marker it read and no other.
   */
  lemma ReclaimReopensWhatItRead(m: Regime, s: State, k: ReclaimId)
    requires ReclaimEnabled(m, s, ReclaimReopen(k))
    ensures var q, t := s.reclaims[k], ReclaimNext(m, s, ReclaimReopen(k));
            && k !in t.reclaims
            && t.orders ==
               if q.order in s.orders && s.orders[q.order].status == Processing
                  && s.orders[q.order].generation == q.generation
               then s.orders[q.order := s.orders[q.order].(
                      status := Ready,
                      pendingReq := if s.orders[q.order].pendingReq == q.pending then None
                                    else s.orders[q.order].pendingReq)]
               else s.orders
  {
  }

  /** A restart forgets what the process knew, the halt included, and nothing that was stored. */
  lemma RestartForgetsMemoryOnly(m: Regime, s: State, allowlist: set<Kid>)
    requires TableEnabled(m, s, Restart(allowlist))
    ensures var t := TableNext(m, s, Restart(allowlist));
            && t.calls == map[] && t.mutators == map[] && t.reclaims == map[] && t.locks == map[] && !t.halted
            && (forall o :: ActiveCount(t.active, o) == 0) && t.allowlist == allowlist
            && t.orders == s.orders && t.accounts == s.accounts && t.certs == s.certs
            && t.events == s.events && t.ca == s.ca && t.log == s.log
            && t.fate.Keys == s.fate.Keys
            && forall r :: r in s.fate ==> t.fate[r] == if s.fate[r].InHand? then LostToRestart else s.fate[r]
  {
  }

  // --- The locks --------------------------------------------------------------------------------

  /** The holder that the lock names is there, works on that account, and is in its locked section. */
  ghost predicate HolderIsThere(calls: map<CallId, Call>, mutators: map<MutatorId, Mutator>, a: AccountId, h: Holder) {
    match h
    case ByCall(c) => c in calls && calls[c].account == a && UnderLock(calls[c].pc)
    case ByMutator(u) => u in mutators && mutators[u].account == a && mutators[u].pc != MWaiting
  }

  ghost predicate LocksAreHeld(s: State) {
    forall a {:trigger s.locks[a]} :: a in s.locks ==> HolderIsThere(s.calls, s.mutators, a, s.locks[a])
  }

  lemma FrontKeepsLocks(m: Regime, s: State, a: FrontStep)
    requires LocksAreHeld(s) && FrontEnabled(m, s, a)
    ensures LocksAreHeld(FrontNext(m, s, a))
  {
  }

  lemma EndKeepsLocks(m: Regime, s: State, a: BackStep)
    requires LocksAreHeld(s) && BackEnabled(m, s, a)
    requires a.UnlockAccount? || a.Exit? || a.Verify? || a.ReadExisting? || a.Submit?
    ensures LocksAreHeld(BackNext(m, s, a))
  {
  }

  lemma WorkKeepsLocks(m: Regime, s: State, a: BackStep)
    requires LocksAreHeld(s) && BackEnabled(m, s, a)
    requires !a.UnlockAccount? && !a.Exit? && !a.Verify? && !a.ReadExisting? && !a.Submit?
    ensures LocksAreHeld(BackNext(m, s, a))
  {
  }

  lemma BackKeepsLocks(m: Regime, s: State, a: BackStep)
    requires LocksAreHeld(s) && BackEnabled(m, s, a)
    ensures LocksAreHeld(BackNext(m, s, a))
  {
    if a.UnlockAccount? || a.Exit? || a.Verify? || a.ReadExisting? || a.Submit? {
      EndKeepsLocks(m, s, a);
    } else {
      WorkKeepsLocks(m, s, a);
    }
  }

  lemma TableKeepsLocks(m: Regime, s: State, a: TableStep)
    requires LocksAreHeld(s) && TableEnabled(m, s, a)
    ensures LocksAreHeld(TableNext(m, s, a))
  {
  }

  lemma ReclaimKeepsLocks(m: Regime, s: State, a: ReclaimStep)
    requires LocksAreHeld(s) && ReclaimEnabled(m, s, a)
    ensures LocksAreHeld(ReclaimNext(m, s, a))
  {
  }

  lemma MutatorKeepsLocks(m: Regime, s: State, a: MutatorStep)
    requires LocksAreHeld(s) && MutatorEnabled(m, s, a)
    ensures LocksAreHeld(MutatorNext(m, s, a))
  {
  }

  lemma StepKeepsLocks(m: Regime, s: State, a: Action)
    requires LocksAreHeld(s) && Enabled(m, s, a)
    ensures LocksAreHeld(Next(m, s, a))
  {
    match a
    case Front(f) => FrontKeepsLocks(m, s, f);
    case Back(b) => BackKeepsLocks(m, s, b);
    case Table(t) => TableKeepsLocks(m, s, t);
    case Reclaiming(q) => ReclaimKeepsLocks(m, s, q);
    case Mutating(u) => MutatorKeepsLocks(m, s, u);
  }

  lemma {:induction false} RunKeepsLocks(m: Regime, s: State, actions: seq<Action>)
    requires LocksAreHeld(s) && Runs(m, s, actions)
    ensures LocksAreHeld(End(m, s, actions))
    decreases actions
  {
    if actions != [] {
      StepKeepsLocks(m, s, actions[0]);
      RunKeepsLocks(m, Next(m, s, actions[0]), actions[1..]);
    }
  }

  /**
   No account lock outlives its holder: whoever it names is still in its locked
   section, and once all calls and mutators are gone every account is free.
   */
  lemma LocksDoNotOutliveTheirHolders(m: Regime, s: State)
    requires Reachable(m, s)
    ensures forall a :: a in s.locks ==> HolderIsThere(s.calls, s.mutators, a, s.locks[a])
    ensures s.calls == map[] && s.mutators == map[] ==> s.locks == map[]
  {
    var actions :| Runs(m, Init, actions) && End(m, Init, actions) == s;
    RunKeepsLocks(m, Init, actions);
    forall a | a in s.locks
      ensures HolderIsThere(s.calls, s.mutators, a, s.locks[a])
    {
    }
  }

  // --- Accounts and orders -------------------------------------------------------------------------

  /** Accounts stay under their kid, and once deactivated stay so; orders stay with their account. */
  ghost predicate Stay(s: State, t: State) {
    && (forall a :: a in s.accounts ==>
          && a in t.accounts && t.accounts[a].kid == s.accounts[a].kid
          && (t.accounts[a].active ==> s.accounts[a].active))
    && (forall o :: o in s.orders ==> o in t.orders && t.orders[o].account == s.orders[o].account)
  }

  ghost predicate OrdersHaveAccounts(s: State) {
    forall o :: o in s.orders ==> s.orders[o].account in s.accounts
  }

  ghost predicate StaysOwned(s: State, t: State) {
    Stay(s, t) && (OrdersHaveAccounts(s) ==> OrdersHaveAccounts(t))
  }

  /** No write of an order but its creation adds one or changes its account. */
  lemma WriteStays(orders: Orders, w: OrderTable.Write, ok: bool)
    requires !w.Create?
    ensures Attempt(orders, w, ok).Keys == orders.Keys
    ensures forall o :: o in orders ==> Attempt(orders, w, ok)[o].account == orders[o].account
  {
  }

  ghost predicate CallsStay(s: State, t: State) {
    && t.accounts == s.accounts && t.orders.Keys == s.orders.Keys
    && forall o :: o in s.orders ==> t.orders[o].account == s.orders[o].account
  }

  lemma FrontStays(m: Regime, s: State, a: FrontStep)
    requires FrontEnabled(m, s, a)
    ensures CallsStay(s, FrontNext(m, s, a))
  {
    if a.TakeLease? {
      WriteStays(s.orders, AcquireLease(s.calls[a.c].order), a.ok);
    } else if a.Shed? || a.Abandon? {
      var k := s.calls[a.c];
      WriteStays(s.orders, ProcessingToReady(k.order, Some(k.generation)), a.ok);
    } else {
      FrontMoveFollows(m, s, a);
    }
  }

  lemma WritingStays(m: Regime, s: State, a: BackStep)
    requires BackEnabled(m, s, a) && (a.RevertDenied? || a.MarkPending? || a.CloseOrphan?)
    ensures CallsStay(s, BackNext(m, s, a))
  {
    var k := s.calls[a.c];
    WriteStays(s.orders, ProcessingToReady(k.order, Some(k.generation)), a.ok);
    WriteStays(s.orders, ProcessingToInvalid(k.order, Some(k.generation)), a.ok);
    if a.MarkPending? {
      WriteStays(s.orders, RecordPending(k.order, k.pc.r, k.generation), a.ok);
    }
  }

  lemma SavingStays(s: State, c: CallId, r: ReqId, ok: bool, saved: Pc, unsaved: Pc)
    requires c in s.calls
    ensures CallsStay(s, DoSave(s, c, r, ok, saved, unsaved))
  {
    WriteStays(s.orders, QuarantineFlip(s.calls[c].order), true);
  }

  lemma RecordingStays(s: State, c: CallId, ok: bool, unwritable: bool, delivered: bool)
    requires c in s.calls && s.calls[c].pc.Recording?
    ensures CallsStay(s, DoRecord(s, c, ok, unwritable, delivered))
  {
    var k := s.calls[c];
    WriteStays(s.orders, ProcessingToValid(k.order, k.pc.r, Some(k.generation)), IssuanceCommits(s, k, ok));
  }

  lemma MovingStays(m: Regime, s: State, a: BackStep)
    requires BackEnabled(m, s, a)
    ensures BackNext(m, s, a).accounts == s.accounts
  {
  }

  lemma BackStays(m: Regime, s: State, a: BackStep)
    requires BackEnabled(m, s, a)
    ensures CallsStay(s, BackNext(m, s, a))
  {
    if a.RevertDenied? || a.MarkPending? || a.CloseOrphan? {
      WritingStays(m, s, a);
    } else if a.SaveOrphan? {
      SavingStays(s, a.c, s.calls[a.c].pc.r, a.ok, OrphanNoted, OrphanUnsaved(s.calls[a.c].pc.r));
    } else if a.SaveRejected? {
      SavingStays(s, a.c, s.calls[a.c].pc.r, a.ok, Exiting, RejectUnsaved(s.calls[a.c].pc.r));
    } else if a.Record? {
      RecordingStays(s, a.c, a.ok, a.unwritable, a.delivered);
    } else {
      MoveFollows(m, s, a);
      MovingStays(m, s, a);
    }
  }

  lemma TableStays(m: Regime, s: State, a: TableStep)
    requires TableEnabled(m, s, a)
    ensures StaysOwned(s, TableNext(m, s, a))
    ensures a.CreateAccount? ==>
              a.a in TableNext(m, s, a).accounts && TableNext(m, s, a).accounts[a.a] == Account(true, a.key, a.kid)
  {
  }

  lemma ReclaimStays(m: Regime, s: State, a: ReclaimStep)
    requires ReclaimEnabled(m, s, a)
    ensures StaysOwned(s, ReclaimNext(m, s, a))
  {
  }

  lemma MutatorStays(m: Regime, s: State, a: MutatorStep)
    requires MutatorEnabled(m, s, a)
    ensures StaysOwned(s, MutatorNext(m, s, a))
  {
  }

  lemma StepStays(m: Regime, s: State, a: Action)
    requires Enabled(m, s, a)
    ensures StaysOwned(s, Next(m, s, a))
  {
    match a
    case Front(f) => FrontStays(m, s, f);
    case Back(b) => BackStays(m, s, b);
    case Table(t) => TableStays(m, s, t);
    case Reclaiming(q) => ReclaimStays(m, s, q);
    case Mutating(u) => MutatorStays(m, s, u);
  }

  /**
   Over every run no account changes its kid or comes back once deactivated, no order
   changes its account, and, from an empty store on, every order has one.
   */
  lemma {:induction false} OwnershipStays(m: Regime, s: State, actions: seq<Action>)
    requires Runs(m, s, actions)
    ensures Stay(s, End(m, s, actions))
    ensures OrdersHaveAccounts(s) ==> OrdersHaveAccounts(End(m, s, actions))
    decreases actions
  {
    if actions != [] {
      StepStays(m, s, actions[0]);
      OwnershipStays(m, Next(m, s, actions[0]), actions[1..]);
    }
  }
}
