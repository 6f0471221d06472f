/**
 Why each safeguard is needed: runs that break what the theorems promise once a
 safeguard is taken away, whichever of the others are left in place.
 */
module IssuanceNecessity {
  import opened Prelude
  import opened OrderTable
  import opened IssuanceProtocol
  import opened IssuanceInvariant
  import Theorems = IssuanceTheorems

  lemma {:induction false} RunsOn(m: Regime, s: State, actions: seq<Action>, a: Action)
    requires Runs(m, s, actions) && Enabled(m, End(m, s, actions), a)
    ensures Runs(m, s, actions + [a])
    ensures End(m, s, actions + [a]) == Next(m, End(m, s, actions), a)
    decreases actions
  {
    if actions == [] {
      assert [a][1..] == [];
      assert Runs(m, Next(m, s, a), []);
    } else {
      assert (actions + [a])[0] == actions[0];
      assert (actions + [a])[1..] == actions[1..] + [a];
      RunsOn(m, Next(m, s, actions[0]), actions[1..], a);
    }
  }

  /** Whatever run gets to `s`, one gets on to `t`. */
  ghost predicate Leads(m: Regime, s: State, t: State) {
    Reachable(m, s) ==> Reachable(m, t)
  }

  lemma Step(m: Regime, s: State, a: Action, t: State)
    requires Enabled(m, s, a) && Next(m, s, a) == t
    ensures Leads(m, s, t)
  {
    if Reachable(m, s) {
      var actions :| Runs(m, Init, actions) && End(m, Init, actions) == s;
      RunsOn(m, Init, actions, a);
    }
  }

  lemma StepFront(m: Regime, s: State, a: FrontStep, t: State)
    requires FrontEnabled(m, s, a) && FrontNext(m, s, a) == t
    ensures Leads(m, s, t)
  {
    Step(m, s, Front(a), t);
  }

  lemma StepTable(m: Regime, s: State, a: TableStep, t: State)
    requires TableEnabled(m, s, a) && TableNext(m, s, a) == t
    ensures Leads(m, s, t)
  {
    Step(m, s, Table(a), t);
  }

  // --- One call, up to the CA -----------------------------------------------------

  const Subscriber := Account(true, 0, 0)

  /** One usable account, its order 0 in `row`, no call under way. */
  function Idle(row: Order, ca: map<ReqId, CaRequest>, log: seq<Entry>): (s: State) {
    State(map[0 := row], map[0 := Subscriber], map[], {}, ca, map[], map[], map[], map[], map[], {0}, false, log, map[])
  }

  const Opened := Idle(Order(0, Ready, 0, None, None), map[], [Created(0, 0)])

  const WithAccount := Init.(allowlist := {0}, accounts := map[0 := Subscriber], log := [Created(0, 0)])

  lemma Setup(m: Regime)
    ensures Reachable(m, Opened)
  {
    var s := WithAccount.(orders := map[0 := Order(0, Pending, 0, None, None)]);
    assert Runs(m, Init, []) && End(m, Init, []) == Init;
    StepTable(m, Init, Restart({0}), Init.(allowlist := {0}));
    StepTable(m, Init.(allowlist := {0}), CreateAccount(0, 0, 0), WithAccount);
    StepTable(m, WithAccount, CreateOrder(0, 0), s);
    StepTable(m, s, Validate(0), Opened);
  }

  /** The account is usable and unlocked, order 0 is its own and ready, `c` is new. */
  ghost predicate Finalizable(s: State, c: CallId) {
    && 0 in s.orders && s.orders[0].status == Ready && s.orders[0].account == 0
    && Usable(s.accounts, s.allowlist, 0, 0) && 0 !in s.locks && c !in s.calls && !s.halted
  }

  /** A call for order 0 under a fresh lease, with or without the account lock. */
  function InCall(s: State, c: CallId, pc: Pc, locked: bool): (t: State)
    requires 0 in s.orders
  {
    var row := s.orders[0].(status := Processing, generation := s.orders[0].generation + 1);
    s.(orders := s.orders[0 := row],
       calls := s.calls[c := Call(0, 0, 0, row.generation, pc, Present)],
       active := EnterMark(s.active, 0),
       locks := if locked then s.locks[0 := ByCall(c)] else s.locks)
  }

  /** The handler has taken its mark and not yet the lease. */
  function Entered(s: State, c: CallId): (t: State) {
    s.(calls := s.calls[c := Call(0, 0, 0, 0, Marked, Present)], active := EnterMark(s.active, 0))
  }

  lemma EnterAndLease(m: Regime, s: State, c: CallId)
    requires Finalizable(s, c)
    ensures Leads(m, s, InCall(s, c, Leased, false))
  {
    StepFront(m, s, Begin(c, 0, 0), Entered(s, c));
    StepFront(m, Entered(s, c), TakeLease(c, true), InCall(s, c, Leased, false));
  }

  lemma Queue(m: Regime, s: State, c: CallId)
    requires Finalizable(s, c)
    ensures Leads(m, InCall(s, c, Leased, false), InCall(s, c, Queued, false))
  {
    StepFront(m, InCall(s, c, Leased, false), Admit(c), InCall(s, c, Queued, false));
  }

  lemma Lock(m: Regime, s: State, c: CallId)
    requires Finalizable(s, c)
    ensures Leads(m, InCall(s, c, Queued, false), InCall(s, c, Locked, true))
  {
    StepFront(m, InCall(s, c, Queued, false), LockAccount(c), InCall(s, c, Locked, true));
  }

  lemma PassAccount(m: Regime, s: State, c: CallId)
    requires Finalizable(s, c)
    ensures Leads(m, InCall(s, c, Locked, true), InCall(s, c, AccountOk, true))
  {
    StepFront(m, InCall(s, c, Locked, true), CheckAccount(c), InCall(s, c, AccountOk, true));
  }

  lemma PassLease(m: Regime, s: State, c: CallId)
    requires Finalizable(s, c)
    ensures Leads(m, InCall(s, c, AccountOk, true), InCall(s, c, LeaseOk, true))
  {
    StepFront(m, InCall(s, c, AccountOk, true), CheckLease(c), InCall(s, c, LeaseOk, true));
  }

  /** From any finalizable state a call can get as far as the CA, in every regime. */
  lemma ReachTheCa(m: Regime, s: State, c: CallId)
    requires Finalizable(s, c)
    ensures Leads(m, s, InCall(s, c, LeaseOk, true))
  {
    EnterAndLease(m, s, c);
    Queue(m, s, c);
    Lock(m, s, c);
    PassAccount(m, s, c);
    PassLease(m, s, c);
  }

  lemma StepBack(m: Regime, s: State, a: BackStep, t: State)
    requires BackEnabled(m, s, a) && BackNext(m, s, a) == t
    ensures Leads(m, s, t)
  {
    Step(m, s, Back(a), t);
  }

  lemma StepReclaim(m: Regime, s: State, a: ReclaimStep, t: State)
    requires ReclaimEnabled(m, s, a) && ReclaimNext(m, s, a) == t
    ensures Leads(m, s, t)
  {
    Step(m, s, Reclaiming(a), t);
  }

  // --- The first call, and its handler -----------------------------------------------

  const Wedged := Order(0, Processing, 1, None, None)
  const Reopened := Order(0, Ready, 1, None, None)
  const Submission := [Created(0, 0), Submitted(0, 0)]

  /** Call 0 at a point of its work, with its handler there or gone; `locked` as the account is. */
  function Worker(pc: Pc, handler: Handler, row: Order, locked: bool, ca: map<ReqId, CaRequest>, log: seq<Entry>,
                  fate: map<ReqId, Fate>): (s: State) {
    Idle(row, ca, log).(
      calls := map[0 := Call(0, 0, 0, 1, pc, handler)],
      active := if handler == Left then map[] else map[0 := 1],
      locks := if locked then map[0 := ByCall(0)] else map[],
      fate := fate)
  }

  /** At the CA, nothing submitted yet. */
  function AtCa(handler: Handler, row: Order): (s: State) {
    Worker(LeaseOk, handler, row, true, map[], [Created(0, 0)], map[])
  }

  function FirstRequest(d: Disposition): (ca: map<ReqId, CaRequest>) { map[0 := CaRequest(0, 1, 0, d)] }

  lemma AtCaIsReachable(m: Regime)
    ensures Reachable(m, AtCa(Present, Wedged))
  {
    Setup(m);
    ReachTheCa(m, Opened, 0);
    assert InCall(Opened, 0, LeaseOk, true) == AtCa(Present, Wedged);
  }

  /** A gate that does not absorb the cancellation lets the handler go, and its mark with it. */
  lemma Desert(m: Regime, pc: Pc, row: Order, ca: map<ReqId, CaRequest>, log: seq<Entry>)
    requires !m.absorbs && Awaited(pc) && !pc.Completing?
    ensures Leads(m, Worker(pc, Present, row, true, ca, log, map[]), Worker(pc, Left, row, true, ca, log, map[]))
  {
    var s := Worker(pc, Present, row, true, ca, log, map[]);
    var t := SetHandler(s, 0, Interrupted);
    StepFront(m, s, ClientCancel(0), t);
    assert DoLeave(t, 0) == Worker(pc, Left, row, true, ca, log, map[]);
    StepFront(m, t, Leave(0), Worker(pc, Left, row, true, ca, log, map[]));
  }

  /** A call that a reclaim in regime `m` would not see: the registry is ignored, or the mark is gone. */
  ghost predicate Unseeable(m: Regime, handler: Handler) {
    (handler == Present && !m.registry) || (handler == Left && !m.absorbs)
  }

  lemma UnseenAtCa(m: Regime, handler: Handler)
    requires Unseeable(m, handler)
    ensures Reachable(m, AtCa(handler, Wedged))
  {
    AtCaIsReachable(m);
    if handler == Left {
      Desert(m, LeaseOk, Wedged, map[], [Created(0, 0)]);
    }
  }

  // --- Reclaim -------------------------------------------------------------------------

  /** The wedged order 0 can be reclaimed, on the operator's word. */
  ghost predicate Reclaimable(m: Regime, s: State) {
    && 0 in s.orders && s.orders[0] == Wedged && s.reclaims == map[] && 0 !in s.certs
    && (forall asserted :: OperatorTruth(m, s.ca, Reclaim(0, 1, None, asserted)))
    && (m.registry ==> ActiveCount(s.active, 0) == 0)
  }

  lemma StateReclaim(m: Regime, s: State)
    requires Reclaimable(m, s)
    ensures Leads(m, s, s.(reclaims := map[0 := Reclaim(0, 1, None, true)]))
  {
    var read := s.(reclaims := map[0 := Reclaim(0, 1, None, false)]);
    StepReclaim(m, s, ReclaimOpen(0, 0), read);
    StepReclaim(m, read, ReclaimAssert(0), s.(reclaims := map[0 := Reclaim(0, 1, None, true)]));
  }

  lemma ReclaimRuns(m: Regime, s: State)
    requires Reclaimable(m, s)
    ensures Leads(m, s, s.(orders := s.orders[0 := Reopened]))
  {
    StateReclaim(m, s);
    StepReclaim(m, s.(reclaims := map[0 := Reclaim(0, 1, None, true)]), ReclaimReopen(0),
                s.(orders := s.orders[0 := Reopened]));
  }

  // --- Two certificates for one order -----------------------------------------------------

  ghost predicate TwoLive(m: Regime) {
    exists s :: Reachable(m, s) && Live(s.ca, 0, 0) && Live(s.ca, 1, 0)
  }

  /** Once order 0 is open again beside a live request, a second call reaches the CA too. */
  lemma SecondCall(m: Regime, s: State)
    requires Finalizable(s, 1) && Live(s.ca, 0, 0) && 1 !in s.ca
    ensures Reachable(m, s) ==> TwoLive(m)
  {
    ReachTheCa(m, s, 1);
    var t := DoSubmit(InCall(s, 1, LeaseOk, true), 1, 1, Issue);
    StepBack(m, InCall(s, 1, LeaseOk, true), Submit(1, 1, Issue), t);
    assert Live(t.ca, 0, 0) && Live(t.ca, 1, 0);
  }

  /** The CA has issued, and the worker is about to hand the certificate over. */
  function Answered(handler: Handler, row: Order): (s: State) {
    Worker(Returned(0), handler, row, true, FirstRequest(Issued), Submission, map[0 := InHand(0)])
  }

  /** What the handler makes of an issued certificate: it goes on with it, or is not there to do so. */
  function Handed(handler: Handler, row: Order): (s: State) {
    if handler == Left then Worker(Exiting, handler, row, false, FirstRequest(Issued), Submission, map[0 := Dropped])
    else Worker(Completing(0), handler, row, false, FirstRequest(Issued), Submission, map[0 := InHand(0)])
  }

  lemma HandOver(m: Regime, handler: Handler, row: Order)
    ensures Leads(m, Answered(handler, row), Handed(handler, row))
  {
    assert DoUnlock(Answered(handler, row), 0) == Handed(handler, row);
    StepBack(m, Answered(handler, row), UnlockAccount(0), Handed(handler, row));
  }

  lemma TakeFromWorker(m: Regime, handler: Handler)
    requires Unseeable(m, handler)
    ensures Reachable(m, AtCa(handler, Reopened))
  {
    UnseenAtCa(m, handler);
    ReclaimRuns(m, AtCa(handler, Wedged));
    assert AtCa(handler, Wedged).(orders := AtCa(handler, Wedged).orders[0 := Reopened]) == AtCa(handler, Reopened);
  }

  /** A lease check that is split from the CA call, and a call that reclaims do not see. */
  lemma UnfencedIssuesTwice(m: Regime, handler: Handler)
    requires !m.fenced && Unseeable(m, handler)
    ensures TwoLive(m)
  {
    TakeFromWorker(m, handler);
    StepBack(m, AtCa(handler, Reopened), Submit(0, 0, Issue), Answered(handler, Reopened));
    HandOver(m, handler, Reopened);
    SecondCall(m, Handed(handler, Reopened));
  }

  /** The CA has the first request under submission. */
  function Waiting(pc: Pc, handler: Handler, row: Order, locked: bool): (s: State) {
    Worker(pc, handler, row, locked, FirstRequest(Undecided), Submission, map[])
  }

  lemma PendedIsReachable(m: Regime)
    ensures Reachable(m, Waiting(Pended(0), Present, Wedged, true))
  {
    AtCaIsReachable(m);
    StepBack(m, AtCa(Present, Wedged), Submit(0, 0, Pend), Waiting(Pended(0), Present, Wedged, true));
  }

  const LateMarker := Reopened.(pendingReq := Some(0))

  lemma TakeWhilePended(m: Regime, handler: Handler)
    requires !m.truthful && Unseeable(m, handler)
    ensures Reachable(m, Waiting(Pended(0), handler, Reopened, true))
  {
    PendedIsReachable(m);
    if handler == Left {
      Desert(m, Pended(0), Wedged, FirstRequest(Undecided), Submission);
    }
    var s := Waiting(Pended(0), handler, Wedged, true);
    ReclaimRuns(m, s);
    assert s.(orders := s.orders[0 := Reopened]) == Waiting(Pended(0), handler, Reopened, true);
  }

  /** An operator who does not look for undecided requests, and a call that reclaims do not see. */
  lemma UnmarkedIssuesTwice(m: Regime, handler: Handler)
    requires !m.truthful && Unseeable(m, handler)
    ensures TwoLive(m)
  {
    TakeWhilePended(m, handler);
    StepBack(m, Waiting(Pended(0), handler, Reopened, true), MarkPending(0, true, false),
             Waiting(Releasing, handler, LateMarker, true));
    StepBack(m, Waiting(Releasing, handler, LateMarker, true), UnlockAccount(0),
             Waiting(Exiting, handler, LateMarker, false));
    SecondCall(m, Waiting(Exiting, handler, LateMarker, false));
  }

  /** The CA has a request that no row of the store mentions. */
  const Untold := Idle(Wedged, FirstRequest(Undecided), Submission)

  lemma UntoldIssuesTwice(m: Regime)
    requires !m.truthful
    ensures Reachable(m, Untold) ==> TwoLive(m)
  {
    ReclaimRuns(m, Untold);
    SecondCall(m, Untold.(orders := Untold.orders[0 := Reopened]));
  }

  lemma LeaveUntold(m: Regime)
    ensures Leads(m, Waiting(Releasing, Present, Wedged, true), Untold)
  {
    StepBack(m, Waiting(Releasing, Present, Wedged, true), UnlockAccount(0), Waiting(Exiting, Present, Wedged, false));
    assert DoExit(Waiting(Exiting, Present, Wedged, false), 0) == Untold;
    StepBack(m, Waiting(Exiting, Present, Wedged, false), Exit(0), Untold);
  }

  /** The answer to an accepted request is lost on the way back. */
  lemma AnswerIsLost(m: Regime)
    requires !m.answered
    ensures Reachable(m, Untold)
  {
    AtCaIsReachable(m);
    StepBack(m, AtCa(Present, Wedged), Submit(0, 0, Unseen(Undecided)), Waiting(Releasing, Present, Wedged, true));
    LeaveUntold(m);
  }

  /** The marker of an accepted request cannot be written. */
  lemma MarkerIsLost(m: Regime)
    requires !m.markersWritten
    ensures Reachable(m, Untold)
  {
    PendedIsReachable(m);
    StepBack(m, Waiting(Pended(0), Present, Wedged, true), MarkPending(0, false, false),
             Waiting(Releasing, Present, Wedged, true));
    LeaveUntold(m);
  }

  /** The process is restarted between the acceptance and its marker. */
  lemma WorkerIsLost(m: Regime)
    requires !m.uninterrupted
    ensures Reachable(m, Untold)
  {
    PendedIsReachable(m);
    assert DoRestart(Waiting(Pended(0), Present, Wedged, true), {0}) == Untold;
    StepTable(m, Waiting(Pended(0), Present, Wedged, true), Restart({0}), Untold);
  }

  lemma UnsafeIssuesTwice(m: Regime)
    requires !Safe(m)
    ensures TwoLive(m)
  {
    if !m.fenced && !Covered(m) {
      UnfencedIssuesTwice(m, if m.registry then Left else Present);
    } else if !Covered(m) {
      UnmarkedIssuesTwice(m, if m.registry then Left else Present);
    } else {
      if !m.answered {
        AnswerIsLost(m);
      } else if !m.markersWritten {
        MarkerIsLost(m);
      } else {
        WorkerIsLost(m);
      }
      UntoldIssuesTwice(m);
    }
  }

  /** No order ends a run with two requests that the CA issued or may still issue. */
  ghost predicate NeverTwo(m: Regime) {
    forall s, o, r1, r2 :: Reachable(m, s) && Live(s.ca, r1, o) && Live(s.ca, r2, o) ==> r1 == r2
  }

  /**
   The safeguards are exact: of all combinations of them, single issuance holds in
   precisely those that are safe.
   */
  lemma SafeguardsAreExact(m: Regime)
    ensures NeverTwo(m) <==> Safe(m)
  {
    if Safe(m) {
      forall s, o, r1, r2 | Reachable(m, s) && Live(s.ca, r1, o) && Live(s.ca, r2, o)
        ensures r1 == r2
      {
        Theorems.AtMostOneCertificate(m, s);
      }
    } else {
      UnsafeIssuesTwice(m);
    }
  }

  // --- Absorption ---------------------------------------------------------------------------

  /** No order with a call at work reads as inactive. */
  ghost predicate MarksCover(m: Regime) {
    forall s, c :: Reachable(m, s) && c in s.calls ==> ActiveCount(s.active, s.calls[c].order) >= 1
  }

  /** No certificate is handed to a handler that is gone. */
  ghost predicate ResultsArrive(m: Regime) {
    forall s, r :: Reachable(m, s) && r in s.fate ==> s.fate[r] != Dropped
  }

  lemma AbsorptionSuffices(m: Regime)
    requires m.absorbs
    ensures MarksCover(m) && ResultsArrive(m)
  {
    forall s, c | Reachable(m, s) && c in s.calls
      ensures ActiveCount(s.active, s.calls[c].order) >= 1
    {
      Theorems.MarkCoversEveryCall(m, s, c);
    }
    forall s, r | Reachable(m, s) && r in s.fate
      ensures s.fate[r] != Dropped
    {
      Theorems.ReachableRegistry(m, s);
    }
  }

  lemma IssuedToNobody(m: Regime)
    requires !m.absorbs
    ensures Reachable(m, Handed(Left, Wedged))
  {
    UnseenAtCa(m, Left);
    StepBack(m, AtCa(Left, Wedged), Submit(0, 0, Issue), Answered(Left, Wedged));
    HandOver(m, Left, Wedged);
  }

  /** Absorbing cancellations is what makes the mark cover the worker, and its result arrive. */
  lemma AbsorptionIsExact(m: Regime)
    ensures MarksCover(m) <==> m.absorbs
    ensures ResultsArrive(m) <==> m.absorbs
  {
    if m.absorbs {
      AbsorptionSuffices(m);
    } else {
      UnseenAtCa(m, Left);
      assert 0 in AtCa(Left, Wedged).calls;
      IssuedToNobody(m);
      assert 0 in Handed(Left, Wedged).fate;
    }
  }

  // --- Certificates that nothing names ---------------------------------------------------------

  /** Request 0 issued, and call 0 at a given point of dealing with it. */
  function Dealing(pc: Pc, locked: bool, fate: Fate): (s: State) {
    Worker(pc, Present, Wedged, locked, FirstRequest(Issued), Submission, map[0 := fate])
  }

  lemma RejectedIsReachable(m: Regime)
    ensures Reachable(m, Dealing(Rejecting(0), false, InHand(0)))
  {
    AtCaIsReachable(m);
    StepBack(m, AtCa(Present, Wedged), Submit(0, 0, Issue), Dealing(Returned(0), true, InHand(0)));
    HandOver(m, Present, Wedged);
    StepBack(m, Dealing(Completing(0), false, InHand(0)), Verify(0, false), Dealing(Rejecting(0), false, InHand(0)));
  }

  /** A rejected certificate whose quarantine did not commit and whose audit row did. */
  const Forgotten := Dealing(Exiting, false, Unnamed).(events := {RejectionAudit(0)})

  lemma UnnamedIsReachable(m: Regime)
    ensures Reachable(m, Forgotten) && !Named(Forgotten.certs, Forgotten.events, 0, 0)
  {
    RejectedIsReachable(m);
    StepBack(m, Dealing(Rejecting(0), false, InHand(0)), SaveRejected(0, false),
             Dealing(RejectUnsaved(0), false, InHand(0)));
    StepBack(m, Dealing(RejectUnsaved(0), false, InHand(0)), NoteRejected(0, true), Forgotten);
  }

  lemma OrphanIsReachable(m: Regime)
    ensures Reachable(m, Dealing(Orphan(0), true, InHand(0)))
  {
    AtCaIsReachable(m);
    StepBack(m, AtCa(Present, Wedged), Submit(0, 0, IssueThenFail(true)), Dealing(Orphan(0), true, InHand(0)));
  }

  /** An orphan for which neither the quarantine nor the audit row commits leaves no trace. */
  lemma UnrecordedIsReachable(m: Regime)
    ensures var s := Dealing(Releasing, true, Unrecorded);
            Reachable(m, s) && s.ca[0].disposition == Issued && !Named(s.certs, s.events, 0, 0)
  {
    OrphanIsReachable(m);
    StepBack(m, Dealing(Orphan(0), true, InHand(0)), SaveOrphan(0, false), Dealing(OrphanUnsaved(0), true, InHand(0)));
    StepBack(m, Dealing(OrphanUnsaved(0), true, InHand(0)), NoteOrphan(0, false), Dealing(Releasing, true, Unrecorded));
  }
}
