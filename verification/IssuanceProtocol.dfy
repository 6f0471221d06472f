/**
 The issuance protocol as a transition system.

 One action is one SQLite transaction, one lock operation, one registry operation
 or one decision of the CA.  Finalize handlers, their workers, account mutators,
 administrative reclaims, the CA officer and process restarts interleave freely.
 */
module IssuanceProtocol {
  import opened Prelude
  import opened OrderTable
  import Leg = EnrollmentLeg

  type Key = nat
  type Kid = nat
  type CallId = nat
  type MutatorId = nat
  type ReclaimId = nat

  /**
   Which safeguards a run may rely on; each one only forbids runs.
   registry - a reclaim is refused while its order is marked.
   absorbs - the gate awaits the worker again whenever its caller is cancelled.
   fenced - the lease still holds at the instant of the CA call, and the operator's
       statement at the instant of the reclaim's write.
   truthful - the operator clears issued and undecided requests alike; otherwise
       only issued certificates and the recorded ReqID.
   answered - the CA's acceptance of a request is never lost in transit.
   markersWritten - the write of the pending marker never fails.
   uninterrupted - no restart falls between an acceptance and its marker.
   */
  datatype Regime = Regime(
    registry: bool,
    absorbs: bool,
    fenced: bool,
    truthful: bool,
    answered: bool,
    markersWritten: bool,
    uninterrupted: bool)

  /** The code as it stands, with an operator who checks everything at the CA. */
  const AsShipped := Regime(true, true, false, true, false, false, false)

  /** The mark covers every worker, and reclaims honour it. */
  predicate Covered(m: Regime) { m.registry && m.absorbs }

  /** Every undecided request is on record as soon as its worker is through. */
  predicate Recorded(m: Regime) { m.answered && m.markersWritten && m.uninterrupted }

  /** The combinations of safeguards under which single issuance holds. */
  predicate Safe(m: Regime) {
    if m.truthful then Covered(m) || m.fenced else Covered(m) && Recorded(m)
  }

  datatype Account = Account(active: bool, key: Key, kid: Kid)

  datatype CertStatus = Served | Quarantined | RevokedCert
  datatype CertRow = CertRow(req: ReqId, status: CertStatus)

  datatype Disposition = Issued | Undecided | Denied
  datatype CaRequest = CaRequest(order: OrderId, generation: nat, caller: CallId, disposition: Disposition)

  /** Where the work of a finalize call is: before the gate, in the worker, or in completion. */
  datatype Pc =
    | Marked
    | Leased
    | Queued
    | Locked
    | Unauthorized
    | AccountOk
    | LeaseOk
    | RequestDenied(r: ReqId)
    | Pended(r: ReqId)
    | Orphan(r: ReqId)
    | OrphanUnsaved(r: ReqId)
    | OrphanNoted
    | Releasing
    | Returned(r: ReqId)
    | Completing(r: ReqId)
    | Verified(r: ReqId)
    | Recording(r: ReqId, existed: bool)
    | Rejecting(r: ReqId)
    | RejectUnsaved(r: ReqId)
    | Exiting

  /** The handler, which holds the mark: at work or awaiting, cancelled while awaiting, or gone. */
  datatype Handler = Present | Interrupted | Left

  datatype Call = Call(
    order: OrderId,
    account: AccountId,
    key: Key,
    generation: nat,
    pc: Pc,
    handler: Handler)

  datatype MutatorKind = Deactivate | ChangeKey(newKey: Key)
  datatype MutatorPc = MWaiting | MLocked | MChecked | MDone
  datatype Mutator = Mutator(account: AccountId, key: Key, kind: MutatorKind, pc: MutatorPc)

  datatype Reclaim = Reclaim(order: OrderId, generation: nat, pending: Option<ReqId>, asserted: bool)

  datatype Holder = ByCall(c: CallId) | ByMutator(u: MutatorId)

  /** Audit rows that matter here, and the off-store emergency event. */
  datatype Event =
    | CertificateIssued(order: OrderId, req: ReqId)
    | EnrollmentRace(order: OrderId, req: ReqId)
    | QuarantineAudit(order: OrderId, req: ReqId)
    | OrphanAudit(order: OrderId, req: ReqId)
    | PendingAudit(order: OrderId, req: ReqId)
    | RejectionAudit(order: OrderId)
    | EmergencyEvent(order: OrderId, req: ReqId)

  /** The committed account history and the CA submissions, in order. */
  datatype Entry =
    | Created(account: AccountId, key: Key)
    | KeyChanged(account: AccountId, key: Key)
    | Deactivated(account: AccountId)
    | Submitted(account: AccountId, key: Key)

  /**
   What became of an issued request whose ReqID the enrollment leg learned.
   Unnamed - a rejection that only an audit row without the ReqID records.
   Unrecorded - its last audit row could not be written, or its emergency event not delivered.
   Dropped - the worker's result found no handler.
   */
  datatype Fate = InHand(c: CallId) | Tracked | Unnamed | Unrecorded | Dropped | LostToRestart

  datatype State = State(
    orders: Orders,
    accounts: map<AccountId, Account>,
    certs: map<OrderId, CertRow>,
    events: set<Event>,
    ca: map<ReqId, CaRequest>,
    calls: map<CallId, Call>,
    active: map<OrderId, nat>,
    locks: map<AccountId, Holder>,
    mutators: map<MutatorId, Mutator>,
    reclaims: map<ReclaimId, Reclaim>,
    allowlist: set<Kid>,
    halted: bool,
    log: seq<Entry>,
    fate: map<ReqId, Fate>)

  const Init := State(map[], map[], map[], {}, map[], map[], map[], map[], map[], map[], {}, false, [], map[])

  /** Every way one submission to the CA can end, as the worker sees it. */
  datatype Outcome =
    | Deny
    | Pend
    | Issue
    | IssueThenFail(bytes: bool)
    | Unseen(disposition: Disposition)
    | NotReached

  /** A finalize call up to the CA: handler, gate, worker, account and lease checks; `ok` is a store write. */
  datatype FrontStep =
    | Begin(c: CallId, o: OrderId, key: Key)
    | TakeLease(c: CallId, ok: bool)
    | Admit(c: CallId)
    | Shed(c: CallId, ok: bool)
    | Refuse(c: CallId)
    | ClientCancel(c: CallId)
    | Retry(c: CallId)
    | Leave(c: CallId)
    | LockAccount(c: CallId)
    | CheckAccount(c: CallId)
    | Abandon(c: CallId, ok: bool)
    | CheckLease(c: CallId)

  /** A finalize call from the CA on: decision, evidence, completion. */
  datatype BackStep =
    | Submit(c: CallId, r: ReqId, outcome: Outcome)
    | RevertDenied(c: CallId, ok: bool)
    | MarkPending(c: CallId, ok: bool, audited: bool)
    | SaveOrphan(c: CallId, ok: bool)
    | NoteOrphan(c: CallId, ok: bool)
    | CloseOrphan(c: CallId, ok: bool)
    | UnlockAccount(c: CallId)
    | Verify(c: CallId, accept: bool)
    | ReadExisting(c: CallId)
    | Record(c: CallId, ok: bool, unwritable: bool, delivered: bool)
    | SaveRejected(c: CallId, ok: bool)
    | NoteRejected(c: CallId, ok: bool)
    | Exit(c: CallId)

  /** Account and order creation, sweeps, revocation, the CA officer, restarts. */
  datatype TableStep =
    | CreateAccount(a: AccountId, key: Key, kid: Kid)
    | CreateOrder(o: OrderId, a: AccountId)
    | Validate(o: OrderId)
    | Expire(o: OrderId)
    | Revoke(o: OrderId)
    | Reconcile(o: OrderId, generation: nat)
    | ReclaimToValid(o: OrderId, generation: nat, resolved: Option<ReqId>)
    | Decide(r: ReqId, approve: bool)
    | Restart(allowlist: set<Kid>)

  /** The administrative reclaim of a wedged order. */
  datatype ReclaimStep =
    | ReclaimOpen(k: ReclaimId, o: OrderId)
    | ReclaimAssert(k: ReclaimId)
    | ReclaimReopen(k: ReclaimId)
    | ReclaimDrop(k: ReclaimId)

  /** Deactivation and key change, under the account lock. */
  datatype MutatorStep =
    | MutatorBegin(u: MutatorId, a: AccountId, key: Key, kind: MutatorKind)
    | MutatorLock(u: MutatorId)
    | MutatorCheck(u: MutatorId)
    | MutatorWrite(u: MutatorId, admitted: bool)
    | MutatorUnlock(u: MutatorId)

  datatype Action =
    | Front(front: FrontStep)
    | Back(back: BackStep)
    | Table(table: TableStep)
    | Reclaiming(reclaim: ReclaimStep)
    | Mutating(mutating: MutatorStep)

  // --- Registry, account locks -----------------------------------------------

  /** The reference count of `ActiveEnrollments`; an absent order counts zero. */
  function ActiveCount(active: map<OrderId, nat>, o: OrderId): (n: nat) {
    if o in active then active[o] else 0
  }

  function EnterMark(active: map<OrderId, nat>, o: OrderId): (after: map<OrderId, nat>) {
    active[o := ActiveCount(active, o) + 1]
  }

  function ExitMark(active: map<OrderId, nat>, o: OrderId): (after: map<OrderId, nat>) {
    if ActiveCount(active, o) > 1 then active[o := ActiveCount(active, o) - 1] else active - {o}
  }

  /** The usability check made under the account lock, by workers and mutators. */
  predicate Usable(accounts: map<AccountId, Account>, allowlist: set<Kid>, a: AccountId, key: Key) {
    a in accounts && accounts[a].active && accounts[a].key == key && accounts[a].kid in allowlist
  }

  // --- The CA ------------------------------------------------------------------

  predicate Live(ca: map<ReqId, CaRequest>, r: ReqId, o: OrderId) {
    r in ca && ca[r].order == o && ca[r].disposition != Denied
  }

  predicate NoneLive(ca: map<ReqId, CaRequest>, o: OrderId) {
    forall r :: r in ca ==> !Live(ca, r, o)
  }

  predicate NoneIssued(ca: map<ReqId, CaRequest>, o: OrderId) {
    forall r :: r in ca && ca[r].order == o ==> ca[r].disposition != Issued
  }

  function CaOutcome(outcome: Outcome): (d: Option<Disposition>) {
    match outcome
    case Deny => Some(Denied)
    case Pend => Some(Undecided)
    case Issue => Some(Issued)
    case IssueThenFail(_) => Some(Issued)
    case Unseen(d) => Some(d)
    case NotReached => None
  }

  function PcAfterSubmit(r: ReqId, outcome: Outcome): (pc: Pc) {
    match outcome
    case Deny => RequestDenied(r)
    case Pend => Pended(r)
    case Issue => Returned(r)
    case IssueThenFail(bytes) => if bytes then Orphan(r) else OrphanUnsaved(r)
    case Unseen(_) => Releasing
    case NotReached => Releasing
  }

  /** The leg hands out the ReqID of an issued request, with or without the bytes. */
  predicate Learns(outcome: Outcome) {
    outcome.Issue? || outcome.IssueThenFail?
  }

  /** What the operator's statement is true of, in each regime. */
  predicate OperatorTruth(m: Regime, ca: map<ReqId, CaRequest>, k: Reclaim) {
    if m.truthful then NoneLive(ca, k.order)
    else
      && NoneIssued(ca, k.order)
      && (k.pending.Some? && k.pending.value in ca ==> ca[k.pending.value].disposition == Denied)
  }

  /** The handler is waiting for the worker, or has yet to see that it is done. */
  predicate Awaited(pc: Pc) {
    || pc.Queued? || pc.Locked? || pc.Unauthorized? || pc.AccountOk? || pc.LeaseOk?
    || pc.RequestDenied? || pc.Pended? || pc.Orphan? || pc.OrphanUnsaved? || pc.OrphanNoted?
    || pc.Releasing? || pc.Returned? || pc.Completing?
  }

  // --- The steps ---------------------------------------------------------------

  predicate At(s: State, c: CallId, pc: Pc) { c in s.calls && s.calls[c].pc == pc }

  function Goto(s: State, c: CallId, pc: Pc): (t: State)
    requires c in s.calls
  {
    s.(calls := s.calls[c := s.calls[c].(pc := pc)])
  }

  function WriteOrders(s: State, w: Write): (t: State) {
    s.(orders := Apply(s.orders, w))
  }

  predicate UnservedRow(s: State, o: OrderId) {
    o !in s.certs || s.certs[o].status == Quarantined
  }

  predicate FrontEnabled(m: Regime, s: State, a: FrontStep) {
    match a
    case Begin(c, o, _) => c !in s.calls && o in s.orders
    case TakeLease(c, _) => At(s, c, Marked)
    case Admit(c) => At(s, c, Leased) && !s.halted
    case Shed(c, _) => At(s, c, Leased)
    case Refuse(c) => At(s, c, Leased)
    case ClientCancel(c) => c in s.calls && Awaited(s.calls[c].pc) && s.calls[c].handler == Present
    case Retry(c) => c in s.calls && s.calls[c].handler == Interrupted
    case Leave(c) => c in s.calls && s.calls[c].handler == Interrupted && Leg.LeavesOn(m.absorbs, Leg.CallerCancelled)
    case LockAccount(c) => At(s, c, Queued) && s.calls[c].account !in s.locks
    case CheckAccount(c) => At(s, c, Locked)
    case Abandon(c, _) => At(s, c, Unauthorized)
    case CheckLease(c) => At(s, c, AccountOk)
  }

  predicate BackEnabled(m: Regime, s: State, a: BackStep) {
    match a
    case Submit(c, r, outcome) =>
      && r !in s.ca && At(s, c, LeaseOk)
      && (m.answered ==> outcome != Unseen(Undecided))
      && (m.fenced ==> Holds(s.orders, s.calls[c].order, s.calls[c].generation))
    case RevertDenied(c, _) => c in s.calls && s.calls[c].pc.RequestDenied?
    case MarkPending(c, ok, _) => c in s.calls && s.calls[c].pc.Pended? && (m.markersWritten ==> ok)
    case SaveOrphan(c, _) => c in s.calls && s.calls[c].pc.Orphan?
    case NoteOrphan(c, _) => c in s.calls && s.calls[c].pc.OrphanUnsaved?
    case CloseOrphan(c, _) => At(s, c, OrphanNoted)
    case UnlockAccount(c) => c in s.calls && (s.calls[c].pc.Releasing? || s.calls[c].pc.Returned?)
    case Verify(c, _) => c in s.calls && s.calls[c].pc.Completing? && s.calls[c].handler == Present
    case ReadExisting(c) => c in s.calls && s.calls[c].pc.Verified?
    case Record(c, _, _, _) => c in s.calls && s.calls[c].pc.Recording?
    case SaveRejected(c, _) => c in s.calls && s.calls[c].pc.Rejecting?
    case NoteRejected(c, _) => c in s.calls && s.calls[c].pc.RejectUnsaved?
    case Exit(c) => At(s, c, Exiting) && s.calls[c].handler != Interrupted
  }

  predicate TableEnabled(m: Regime, s: State, a: TableStep) {
    match a
    case CreateAccount(acct, _, _) => acct !in s.accounts
    case CreateOrder(o, acct) => o !in s.orders && acct in s.accounts
    case Validate(o) => true
    case Expire(o) => true
    case Revoke(o) => o in s.certs && s.certs[o].status == Served
    case Reconcile(o, _) => !UnservedRow(s, o)
    case ReclaimToValid(o, _, _) => !UnservedRow(s, o) && (m.registry ==> ActiveCount(s.active, o) == 0)
    case Decide(r, _) => r in s.ca && s.ca[r].disposition == Undecided
    case Restart(_) => m.uninterrupted ==> forall c :: c in s.calls ==> !s.calls[c].pc.Pended?
  }

  predicate ReclaimEnabled(m: Regime, s: State, a: ReclaimStep) {
    match a
    case ReclaimOpen(k, o) =>
      && k !in s.reclaims && o in s.orders && s.orders[o].status == Processing
      && (m.registry ==> ActiveCount(s.active, o) == 0)
    case ReclaimAssert(k) =>
      k in s.reclaims && UnservedRow(s, s.reclaims[k].order) && OperatorTruth(m, s.ca, s.reclaims[k])
    case ReclaimReopen(k) =>
      && k in s.reclaims && s.reclaims[k].asserted
      && (m.fenced ==> OperatorTruth(m, s.ca, s.reclaims[k]))
    case ReclaimDrop(k) => k in s.reclaims
  }

  predicate MutatorEnabled(m: Regime, s: State, a: MutatorStep) {
    match a
    case MutatorBegin(u, _, _, _) => u !in s.mutators
    case MutatorLock(u) => u in s.mutators && s.mutators[u].pc == MWaiting && s.mutators[u].account !in s.locks
    case MutatorCheck(u) => u in s.mutators && s.mutators[u].pc == MLocked
    case MutatorWrite(u, _) => u in s.mutators && s.mutators[u].pc == MChecked
    case MutatorUnlock(u) => u in s.mutators && s.mutators[u].pc == MDone
  }

  predicate Enabled(m: Regime, s: State, a: Action) {
    match a
    case Front(f) => FrontEnabled(m, s, f)
    case Back(b) => BackEnabled(m, s, b)
    case Table(t) => TableEnabled(m, s, t)
    case Reclaiming(q) => ReclaimEnabled(m, s, q)
    case Mutating(u) => MutatorEnabled(m, s, u)
  }

  /** A guarded write that commits or fails as a whole. */
  function Attempt(orders: Orders, w: Write, ok: bool): (after: Orders) {
    if ok then Apply(orders, w) else orders
  }

  /** Winning the compare-and-set mints the lease; losing it ends the call. */
  function AfterAcquire(orders: Orders, k: Call, ok: bool): (leased: Call) {
    if ok && Fires(orders, AcquireLease(k.order)) then
      k.(generation := orders[k.order].generation + 1, pc := Leased)
    else k.(pc := Exiting)
  }

  function DoTakeLease(s: State, c: CallId, ok: bool): (t: State)
    requires c in s.calls
  {
    s.(orders := Attempt(s.orders, AcquireLease(s.calls[c].order), ok),
       calls := s.calls[c := AfterAcquire(s.orders, s.calls[c], ok)])
  }

  /** Handing the lease back, and going on whether or not that worked. */
  function DoRevert(s: State, c: CallId, pc: Pc, ok: bool): (t: State)
    requires c in s.calls
  {
    var k := s.calls[c];
    s.(orders := Attempt(s.orders, ProcessingToReady(k.order, Some(k.generation)), ok),
       calls := s.calls[c := k.(pc := pc)])
  }

  /** The marker, and unless that raised, the audit row; a marker that found another generation is no error. */
  function DoMarkPending(s: State, c: CallId, ok: bool, audited: bool): (t: State)
    requires c in s.calls && s.calls[c].pc.Pended?
  {
    var k := s.calls[c];
    s.(orders := Attempt(s.orders, RecordPending(k.order, k.pc.r, k.generation), ok),
       events := if ok && audited then s.events + {PendingAudit(k.order, k.pc.r)} else s.events,
       calls := s.calls[c := k.(pc := Releasing)])
  }

  function SetHandler(s: State, c: CallId, h: Handler): (t: State)
    requires c in s.calls
  {
    s.(calls := s.calls[c := s.calls[c].(handler := h)])
  }

  /** The handler is gone, and with it the mark; the worker, if it still runs, does not notice. */
  function DoLeave(s: State, c: CallId): (t: State)
    requires c in s.calls
  {
    var k := s.calls[c];
    s.(calls := s.calls[c := k.(handler := Left, pc := if k.pc.Completing? then Exiting else k.pc)],
       active := ExitMark(s.active, k.order),
       fate := if k.pc.Completing? then s.fate[k.pc.r := Dropped] else s.fate)
  }

  /** The worker is done; an issued certificate goes to the handler, if there is one. */
  function DoUnlock(s: State, c: CallId): (t: State)
    requires c in s.calls
  {
    var k := s.calls[c];
    var dropped := k.pc.Returned? && k.handler == Left;
    s.(calls := s.calls[c := k.(pc := if k.pc.Returned? && !dropped then Completing(k.pc.r) else Exiting)],
       locks := s.locks - {k.account},
       fate := if dropped then s.fate[k.pc.r := Dropped] else s.fate)
  }

  function DoExit(s: State, c: CallId): (t: State)
    requires c in s.calls
  {
    var k := s.calls[c];
    s.(calls := s.calls - {c},
       active := if k.handler == Left then s.active else ExitMark(s.active, k.order))
  }

  function DoSubmit(s: State, c: CallId, r: ReqId, outcome: Outcome): (t: State)
    requires c in s.calls
  {
    var k := s.calls[c];
    var d := CaOutcome(outcome);
    Goto(s, c, PcAfterSubmit(r, outcome)).(
      ca := if d.Some? then s.ca[r := CaRequest(k.order, k.generation, c, d.value)] else s.ca,
      log := s.log + [Submitted(k.account, k.key)],
      fate := if Learns(outcome) then s.fate[r := InHand(c)] else s.fate)
  }

  /** The quarantine transaction; a row already there violates the unique index. */
  predicate QuarantineCommits(s: State, o: OrderId, ok: bool) { ok && o !in s.certs }

  function DoSave(s: State, c: CallId, r: ReqId, ok: bool, saved: Pc, unsaved: Pc): (t: State)
    requires c in s.calls
  {
    var k := s.calls[c];
    var commits := QuarantineCommits(s, k.order, ok);
    s.(calls := s.calls[c := k.(pc := if commits then saved else unsaved)],
       orders := if commits then Apply(s.orders, QuarantineFlip(k.order)) else s.orders,
       certs := if commits then s.certs[k.order := CertRow(r, Quarantined)] else s.certs,
       events := if commits then s.events + {QuarantineAudit(k.order, r)} else s.events,
       fate := if commits then s.fate[r := Tracked] else s.fate)
  }

  /** No row could be written: the ReqID goes into the audit row, and failing that nowhere. */
  function DoNoteOrphan(s: State, c: CallId, ok: bool): (t: State)
    requires c in s.calls && s.calls[c].pc.OrphanUnsaved?
  {
    var k := s.calls[c];
    s.(calls := s.calls[c := k.(pc := if ok then OrphanNoted else Releasing)],
       events := if ok then s.events + {OrphanAudit(k.order, k.pc.r)} else s.events,
       fate := s.fate[k.pc.r := if ok then Tracked else Unrecorded])
  }

  function DoCloseOrphan(s: State, c: CallId, ok: bool): (t: State)
    requires c in s.calls
  {
    var k := s.calls[c];
    s.(calls := s.calls[c := k.(pc := Releasing)],
       orders := Attempt(s.orders, ProcessingToInvalid(k.order, Some(k.generation)), ok))
  }

  /** The fallback of a quarantine that did not commit; the audit row names the order only. */
  function DoNoteRejected(s: State, c: CallId, ok: bool): (t: State)
    requires c in s.calls && s.calls[c].pc.RejectUnsaved?
  {
    var k := s.calls[c];
    s.(calls := s.calls[c := k.(pc := Exiting)],
       events := if ok then s.events + {RejectionAudit(k.order)} else s.events,
       fate := s.fate[k.pc.r := if ok then Unnamed else Unrecorded])
  }

  /** The issuance transaction: row, guarded flip and audit row, or nothing. */
  predicate IssuanceCommits(s: State, k: Call, ok: bool) {
    k.pc.Recording? && ok && (k.pc.existed || k.order !in s.certs)
  }

  function IssuanceEvent(s: State, k: Call, ok: bool): (e: Event)
    requires k.pc.Recording?
  {
    if !IssuanceCommits(s, k, ok) then EmergencyEvent(k.order, k.pc.r)
    else if Holds(s.orders, k.order, k.generation) then CertificateIssued(k.order, k.pc.r)
    else EnrollmentRace(k.order, k.pc.r)
  }

  /** The transaction, and if it fails the emergency event, which the hook may not take either. */
  function DoRecord(s: State, c: CallId, ok: bool, unwritable: bool, delivered: bool): (t: State)
    requires c in s.calls && s.calls[c].pc.Recording?
  {
    var k := s.calls[c];
    var commits := IssuanceCommits(s, k, ok);
    var told := commits || delivered;
    s.(calls := s.calls[c := k.(pc := Exiting)],
       orders := Attempt(s.orders, ProcessingToValid(k.order, k.pc.r, Some(k.generation)), commits),
       certs := if commits && !k.pc.existed then s.certs[k.order := CertRow(k.pc.r, Served)] else s.certs,
       events := if told then s.events + {IssuanceEvent(s, k, ok)} else s.events,
       halted := s.halted || (!commits && unwritable),
       fate := s.fate[k.pc.r := if told then Tracked else Unrecorded])
  }

  /** The transaction's own predicate, read again under the write lock, and the write itself. */
  predicate MutationCommits(s: State, k: Mutator, admitted: bool) {
    && admitted && k.account in s.accounts && s.accounts[k.account].active
    && (k.kind.ChangeKey? ==> s.accounts[k.account].key == k.key)
  }

  function Mutated(account: Account, kind: MutatorKind): (changed: Account) {
    match kind
    case Deactivate => account.(active := false)
    case ChangeKey(newKey) => account.(key := newKey)
  }

  function MutationEntry(k: Mutator): (e: Entry) {
    match k.kind
    case Deactivate => Deactivated(k.account)
    case ChangeKey(newKey) => KeyChanged(k.account, newKey)
  }

  function DoMutatorWrite(s: State, u: MutatorId, admitted: bool): (t: State)
    requires u in s.mutators
  {
    var k := s.mutators[u];
    var commits := MutationCommits(s, k, admitted);
    s.(mutators := s.mutators[u := k.(pc := MDone)],
       accounts := if commits then s.accounts[k.account := Mutated(s.accounts[k.account], k.kind)] else s.accounts,
       log := if commits then s.log + [MutationEntry(k)] else s.log)
  }

  function DoRestart(s: State, allowlist: set<Kid>): (t: State) {
    s.(calls := map[], active := map[], locks := map[], mutators := map[], reclaims := map[],
       halted := false, allowlist := allowlist,
       fate := map r | r in s.fate :: if s.fate[r].InHand? then LostToRestart else s.fate[r])
  }

  function FrontNext(m: Regime, s: State, a: FrontStep): (t: State)
    requires FrontEnabled(m, s, a)
  {
    match a
    case Begin(c, o, key) =>
      s.(calls := s.calls[c := Call(o, s.orders[o].account, key, 0, Marked, Present)],
         active := EnterMark(s.active, o))
    case TakeLease(c, ok) => DoTakeLease(s, c, ok)
    case Admit(c) => Goto(s, c, Queued)
    case Shed(c, ok) => DoRevert(s, c, Exiting, ok)
    case Refuse(c) => Goto(s, c, Exiting)
    case ClientCancel(c) => SetHandler(s, c, Interrupted)
    case Retry(c) => SetHandler(s, c, Present)
    case Leave(c) => DoLeave(s, c)
    case LockAccount(c) => Goto(s, c, Locked).(locks := s.locks[s.calls[c].account := ByCall(c)])
    case CheckAccount(c) =>
      var k := s.calls[c];
      Goto(s, c, if Usable(s.accounts, s.allowlist, k.account, k.key) then AccountOk else Unauthorized)
    case Abandon(c, ok) => DoRevert(s, c, Releasing, ok)
    case CheckLease(c) =>
      Goto(s, c, if Holds(s.orders, s.calls[c].order, s.calls[c].generation) then LeaseOk else Releasing)
  }

  function BackNext(m: Regime, s: State, a: BackStep): (t: State)
    requires BackEnabled(m, s, a)
  {
    match a
    case Submit(c, r, outcome) => DoSubmit(s, c, r, outcome)
    case RevertDenied(c, ok) => DoRevert(s, c, Releasing, ok)
    case MarkPending(c, ok, audited) => DoMarkPending(s, c, ok, audited)
    case SaveOrphan(c, ok) =>
      DoSave(s, c, s.calls[c].pc.r, ok, OrphanNoted, OrphanUnsaved(s.calls[c].pc.r))
    case NoteOrphan(c, ok) => DoNoteOrphan(s, c, ok)
    case CloseOrphan(c, ok) => DoCloseOrphan(s, c, ok)
    case UnlockAccount(c) => DoUnlock(s, c)
    case Verify(c, accept) =>
      Goto(s, c, if accept then Verified(s.calls[c].pc.r) else Rejecting(s.calls[c].pc.r))
    case ReadExisting(c) => Goto(s, c, Recording(s.calls[c].pc.r, !UnservedRow(s, s.calls[c].order)))
    case Record(c, ok, unwritable, delivered) => DoRecord(s, c, ok, unwritable, delivered)
    case SaveRejected(c, ok) =>
      DoSave(s, c, s.calls[c].pc.r, ok, Exiting, RejectUnsaved(s.calls[c].pc.r))
    case NoteRejected(c, ok) => DoNoteRejected(s, c, ok)
    case Exit(c) => DoExit(s, c)
  }

  function TableNext(m: Regime, s: State, a: TableStep): (t: State)
    requires TableEnabled(m, s, a)
  {
    match a
    case CreateAccount(acct, key, kid) =>
      s.(accounts := s.accounts[acct := Account(true, key, kid)], log := s.log + [Created(acct, key)])
    case CreateOrder(o, acct) => WriteOrders(s, Create(o, acct))
    case Validate(o) => WriteOrders(s, PendingToReady(o))
    case Expire(o) => WriteOrders(s, ActiveToInvalid(o))
    case Revoke(o) => WriteOrders(s, ToRevoked(o)).(certs := s.certs[o := s.certs[o].(status := RevokedCert)])
    case Reconcile(o, g) => WriteOrders(s, ProcessingToValid(o, s.certs[o].req, Some(g)))
    case ReclaimToValid(o, g, resolved) =>
      WriteOrders(s, ReclaimOrder(o, Some(g), Some(s.certs[o].req), resolved))
    case Decide(r, approve) =>
      s.(ca := s.ca[r := s.ca[r].(disposition := if approve then Issued else Denied)])
    case Restart(allowlist) => DoRestart(s, allowlist)
  }

  function ReclaimNext(m: Regime, s: State, a: ReclaimStep): (t: State)
    requires ReclaimEnabled(m, s, a)
  {
    match a
    case ReclaimOpen(k, o) =>
      s.(reclaims := s.reclaims[k := Reclaim(o, s.orders[o].generation, s.orders[o].pendingReq, false)])
    case ReclaimAssert(k) => s.(reclaims := s.reclaims[k := s.reclaims[k].(asserted := true)])
    case ReclaimReopen(k) =>
      var q := s.reclaims[k];
      WriteOrders(s, ReclaimOrder(q.order, Some(q.generation), None, q.pending)).(reclaims := s.reclaims - {k})
    case ReclaimDrop(k) => s.(reclaims := s.reclaims - {k})
  }

  function MutatorNext(m: Regime, s: State, a: MutatorStep): (t: State)
    requires MutatorEnabled(m, s, a)
  {
    match a
    case MutatorBegin(u, acct, key, kind) =>
      s.(mutators := s.mutators[u := Mutator(acct, key, kind, MWaiting)])
    case MutatorLock(u) =>
      s.(mutators := s.mutators[u := s.mutators[u].(pc := MLocked)],
         locks := s.locks[s.mutators[u].account := ByMutator(u)])
    case MutatorCheck(u) =>
      var ok := Usable(s.accounts, s.allowlist, s.mutators[u].account, s.mutators[u].key);
      s.(mutators := s.mutators[u := s.mutators[u].(pc := if ok then MChecked else MDone)])
    case MutatorWrite(u, admitted) => DoMutatorWrite(s, u, admitted)
    case MutatorUnlock(u) =>
      s.(mutators := s.mutators - {u}, locks := s.locks - {s.mutators[u].account})
  }

  function Next(m: Regime, s: State, a: Action): (t: State)
    requires Enabled(m, s, a)
  {
    match a
    case Front(f) => FrontNext(m, s, f)
    case Back(b) => BackNext(m, s, b)
    case Table(t) => TableNext(m, s, t)
    case Reclaiming(q) => ReclaimNext(m, s, q)
    case Mutating(u) => MutatorNext(m, s, u)
  }

  // --- Runs --------------------------------------------------------------------

  /** The actions can be taken one after the other, starting from `s`. */
  predicate Runs(m: Regime, s: State, actions: seq<Action>)
    decreases actions
  {
    actions != [] ==> Enabled(m, s, actions[0]) && Runs(m, Next(m, s, actions[0]), actions[1..])
  }

  function End(m: Regime, s: State, actions: seq<Action>): (t: State)
    requires Runs(m, s, actions)
    decreases actions
  {
    if actions == [] then s else End(m, Next(m, s, actions[0]), actions[1..])
  }

  /** Some run from `s` ends in `t`. */
  ghost predicate Reaches(m: Regime, s: State, t: State) {
    exists actions :: Runs(m, s, actions) && End(m, s, actions) == t
  }

  /** Some run from an empty store ends in `t`. */
  ghost predicate Reachable(m: Regime, t: State) {
    Reaches(m, Init, t)
  }

  lemma Stays(m: Regime, s: State)
    ensures Reaches(m, s, s)
  {
    assert Runs(m, s, []) && End(m, s, []) == s;
  }

  lemma StepFirst(m: Regime, s: State, a: Action, u: State, t: State)
    requires Enabled(m, s, a) && Next(m, s, a) == u && Reaches(m, u, t)
    ensures Reaches(m, s, t)
  {
    var actions :| Runs(m, u, actions) && End(m, u, actions) == t;
    assert ([a] + actions)[0] == a && ([a] + actions)[1..] == actions;
    assert Runs(m, s, [a] + actions) && End(m, s, [a] + actions) == t;
  }
}
