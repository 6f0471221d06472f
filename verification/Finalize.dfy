/**
 The finalize path as it runs: registry, halt latch and store are objects whose
 every write can fail, and each branch around a CA decision - authorization lost,
 lease lapsed, denied, pending, orphaned, rejected, recorded - is shown to take the
 steps of the protocol.
 */
module Finalize {
  import opened Prelude
  import opened OrderTable
  import opened IssuanceProtocol
  import opened IssuanceInvariant
  import Leg = EnrollmentLeg

  /** Order ids with a live enrollment in this process, reference-counted. */
  class ActiveEnrollments {
    var active: map<OrderId, nat>

    constructor ()
      ensures active == map[]
    {
      active := map[];
    }

    method Enter(o: OrderId)
      modifies this
      ensures active == EnterMark(old(active), o)
    {
      var count := if o in active then active[o] else 0;
      active := active[o := count + 1];
    }

    method Exit(o: OrderId)
      modifies this
      ensures active == ExitMark(old(active), o)
    {
      var remaining: int := if o in active then active[o] else 0;
      remaining := remaining - 1;
      if remaining > 0 {
        active := active[o := remaining];
      } else {
        active := active - {o};
      }
    }
  }

  /** Marks by order: an entry pushes one, an exit takes one off. */
  datatype Mark = Enter(o: OrderId) | Exit(o: OrderId)

  function AfterMark(active: map<OrderId, nat>, mark: Mark): (after: map<OrderId, nat>) {
    match mark
    case Enter(o) => EnterMark(active, o)
    case Exit(o) => ExitMark(active, o)
  }

  function Marked(active: map<OrderId, nat>, marks: seq<Mark>): (after: map<OrderId, nat>)
    decreases marks
  {
    if marks == [] then active else Marked(AfterMark(active, marks[0]), marks[1..])
  }

  /** Entries not yet matched by an exit; an exit without an entry counts for nothing. */
  function Balance(count: nat, marks: seq<Mark>, o: OrderId): (n: nat)
    decreases marks
  {
    if marks == [] then count
    else if marks[0].o != o then Balance(count, marks[1..], o)
    else if marks[0].Enter? then Balance(count + 1, marks[1..], o)
    else Balance(if count > 0 then count - 1 else 0, marks[1..], o)
  }

  /** Overlapping holders of one order never clear each other's mark. */
  lemma {:induction false} MarkOutlivesEveryOtherHolder(active: map<OrderId, nat>, marks: seq<Mark>, o: OrderId)
    ensures ActiveCount(Marked(active, marks), o) == Balance(ActiveCount(active, o), marks, o)
    decreases marks
  {
    if marks != [] {
      MarkOutlivesEveryOtherHolder(AfterMark(active, marks[0]), marks[1..], o);
    }
  }

  /** A one-way latch; the first reason stands. */
  class IssuanceHalt {
    var reason: Option<string>

    constructor ()
      ensures reason.None?
    {
      reason := None;
    }

    method Halt(why: string)
      modifies this
      ensures reason == if old(reason).None? then Some(why) else old(reason)
    {
      if reason.None? {
        reason := Some(why);
      }
    }
  }

  /** What the finalize path leaves behind: the tables, and what it emitted off the host. */
  datatype Tables = Tables(orders: Orders, certs: map<OrderId, CertRow>, audit: set<Event>)

  /** Which transactions of one branch the store lets through. */
  datatype Writes = Writes(row: bool, audit: bool, order: bool)

  function Durable(events: set<Event>): (durable: set<Event>) { set e | e in events && !e.EmergencyEvent? }

  function OffHost(events: set<Event>): (emitted: set<Event>) { set e | e in events && e.EmergencyEvent? }

  function TablesOf(s: State): (t: Tables) {
    Tables(s.orders, s.certs, Durable(s.events))
  }

  lemma AddEvent(events: set<Event>, e: Event)
    ensures Durable(events + {e}) == if e.EmergencyEvent? then Durable(events) else Durable(events) + {e}
    ensures OffHost(events + {e}) == if e.EmergencyEvent? then OffHost(events) + {e} else OffHost(events)
  {
  }

  // --- One transaction each ---------------------------------------------------------------

  function WithOrder(t: Tables, w: OrderTable.Write, ok: bool): (after: Tables) {
    t.(orders := Attempt(t.orders, w, ok))
  }

  function WithAudit(t: Tables, e: Event, ok: bool): (after: Tables) {
    if ok then t.(audit := t.audit + {e}) else t
  }

  function WithQuarantine(t: Tables, o: OrderId, r: ReqId): (after: Tables) {
    Tables(Apply(t.orders, QuarantineFlip(o)), t.certs[o := CertRow(r, CertStatus.Quarantined)],
           t.audit + {QuarantineAudit(o, r)})
  }

  function WithIssuance(t: Tables, o: OrderId, r: ReqId, generation: nat, existed: bool): (after: Tables) {
    Tables(Apply(t.orders, ProcessingToValid(o, r, Some(generation))),
           if existed then t.certs else t.certs[o := CertRow(r, Served)],
           t.audit + {if Holds(t.orders, o, generation) then CertificateIssued(o, r) else EnrollmentRace(o, r)})
  }

  class Store {
    var orders: Orders
    var certs: map<OrderId, CertRow>
    var audit: set<Event>

    ghost function Contents(): (t: Tables)
      reads this
    {
      Tables(orders, certs, audit)
    }

    /** One transition of an order; a failing store raises and changes nothing. */
    method Write(w: OrderTable.Write, ok: bool)
      modifies this`orders
      ensures Contents() == WithOrder(old(Contents()), w, ok)
    {
      if ok {
        orders := Apply(orders, w);
      }
    }

    method RecordAudit(e: Event, ok: bool)
      modifies this`audit
      ensures Contents() == WithAudit(old(Contents()), e, ok)
    {
      if ok {
        audit := audit + {e};
      }
    }

    /** Row, terminal order and audit row, or nothing; the unique index allows one row an order. */
    method QuarantineCertificate(o: OrderId, r: ReqId, ok: bool) returns (committed: bool)
      modifies this
      ensures committed == (ok && o !in old(certs))
      ensures Contents() == if committed then WithQuarantine(old(Contents()), o, r) else old(Contents())
      ensures committed ==>
                && certs == old(certs)[o := CertRow(r, CertStatus.Quarantined)]
                && audit == old(audit) + {QuarantineAudit(o, r)}
                && orders == if o in old(orders) && old(orders)[o].status in {Processing, Ready}
                             then old(orders)[o := old(orders)[o].(status := Invalid)] else old(orders)
    {
      if !ok || o in certs {
        return false;
      }
      certs := certs[o := CertRow(r, CertStatus.Quarantined)];
      Write(QuarantineFlip(o), true);
      RecordAudit(QuarantineAudit(o, r), true);
      committed := true;
    }

    method GetCertificateByOrder(o: OrderId) returns (served: bool)
      ensures served <==> o in certs && certs[o].status != CertStatus.Quarantined
    {
      served := o in certs && certs[o].status != CertStatus.Quarantined;
    }

    /** Row unless one exists, guarded flip, and the audit row of whichever happened. */
    method RecordIssuance(o: OrderId, r: ReqId, generation: nat, existed: bool, ok: bool) returns (committed: bool)
      modifies this
      ensures committed == (ok && (existed || o !in old(certs)))
      ensures Contents() ==
              if committed then WithIssuance(old(Contents()), o, r, generation, existed) else old(Contents())
      ensures committed ==> certs == if existed then old(certs) else old(certs)[o := CertRow(r, Served)]
      ensures committed && o in old(orders) && old(orders)[o].status == Processing
              && old(orders)[o].generation == generation ==>
                && orders == old(orders)[o := old(orders)[o].(status := Valid, certificate := Some(r))]
                && audit == old(audit) + {CertificateIssued(o, r)}
      ensures committed && !(o in old(orders) && old(orders)[o].status == Processing
                             && old(orders)[o].generation == generation) ==>
                orders == old(orders) && audit == old(audit) + {EnrollmentRace(o, r)}
    {
      if !ok || (!existed && o in certs) {
        return false;
      }
      if !existed {
        certs := certs[o := CertRow(r, Served)];
      }
      var applied := o in orders && orders[o].status == Processing && orders[o].generation == generation;
      Write(ProcessingToValid(o, r, Some(generation)), true);
      if applied {
        RecordAudit(CertificateIssued(o, r), true);
      } else {
        RecordAudit(EnrollmentRace(o, r), true);
      }
      committed := true;
    }
  }

  /** The SIEM hook, called directly when there is no row to fan out. */
  class AuditHook {
    var emitted: set<Event>

    /** The transport may fail, and the caller never hears of it. */
    method Emit(e: Event, reachable: bool)
      modifies this
      ensures emitted == if reachable then old(emitted) + {e} else old(emitted)
    {
      if reachable {
        emitted := emitted + {e};
      }
    }
  }

  // --- After a transport failure that followed an issuance ------------------------------------

  predicate Quarantines(t: Tables, o: OrderId, bytes: bool, ok: bool) { bytes && ok && o !in t.certs }

  function AfterOrphan(t: Tables, o: OrderId, r: ReqId, generation: nat, bytes: bool, w: Writes): (after: Tables) {
    var commits := Quarantines(t, o, bytes, w.row);
    var u := if commits then WithQuarantine(t, o, r) else WithAudit(t, OrphanAudit(o, r), w.audit);
    WithOrder(u, ProcessingToInvalid(o, Some(generation)), (commits || w.audit) && w.order)
  }

  /**
   Quarantined with its row, or named by an audit row, or neither if the store
   takes neither; an audit row that fails raises before the order is closed.
   */
  method QuarantineTransportOrphan(store: Store, o: OrderId, r: ReqId, generation: nat, bytes: bool, w: Writes)
    returns (closed: bool)
    modifies store
    ensures store.Contents() == AfterOrphan(old(store.Contents()), o, r, generation, bytes, w)
    ensures Evidenced(store.certs, store.audit, o, r) <==>
            || old(Evidenced(store.certs, store.audit, o, r))
            || Quarantines(old(store.Contents()), o, bytes, w.row) || w.audit
    ensures closed <==> (Quarantines(old(store.Contents()), o, bytes, w.row) || w.audit) && w.order
    ensures closed ==> !Holds(store.orders, o, generation)
    ensures bytes && w.row && o !in old(store.certs) ==>
              && store.certs == old(store.certs)[o := CertRow(r, CertStatus.Quarantined)]
              && store.audit == old(store.audit) + {QuarantineAudit(o, r)}
    ensures !(bytes && w.row && o !in old(store.certs)) ==>
              && store.certs == old(store.certs)
              && store.audit == if w.audit then old(store.audit) + {OrphanAudit(o, r)} else old(store.audit)
    ensures o in old(store.orders) && old(store.orders)[o].status == Processing
            && old(store.orders)[o].generation == generation ==>
              store.orders == if (bytes && w.row && o !in old(store.certs)) || (w.audit && w.order)
                              then old(store.orders)[o := old(store.orders)[o].(status := Invalid)]
                              else old(store.orders)
  {
    var committed := false;
    if bytes {
      committed := store.QuarantineCertificate(o, r, w.row);
    }
    if !committed {
      store.RecordAudit(OrphanAudit(o, r), w.audit);
      if !w.audit {
        return false;
      }
    }
    store.Write(ProcessingToInvalid(o, Some(generation)), w.order);
    closed := w.order;
  }

  // --- After a post-issuance verifier refused -----------------------------------------------------

  function AfterRejection(t: Tables, o: OrderId, r: ReqId, w: Writes): (after: Tables) {
    if Quarantines(t, o, true, w.row) then WithQuarantine(t, o, r) else WithAudit(t, RejectionAudit(o), w.audit)
  }

  /** The fallback audit row names the order only: evidence of the request needs the quarantine. */
  method QuarantineAndFail(store: Store, o: OrderId, r: ReqId, w: Writes) returns (quarantined: bool)
    modifies store
    ensures store.Contents() == AfterRejection(old(store.Contents()), o, r, w)
    ensures quarantined == Quarantines(old(store.Contents()), o, true, w.row)
    ensures quarantined <==> w.row && o !in old(store.certs)
    ensures quarantined ==>
              && o in store.certs && store.certs[o] == CertRow(r, CertStatus.Quarantined)
              && (o in store.orders ==> store.orders[o].status !in {Processing, Ready})
    ensures !quarantined ==>
              && store.orders == old(store.orders) && store.certs == old(store.certs)
              && store.audit == if w.audit then old(store.audit) + {RejectionAudit(o)} else old(store.audit)
    ensures quarantined ==> Evidenced(store.certs, store.audit, o, r)
    ensures !quarantined ==> (Named(store.certs, store.audit, o, r) <==> old(Named(store.certs, store.audit, o, r)))
  {
    quarantined := store.QuarantineCertificate(o, r, w.row);
    if !quarantined {
      store.RecordAudit(RejectionAudit(o), w.audit);
    }
  }

  // --- Completion ---------------------------------------------------------------------------------

  predicate Commits(t: Tables, o: OrderId, ok: bool) {
    ok && (o !in t.certs || t.certs[o].status != CertStatus.Quarantined)
  }

  /**
   A verified certificate is recorded with its audit row; if the store fails, the
   tables stay as they were, the emergency event leaves the host if there is a hook
   and it works, and issuance halts exactly when the store is unwritable.
   */
  method RecordVerified(store: Store, halt: IssuanceHalt, hook: AuditHook?, o: OrderId, r: ReqId, generation: nat,
                        ok: bool, unwritable: bool, reachable: bool)
    modifies store, halt, hook
    ensures var t := old(store.Contents());
            store.Contents() == if Commits(t, o, ok) then WithIssuance(t, o, r, generation, o in t.certs) else t
    ensures !ok ==> store.Contents() == old(store.Contents())
    ensures ok && o !in old(store.certs) && o in old(store.orders) && old(store.orders)[o].status == Processing
            && old(store.orders)[o].generation == generation ==>
              && store.certs == old(store.certs)[o := CertRow(r, Served)]
              && store.orders == old(store.orders)[o := old(store.orders)[o].(status := Valid, certificate := Some(r))]
              && store.audit == old(store.audit) + {CertificateIssued(o, r)}
    ensures hook != null ==>
              hook.emitted == if Commits(old(store.Contents()), o, ok) || !reachable then old(hook.emitted)
                              else old(hook.emitted) + {EmergencyEvent(o, r)}
    ensures halt.reason.Some? <==> old(halt.reason).Some? || (!Commits(old(store.Contents()), o, ok) && unwritable)
    ensures old(halt.reason).Some? ==> halt.reason == old(halt.reason)
  {
    var existed := store.GetCertificateByOrder(o);
    var committed := store.RecordIssuance(o, r, generation, existed, ok);
    if !committed {
      if hook != null {
        hook.Emit(EmergencyEvent(o, r), reachable);
      }
      if unwritable {
        halt.Halt("post-issuance store failure");
      }
    }
  }

  // --- Under the account lock, up to and just after the CA ------------------------------------------------

  /** What the tables owe to each answer of the enrollment leg. */
  function AfterAnswer(t: Tables, o: OrderId, generation: nat, answer: Leg.Answer, w: Writes): (after: Tables) {
    match answer
    case Certificate(_) => t
    case Denied => WithOrder(t, ProcessingToReady(o, Some(generation)), w.order)
    case Pending(r) =>
      WithAudit(WithOrder(t, RecordPending(o, r, generation), w.order), PendingAudit(o, r), w.order && w.audit)
    case Fault(req, bytes, _) => if req.Some? then AfterOrphan(t, o, req.value, generation, bytes, w) else t
  }

  /**
   The last checks before the CA.  It is called exactly if the account is still
   usable with the signing key and the lease is still held; a call that lost its
   account hands its own lease back, one that lost its lease writes nothing.  An
   issued request that comes back as a fault is evidenced if and only if one of the
   rows that would name it commits.
   */
  method SubmitEnrollment(store: Store, accounts: map<AccountId, Account>, allowlist: set<Kid>,
                          o: OrderId, a: AccountId, key: Key, generation: nat, answer: Leg.Answer, w: Writes)
    returns (called: bool)
    modifies store
    ensures called <==> Usable(accounts, allowlist, a, key) && Holds(old(store.orders), o, generation)
    ensures called <==>
            && a in accounts && accounts[a].active && accounts[a].key == key && accounts[a].kid in allowlist
            && o in old(store.orders) && old(store.orders)[o].status == Processing
            && old(store.orders)[o].generation == generation
    ensures called ==> store.Contents() == AfterAnswer(old(store.Contents()), o, generation, answer, w)
    ensures !Usable(accounts, allowlist, a, key) ==>
              store.Contents() == AfterAnswer(old(store.Contents()), o, generation, Leg.Denied, w)
    ensures !called && Usable(accounts, allowlist, a, key) ==> store.Contents() == old(store.Contents())
    ensures called && answer.Fault? && answer.req.Some? ==>
              (Evidenced(store.certs, store.audit, o, answer.req.value) <==>
               || old(Evidenced(store.certs, store.audit, o, answer.req.value))
               || Quarantines(old(store.Contents()), o, answer.bytes, w.row) || w.audit)
    ensures !called || answer.Denied? ==>
              && store.certs == old(store.certs) && store.audit == old(store.audit)
              && store.orders == if w.order && o in old(store.orders) && old(store.orders)[o].status == Processing
                                    && old(store.orders)[o].generation == generation
                                 then old(store.orders)[o := old(store.orders)[o].(status := Ready)]
                                 else old(store.orders)
    ensures called && answer.Pending? ==>
              && store.certs == old(store.certs)
              && (w.order ==>
                    store.orders == old(store.orders)[o := old(store.orders)[o].(pendingReq := Some(answer.r))])
              && (!w.order ==> store.orders == old(store.orders))
              && store.audit == if w.order && w.audit then old(store.audit) + {PendingAudit(o, answer.r)}
                                else old(store.audit)
    ensures called && (answer.Certificate? || (answer.Fault? && answer.req.None?)) ==>
              store.Contents() == old(store.Contents())
    ensures called && answer.Fault? && answer.req.Some? && answer.bytes && w.row && o !in old(store.certs) ==>
              && store.certs == old(store.certs)[o := CertRow(answer.req.value, CertStatus.Quarantined)]
              && store.orders[o].status == Invalid
    ensures called && answer.Fault? && answer.req.Some? && !(answer.bytes && w.row && o !in old(store.certs)) ==>
              && store.certs == old(store.certs)
              && (w.audit ==> OrphanAudit(o, answer.req.value) in store.audit)
              && (w.audit && w.order ==> store.orders[o].status == Invalid)
  {
    if !(a in accounts && accounts[a].active && accounts[a].key == key && accounts[a].kid in allowlist) {
      store.Write(ProcessingToReady(o, Some(generation)), w.order);
      return false;
    }
    if !(o in store.orders && store.orders[o].status == Processing && store.orders[o].generation == generation) {
      return false;
    }
    match answer {
      case Certificate(_) =>
      case Denied => store.Write(ProcessingToReady(o, Some(generation)), w.order);
      case Pending(r) =>
        store.Write(RecordPending(o, r, generation), w.order);
        store.RecordAudit(PendingAudit(o, r), w.order && w.audit);
      case Fault(req, bytes, _) =>
        if req.Some? {
          var _ := QuarantineTransportOrphan(store, o, req.value, generation, bytes, w);
        }
    }
    called := true;
  }

  // --- The branches take the protocol's steps ----------------------------------------------------------

  /** The outcome of the protocol that an answer stands for; without a ReqID the CA's side stays hidden. */
  function OutcomeOf(answer: Leg.Answer, hidden: Option<Disposition>): (outcome: Outcome) {
    match answer
    case Certificate(_) => Issue
    case Denied => Deny
    case Pending(_) => Pend
    case Fault(req, bytes, _) =>
      if req.Some? then IssueThenFail(bytes)
      else if hidden.Some? then Unseen(hidden.value)
      else NotReached
  }

  predicate Mentions(answer: Leg.Answer, r: ReqId) {
    match answer
    case Certificate(q) => q == r
    case Denied => true
    case Pending(q) => q == r
    case Fault(req, _, _) => req.Some? ==> req.value == r
  }

  /** The step a worker takes next at each point past its checks, until it releases the account. */
  function NextWork(s: State, c: CallId, w: Writes): (t: State) {
    if c !in s.calls then s else
    match s.calls[c].pc
    case Unauthorized => DoRevert(s, c, Releasing, w.order)
    case RequestDenied(_) => DoRevert(s, c, Releasing, w.order)
    case Pended(_) => DoMarkPending(s, c, w.order, w.audit)
    case Orphan(r) => DoSave(s, c, r, w.row, OrphanNoted, OrphanUnsaved(r))
    case OrphanUnsaved(_) => DoNoteOrphan(s, c, w.audit)
    case OrphanNoted => DoCloseOrphan(s, c, w.order)
    case _ => s
  }

  /** The action that step is. */
  function WorkAt(pc: Pc, c: CallId, w: Writes): (a: Option<Action>) {
    match pc
    case Unauthorized => Some(Front(Abandon(c, w.order)))
    case RequestDenied(_) => Some(Back(RevertDenied(c, w.order)))
    case Pended(_) => Some(Back(MarkPending(c, w.order, w.audit)))
    case Orphan(_) => Some(Back(SaveOrphan(c, w.row)))
    case OrphanUnsaved(_) => Some(Back(NoteOrphan(c, w.audit)))
    case OrphanNoted => Some(Back(CloseOrphan(c, w.order)))
    case _ => None
  }

  lemma ShortWorkIsAStep(m: Regime, s: State, c: CallId, w: Writes)
    requires c in s.calls && (m.markersWritten ==> w.order)
    requires s.calls[c].pc.Unauthorized? || s.calls[c].pc.RequestDenied? || s.calls[c].pc.Pended?
    ensures var a := WorkAt(s.calls[c].pc, c, w).value; Enabled(m, s, a) && Next(m, s, a) == NextWork(s, c, w)
  {
  }

  lemma OrphanWorkIsAStep(m: Regime, s: State, c: CallId, w: Writes)
    requires c in s.calls
    requires s.calls[c].pc.Orphan? || s.calls[c].pc.OrphanUnsaved? || s.calls[c].pc.OrphanNoted?
    ensures var a := WorkAt(s.calls[c].pc, c, w).value; Enabled(m, s, a) && Next(m, s, a) == NextWork(s, c, w)
  {
  }

  lemma WorkFirst(m: Regime, s: State, c: CallId, w: Writes, t: State)
    requires (m.markersWritten ==> w.order) && Reaches(m, NextWork(s, c, w), t)
    ensures Reaches(m, s, t)
  {
    if c in s.calls && WorkAt(s.calls[c].pc, c, w).Some? {
      if s.calls[c].pc.Orphan? || s.calls[c].pc.OrphanUnsaved? || s.calls[c].pc.OrphanNoted? {
        OrphanWorkIsAStep(m, s, c, w);
      } else {
        ShortWorkIsAStep(m, s, c, w);
      }
      StepFirst(m, s, WorkAt(s.calls[c].pc, c, w).value, NextWork(s, c, w), t);
    }
  }

  /** All of them: an orphan takes three, every other branch one. */
  function AllWork(s: State, c: CallId, w: Writes): (t: State) {
    NextWork(NextWork(NextWork(s, c, w), c, w), c, w)
  }

  /** They make a run of the protocol, in every regime that lets the writes fail. */
  lemma AllWorkIsARun(m: Regime, s: State, c: CallId, w: Writes)
    requires m.markersWritten ==> w.order
    ensures Reaches(m, s, AllWork(s, c, w))
  {
    var u := NextWork(s, c, w);
    var v := NextWork(u, c, w);
    Stays(m, AllWork(s, c, w));
    WorkFirst(m, v, c, w, AllWork(s, c, w));
    WorkFirst(m, u, c, w, AllWork(s, c, w));
    WorkFirst(m, s, c, w, AllWork(s, c, w));
  }

  lemma SaveTables(s: State, c: CallId, r: ReqId, ok: bool, saved: Pc, unsaved: Pc)
    requires c in s.calls
    ensures var k, t := s.calls[c], DoSave(s, c, r, ok, saved, unsaved);
            var commits := Quarantines(TablesOf(s), k.order, true, ok);
            && TablesOf(t) == (if commits then WithQuarantine(TablesOf(s), k.order, r) else TablesOf(s))
            && t.calls[c] == k.(pc := if commits then saved else unsaved)
  {
    AddEvent(s.events, QuarantineAudit(s.calls[c].order, r));
  }

  lemma NoteTables(s: State, c: CallId, r: ReqId, ok: bool)
    requires At(s, c, OrphanUnsaved(r))
    ensures var k, t := s.calls[c], DoNoteOrphan(s, c, ok);
            && TablesOf(t) == WithAudit(TablesOf(s), OrphanAudit(k.order, r), ok)
            && t.calls[c] == k.(pc := if ok then OrphanNoted else Releasing)
  {
    AddEvent(s.events, OrphanAudit(s.calls[c].order, r));
  }

  lemma CloseTables(s: State, c: CallId, ok: bool)
    requires At(s, c, OrphanNoted)
    ensures var k, t := s.calls[c], DoCloseOrphan(s, c, ok);
            && TablesOf(t) == WithOrder(TablesOf(s), ProcessingToInvalid(k.order, Some(k.generation)), ok)
            && t.calls[c] == k.(pc := Releasing)
  {
  }

  /** Note if there is no row yet, then close: the second half of the orphan's way. */
  lemma NotedOrphan(s: State, c: CallId, r: ReqId, w: Writes)
    requires At(s, c, OrphanUnsaved(r))
    ensures var k := s.calls[c];
            TablesOf(NextWork(NextWork(s, c, w), c, w)) ==
            WithOrder(WithAudit(TablesOf(s), OrphanAudit(k.order, r), w.audit),
                      ProcessingToInvalid(k.order, Some(k.generation)), w.audit && w.order)
  {
    NoteTables(s, c, r, w.audit);
    if w.audit {
      CloseTables(DoNoteOrphan(s, c, true), c, w.order);
    }
  }

  lemma BareOrphanTakesProtocolSteps(s: State, c: CallId, r: ReqId, w: Writes)
    requires At(s, c, OrphanUnsaved(r))
    ensures var k := s.calls[c];
            TablesOf(AllWork(s, c, w)) == AfterOrphan(TablesOf(s), k.order, r, k.generation, false, w)
  {
    NotedOrphan(s, c, r, w);
    NoteTables(s, c, r, w.audit);
    if w.audit {
      CloseTables(DoNoteOrphan(s, c, true), c, w.order);
    }
  }

  lemma ClosedOrphan(s: State, c: CallId, w: Writes)
    requires At(s, c, OrphanNoted)
    ensures var k := s.calls[c];
            TablesOf(NextWork(NextWork(s, c, w), c, w)) ==
            WithOrder(TablesOf(s), ProcessingToInvalid(k.order, Some(k.generation)), w.order)
  {
    CloseTables(s, c, w.order);
  }

  /** Save, note if that failed, close: what the object does is what the protocol does. */
  lemma OrphanTakesProtocolSteps(s: State, c: CallId, r: ReqId, w: Writes)
    requires At(s, c, Orphan(r))
    ensures var k := s.calls[c];
            TablesOf(AllWork(s, c, w)) == AfterOrphan(TablesOf(s), k.order, r, k.generation, true, w)
  {
    var saved := DoSave(s, c, r, w.row, OrphanNoted, OrphanUnsaved(r));
    SaveTables(s, c, r, w.row, OrphanNoted, OrphanUnsaved(r));
    assert NextWork(s, c, w) == saved;
    if Quarantines(TablesOf(s), s.calls[c].order, true, w.row) {
      ClosedOrphan(saved, c, w);
    } else {
      NotedOrphan(saved, c, r, w);
    }
  }

  /** The answer that a short branch stands for: what the tables owe to it is one or two writes. */
  predicate ShortBranch(pc: Pc, answer: Leg.Answer) {
    match pc
    case Unauthorized => answer == Leg.Denied
    case RequestDenied(_) => answer == Leg.Denied
    case Pended(r) => answer == Leg.Pending(r)
    case _ => false
  }

  lemma OneStepIsAll(s: State, c: CallId, w: Writes)
    requires At(NextWork(s, c, w), c, Releasing)
    ensures AllWork(s, c, w) == NextWork(s, c, w)
  {
    var t := NextWork(s, c, w);
    assert NextWork(t, c, w) == t;
  }

  lemma PendingTables(s: State, c: CallId, r: ReqId, w: Writes)
    requires At(s, c, Pended(r))
    ensures var k, t := s.calls[c], NextWork(s, c, w);
            && At(t, c, Releasing)
            && TablesOf(t) == AfterAnswer(TablesOf(s), k.order, k.generation, Leg.Pending(r), w)
  {
    AddEvent(s.events, PendingAudit(s.calls[c].order, r));
  }

  lemma RevertTables(s: State, c: CallId, w: Writes)
    requires c in s.calls && (s.calls[c].pc.Unauthorized? || s.calls[c].pc.RequestDenied?)
    ensures var k, t := s.calls[c], NextWork(s, c, w);
            && At(t, c, Releasing)
            && TablesOf(t) == AfterAnswer(TablesOf(s), k.order, k.generation, Leg.Denied, w)
  {
  }

  /** A denial and a lost authorization hand the lease back, a pending request is recorded. */
  lemma ShortBranchTakesProtocolSteps(s: State, c: CallId, answer: Leg.Answer, w: Writes)
    requires c in s.calls && ShortBranch(s.calls[c].pc, answer)
    ensures var k := s.calls[c];
            TablesOf(AllWork(s, c, w)) == AfterAnswer(TablesOf(s), k.order, k.generation, answer, w)
  {
    if s.calls[c].pc.Pended? {
      PendingTables(s, c, s.calls[c].pc.r, w);
    } else {
      RevertTables(s, c, w);
    }
    OneStepIsAll(s, c, w);
  }

  /** The CA call itself writes no table. */
  lemma SubmitTables(s: State, c: CallId, r: ReqId, outcome: Outcome)
    requires c in s.calls
    ensures var t := DoSubmit(s, c, r, outcome);
            TablesOf(t) == TablesOf(s) && c in t.calls && t.calls[c] == s.calls[c].(pc := PcAfterSubmit(r, outcome))
  {
  }

  lemma SubmissionTables(s: State, c: CallId, r: ReqId, answer: Leg.Answer, hidden: Option<Disposition>, w: Writes)
    requires c in s.calls && Mentions(answer, r)
    ensures var k := s.calls[c];
            TablesOf(AllWork(DoSubmit(s, c, r, OutcomeOf(answer, hidden)), c, w)) ==
            AfterAnswer(TablesOf(s), k.order, k.generation, answer, w)
  {
    var t := DoSubmit(s, c, r, OutcomeOf(answer, hidden));
    SubmitTables(s, c, r, OutcomeOf(answer, hidden));
    if answer.Denied? || answer.Pending? {
      ShortBranchTakesProtocolSteps(t, c, answer, w);
    } else if answer.Fault? && answer.req.Some? {
      if answer.bytes {
        OrphanTakesProtocolSteps(t, c, r, w);
      } else {
        BareOrphanTakesProtocolSteps(t, c, r, w);
      }
    }
  }

  /**
   From the CA call to the release of the account there is a run of the protocol, whatever
   the CA answers and the store takes, and it leaves the tables that the method leaves.
   */
  lemma SubmissionTakesProtocolSteps(m: Regime, s: State, c: CallId, r: ReqId, answer: Leg.Answer,
                                     hidden: Option<Disposition>, w: Writes)
    requires BackEnabled(m, s, Submit(c, r, OutcomeOf(answer, hidden))) && Mentions(answer, r)
    requires m.markersWritten ==> w.order
    ensures var k, t := s.calls[c], AllWork(DoSubmit(s, c, r, OutcomeOf(answer, hidden)), c, w);
            Reaches(m, s, t) && TablesOf(t) == AfterAnswer(TablesOf(s), k.order, k.generation, answer, w)
  {
    var u := DoSubmit(s, c, r, OutcomeOf(answer, hidden));
    SubmissionTables(s, c, r, answer, hidden, w);
    AllWorkIsARun(m, u, c, w);
    StepFirst(m, s, Back(Submit(c, r, OutcomeOf(answer, hidden))), u, AllWork(u, c, w));
  }

  /** The checks under the account lock; they write nothing, and let through whom the method lets through. */
  function Checked(s: State, c: CallId): (t: State)
    requires At(s, c, Locked)
  {
    var u := FrontNext(AsShipped, s, CheckAccount(c));
    if u.calls[c].pc == AccountOk then FrontNext(AsShipped, u, CheckLease(c)) else u
  }

  lemma ChecksTakeProtocolSteps(s: State, c: CallId)
    requires At(s, c, Locked)
    ensures var k, t := s.calls[c], Checked(s, c);
            && TablesOf(t) == TablesOf(s) && c in t.calls
            && (t.calls[c].pc == LeaseOk <==>
                Usable(s.accounts, s.allowlist, k.account, k.key) && Holds(s.orders, k.order, k.generation))
            && (t.calls[c].pc == Unauthorized <==> !Usable(s.accounts, s.allowlist, k.account, k.key))
            && (t.calls[c].pc == Unauthorized <==>
                !(k.account in s.accounts && s.accounts[k.account].active && s.accounts[k.account].key == k.key
                  && s.accounts[k.account].kid in s.allowlist))
            && t.calls[c] == k.(pc := t.calls[c].pc)
            && t.calls[c].pc in {LeaseOk, Unauthorized, Releasing}
  {
  }

  lemma ChecksAreARun(m: Regime, s: State, c: CallId, t: State)
    requires At(s, c, Locked) && Reaches(m, Checked(s, c), t)
    ensures Reaches(m, s, t)
  {
    var u := FrontNext(m, s, CheckAccount(c));
    if u.calls[c].pc == AccountOk {
      StepFirst(m, u, Front(CheckLease(c)), Checked(s, c), t);
    }
    StepFirst(m, s, Front(CheckAccount(c)), u, t);
  }

  predicate TurnedBack(s: State, k: Call) {
    !Usable(s.accounts, s.allowlist, k.account, k.key) || !Holds(s.orders, k.order, k.generation)
  }

  /** Turned back before the CA: a lost authorization hands the lease back, a lapsed lease writes nothing. */
  lemma TurningBackTakesProtocolSteps(m: Regime, s: State, c: CallId, w: Writes)
    requires At(s, c, Locked) && (m.markersWritten ==> w.order)
    requires TurnedBack(s, s.calls[c])
    ensures var k, t := s.calls[c], AllWork(Checked(s, c), c, w);
            && Reaches(m, s, t)
            && TablesOf(t) == if Usable(s.accounts, s.allowlist, k.account, k.key) then TablesOf(s)
                              else AfterAnswer(TablesOf(s), k.order, k.generation, Leg.Denied, w)
  {
    var u := Checked(s, c);
    ChecksTakeProtocolSteps(s, c);
    AllWorkIsARun(m, u, c, w);
    ChecksAreARun(m, s, c, AllWork(u, c, w));
    if u.calls[c].pc == Unauthorized {
      ShortBranchTakesProtocolSteps(u, c, Leg.Denied, w);
    }
  }

  /** The verifiers' verdict, and on acceptance the read of the row that may exist already. */
  function Judged(m: Regime, s: State, c: CallId, accept: bool): (t: State)
    requires BackEnabled(m, s, Verify(c, accept))
    ensures c in t.calls && (accept ==> t.calls[c].pc.Recording?)
  {
    var u := BackNext(m, s, Verify(c, accept));
    if accept then BackNext(m, u, ReadExisting(c)) else u
  }

  lemma JudgingWritesNothing(m: Regime, s: State, c: CallId, r: ReqId, accept: bool)
    requires BackEnabled(m, s, Verify(c, accept)) && At(s, c, Completing(r))
    ensures var k, t := s.calls[c], Judged(m, s, c, accept);
            && t == s.(calls := t.calls) && c in t.calls
            && t.calls[c] == k.(pc := if accept then Recording(r, !UnservedRow(s, k.order)) else Rejecting(r))
  {
  }

  lemma JudgingIsARun(m: Regime, s: State, c: CallId, accept: bool, t: State)
    requires BackEnabled(m, s, Verify(c, accept)) && Reaches(m, Judged(m, s, c, accept), t)
    ensures Reaches(m, s, t)
  {
    var u := BackNext(m, s, Verify(c, accept));
    if accept {
      StepFirst(m, u, Back(ReadExisting(c)), Judged(m, s, c, accept), t);
    }
    StepFirst(m, s, Back(Verify(c, accept)), u, t);
  }

  /** What the protocol makes of a rejection: the quarantine, and failing that the fallback row. */
  function RejectedWork(s: State, c: CallId, r: ReqId, w: Writes): (t: State)
    requires c in s.calls
  {
    var saved := DoSave(s, c, r, w.row, Exiting, RejectUnsaved(r));
    if saved.calls[c].pc.RejectUnsaved? then DoNoteRejected(saved, c, w.audit) else saved
  }

  lemma RejectedTables(s: State, c: CallId, r: ReqId, w: Writes)
    requires At(s, c, Rejecting(r))
    ensures TablesOf(RejectedWork(s, c, r, w)) == AfterRejection(TablesOf(s), s.calls[c].order, r, w)
  {
    var saved := DoSave(s, c, r, w.row, Exiting, RejectUnsaved(r));
    SaveTables(s, c, r, w.row, Exiting, RejectUnsaved(r));
    AddEvent(saved.events, RejectionAudit(s.calls[c].order));
  }

  lemma RejectedWorkIsARun(m: Regime, s: State, c: CallId, r: ReqId, w: Writes)
    requires At(s, c, Rejecting(r))
    ensures Reaches(m, s, RejectedWork(s, c, r, w))
  {
    var saved := DoSave(s, c, r, w.row, Exiting, RejectUnsaved(r));
    var t := RejectedWork(s, c, r, w);
    Stays(m, t);
    if saved.calls[c].pc.RejectUnsaved? {
      StepFirst(m, saved, Back(NoteRejected(c, w.audit)), t, t);
    }
    StepFirst(m, s, Back(SaveRejected(c, w.row)), saved, t);
  }

  /** A rejection, from the verdict on, is a run of the protocol and leaves the method's tables. */
  lemma RejectionTakesProtocolSteps(m: Regime, s: State, c: CallId, r: ReqId, w: Writes)
    requires BackEnabled(m, s, Verify(c, false)) && At(s, c, Completing(r))
    ensures var t := RejectedWork(Judged(m, s, c, false), c, r, w);
            Reaches(m, s, t) && TablesOf(t) == AfterRejection(TablesOf(s), s.calls[c].order, r, w)
  {
    var u := Judged(m, s, c, false);
    JudgingWritesNothing(m, s, c, r, false);
    RejectedTables(u, c, r, w);
    RejectedWorkIsARun(m, u, c, r, w);
    JudgingIsARun(m, s, c, false, RejectedWork(u, c, r, w));
  }

  lemma RecordedTables(s: State, c: CallId, r: ReqId, ok: bool, unwritable: bool, delivered: bool)
    requires c in s.calls && s.calls[c].pc == Recording(r, !UnservedRow(s, s.calls[c].order))
    ensures var k, t, u := s.calls[c], TablesOf(s), DoRecord(s, c, ok, unwritable, delivered);
            var commits := Commits(t, k.order, ok);
            && TablesOf(u) == (if commits then WithIssuance(t, k.order, r, k.generation, k.order in t.certs) else t)
            && OffHost(u.events) == (if commits || !delivered then OffHost(s.events)
                                     else OffHost(s.events) + {EmergencyEvent(k.order, r)})
            && (u.halted <==> s.halted || (!commits && unwritable))
  {
    AddEvent(s.events, IssuanceEvent(s, s.calls[c], ok));
  }

  /** Acceptance and recording: tables, off-host events and halt are the method's. */
  lemma RecordingTakesProtocolSteps(m: Regime, s: State, c: CallId, r: ReqId,
                                    ok: bool, unwritable: bool, delivered: bool)
    requires BackEnabled(m, s, Verify(c, true)) && At(s, c, Completing(r))
    ensures var k, t, u := s.calls[c], TablesOf(s), DoRecord(Judged(m, s, c, true), c, ok, unwritable, delivered);
            var commits := Commits(t, k.order, ok);
            && Reaches(m, s, u)
            && TablesOf(u) == (if commits then WithIssuance(t, k.order, r, k.generation, k.order in t.certs) else t)
            && OffHost(u.events) == (if commits || !delivered then OffHost(s.events)
                                     else OffHost(s.events) + {EmergencyEvent(k.order, r)})
            && (u.halted <==> s.halted || (!commits && unwritable))
  {
    var u := Judged(m, s, c, true);
    var t := DoRecord(u, c, ok, unwritable, delivered);
    JudgingWritesNothing(m, s, c, r, true);
    RecordedTables(u, c, r, ok, unwritable, delivered);
    Stays(m, t);
    StepFirst(m, u, Back(Record(c, ok, unwritable, delivered)), t, t);
    JudgingIsARun(m, s, c, true, t);
  }
}
