/**
 The `orders` table and its compare-and-set writers.

 One `Write` is one SQLite transaction of the store.  `Apply` says what the
 table is afterwards, `OrderStore` performs the writes in place, and the lemmas
 say what every run of writes, in any order, keeps.
 */
module OrderTable {
  import opened Prelude

  type OrderId = nat
  type AccountId = nat
  type ReqId = nat
  type CertId = nat

  datatype Status = Pending | Ready | Processing | Valid | Invalid | Revoked

  datatype Order = Order(
    account: AccountId,
    status: Status,
    generation: nat,
    pendingReq: Option<ReqId>,
    certificate: Option<CertId>)

  type Orders = map<OrderId, Order>

  datatype Write =
    | Create(id: OrderId, account: AccountId)
    | AcquireLease(id: OrderId)
    | PendingToReady(id: OrderId)
    | ProcessingToReady(id: OrderId, expected: Option<nat>)
    | ProcessingToValid(id: OrderId, certificate: CertId, expected: Option<nat>)
    | ProcessingToInvalid(id: OrderId, expected: Option<nat>)
    | ActiveToInvalid(id: OrderId)
    | ToRevoked(id: OrderId)
    | QuarantineFlip(id: OrderId)
    | ReclaimOrder(id: OrderId, expected: Option<nat>, toValid: Option<CertId>, resolved: Option<ReqId>)
    | RecordPending(id: OrderId, req: ReqId, generation: nat)
    | ClearPending(id: OrderId, req: ReqId)

  /** The claim a finalize call made: still processing, under this generation. */
  predicate Holds(orders: Orders, id: OrderId, generation: nat) {
    id in orders && orders[id].status == Processing && orders[id].generation == generation
  }

  /** The optional narrowing of a processing compare-and-set to one generation. */
  predicate ProcessingCas(o: Order, expected: Option<nat>) {
    o.status == Processing && (expected.Some? ==> o.generation == expected.value)
  }

  /** The WHERE clause of each write, on an existing row. */
  predicate Matches(o: Order, w: Write) {
    match w
    case Create(_, _) => false
    case AcquireLease(_) => o.status == Ready
    case PendingToReady(_) => o.status == Pending
    case ProcessingToReady(_, expected) => ProcessingCas(o, expected)
    case ProcessingToValid(_, _, expected) => ProcessingCas(o, expected)
    case ProcessingToInvalid(_, expected) => ProcessingCas(o, expected)
    case ActiveToInvalid(_) => o.status == Pending || o.status == Ready
    case ToRevoked(_) => o.status == Valid || o.status == Processing
    case QuarantineFlip(_) => o.status == Processing || o.status == Ready
    case ReclaimOrder(_, expected, _, _) => ProcessingCas(o, expected)
    case RecordPending(_, _, generation) => o.generation == generation
    case ClearPending(_, req) => o.pendingReq == Some(req)
  }

  /** The SET clause of each write. */
  function Updated(o: Order, w: Write): (row: Order) {
    match w
    case Create(_, _) => o
    case AcquireLease(_) => o.(status := Processing, generation := o.generation + 1)
    case PendingToReady(_) => o.(status := Ready)
    case ProcessingToReady(_, _) => o.(status := Ready)
    case ProcessingToValid(_, certificate, _) => o.(status := Valid, certificate := Some(certificate))
    case ProcessingToInvalid(_, _) => o.(status := Invalid)
    case ActiveToInvalid(_) => o.(status := Invalid)
    case ToRevoked(_) => o.(status := Revoked)
    case QuarantineFlip(_) => o.(status := Invalid)
    case ReclaimOrder(_, _, toValid, resolved) =>
      o.(status := if toValid.Some? then Valid else Ready,
         certificate := if toValid.Some? then toValid else o.certificate,
         pendingReq := if resolved.Some? && o.pendingReq == resolved then None else o.pendingReq)
    case RecordPending(_, req, _) => o.(pendingReq := Some(req))
    case ClearPending(_, _) => o.(pendingReq := None)
  }

  /** Whether the write changes a row: the cursor's rowcount is 1. */
  predicate Fires(orders: Orders, w: Write) {
    if w.Create? then w.id !in orders else w.id in orders && Matches(orders[w.id], w)
  }

  function Apply(orders: Orders, w: Write): (after: Orders) {
    if !Fires(orders, w) then orders
    else if w.Create? then orders[w.id := Order(w.account, Pending, 0, None, None)]
    else orders[w.id := Updated(orders[w.id], w)]
  }

  function Run(orders: Orders, ws: seq<Write>): (after: Orders)
    decreases ws
  {
    if ws == [] then orders else Run(Apply(orders, ws[0]), ws[1..])
  }

  /** How often a run moves an order into processing from another status. */
  function Entries(orders: Orders, ws: seq<Write>, id: OrderId): (n: nat)
    decreases ws
  {
    if ws == [] then 0
    else
      var next := Apply(orders, ws[0]);
      var enters := id in orders && orders[id].status != Processing && next[id].status == Processing;
      (if enters then 1 else 0) + Entries(next, ws[1..], id)
  }

  /** The generation a write is scoped to, when its caller holds or read a lease. */
  function Scope(w: Write): (generation: Option<nat>) {
    match w
    case ProcessingToReady(_, expected) => expected
    case ProcessingToValid(_, _, expected) => expected
    case ProcessingToInvalid(_, expected) => expected
    case ReclaimOrder(_, expected, _, _) => expected
    case RecordPending(_, _, generation) => Some(generation)
    case _ => None
  }

  /**
   The generation is an exact count of entries into processing: it never goes
   backwards and every entry raises it by one.
   */
  lemma {:induction false} GenerationCountsEntries(orders: Orders, ws: seq<Write>, id: OrderId)
    requires id in orders
    ensures id in Run(orders, ws)
    ensures Run(orders, ws)[id].generation == orders[id].generation + Entries(orders, ws, id)
    decreases ws
  {
    if ws != [] {
      GenerationCountsEntries(Apply(orders, ws[0]), ws[1..], id);
    }
  }

  /** A lease that was minted and then lapsed is never held again, whatever runs. */
  lemma {:induction false} LapsedLeaseStaysLapsed(orders: Orders, ws: seq<Write>, id: OrderId, generation: nat)
    requires id in orders && generation <= orders[id].generation
    requires !Holds(orders, id, generation)
    ensures id in Run(orders, ws) && generation <= Run(orders, ws)[id].generation
    ensures !Holds(Run(orders, ws), id, generation)
    decreases ws
  {
    if ws != [] {
      LapsedLeaseStaysLapsed(Apply(orders, ws[0]), ws[1..], id, generation);
    }
  }

  /**
   The lease of a scoped write has lapsed for it.  The pending-request marker checks
   the generation alone, so for it that takes a newer lease.
   */
  predicate Lapsed(orders: Orders, w: Write, generation: nat)
    requires w.id in orders
  {
    generation <= orders[w.id].generation &&
    if w.RecordPending? then generation < orders[w.id].generation else !Holds(orders, w.id, generation)
  }

  /**
   A generation-scoped writer whose lease lapsed can never change its order
   again.  The pending-request marker checks the generation alone, so it is inert
   from the moment a newer lease is minted.
   */
  lemma StaleWriterIsInert(orders: Orders, ws: seq<Write>, w: Write, generation: nat)
    requires w.id in orders && Scope(w) == Some(generation) && Lapsed(orders, w, generation)
    ensures Apply(Run(orders, ws), w) == Run(orders, ws)
  {
    if w.RecordPending? {
      GenerationCountsEntries(orders, ws, w.id);
    } else {
      LapsedLeaseStaysLapsed(orders, ws, w.id, generation);
    }
  }

  /** Conversely a scoped write that takes effect was made by the current holder. */
  lemma ScopedWriteNeedsItsLease(orders: Orders, w: Write)
    requires Scope(w).Some? && Fires(orders, w)
    ensures orders[w.id].generation == Scope(w).value
    ensures !w.RecordPending? ==> Holds(orders, w.id, Scope(w).value)
    ensures !w.RecordPending? ==> !Holds(Apply(orders, w), w.id, Scope(w).value)
    ensures forall id :: id in orders && id != w.id ==> Apply(orders, w)[id] == orders[id]
  {
  }

  predicate Terminal(status: Status) {
    status == Valid || status == Invalid || status == Revoked
  }

  /** No run reopens a finished order; only a valid one can still change, to revoked. */
  lemma {:induction false} TerminalStays(orders: Orders, ws: seq<Write>, id: OrderId)
    requires id in orders && Terminal(orders[id].status)
    ensures id in Run(orders, ws)
    ensures Run(orders, ws)[id].status == orders[id].status ||
            (orders[id].status == Valid && Run(orders, ws)[id].status == Revoked)
    ensures Entries(orders, ws, id) == 0
    decreases ws
  {
    if ws != [] {
      TerminalStays(Apply(orders, ws[0]), ws[1..], id);
    }
  }

  /** The audit row of an administrative reclaim. */
  datatype Reclaimed = Reclaimed(id: OrderId, toValid: bool, resolved: Option<ReqId>)

  /** The store object: each method is one transaction on the orders table. */
  class OrderStore {
    var orders: Orders
    var reclaimed: seq<Reclaimed>

    constructor ()
      ensures orders == map[] && reclaimed == []
    {
      orders, reclaimed := map[], [];
    }

    /** Ready to processing, minting the next generation in the same transaction. */
    method AcquireProcessingLease(id: OrderId) returns (generation: Option<nat>)
      modifies this`orders
      ensures orders == Apply(old(orders), AcquireLease(id))
      ensures generation.Some? <==> Fires(old(orders), AcquireLease(id))
      ensures generation.Some? ==> Holds(orders, id, generation.value) && generation.value >= 1
      ensures generation.Some? ==> !Holds(old(orders), id, generation.value)
      ensures generation.Some? <==> id in old(orders) && old(orders)[id].status == Ready
      ensures generation.Some? ==>
                && generation.value == old(orders)[id].generation + 1
                && orders == old(orders)[id := old(orders)[id].(status := Processing, generation := generation.value)]
    {
      if id !in orders || orders[id].status != Ready {
        return None;
      }
      var row := orders[id];
      orders := orders[id := row.(status := Processing, generation := row.generation + 1)];
      return Some(orders[id].generation);
    }

    method HoldsProcessingLease(id: OrderId, generation: nat) returns (held: bool)
      ensures held == Holds(orders, id, generation)
      ensures held <==> id in orders && orders[id].status == Processing && orders[id].generation == generation
    {
      if id !in orders {
        return false;
      }
      held := orders[id].status == Processing && orders[id].generation == generation;
    }

    /** The shared shape of every guarded transition out of a set of statuses. */
    method Transition(id: OrderId, from: set<Status>, to: Status, expected: Option<nat>) returns (applied: bool)
      modifies this`orders
      ensures applied <==> id in old(orders) && old(orders)[id].status in from &&
                           (expected.Some? ==> old(orders)[id].generation == expected.value)
      ensures orders == if applied then old(orders)[id := old(orders)[id].(status := to)] else old(orders)
    {
      applied := id in orders && orders[id].status in from;
      if applied && expected.Some? {
        applied := orders[id].generation == expected.value;
      }
      if applied {
        orders := orders[id := orders[id].(status := to)];
      }
    }

    method TransitionPendingToReady(id: OrderId) returns (applied: bool)
      modifies this`orders
      ensures orders == Apply(old(orders), PendingToReady(id))
      ensures applied == Fires(old(orders), PendingToReady(id))
      ensures applied <==> id in old(orders) && old(orders)[id].status == Pending
      ensures applied ==> orders == old(orders)[id := old(orders)[id].(status := Ready)]
    {
      applied := Transition(id, {Pending}, Ready, None);
    }

    method TransitionProcessingToReady(id: OrderId, expected: Option<nat>) returns (applied: bool)
      modifies this`orders
      ensures orders == Apply(old(orders), ProcessingToReady(id, expected))
      ensures applied == Fires(old(orders), ProcessingToReady(id, expected))
      ensures applied <==> id in old(orders) && old(orders)[id].status == Processing &&
                           (expected.Some? ==> old(orders)[id].generation == expected.value)
      ensures applied ==> orders == old(orders)[id := old(orders)[id].(status := Ready)]
    {
      applied := Transition(id, {Processing}, Ready, expected);
    }

    method TransitionProcessingToInvalid(id: OrderId, expected: Option<nat>) returns (applied: bool)
      modifies this`orders
      ensures orders == Apply(old(orders), ProcessingToInvalid(id, expected))
      ensures applied == Fires(old(orders), ProcessingToInvalid(id, expected))
      ensures applied <==> id in old(orders) && old(orders)[id].status == Processing &&
                           (expected.Some? ==> old(orders)[id].generation == expected.value)
      ensures applied ==> orders == old(orders)[id := old(orders)[id].(status := Invalid)]
    {
      applied := Transition(id, {Processing}, Invalid, expected);
    }

    method TransitionActiveToInvalid(id: OrderId) returns (applied: bool)
      modifies this`orders
      ensures orders == Apply(old(orders), ActiveToInvalid(id))
      ensures applied == Fires(old(orders), ActiveToInvalid(id))
      ensures applied <==> id in old(orders) && old(orders)[id].status in {Pending, Ready}
      ensures applied ==> orders == old(orders)[id := old(orders)[id].(status := Invalid)]
    {
      applied := Transition(id, {Pending, Ready}, Invalid, None);
    }

    method TransitionToRevoked(id: OrderId) returns (applied: bool)
      modifies this`orders
      ensures orders == Apply(old(orders), ToRevoked(id))
      ensures applied == Fires(old(orders), ToRevoked(id))
      ensures applied <==> id in old(orders) && old(orders)[id].status in {Valid, Processing}
      ensures applied ==> orders == old(orders)[id := old(orders)[id].(status := Revoked)]
    {
      applied := Transition(id, {Valid, Processing}, Revoked, None);
    }

    method TransitionProcessingToValid(id: OrderId, certificate: CertId, expected: Option<nat>)
      returns (applied: bool)
      modifies this`orders
      ensures orders == Apply(old(orders), ProcessingToValid(id, certificate, expected))
      ensures applied == Fires(old(orders), ProcessingToValid(id, certificate, expected))
      ensures applied <==> id in old(orders) && old(orders)[id].status == Processing &&
                           (expected.Some? ==> old(orders)[id].generation == expected.value)
      ensures applied ==>
                orders == old(orders)[id := old(orders)[id].(status := Valid, certificate := Some(certificate))]
    {
      applied := Transition(id, {Processing}, Valid, expected);
      if applied {
        orders := orders[id := orders[id].(certificate := Some(certificate))];
      }
    }

    /**
     The administrative reclaim, to valid if a certificate exists and to ready if not:
     transition, marker clear and audit row commit together, or nothing does.
     */
    method ReclaimProcessingOrder(id: OrderId, expected: Option<nat>, toValid: Option<CertId>, resolved: Option<ReqId>)
      returns (applied: bool)
      modifies this
      ensures orders == Apply(old(orders), ReclaimOrder(id, expected, toValid, resolved))
      ensures applied == Fires(old(orders), ReclaimOrder(id, expected, toValid, resolved))
      ensures applied <==> id in old(orders) && old(orders)[id].status == Processing &&
                           (expected.Some? ==> old(orders)[id].generation == expected.value)
      ensures applied ==> orders[id].status == (if toValid.Some? then Valid else Ready)
      ensures applied ==> orders[id].certificate == (if toValid.Some? then toValid else old(orders)[id].certificate)
      ensures applied ==> orders[id].account == old(orders)[id].account
      ensures applied ==> orders[id].generation == old(orders)[id].generation
      ensures applied && resolved.Some? ==> orders[id].pendingReq != resolved
      ensures !applied ==> orders == old(orders)
      ensures forall other :: other in old(orders) && other != id ==>
                other in orders && orders[other] == old(orders)[other]
      ensures applied && old(orders)[id].pendingReq != resolved ==> orders[id].pendingReq == old(orders)[id].pendingReq
      ensures reclaimed ==
              old(reclaimed) + if applied then [Reclaimed(id, toValid.Some?, resolved)] else []
    {
      if toValid.Some? {
        applied := TransitionProcessingToValid(id, toValid.value, expected);
      } else {
        applied := Transition(id, {Processing}, Ready, expected);
      }
      if !applied {
        return;
      }
      if resolved.Some? && orders[id].pendingReq == resolved {
        orders := orders[id := orders[id].(pendingReq := None)];
      }
      reclaimed := reclaimed + [Reclaimed(id, toValid.Some?, resolved)];
    }

    method RecordPendingCaRequest(id: OrderId, req: ReqId, generation: nat) returns (recorded: bool)
      modifies this`orders
      ensures orders == Apply(old(orders), RecordPending(id, req, generation))
      ensures recorded == Fires(old(orders), RecordPending(id, req, generation))
      ensures recorded <==> id in old(orders) && old(orders)[id].generation == generation
      ensures recorded ==> orders == old(orders)[id := old(orders)[id].(pendingReq := Some(req))]
    {
      recorded := id in orders && orders[id].generation == generation;
      if recorded {
        orders := orders[id := orders[id].(pendingReq := Some(req))];
      }
    }

    /** Drops the marker of the request that was accounted for, and no other. */
    method ClearPendingCaRequest(id: OrderId, req: ReqId) returns (cleared: bool)
      modifies this`orders
      ensures orders == Apply(old(orders), ClearPending(id, req))
      ensures cleared == Fires(old(orders), ClearPending(id, req))
      ensures cleared <==> id in old(orders) && old(orders)[id].pendingReq == Some(req)
      ensures cleared ==> orders == old(orders)[id := old(orders)[id].(pendingReq := None)]
    {
      cleared := id in orders && orders[id].pendingReq == Some(req);
      if cleared {
        orders := orders[id := orders[id].(pendingReq := None)];
      }
    }
  }
}
