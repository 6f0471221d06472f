/** The certsrv enrollment leg: what one exchange with the CA lets out to the caller. */
module EnrollmentLeg {
  import opened Prelude

  type ReqId = nat

  datatype Disposition = IssuedAs(r: ReqId) | PendingAs(r: ReqId) | DeniedByCa | Unrecognised

  /** How one step of the exchange went. */
  datatype Step = Fine | Transport | Unexpected

  /** Everything the network and the CA decide about one call, in order. */
  datatype Wire = Wire(
    post: Step,
    disposition: Disposition,
    lateAfterParse: bool,
    leafFetch: Step,
    leafParses: bool,
    lateAfterLeaf: bool,
    binding: Step,
    chainFetch: Step,
    chainBinds: Step)

  datatype Raised =
    | RaisedDenied
    | RaisedPending(r: ReqId)
    | RaisedTransport(own: Option<ReqId>)
    | RaisedUnexpected

  datatype Answer =
    | Certificate(r: ReqId)
    | Denied
    | Pending(r: ReqId)
    | Fault(req: Option<ReqId>, bytes: bool, chain: bool)

  /** What the handlers share with the exchange. */
  datatype Tracked = Tracked(req: Option<ReqId>, cert: bool, chain: bool)

  function Failure(s: Step): (raised: Raised)
    requires s != Fine
  {
    if s == Transport then RaisedTransport(None) else RaisedUnexpected
  }

  /** From the POST to the chain check; the tracked values are set as the CA commits. */
  method Exchange(w: Wire) returns (raised: Option<Raised>, tracked: Tracked)
    ensures raised.None? ==> w.disposition.IssuedAs? && tracked.req == Some(w.disposition.r)
    ensures raised.None? <==> Completes(w)
    ensures tracked.req.Some? <==> Commits(w)
    ensures tracked.req.Some? ==> tracked.req == Some(w.disposition.r)
    ensures tracked.cert <==> Commits(w) && w.leafFetch == Fine && w.leafParses && !w.lateAfterLeaf
    ensures tracked.chain <==> tracked.cert && w.binding == Fine && w.chainFetch == Fine
    ensures raised.Some? && raised.value.RaisedTransport? && raised.value.own.Some? ==>
              raised.value.own == tracked.req && !tracked.cert
    ensures raised == Some(RaisedDenied) <==> Reads(w) && w.disposition.DeniedByCa?
    ensures raised.Some? && raised.value.RaisedPending? <==> Reads(w) && w.disposition.PendingAs?
    ensures raised.Some? && raised.value.RaisedPending? ==> raised.value.r == w.disposition.r
  {
    tracked := Tracked(None, false, false);
    if w.post != Fine {
      return Some(Failure(w.post)), tracked;
    }
    if w.lateAfterParse {
      return Some(RaisedTransport(None)), tracked;
    }
    match w.disposition {
      case PendingAs(r) => return Some(RaisedPending(r)), tracked;
      case DeniedByCa => return Some(RaisedDenied), tracked;
      case Unrecognised => return Some(RaisedTransport(None)), tracked;
      case IssuedAs(r) => tracked := tracked.(req := Some(r));
    }
    if w.leafFetch != Fine {
      return Some(Failure(w.leafFetch)), tracked;
    }
    if !w.leafParses {
      return Some(RaisedTransport(tracked.req)), tracked;
    }
    if w.lateAfterLeaf {
      return Some(RaisedTransport(None)), tracked;
    }
    tracked := tracked.(cert := true);
    if w.binding != Fine {
      return Some(Failure(w.binding)), tracked;
    }
    if w.chainFetch != Fine {
      return Some(Failure(w.chainFetch)), tracked;
    }
    tracked := tracked.(chain := true);
    if w.chainBinds != Fine {
      return Some(Failure(w.chainBinds)), tracked;
    }
    raised := None;
  }

  /** The disposition page was read before the deadline. */
  predicate Reads(w: Wire) { w.post == Fine && !w.lateAfterParse }

  /** The leg knows that the CA issued. */
  predicate Commits(w: Wire) { Reads(w) && w.disposition.IssuedAs? }

  predicate Completes(w: Wire) {
    && Commits(w) && w.leafFetch == Fine && w.leafParses && !w.lateAfterLeaf
    && w.binding == Fine && w.chainFetch == Fine && w.chainBinds == Fine
  }

  /** The answer names the request the CA issued. */
  predicate Names(a: Answer, r: ReqId) {
    a == Certificate(r) || (a.Fault? && a.req == Some(r))
  }

  /**
   The handlers.  Once the CA is known to have issued, every way out carries the
   ReqID, and the bytes if they were in hand; an answer of pending carries its ReqID.
   The one gap, for both, is a deadline that expires right after the page was parsed.
   */
  method SubmitCsr(w: Wire) returns (a: Answer)
    ensures a.Certificate? <==>
            && w.post == Fine && !w.lateAfterParse && w.disposition.IssuedAs?
            && w.leafFetch == Fine && w.leafParses && !w.lateAfterLeaf
            && w.binding == Fine && w.chainFetch == Fine && w.chainBinds == Fine
    ensures w.post == Fine && w.disposition.IssuedAs? ==> (Names(a, w.disposition.r) <==> !w.lateAfterParse)
    ensures forall r :: Names(a, r) ==> w.disposition == IssuedAs(r)
    ensures a.Denied? <==> w.post == Fine && !w.lateAfterParse && w.disposition.DeniedByCa?
    ensures a.Pending? <==> w.post == Fine && !w.lateAfterParse && w.disposition.PendingAs?
    ensures w.post == Fine && w.disposition.PendingAs? ==> (a == Pending(w.disposition.r) <==> !w.lateAfterParse)
    ensures a.Pending? ==> a.r == w.disposition.r
    ensures a.Fault? ==>
              (a.bytes <==> w.post == Fine && !w.lateAfterParse && w.disposition.IssuedAs? &&
                            w.leafFetch == Fine && w.leafParses && !w.lateAfterLeaf)
    ensures a.Fault? ==> (a.chain <==> a.bytes && w.binding == Fine && w.chainFetch == Fine)
  {
    var raised, tracked := Exchange(w);
    if raised.None? {
      return Certificate(tracked.req.value);
    }
    match raised.value {
      case RaisedDenied => a := Denied;
      case RaisedPending(r) => a := Pending(r);
      case RaisedTransport(own) =>
        if own.None? && tracked.req.Some? {
          a := Fault(tracked.req, tracked.cert, tracked.chain);
        } else {
          a := Fault(own, false, false);
        }
      case RaisedUnexpected => a := Fault(tracked.req, tracked.cert, tracked.chain);
    }
  }

  // --- The gate ---------------------------------------------------------------------------

  type JobId = nat

  datatype GateError = Busy | Closed | SubmitFailed

  /** What wakes the handler that awaits an admitted job. */
  datatype Wake = CallerCancelled | JobCancelled | JobDone(a: Answer)

  /** A gate that absorbs cancellations is left only for a wake about the job itself. */
  predicate LeavesOn(absorbs: bool, w: Wake) {
    !absorbs || !w.CallerCancelled?
  }

  /** The wake at which the handler stops awaiting. */
  function Settlement(absorbs: bool, wakes: seq<Wake>): (outcome: Option<Wake>) {
    if wakes == [] then None
    else if LeavesOn(absorbs, wakes[0]) then Some(wakes[0])
    else Settlement(absorbs, wakes[1..])
  }

  class EnrollmentGate {
    const maxPending: nat
    var pending: nat
    var closed: bool
    ghost var admitted: set<JobId>

    ghost predicate Valid()
      reads this
    {
      pending == |admitted| && pending <= maxPending
    }

    constructor (maxPending: nat)
      ensures Valid() && this.maxPending == maxPending && admitted == {} && !closed
    {
      this.maxPending := maxPending;
      pending, closed, admitted := 0, false, {};
    }

    /** Admission and submission under the state lock; a submit that raises gives the slot back. */
    method Admit(ghost job: JobId, submits: bool) returns (refused: Option<GateError>)
      requires Valid() && job !in admitted
      modifies this
      ensures Valid() && closed == old(closed)
      ensures refused == if closed then Some(Closed)
                         else if |old(admitted)| >= maxPending then Some(Busy)
                         else if !submits then Some(SubmitFailed)
                         else None
      ensures admitted == if refused.None? then old(admitted) + {job} else old(admitted)
    {
      if closed {
        return Some(Closed);
      }
      if pending >= maxPending {
        return Some(Busy);
      }
      pending := pending + 1;
      if !submits {
        pending := pending - 1;
        return Some(SubmitFailed);
      }
      admitted := admitted + {job};
      refused := None;
    }

    /** The done callback, once per admitted job. */
    method Finished(ghost job: JobId)
      requires Valid() && job in admitted
      modifies this
      ensures Valid() && admitted == old(admitted) - {job} && closed == old(closed)
    {
      pending := pending - 1;
      admitted := admitted - {job};
    }

    /** Closing refuses new work and cancels none that was admitted. */
    method Close()
      requires Valid()
      modifies this`closed
      ensures Valid() && closed && admitted == old(admitted)
    {
      closed := true;
    }

    /**
     The shielded await: however often the caller is cancelled, the handler leaves
     only with the outcome of the job itself.
     */
    method Await(wakes: seq<Wake>) returns (outcome: Option<Wake>)
      ensures outcome == Settlement(true, wakes)
      ensures outcome.Some? ==> !outcome.value.CallerCancelled?
    {
      var i := 0;
      assert wakes[0..] == wakes;
      while i < |wakes|
        invariant 0 <= i <= |wakes| && Settlement(true, wakes) == Settlement(true, wakes[i..])
      {
        if !wakes[i].CallerCancelled? {
          return Some(wakes[i]);
        }
        assert wakes[i..][1..] == wakes[i + 1..];
        i := i + 1;
      }
      outcome := None;
    }
  }

  /** An outcome is reached exactly if the job settles, and cancellations do not change it. */
  lemma {:induction false} CancellationsAreAbsorbed(before: seq<Wake>, outcome: Wake, after: seq<Wake>)
    requires !outcome.CallerCancelled? && forall w :: w in before ==> w.CallerCancelled?
    ensures Settlement(true, before + [outcome] + after) == Some(outcome)
  {
    var wakes := before + [outcome] + after;
    if before == [] {
      assert wakes[0] == outcome;
    } else {
      assert wakes[0] == before[0] && wakes[1..] == before[1..] + [outcome] + after;
      CancellationsAreAbsorbed(before[1..], outcome, after);
    }
  }
}
