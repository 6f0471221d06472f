/**
 Single-flight admission of CRL retrievals.  Retrievals settle on worker threads;
 the callback that takes a settled one off the map runs at any later time.
 */
module CrlGate {
  import opened Prelude

  type Key = nat
  type FlightId = nat

  /** `cleared` once its callback has run. */
  datatype Flight = Flight(key: Key, settled: bool, cleared: bool)

  datatype State = State(flights: map<FlightId, Flight>, inflight: map<Key, FlightId>)

  datatype Refusal = Busy | Closed

  datatype Step =
    | Arrive(key: Key, newest: FlightId)
    | Settle(flight: FlightId)
    | Callback(flight: FlightId)

  const Init := State(map[], map[])

  predicate Settled(s: State, f: FlightId) { f in s.flights && s.flights[f].settled }

  /** There is a retrieval under way that a caller for this key may join. */
  predicate Joinable(s: State, k: Key) { k in s.inflight && !Settled(s, s.inflight[k]) }

  /** A settled entry under the key is not a flight to join: it is taken off the map. */
  function WithoutSettled(s: State, k: Key): (kept: map<Key, FlightId>) {
    if k in s.inflight && Settled(s, s.inflight[k]) then s.inflight - {k} else s.inflight
  }

  predicate Enabled(s: State, step: Step) {
    match step
    case Arrive(_, f) => f !in s.flights
    case Settle(f) => f in s.flights && !s.flights[f].settled
    case Callback(f) => f in s.flights && s.flights[f].settled && !s.flights[f].cleared
  }

  /** What the arriving caller gets: the flight it will await, or a refusal. */
  function Admitted(maxPending: nat, s: State, k: Key, newest: FlightId): (answer: Result<FlightId, Refusal>) {
    if Joinable(s, k) then Ok(s.inflight[k])
    else if |WithoutSettled(s, k)| >= maxPending then Err(Busy)
    else Ok(newest)
  }

  function Next(maxPending: nat, s: State, step: Step): (t: State)
    requires Enabled(s, step)
  {
    match step
    case Arrive(k, f) =>
      if Joinable(s, k) then s
      else if |WithoutSettled(s, k)| >= maxPending then s.(inflight := WithoutSettled(s, k))
      else State(s.flights[f := Flight(k, false, false)], WithoutSettled(s, k)[k := f])
    case Settle(f) => s.(flights := s.flights[f := s.flights[f].(settled := true)])
    case Callback(f) =>
      var k := s.flights[f].key;
      State(s.flights[f := s.flights[f].(cleared := true)],
            if k in s.inflight && s.inflight[k] == f then s.inflight - {k} else s.inflight)
  }

  ghost predicate Inv(maxPending: nat, s: State) {
    OnTheMap(s.flights, s.inflight) && |s.inflight| <= maxPending
  }

  lemma Sizes(m: map<Key, FlightId>, k: Key, f: FlightId)
    ensures |m - {k}| <= |m| && |m[k := f]| <= |m| + 1
  {
    assert (m - {k}).Keys == m.Keys - {k};
    assert m[k := f].Keys == m.Keys + {k};
  }

  /** Key and flight of every entry and every retrieval under way; no entry outlives its callback. */
  ghost predicate OnTheMap(flights: map<FlightId, Flight>, inflight: map<Key, FlightId>) {
    && (forall k :: k in inflight ==> inflight[k] in flights && flights[inflight[k]].key == k)
    && (forall k :: k in inflight ==> !flights[inflight[k]].cleared)
    && (forall f :: f in flights && !flights[f].settled ==>
          !flights[f].cleared && flights[f].key in inflight && inflight[flights[f].key] == f)
  }

  lemma WithoutSettledKeeps(s: State, k: Key)
    requires OnTheMap(s.flights, s.inflight)
    ensures OnTheMap(s.flights, WithoutSettled(s, k)) && |WithoutSettled(s, k)| <= |s.inflight|
  {
    Sizes(s.inflight, k, 0);
  }

  lemma LaunchKeeps(flights: map<FlightId, Flight>, inflight: map<Key, FlightId>, k: Key, f: FlightId)
    requires OnTheMap(flights, inflight) && k !in inflight && f !in flights
    ensures OnTheMap(flights[f := Flight(k, false, false)], inflight[k := f])
  {
  }

  lemma ArriveKeeps(maxPending: nat, s: State, k: Key, f: FlightId)
    requires Inv(maxPending, s) && f !in s.flights
    ensures Inv(maxPending, Next(maxPending, s, Arrive(k, f)))
  {
    WithoutSettledKeeps(s, k);
    if !Joinable(s, k) && |WithoutSettled(s, k)| < maxPending {
      LaunchKeeps(s.flights, WithoutSettled(s, k), k, f);
      Sizes(WithoutSettled(s, k), k, f);
    }
  }

  lemma StepKeeps(maxPending: nat, s: State, step: Step)
    requires Inv(maxPending, s) && Enabled(s, step)
    ensures Inv(maxPending, Next(maxPending, s, step))
  {
    match step
    case Arrive(k, f) => ArriveKeeps(maxPending, s, k, f);
    case Settle(f) =>
    case Callback(f) => Sizes(s.inflight, s.flights[f].key, f);
  }

  predicate Runs(maxPending: nat, steps: seq<Step>)
    decreases |steps|, 0
  {
    steps == [] ||
    (Runs(maxPending, steps[..|steps| - 1]) && Enabled(End(maxPending, steps[..|steps| - 1]), steps[|steps| - 1]))
  }

  function End(maxPending: nat, steps: seq<Step>): (t: State)
    requires Runs(maxPending, steps)
    decreases |steps|, 1
  {
    if steps == [] then Init
    else Next(maxPending, End(maxPending, steps[..|steps| - 1]), steps[|steps| - 1])
  }

  lemma {:induction false} RunKeeps(maxPending: nat, steps: seq<Step>)
    requires Runs(maxPending, steps)
    ensures Inv(maxPending, End(maxPending, steps))
    decreases |steps|
  {
    if steps != [] {
      RunKeeps(maxPending, steps[..|steps| - 1]);
      StepKeeps(maxPending, End(maxPending, steps[..|steps| - 1]), steps[|steps| - 1]);
    }
  }

  function Unsettled(s: State): (flights: set<FlightId>) {
    set f | f in s.flights && !s.flights[f].settled
  }

  lemma {:induction false} ValuesAreFew(m: map<Key, FlightId>, fs: set<FlightId>)
    requires forall f :: f in fs ==> exists k :: k in m && m[k] == f
    ensures |fs| <= |m|
    decreases |fs|
  {
    if fs != {} {
      var f :| f in fs;
      var k :| k in m && m[k] == f;
      var rest := m - {k};
      assert rest.Keys == m.Keys - {k};
      forall g | g in fs - {f}
        ensures exists j :: j in rest && rest[j] == g
      {
        var j :| j in m && m[j] == g;
        assert j in rest && rest[j] == g;
      }
      ValuesAreFew(rest, fs - {f});
      assert |fs| == |fs - {f}| + 1;
    }
  }

  /**
   However late the callbacks run: at most one retrieval under way per key, at most
   the limit in all, and each on the map under its own key.
   */
  lemma SingleFlight(maxPending: nat, steps: seq<Step>)
    requires Runs(maxPending, steps)
    ensures var s := End(maxPending, steps);
            && (forall f, g | f in Unsettled(s) && g in Unsettled(s) && s.flights[f].key == s.flights[g].key
                  :: f == g)
            && |Unsettled(s)| <= maxPending
            && (forall f :: f in Unsettled(s) ==> s.flights[f].key in s.inflight && s.inflight[s.flights[f].key] == f)
  {
    var s := End(maxPending, steps);
    RunKeeps(maxPending, steps);
    forall f | f in Unsettled(s)
      ensures exists k :: k in s.inflight && s.inflight[k] == f
    {
      assert s.flights[f].key in s.inflight;
    }
    ValuesAreFew(s.inflight, Unsettled(s));
  }

  /**
   A caller awaits a retrieval for its own key that had not settled when it
   arrived; it starts one only if none was under way, and is refused only when
   none was under way and the map is full without the settled entry of its key.
   */
  lemma CallerNeverJoinsASettledFlight(maxPending: nat, steps: seq<Step>, k: Key, newest: FlightId)
    requires Runs(maxPending, steps) && Enabled(End(maxPending, steps), Arrive(k, newest))
    ensures var s := End(maxPending, steps); var t := Next(maxPending, s, Arrive(k, newest));
            var r := Admitted(maxPending, s, k, newest);
            && (r.Ok? ==> r.value in Unsettled(t) && t.flights[r.value].key == k && t.inflight[k] == r.value)
            && (r.Ok? && r.value == newest <==> t.flights != s.flights)
            && (forall f :: f in Unsettled(s) && s.flights[f].key == k ==> r == Ok(f))
            && (r.Err? ==> Unsettled(t) == Unsettled(s) && |t.inflight| >= maxPending)
  {
    RunKeeps(maxPending, steps);
  }

  /** The retrievals whose callbacks have yet to run. */
  function Uncleared(s: State): (flights: set<FlightId>) {
    set f | f in s.flights && !s.flights[f].cleared
  }

  lemma {:induction false} EntriesAreUncleared(s: State, inflight: map<Key, FlightId>, fs: set<FlightId>)
    requires forall k :: k in inflight ==> inflight[k] in fs && inflight[k] in s.flights
    requires forall k :: k in inflight ==> s.flights[inflight[k]].key == k
    ensures |inflight| <= |fs|
    decreases |inflight|
  {
    if inflight != map[] {
      var k :| k in inflight;
      var rest := inflight - {k};
      assert rest.Keys == inflight.Keys - {k};
      EntriesAreUncleared(s, rest, fs - {inflight[k]});
      assert |fs| == |fs - {inflight[k]}| + 1;
    }
  }

  /**
   A caller is refused for want of room only while at least as many retrievals as the
   limit have callbacks that have not run: a retrieval that is done and cleared holds
   no place, whenever its callback came.
   */
  lemma BusyIsEarned(maxPending: nat, steps: seq<Step>, k: Key, newest: FlightId)
    requires Runs(maxPending, steps) && Enabled(End(maxPending, steps), Arrive(k, newest))
    ensures var s := End(maxPending, steps);
            && (forall j :: j in s.inflight ==> s.inflight[j] in Uncleared(s))
            && (Admitted(maxPending, s, k, newest) == Err(Busy) ==>
                  |Uncleared(s)| >= maxPending && forall f :: f in Unsettled(s) ==> s.flights[f].key != k)
  {
    var s := End(maxPending, steps);
    RunKeeps(maxPending, steps);
    WithoutSettledKeeps(s, k);
    EntriesAreUncleared(s, WithoutSettled(s, k), Uncleared(s));
  }

  /** The gate object; `flights` is the ghost history of futures it has created. */
  class CrlEvidenceGate {
    const maxPending: nat
    var inflight: map<Key, FlightId>
    var flights: map<FlightId, Flight>
    var closed: bool

    ghost predicate Valid()
      reads this
    {
      Inv(maxPending, State(flights, inflight))
    }

    constructor (maxPending: nat)
      ensures Valid() && this.maxPending == maxPending && State(flights, inflight) == Init && !closed
    {
      this.maxPending := maxPending;
      inflight, flights, closed := map[], map[], false;
    }

    /** The part of `run` before its await; `newest` names the future a submission would create. */
    method Run(k: Key, newest: FlightId) returns (r: Result<FlightId, Refusal>)
      requires Valid() && newest !in flights
      modifies this`inflight, this`flights
      ensures Valid()
      ensures r == if closed then Err(Closed) else Admitted(maxPending, old(State(flights, inflight)), k, newest)
      ensures State(flights, inflight) ==
              if closed then old(State(flights, inflight))
              else Next(maxPending, old(State(flights, inflight)), Arrive(k, newest))
      ensures !closed && k in old(inflight) && !old(flights)[old(inflight)[k]].settled ==>
                r == Ok(old(inflight)[k]) && inflight == old(inflight) && flights == old(flights)
      ensures !closed && !(k in old(inflight) && !old(flights)[old(inflight)[k]].settled) ==>
                r == (if |old(inflight) - {k}| >= maxPending then Err(Busy) else Ok(newest)) &&
                inflight == if r.Ok? then old(inflight)[k := newest] else old(inflight) - {k}
    {
      ghost var s := State(flights, inflight);
      StepKeeps(maxPending, s, Arrive(k, newest));
      if closed {
        return Err(Closed);
      }
      if k in inflight && flights[inflight[k]].settled {
        inflight := inflight - {k};
      } else if k in inflight {
        return Ok(inflight[k]);
      }
      if |inflight| >= maxPending {
        return Err(Busy);
      }
      flights := flights[newest := Flight(k, false, false)];
      inflight := inflight[k := newest];
      r := Ok(newest);
    }

    /** The late callback: it removes its own future only. */
    method Clear(finished: FlightId)
      requires Valid() && Enabled(State(flights, inflight), Callback(finished))
      modifies this`inflight, this`flights
      ensures Valid()
      ensures State(flights, inflight) == Next(maxPending, old(State(flights, inflight)), Callback(finished))
      ensures forall k :: k in inflight <==> k in old(inflight) && old(inflight)[k] != finished
      ensures forall k :: k in inflight ==> inflight[k] == old(inflight)[k]
    {
      StepKeeps(maxPending, State(flights, inflight), Callback(finished));
      var k := flights[finished].key;
      flights := flights[finished := flights[finished].(cleared := true)];
      if k in inflight && inflight[k] == finished {
        inflight := inflight - {k};
      }
    }

    method Close()
      modifies this`closed
      ensures closed
    {
      closed := true;
    }
  }
}
