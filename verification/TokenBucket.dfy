/** The in-process token bucket; times and levels are reals. */
module TokenBuckets {

  datatype Bucket = Bucket(capacity: real, refill: real, tokens: real, updated: real)

  datatype Request = Request(now: real, tokens: real)

  predicate Sound(b: Bucket) {
    b.capacity >= 1.0 && b.refill > 0.0 && 0.0 <= b.tokens <= b.capacity
  }

  function Min(x: real, y: real): (least: real) { if x <= y then x else y }

  /** What a stretch of time refills. */
  function Credit(refill: real, length: real): (tokens: real) { length * refill }

  /** The level once the time since the last update has been credited. */
  function Refilled(b: Bucket, now: real): (after: Bucket) {
    if now > b.updated then
      b.(tokens := Min(b.capacity, b.tokens + Credit(b.refill, now - b.updated)), updated := now)
    else b
  }

  predicate Grants(b: Bucket, q: Request) { Refilled(b, q.now).tokens >= q.tokens }

  function Taken(b: Bucket, q: Request): (after: Bucket) {
    var r := Refilled(b, q.now);
    if r.tokens < q.tokens then r else r.(tokens := r.tokens - q.tokens)
  }

  function After(b: Bucket, requests: seq<Request>): (after: Bucket) {
    if requests == [] then b else Taken(After(b, requests[..|requests| - 1]), requests[|requests| - 1])
  }

  /** The tokens handed out over a run of requests. */
  function Granted(b: Bucket, requests: seq<Request>): (total: real) {
    if requests == [] then 0.0
    else
      var q := requests[|requests| - 1];
      Granted(b, requests[..|requests| - 1]) +
      if Grants(After(b, requests[..|requests| - 1]), q) then q.tokens else 0.0
  }

  lemma Positive(refill: real, length: real)
    requires refill >= 0.0 && length >= 0.0
    ensures Credit(refill, length) >= 0.0
  {
  }

  lemma RefilledIsSound(b: Bucket, now: real)
    requires Sound(b)
    ensures Sound(Refilled(b, now))
  {
    if now > b.updated {
      Positive(b.refill, now - b.updated);
    }
  }

  lemma TakeKeepsSound(b: Bucket, q: Request)
    requires Sound(b) && q.tokens >= 0.0
    ensures Sound(Taken(b, q))
    ensures Taken(b, q).capacity == b.capacity && Taken(b, q).refill == b.refill
    ensures b.updated <= Taken(b, q).updated && q.now <= Taken(b, q).updated
    ensures Taken(b, q).updated == b.updated || Taken(b, q).updated == q.now
    ensures (if Grants(b, q) then q.tokens else 0.0) + Taken(b, q).tokens <= b.capacity
  {
    RefilledIsSound(b, q.now);
  }

  /** A take hands out the whole request or nothing, off a level that the time since the last one has refilled. */
  lemma TakeIsExact(b: Bucket, q: Request)
    ensures var level :=
              if q.now <= b.updated then b.tokens
              else if b.tokens + (q.now - b.updated) * b.refill < b.capacity
              then b.tokens + (q.now - b.updated) * b.refill
              else b.capacity;
            && (Grants(b, q) <==> level >= q.tokens)
            && Taken(b, q).tokens == level - (if level >= q.tokens then q.tokens else 0.0)
            && Taken(b, q).updated == (if q.now <= b.updated then b.updated else q.now)
            && Taken(b, q).capacity == b.capacity && Taken(b, q).refill == b.refill
  {
  }

  /** No refill of the run reaches the brim. */
  predicate NeverFull(b: Bucket, requests: seq<Request>) {
    requests != [] ==>
      NeverFull(b, requests[..|requests| - 1]) &&
      StaysBelow(After(b, requests[..|requests| - 1]), requests[|requests| - 1])
  }

  predicate StaysBelow(b: Bucket, q: Request) {
    q.now > b.updated ==> b.tokens + Credit(b.refill, q.now - b.updated) <= b.capacity
  }

  /** What was handed out and what is left make up what was there and what came in. */
  predicate Conserved(b: Bucket, granted: real, e: Bucket) {
    e.refill == b.refill && granted + e.tokens == b.tokens + Credit(b.refill, e.updated - b.updated)
  }

  lemma CreditAdds(refill: real, x: real, y: real)
    ensures Credit(refill, x) + Credit(refill, y) == Credit(refill, x + y)
  {
  }

  lemma TakeConserves(b: Bucket, granted: real, e: Bucket, q: Request)
    requires Conserved(b, granted, e) && StaysBelow(e, q)
    ensures Conserved(b, granted + if Grants(e, q) then q.tokens else 0.0, Taken(e, q))
  {
    TakeIsExact(e, q);
    CreditAdds(b.refill, e.updated - b.updated, Taken(e, q).updated - e.updated);
  }

  /** As long as the bucket does not overflow, tokens are conserved. */
  lemma {:induction false} TokensAreConserved(b: Bucket, requests: seq<Request>)
    requires NeverFull(b, requests)
    ensures Conserved(b, Granted(b, requests), After(b, requests))
  {
    if requests != [] {
      var earlier, q := requests[..|requests| - 1], requests[|requests| - 1];
      TokensAreConserved(b, earlier);
      TakeConserves(b, Granted(b, earlier), After(b, earlier), q);
    }
  }

  /** The level never leaves its bounds, whatever the clock does. */
  lemma {:induction false} LevelStaysInBounds(b: Bucket, requests: seq<Request>)
    requires Sound(b) && forall q :: q in requests ==> q.tokens >= 0.0
    ensures Sound(After(b, requests))
    ensures After(b, requests).capacity == b.capacity && After(b, requests).refill == b.refill
  {
    if requests != [] {
      LevelStaysInBounds(b, requests[..|requests| - 1]);
      assert requests[|requests| - 1] in requests;
      TakeKeepsSound(After(b, requests[..|requests| - 1]), requests[|requests| - 1]);
    }
  }

  /** What a take adds to the tokens handed out and held is paid for by the time it credits. */
  lemma TakeIsPaidFor(b: Bucket, q: Request, from: real)
    requires Sound(b) && from <= b.updated
    ensures (if Grants(b, q) then q.tokens else 0.0) + Taken(b, q).tokens - b.tokens <=
            Credit(b.refill, Taken(b, q).updated - from) - Credit(b.refill, b.updated - from)
  {
  }

  lemma {:induction false} TokensAreAccountedFor(b: Bucket, requests: seq<Request>, from: real, to: real)
    requires Sound(b) && b.updated <= from <= to
    requires forall q :: q in requests ==> q.tokens >= 0.0 && from <= q.now <= to
    ensures var e := After(b, requests);
            && Sound(e) && e.capacity == b.capacity && e.refill == b.refill
            && (requests == [] ==> e == b) && (requests != [] ==> from <= e.updated <= to)
            && (requests != [] ==> Granted(b, requests) + e.tokens <= b.capacity + Credit(b.refill, e.updated - from))
  {
    if requests != [] {
      var earlier, q := requests[..|requests| - 1], requests[|requests| - 1];
      assert q in requests;
      TokensAreAccountedFor(b, earlier, from, to);
      var e := After(b, earlier);
      TakeKeepsSound(e, q);
      if earlier != [] {
        TakeIsPaidFor(e, q, from);
      } else {
        Positive(b.refill, Taken(b, q).updated - from);
        assert Granted(b, earlier) == 0.0;
      }
    }
  }

  /** In any interval the tokens granted are at most the capacity plus what the interval refills. */
  lemma GrantsAreBounded(b: Bucket, requests: seq<Request>, from: real, to: real)
    requires Sound(b) && b.updated <= from <= to
    requires forall q :: q in requests ==> q.tokens >= 0.0 && from <= q.now <= to
    ensures Granted(b, requests) <= b.capacity + Credit(b.refill, to - from)
  {
    TokensAreAccountedFor(b, requests, from, to);
    if requests != [] {
      CreditGrows(b.refill, After(b, requests).updated - from, to - from);
    } else {
      CreditGrows(b.refill, 0.0, to - from);
    }
  }

  lemma CreditGrows(refill: real, x: real, y: real)
    requires refill >= 0.0 && 0.0 <= x <= y
    ensures 0.0 <= Credit(refill, x) <= Credit(refill, y)
  {
    Positive(refill, x);
    Positive(refill, y - x);
  }

  /** `max(1, int(deficit / refill) + 1)`. */
  function RetryAfter(b: Bucket, tokens: real): (seconds: int)
    requires b.refill > 0.0
    ensures seconds >= 1
  {
    var deficit := if tokens > b.tokens then tokens - b.tokens else 0.0;
    var s := (deficit / b.refill).Floor + 1;
    if s > 1 then s else 1
  }

  lemma FloorCovers(deficit: real, refill: real, wait: real)
    requires refill > 0.0 && wait >= deficit / refill
    ensures Credit(refill, wait) >= deficit
  {
    var q := deficit / refill;
    assert q * refill == deficit;
    Positive(refill, wait - q);
  }

  /** Waiting that long, with no other taker, makes a request of at most the capacity succeed. */
  lemma WaitingSuffices(b: Bucket, tokens: real, now: real)
    requires Sound(b) && tokens <= b.capacity
    requires now - b.updated >= RetryAfter(b, tokens) as real
    ensures Grants(b, Request(now, tokens))
  {
    var deficit := if tokens > b.tokens then tokens - b.tokens else 0.0;
    FloorCovers(deficit, b.refill, now - b.updated);
  }

  /** Nor is it much too long: a whole second less, and the request is still refused. */
  lemma WaitingIsNeeded(b: Bucket, tokens: real, now: real)
    requires Sound(b) && RetryAfter(b, tokens) > 1
    requires now - b.updated < (RetryAfter(b, tokens) - 1) as real
    ensures !Grants(b, Request(now, tokens))
  {
    var deficit := tokens - b.tokens;
    var q := deficit / b.refill;
    assert q * b.refill == deficit;
    assert now - b.updated < q;
    if now > b.updated {
      CreditIsLess(b.refill, now - b.updated, q);
    }
  }

  lemma CreditIsLess(refill: real, x: real, y: real)
    requires refill > 0.0 && x < y
    ensures Credit(refill, x) < Credit(refill, y)
  {
    var d := y - x;
    assert d * refill > 0.0;
    CreditAdds(refill, x, d);
  }

  class TokenBucket {
    const capacity: real
    const refill: real
    var tokens: real
    var updated: real

    function Abstract(): (bucket: Bucket)
      reads this
    {
      Bucket(capacity, refill, tokens, updated)
    }

    constructor (capacity: int, refillPerSecond: real, now: real)
      requires capacity >= 1 && refillPerSecond > 0.0
      ensures Abstract() == Bucket(capacity as real, refillPerSecond, capacity as real, now) && Sound(Abstract())
    {
      this.capacity, refill := capacity as real, refillPerSecond;
      tokens, updated := capacity as real, now;
    }

    method Take(now: real, n: real) returns (granted: bool)
      modifies this
      ensures granted == Grants(old(Abstract()), Request(now, n))
      ensures Abstract() == Taken(old(Abstract()), Request(now, n))
      ensures var level :=
                if now <= old(updated) then old(tokens)
                else if old(tokens) + (now - old(updated)) * refill < capacity
                then old(tokens) + (now - old(updated)) * refill
                else capacity;
              && (granted <==> level >= n) && tokens == level - (if granted then n else 0.0)
              && updated == if now <= old(updated) then old(updated) else now
    {
      var elapsed := now - updated;
      if elapsed > 0.0 {
        tokens := Min(capacity, tokens + Credit(refill, elapsed));
        updated := now;
      }
      if tokens < n {
        return false;
      }
      tokens := tokens - n;
      granted := true;
    }
  }
}
