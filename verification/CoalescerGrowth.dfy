/** Durable growth is a function of time: how many rows one key can open. */
module CoalescerGrowth {
  import opened Prelude
  import opened Coalescer

  /** The other keys whose windows are still open. */
  function OpenOthers(cfg: Config, s: State, k: Key, now: real): (keys: set<Key>) {
    set j | j in s.windows && j != k && WindowOpen(cfg, s.windows[j], now)
  }

  /** Nothing archived or dropped, and fewer open windows of other keys than the cap at each opening. */
  ghost predicate Uncrowded(cfg: Config, s: State, a: Action) {
    a.Record? && (!Folds(cfg, s, a.key, a.now) ==> |OpenOthers(cfg, s, a.key, a.now)| < cfg.cap)
  }

  ghost predicate Steady(cfg: Config, actions: seq<Action>)
    requires Runs(cfg, actions)
  {
    actions != [] ==>
      var earlier := actions[..|actions| - 1];
      Steady(cfg, earlier) && Uncrowded(cfg, End(cfg, earlier), actions[|actions| - 1])
  }

  /** Rows of one key are opened at least one window apart. */
  ghost predicate Spaced(window: real, rows: seq<Row>) {
    forall i, j :: 0 <= i < j < |rows| && rows[i].key == rows[j].key ==>
      rows[j].openedAt - rows[i].openedAt >= window
  }

  /** A row that could still be folded into has its window in the index. */
  ghost predicate Covered(cfg: Config, s: State) {
    forall i {:trigger HasWindow(s, i)} :: 0 <= i < |s.rows| ==>
      HasWindow(s, i) || s.clock - s.rows[i].openedAt >= cfg.window
  }

  ghost predicate GrowthInv(cfg: Config, s: State) {
    && Spaced(cfg.window, s.rows) && Covered(cfg, s)
    && forall i :: 0 <= i < |s.rows| ==> !s.rows[i].archived
  }

  lemma NoVictims(cfg: Config, s: State, k: Key, now: real, victims: set<Key>)
    requires !(k in s.windows && WindowOpen(cfg, s.windows[k], now))
    requires |OpenOthers(cfg, s, k, now)| < cfg.cap
    requires LruChoice(cfg, Swept(cfg, Candidates(cfg, s, k, now), now), victims)
    ensures victims == {}
    ensures forall j :: j in s.windows && WindowOpen(cfg, s.windows[j], now) ==>
              j in Swept(cfg, Candidates(cfg, s, k, now), now)
  {
    if |s.windows| >= cfg.cap {
      var swept := s.windows - Expired(cfg, s.windows, now);
      assert swept.Keys == OpenOthers(cfg, s, k, now);
      assert |swept| == |swept.Keys|;
    }
  }

  lemma OpenKeepsGrowth(cfg: Config, s: State, k: Key, now: real, victims: set<Key>)
    requires Inv(cfg, s) && GrowthInv(cfg, s) && cfg.window > 0.0 && s.clock <= now && !Folds(cfg, s, k, now)
    requires |OpenOthers(cfg, s, k, now)| < cfg.cap
    requires LruChoice(cfg, Swept(cfg, Candidates(cfg, s, k, now), now), victims)
    ensures GrowthInv(cfg, Open(cfg, s, k, now, victims))
  {
    assert k in s.windows ==> WindowOk(s, k, s.windows[k]);
    NoVictims(cfg, s, k, now, victims);
    var t := Open(cfg, s, k, now, victims);
    forall i | 0 <= i < |s.rows| && s.rows[i].key == k
      ensures now - s.rows[i].openedAt >= cfg.window
    {
      assert HasWindow(s, i) || s.clock - s.rows[i].openedAt >= cfg.window;
    }
    forall i | 0 <= i < |t.rows|
      ensures HasWindow(t, i) || t.clock - t.rows[i].openedAt >= cfg.window
    {
      if i < |s.rows| {
        assert HasWindow(s, i) || s.clock - s.rows[i].openedAt >= cfg.window;
        assert s.rows[i].key in s.windows ==> WindowOk(s, s.rows[i].key, s.windows[s.rows[i].key]);
      }
    }
  }

  lemma FoldKeepsGrowth(cfg: Config, s: State, k: Key, now: real)
    requires Inv(cfg, s) && GrowthInv(cfg, s) && s.clock <= now && Folds(cfg, s, k, now)
    ensures GrowthInv(cfg, Fold(s, k, now))
  {
    var t := Fold(s, k, now);
    forall i | 0 <= i < |t.rows|
      ensures HasWindow(t, i) || t.clock - t.rows[i].openedAt >= cfg.window
    {
      assert HasWindow(s, i) || s.clock - s.rows[i].openedAt >= cfg.window;
    }
  }

  lemma {:induction false} SteadyRunIsSpaced(cfg: Config, actions: seq<Action>)
    requires cfg.cap >= 1 && cfg.window > 0.0 && Runs(cfg, actions) && Steady(cfg, actions)
    ensures GrowthInv(cfg, End(cfg, actions))
  {
    if actions != [] {
      var earlier := actions[..|actions| - 1];
      SteadyRunIsSpaced(cfg, earlier);
      IndexAgreesWithRows(cfg, earlier);
      var s, a := End(cfg, earlier), actions[|actions| - 1];
      if Folds(cfg, s, a.key, a.now) {
        FoldKeepsGrowth(cfg, s, a.key, a.now);
      } else {
        OpenKeepsGrowth(cfg, s, a.key, a.now, a.victims);
      }
    }
  }

  /** How many rows of a key were opened between two moments, both included. */
  function RowsWithin(rows: seq<Row>, k: Key, from: real, to: real): (count: nat) {
    if rows == [] then 0
    else
      var last := rows[|rows| - 1];
      RowsWithin(rows[..|rows| - 1], k, from, to) + if last.key == k && from <= last.openedAt <= to then 1 else 0
  }

  /** `n` windows laid end to end. */
  function Span(n: nat, window: real): (length: real) {
    if n == 0 then 0.0 else Span(n - 1, window) + window
  }

  lemma {:induction false} SpanWithin(n: nat, window: real, length: real)
    requires window > 0.0 && length >= 0.0 && Span(n, window) <= length + window
    ensures n <= (length / window).Floor + 1
  {
    SpanIsProduct(n, window);
    Divided(n, window, length);
  }

  lemma {:induction false} SpanIsProduct(n: nat, window: real)
    ensures Span(n, window) == n as real * window
  {
    if n > 0 {
      SpanIsProduct(n - 1, window);
    }
  }

  lemma CancelFactor(x: real, y: real, w: real)
    requires w > 0.0 && x * w <= y * w
    ensures x <= y
  {
    var d := x - y;
    assert d * w == x * w - y * w;
  }

  lemma Divided(n: nat, window: real, length: real)
    requires window > 0.0 && n as real * window <= length + window
    ensures n <= (length / window).Floor + 1
  {
    var q := length / window;
    CancelFactor(n as real, q + 1.0, window);
  }

  /** Rows a window apart: the newest of n of them opens n - 1 windows after the span begins. */
  lemma {:induction false} SpacedRowsSpread(window: real, rows: seq<Row>, k: Key, from: real, to: real) returns (i: int)
    requires window > 0.0 && Spaced(window, rows)
    ensures RowsWithin(rows, k, from, to) > 0 ==>
              0 <= i < |rows| && rows[i].key == k && from <= rows[i].openedAt <= to &&
              Span(RowsWithin(rows, k, from, to), window) <= rows[i].openedAt - from + window
  {
    if rows == [] {
      i := 0;
    } else {
      var last := |rows| - 1;
      i := SpacedRowsSpread(window, rows[..last], k, from, to);
      if rows[last].key == k && from <= rows[last].openedAt <= to {
        i := last;
      }
    }
  }

  lemma SpacedRowsAreFew(window: real, rows: seq<Row>, k: Key, from: real, to: real)
    requires window > 0.0 && from <= to && Spaced(window, rows)
    ensures RowsWithin(rows, k, from, to) <= ((to - from) / window).Floor + 1
  {
    var i := SpacedRowsSpread(window, rows, k, from, to);
    SpanWithin(RowsWithin(rows, k, from, to), window, to - from);
  }

  /**
   The durable-row bound.  While the index is uncrowded, rows of one key open at
   least a window apart, so a span of `to - from` seconds holds at most
   floor(span / window) + 1 of them, whatever the request rate.
   */
  lemma RowsAreBoundedByTime(cfg: Config, actions: seq<Action>, k: Key, from: real, to: real)
    requires cfg.cap >= 1 && cfg.window > 0.0 && Runs(cfg, actions) && Steady(cfg, actions) && from <= to
    ensures Spaced(cfg.window, End(cfg, actions).rows)
    ensures RowsWithin(End(cfg, actions).rows, k, from, to) <= ((to - from) / cfg.window).Floor + 1
  {
    SteadyRunIsSpaced(cfg, actions);
    SpacedRowsAreFew(cfg.window, End(cfg, actions).rows, k, from, to);
  }
}
