/** The coalescer object, performing in place the steps that `Coalescer` specifies. */
module DenialCoalescing {
  import opened Prelude
  import opened Coalescer
  import opened CoalescerRows

  /** The durable audit table, as far as the coalescer writes it. */
  class AuditStore {
    var rows: seq<Row>

    constructor ()
      ensures rows == []
    {
      rows := [];
    }

    method RecordAudit(row: Row) returns (id: nat)
      modifies this
      ensures rows == old(rows) + [row] && id == |old(rows)|
    {
      id := |rows|;
      rows := rows + [row];
    }

    /** False when the row is no longer in the table. */
    method UpdateAuditDetails(id: nat, count: nat) returns (found: bool)
      modifies this
      ensures found <==> id < |old(rows)| && !old(rows)[id].archived
      ensures rows == if found then old(rows)[id := old(rows)[id].(count := count)] else old(rows)
    {
      found := id < |rows| && !rows[id].archived;
      if found {
        rows := rows[id := rows[id].(count := count)];
      }
    }
  }

  class DenialCoalescer {
    const cfg: Config
    const store: AuditStore
    var windows: map<Key, Window>
    var evicted: nat
    ghost var clock: real

    ghost function Abstract(): (s: State)
      reads this, store
    {
      State(windows, evicted, store.rows, clock)
    }

    ghost predicate Valid()
      reads this, store
    {
      cfg.cap >= 1 && Inv(cfg, Abstract())
    }

    /** A new process, on the rows that earlier ones left. */
    constructor (window: real, maxOpenWindows: nat, store: AuditStore, ghost now: real)
      requires maxOpenWindows >= 1 && RowsInOrder(store.rows, now)
      ensures Valid() && this.store == store && cfg == Config(window, maxOpenWindows)
      ensures Abstract() == State(map[], 0, store.rows, now)
    {
      cfg := Config(window, maxOpenWindows);
      this.store := store;
      windows := map[];
      evicted := 0;
      clock := now;
    }

    /** Some window no other was touched before. */
    method LeastRecentlyTouched() returns (k: Key)
      requires windows != map[]
      ensures k in windows && forall u :: u in windows ==> windows[k].lastTouch <= windows[u].lastTouch
    {
      k :| k in windows;
      var rest := windows.Keys - {k};
      while rest != {}
        invariant k in windows && rest <= windows.Keys
        invariant forall u :: u in windows && u !in rest ==> windows[k].lastTouch <= windows[u].lastTouch
        decreases |rest|
      {
        var u :| u in rest;
        if windows[u].lastTouch < windows[k].lastTouch {
          k := u;
        }
        rest := rest - {u};
      }
    }

    /** Drops the expired windows one by one, counting each. */
    method SweepExpired(now: real)
      modifies this`windows, this`evicted
      ensures windows == old(windows) - Expired(cfg, old(windows), now)
      ensures evicted == old(evicted) + |Expired(cfg, old(windows), now)|
    {
      var todo := Expired(cfg, windows, now);
      ghost var gone: set<Key> := {};
      while todo != {}
        invariant todo !! gone && todo + gone == Expired(cfg, old(windows), now)
        invariant windows == old(windows) - gone && evicted == old(evicted) + |gone|
        decreases |todo|
      {
        var k :| k in todo;
        windows := windows - {k};
        evicted := evicted + 1;
        todo, gone := todo - {k}, gone + {k};
      }
    }

    /** The `n` least recently touched windows go, each counted. */
    method DropLeastRecentlyTouched(n: nat) returns (ghost victims: set<Key>)
      requires n <= |windows|
      modifies this`windows, this`evicted
      ensures victims <= old(windows).Keys && |victims| == n
      ensures windows == old(windows) - victims && evicted == old(evicted) + n
      ensures forall v, u | v in victims && u in windows :: old(windows)[v].lastTouch <= old(windows)[u].lastTouch
    {
      victims := {};
      assert windows - {} == windows;
      for i := 0 to n
        invariant victims <= old(windows).Keys && |victims| == i && windows == old(windows) - victims
        invariant evicted == old(evicted) + i
        invariant forall v, u | v in victims && u in windows :: old(windows)[v].lastTouch <= old(windows)[u].lastTouch
      {
        RemovedSize(old(windows), victims);
        assert windows != map[];
        var k := LeastRecentlyTouched();
        windows := windows - {k};
        evicted := evicted + 1;
        victims := victims + {k};
      }
    }

    /** Makes room for one more window: expired ones first, then the least recently touched. */
    method EvictForNewWindow(now: real) returns (ghost victims: set<Key>)
      requires cfg.cap >= 1
      modifies this`windows, this`evicted
      ensures LruChoice(cfg, Swept(cfg, old(windows), now), victims)
      ensures windows == Swept(cfg, old(windows), now) - victims
      ensures evicted == old(evicted) + Dropped(old(windows), Swept(cfg, old(windows), now)) + |victims|
      ensures |old(windows)| < cfg.cap ==> windows == old(windows) && evicted == old(evicted)
      ensures |windows| < cfg.cap && evicted + |windows| == old(evicted) + |old(windows)|
      ensures |old(windows)| >= cfg.cap ==> forall k :: k in windows ==> now - windows[k].openedAt < cfg.window
      ensures forall v, u | v in old(windows) && v !in windows && u in windows ::
                || now - old(windows)[v].openedAt >= cfg.window
                || (old(windows)[v].lastTouch <= old(windows)[u].lastTouch && |windows| == cfg.cap - 1)
    {
      victims := {};
      if |windows| < cfg.cap {
        assert windows - {} == windows;
        return;
      }
      SweepExpired(now);
      RemovedSize(old(windows), Expired(cfg, old(windows), now));
      if |windows| < cfg.cap {
        assert windows - {} == windows;
        return;
      }
      victims := DropLeastRecentlyTouched(|windows| - cfg.cap + 1);
    }

    /** Counts a repeat into the row already on disk; false when that row is gone. */
    method Extend(k: Key, now: real) returns (found: bool)
      requires k in windows
      modifies this`windows, store
      ensures var w := old(windows)[k].(count := old(windows)[k].count + 1, lastTouch := now);
              && windows == old(windows)[k := w]
              && (found <==> w.row < |old(store.rows)| && !old(store.rows)[w.row].archived)
              && store.rows == if found then old(store.rows)[w.row := old(store.rows)[w.row].(count := w.count)]
                               else old(store.rows)
    {
      var w := windows[k];
      windows := windows[k := w.(count := w.count + 1, lastTouch := now)];
      found := store.UpdateAuditDetails(w.row, w.count + 1);
    }

    /** A new row with its markers, and the window on it. */
    method InsertWindow(k: Key, now: real, closed: Option<nat>)
      modifies this`windows, store
      ensures windows == old(windows)[k := Window(|old(store.rows)|, now, now, 1)]
      ensures store.rows == old(store.rows) + [Row(k, now, 1, closed, evicted, false)]
    {
      var id := store.RecordAudit(Row(k, now, 1, closed, evicted, false));
      windows := windows[k := Window(id, now, now, 1)];
    }

    /** Opens a window once there is room for it. */
    method OpenWindow(k: Key, now: real) returns (ghost victims: set<Key>)
      requires cfg.cap >= 1
      modifies this`windows, this`evicted, store
      ensures LruChoice(cfg, Swept(cfg, old(windows), now), victims)
      ensures Abstract().(clock := now) == OpenFrom(cfg, old(windows), old(evicted), old(store.rows), k, now, victims)
    {
      var closed := if k in windows then Some(windows[k].count) else None;
      victims := EvictForNewWindow(now);
      InsertWindow(k, now, closed);
    }

    /** A repeat inside its window is counted; a window whose row is gone is dropped. */
    method FoldIfOpen(k: Key, now: real) returns (folded: bool)
      modifies this`windows, store
      ensures folded <==> Folds(cfg, old(Abstract()), k, now)
      ensures folded ==> Abstract().(clock := now) == Fold(old(Abstract()), k, now)
      ensures !folded ==> windows == Candidates(cfg, old(Abstract()), k, now) && store.rows == old(store.rows)
    {
      if k in windows && now - windows[k].openedAt < cfg.window {
        folded := Extend(k, now);
        if !folded {
          windows := windows - {k};
          assert windows == old(windows) - {k};
        }
      } else {
        folded := false;
      }
    }

    /** The enabled path. */
    method Coalesce(k: Key, now: real) returns (written: bool, ghost victims: set<Key>)
      requires cfg.cap >= 1
      modifies this`windows, this`evicted, store
      ensures written <==> !Folds(cfg, old(Abstract()), k, now)
      ensures !written ==> victims == {} && Abstract().(clock := now) == Fold(old(Abstract()), k, now)
      ensures written ==> LruChoice(cfg, Swept(cfg, Candidates(cfg, old(Abstract()), k, now), now), victims)
      ensures written ==> Abstract().(clock := now) == Open(cfg, old(Abstract()), k, now, victims)
    {
      var folded := FoldIfOpen(k, now);
      if folded {
        return false, {};
      }
      victims := OpenWindow(k, now);
      written := true;
    }

    /**
     One denial, one atomic step: folded into its open window, or a new row.  The
     result says whether a new row was written.
     */
    method Record(k: Key, now: real) returns (written: bool, ghost victims: set<Key>)
      requires Valid() && clock <= now
      modifies this, store
      ensures Valid()
      ensures Enabled(cfg, old(Abstract()), Action.Record(k, now, victims))
      ensures Abstract() == Next(cfg, old(Abstract()), Action.Record(k, now, victims))
      ensures written <==> cfg.window <= 0.0 || !Folds(cfg, old(Abstract()), k, now)
      ensures !written <==>
              && k in old(windows) && now - old(windows)[k].openedAt < cfg.window
              && old(windows)[k].row < |old(store.rows)| && !old(store.rows)[old(windows)[k].row].archived
      ensures !written ==>
                var i, n := old(windows)[k].row, old(windows)[k].count;
                && store.rows == old(store.rows)[i := old(store.rows)[i].(count := n + 1)]
                && windows == old(windows)[k := old(windows)[k].(count := n + 1, lastTouch := now)]
                && evicted == old(evicted)
      ensures written ==>
                && AddsARow(old(store.rows), store.rows, k, now)
                && (cfg.window > 0.0 ==> k in windows && windows[k] == Window(|old(store.rows)|, now, now, 1))
                && (cfg.window <= 0.0 ==> store.rows == old(store.rows) + [Row(k, now, 1, None, 0, false)])
    {
      ghost var s := Abstract();
      if cfg.window <= 0.0 {
        var _ := store.RecordAudit(Row(k, now, 1, None, 0, false));
        written, victims := true, {};
      } else {
        written, victims := Coalesce(k, now);
      }
      clock := now;
      assert k in s.windows ==> WindowOk(s, k, s.windows[k]);
      assert Abstract() == Next(cfg, s, Action.Record(k, now, victims));
      RecordEffect(cfg, s, k, now, victims);
      StepKeeps(cfg, s, Action.Record(k, now, victims));
    }

    /** Shutdown drops the index and nothing else. */
    method Close()
      requires Valid()
      modifies this`windows
      ensures Valid() && Abstract() == Next(cfg, old(Abstract()), Action.Close)
      ensures windows == map[]
    {
      windows := map[];
    }
  }
}
