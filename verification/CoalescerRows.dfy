/** What one record does to the durable rows, said of the rows and the clock alone. */
module CoalescerRows {
  import opened Prelude
  import opened Coalescer

  /** The row a repeat at this time may be counted into. */
  ghost predicate CanTake(cfg: Config, rows: seq<Row>, i: nat, k: Key, now: real) {
    && i < |rows| && rows[i].key == k && !rows[i].archived && now - rows[i].openedAt < cfg.window
    && forall j :: i < j < |rows| ==> rows[j].key != k
  }

  lemma FoldsIntoItsRow(cfg: Config, s: State, k: Key, now: real)
    requires Inv(cfg, s) && Folds(cfg, s, k, now)
    ensures CanTake(cfg, s.rows, s.windows[k].row, k, now) && s.windows[k].count == s.rows[s.windows[k].row].count
  {
    assert WindowOk(s, k, s.windows[k]);
  }

  lemma TakesIffFolds(cfg: Config, s: State, k: Key, now: real)
    requires Inv(cfg, s)
    ensures Folds(cfg, s, k, now) <==> k in s.windows && exists i :: CanTake(cfg, s.rows, i, k, now)
  {
    if k in s.windows {
      assert WindowOk(s, k, s.windows[k]);
      if i :| CanTake(cfg, s.rows, i, k, now) {
        assert i == s.windows[k].row;
      }
      if Folds(cfg, s, k, now) {
        FoldsIntoItsRow(cfg, s, k, now);
      }
    }
  }

  /** The row is the only change, and it counts the one denial recorded now. */
  ghost predicate AddsARow(rows: seq<Row>, after: seq<Row>, k: Key, now: real) {
    && |after| == |rows| + 1 && after[..|rows|] == rows
    && after[|rows|].key == k && after[|rows|].openedAt == now && after[|rows|].count == 1 && !after[|rows|].archived
  }

  lemma RecordEffect(cfg: Config, s: State, k: Key, now: real, victims: set<Key>)
    requires Inv(cfg, s) && Enabled(cfg, s, Record(k, now, victims))
    ensures var t := Next(cfg, s, Record(k, now, victims));
            if Folds(cfg, s, k, now) then
              var i := s.windows[k].row;
              CanTake(cfg, s.rows, i, k, now) && t.rows == s.rows[i := s.rows[i].(count := s.rows[i].count + 1)]
            else AddsARow(s.rows, t.rows, k, now)
  {
    if Folds(cfg, s, k, now) {
      FoldsIntoItsRow(cfg, s, k, now);
    }
  }

  /**
   Over every run: a record whose key has no row opened less than a window ago writes
   a row of its own, counting one, and changes no other.
   */
  lemma LapsedRecordOpensARow(cfg: Config, actions: seq<Action>, k: Key, now: real, victims: set<Key>)
    requires cfg.cap >= 1 && Runs(cfg, actions) && Enabled(cfg, End(cfg, actions), Record(k, now, victims))
    requires forall i :: 0 <= i < |End(cfg, actions).rows| && End(cfg, actions).rows[i].key == k ==>
               now - End(cfg, actions).rows[i].openedAt >= cfg.window
    ensures AddsARow(End(cfg, actions).rows, Next(cfg, End(cfg, actions), Record(k, now, victims)).rows, k, now)
  {
    IndexAgreesWithRows(cfg, actions);
    RecordEffect(cfg, End(cfg, actions), k, now, victims);
  }

  /**
   Conversely, over every run: whatever step changes the count of a row is a record of
   its key less than a window after the row was opened; the row is the newest of its
   key and not archived, its count goes up by one, and nothing else changes.
   */
  lemma OnlyOpenRowsAreCountedInto(cfg: Config, actions: seq<Action>, a: Action, i: nat)
    requires cfg.cap >= 1 && Runs(cfg, actions) && Enabled(cfg, End(cfg, actions), a)
    requires i < |End(cfg, actions).rows|
    requires i < |Next(cfg, End(cfg, actions), a).rows| ==>
               Next(cfg, End(cfg, actions), a).rows[i].count != End(cfg, actions).rows[i].count
    ensures var rows := End(cfg, actions).rows;
            && a.Record? && a.key == rows[i].key && a.now - rows[i].openedAt < cfg.window && !rows[i].archived
            && (forall j :: i < j < |rows| ==> rows[j].key != rows[i].key)
            && Next(cfg, End(cfg, actions), a).rows == rows[i := rows[i].(count := rows[i].count + 1)]
  {
    var s := End(cfg, actions);
    IndexAgreesWithRows(cfg, actions);
    if a.Record? {
      RecordEffect(cfg, s, a.key, a.now, a.victims);
    }
  }

  lemma HasItsWindow(cfg: Config, actions: seq<Action>, k: Key, i: nat)
    requires cfg.cap >= 1 && cfg.window > 0.0 && Runs(cfg, actions) && i < |End(cfg, actions).rows|
    requires End(cfg, actions).rows[i].key == k && End(cfg, actions).evicted == 0 && !DroppedSince(actions, k)
    ensures k in End(cfg, actions).windows
  {
    MissingWindowIff(cfg, actions, k);
  }

  /**
   Exactly when a record is counted into a row that is already there: some row of the
   key can take it and the index still has its window.  Unless the index was dropped
   since the key was last recorded or has shed something in this process, the second
   half is a matter of course.
   */
  lemma RecordIsCountedIff(cfg: Config, actions: seq<Action>, k: Key, now: real, victims: set<Key>)
    requires cfg.cap >= 1 && Runs(cfg, actions) && Enabled(cfg, End(cfg, actions), Record(k, now, victims))
    ensures var s := End(cfg, actions);
            var counted := |Next(cfg, s, Record(k, now, victims)).rows| == |s.rows|;
            && (counted <==> k in s.windows && exists i :: CanTake(cfg, s.rows, i, k, now))
            && (s.evicted == 0 && cfg.window > 0.0 && !DroppedSince(actions, k) ==>
                  (counted <==> exists i :: CanTake(cfg, s.rows, i, k, now)))
  {
    var s := End(cfg, actions);
    IndexAgreesWithRows(cfg, actions);
    RecordEffect(cfg, s, k, now, victims);
    TakesIffFolds(cfg, s, k, now);
    if s.evicted == 0 && cfg.window > 0.0 && !DroppedSince(actions, k) {
      forall i: nat | CanTake(cfg, s.rows, i, k, now)
        ensures k in s.windows
      {
        HasItsWindow(cfg, actions, k, i);
      }
    }
  }

  // --- The markers and the tally of evictions --------------------------------------------------

  /** The key's own window has lapsed. */
  ghost predicate OwnLapsed(cfg: Config, s: State, k: Key, now: real) {
    k in s.windows && now - s.windows[k].openedAt >= cfg.window
  }

  lemma KeysLost(before: map<Key, Window>, kept: map<Key, Window>)
    requires kept.Keys <= before.Keys
    ensures |before| - |kept| == |before.Keys - kept.Keys|
  {
    assert |before.Keys| == |kept.Keys| + |before.Keys - kept.Keys|;
  }

  lemma ShedKeys(cfg: Config, s: State, k: Key, now: real, victims: set<Key>)
    requires cfg.cap >= 1 && |s.windows| <= cfg.cap && !Folds(cfg, s, k, now)
    requires LruChoice(cfg, Swept(cfg, Candidates(cfg, s, k, now), now), victims)
    ensures var before := Candidates(cfg, s, k, now);
            var kept := Swept(cfg, before, now) - victims;
            && kept.Keys <= before.Keys
            && Open(cfg, s, k, now, victims).evicted == s.evicted + |before.Keys - kept.Keys|
            && k !in victims
            && (k in before && k !in kept <==> OwnLapsed(cfg, s, k, now) && |s.windows| >= cfg.cap)
  {
    var before := Candidates(cfg, s, k, now);
    var swept := Swept(cfg, before, now);
    KeysLost(before, swept);
    RemovedSize(swept, if |swept| < cfg.cap then {} else victims);
    KeysLost(swept, swept - victims);
    KeysLost(before, swept - victims);
    MapSizes(s.windows, k, Window(0, now, now, 1));
    if k in victims {
      VictimFacts(cfg, s, k, now, victims, k);
    }
  }

  /** What was shed, with the key itself told apart. */
  lemma OthersShed(all: set<Key>, before: set<Key>, kept: set<Key>, k: Key, own: bool)
    requires kept <= before && (before == all || before == all - {k})
    requires k in before && k !in kept <==> own
    ensures |before - kept| == |all - (kept + {k})| + if own then 1 else 0
  {
    var others := all - (kept + {k});
    if own {
      assert before - kept == others + {k};
    } else {
      assert before - kept == others;
    }
  }

  lemma AddedKey(m: map<Key, Window>, k: Key, w: Window)
    ensures m[k := w].Keys == m.Keys + {k}
  {
  }

  lemma OpenKeys(cfg: Config, s: State, k: Key, now: real, victims: set<Key>)
    ensures Open(cfg, s, k, now, victims).windows.Keys ==
            (Swept(cfg, Candidates(cfg, s, k, now), now) - victims).Keys + {k}
  {
    AddedKey(Swept(cfg, Candidates(cfg, s, k, now), now) - victims, k, Window(|s.rows|, now, now, 1));
  }

  lemma CandidateKeys(cfg: Config, s: State, k: Key, now: real)
    ensures Candidates(cfg, s, k, now).Keys == s.windows.Keys || Candidates(cfg, s, k, now).Keys == s.windows.Keys - {k}
  {
    assert (s.windows - {k}).Keys == s.windows.Keys - {k};
  }

  lemma ShedWindows(cfg: Config, s: State, k: Key, now: real, victims: set<Key>)
    requires cfg.cap >= 1 && |s.windows| <= cfg.cap && !Folds(cfg, s, k, now)
    requires LruChoice(cfg, Swept(cfg, Candidates(cfg, s, k, now), now), victims)
    ensures var t := Open(cfg, s, k, now, victims);
            t.evicted == s.evicted + |s.windows.Keys - t.windows.Keys| +
                         (if OwnLapsed(cfg, s, k, now) && |s.windows| >= cfg.cap then 1 else 0)
  {
    ShedKeys(cfg, s, k, now, victims);
    OpenKeys(cfg, s, k, now, victims);
    CandidateKeys(cfg, s, k, now);
    var before := Candidates(cfg, s, k, now);
    var kept := Swept(cfg, before, now) - victims;
    OthersShed(s.windows.Keys, before.Keys, kept.Keys, k, OwnLapsed(cfg, s, k, now) && |s.windows| >= cfg.cap);
  }

  /** What the new row says of the one before it: its count, if the key's own window was there and had lapsed. */
  ghost predicate TellsItsPrevious(cfg: Config, s: State, k: Key, now: real, row: Row) {
    if OwnLapsed(cfg, s, k, now)
    then s.windows[k].row < |s.rows| && s.rows[s.windows[k].row].key == k &&
         row.previous == Some(s.rows[s.windows[k].row].count)
    else row.previous == None
  }

  lemma OpenedRow(cfg: Config, s: State, k: Key, now: real, victims: set<Key>)
    requires Inv(cfg, s) && cfg.window > 0.0
    requires LruChoice(cfg, Swept(cfg, Candidates(cfg, s, k, now), now), victims)
    ensures var t := Open(cfg, s, k, now, victims);
            && |t.rows| == |s.rows| + 1 && t.rows[|s.rows|].evictions == t.evicted
            && TellsItsPrevious(cfg, s, k, now, t.rows[|s.rows|])
  {
    if k in s.windows {
      assert WindowOk(s, k, s.windows[k]);
    }
  }

  /**
   A new row says how many windows this process has shed so far, each counted once:
   those of other keys that are gone now, and its own if it had lapsed and the index
   was full; and it says how often the row before it was counted if its own window
   was still in the index, lapsed.
   */
  lemma OpenedRowIsMarked(cfg: Config, actions: seq<Action>, k: Key, now: real, victims: set<Key>)
    requires cfg.cap >= 1 && cfg.window > 0.0 && Runs(cfg, actions)
    requires Enabled(cfg, End(cfg, actions), Record(k, now, victims))
    requires |Next(cfg, End(cfg, actions), Record(k, now, victims)).rows| > |End(cfg, actions).rows|
    ensures var s := End(cfg, actions);
            var t := Next(cfg, s, Record(k, now, victims));
            && t.rows[|s.rows|].evictions == t.evicted
            && t.evicted == s.evicted + |s.windows.Keys - t.windows.Keys| +
                            (if OwnLapsed(cfg, s, k, now) && |s.windows| >= cfg.cap then 1 else 0)
            && TellsItsPrevious(cfg, s, k, now, t.rows[|s.rows|])
  {
    var s := End(cfg, actions);
    IndexAgreesWithRows(cfg, actions);
    RecordEffect(cfg, s, k, now, victims);
    ShedWindows(cfg, s, k, now, victims);
    OpenedRow(cfg, s, k, now, victims);
  }
}
