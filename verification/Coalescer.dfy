/**
 The denial coalescer: a capped index of open windows over durable audit rows.

 Recording one denial is one atomic step with one clock reading.  Operators may
 archive rows behind the coalescer's back, shutdown drops the index, and a new
 process starts with no index and no evictions on the rows of the old one.
 */
module Coalescer {
  import opened Prelude

  /** Event type, reason code, account and order, already reduced to one key. */
  type Key = nat

  datatype Config = Config(window: real, cap: nat)

  datatype Window = Window(row: nat, openedAt: real, lastTouch: real, count: nat)

  /** `previous` and `evictions` are the two markers; no evictions means no marker. */
  datatype Row = Row(key: Key, openedAt: real, count: nat, previous: Option<nat>, evictions: nat, archived: bool)

  datatype State = State(windows: map<Key, Window>, evicted: nat, rows: seq<Row>, clock: real)

  /** `victims` are the windows the least-recently-touched rule picks, ties broken any way. */
  datatype Action =
    | Record(key: Key, now: real, victims: set<Key>)
    | Archive(row: nat)
    | Close
    | Restart

  predicate Records(a: Action, k: Key) { a.Record? && a.key == k }

  predicate WindowOpen(cfg: Config, w: Window, now: real) {
    now - w.openedAt < cfg.window
  }

  function Expired(cfg: Config, windows: map<Key, Window>, now: real): (keys: set<Key>) {
    set k | k in windows && !WindowOpen(cfg, windows[k], now)
  }

  /** The repeat finds its window open and its row still in the table. */
  predicate Folds(cfg: Config, s: State, k: Key, now: real) {
    && k in s.windows && WindowOpen(cfg, s.windows[k], now)
    && s.windows[k].row < |s.rows| && !s.rows[s.windows[k].row].archived
  }

  /** An open window whose row is gone is dropped before a new one is made. */
  function Candidates(cfg: Config, s: State, k: Key, now: real): (kept: map<Key, Window>) {
    if k in s.windows && WindowOpen(cfg, s.windows[k], now) then s.windows - {k} else s.windows
  }

  /** Expired windows go first, and only when the index is full. */
  function Swept(cfg: Config, windows: map<Key, Window>, now: real): (kept: map<Key, Window>) {
    if |windows| < cfg.cap then windows else windows - Expired(cfg, windows, now)
  }

  /** The least recently touched windows, just enough of them to admit one more. */
  predicate LruChoice(cfg: Config, windows: map<Key, Window>, victims: set<Key>) {
    if |windows| < cfg.cap then victims == {}
    else
      && victims <= windows.Keys && |victims| == |windows| - cfg.cap + 1
      && forall v, u | v in victims && u in windows && u !in victims
           :: windows[v].lastTouch <= windows[u].lastTouch
  }

  predicate Enabled(cfg: Config, s: State, a: Action) {
    match a
    case Record(k, now, victims) =>
      && s.clock <= now
      && if cfg.window <= 0.0 || Folds(cfg, s, k, now) then victims == {}
         else LruChoice(cfg, Swept(cfg, Candidates(cfg, s, k, now), now), victims)
    case Archive(i) => i < |s.rows|
    case Close => true
    case Restart => true
  }

  function Fold(s: State, k: Key, now: real): (t: State)
    requires k in s.windows && s.windows[k].row < |s.rows|
  {
    var w := s.windows[k];
    State(s.windows[k := w.(count := w.count + 1, lastTouch := now)], s.evicted,
          s.rows[w.row := s.rows[w.row].(count := w.count + 1)], now)
  }

  /** How many windows a sweep took out. */
  function Dropped(before: map<Key, Window>, swept: map<Key, Window>): (count: nat) {
    if |before| >= |swept| then |before| - |swept| else 0
  }

  /** A new row and its window, once the windows in `before` have made room. */
  function OpenFrom(cfg: Config, before: map<Key, Window>, evicted: nat, rows: seq<Row>, k: Key, now: real,
                    victims: set<Key>): (t: State)
  {
    var swept := Swept(cfg, before, now);
    var total := evicted + Dropped(before, swept) + |victims|;
    var closed := if k in before then Some(before[k].count) else None;
    State((swept - victims)[k := Window(|rows|, now, now, 1)], total,
          rows + [Row(k, now, 1, closed, total, false)], now)
  }

  function Open(cfg: Config, s: State, k: Key, now: real, victims: set<Key>): (t: State) {
    OpenFrom(cfg, Candidates(cfg, s, k, now), s.evicted, s.rows, k, now, victims)
  }

  function Next(cfg: Config, s: State, a: Action): (t: State)
    requires Enabled(cfg, s, a)
  {
    match a
    case Record(k, now, victims) =>
      if cfg.window <= 0.0 then s.(rows := s.rows + [Row(k, now, 1, None, 0, false)], clock := now)
      else if Folds(cfg, s, k, now) then Fold(s, k, now)
      else Open(cfg, s, k, now, victims)
    case Archive(i) => s.(rows := s.rows[i := s.rows[i].(archived := true)])
    case Close => s.(windows := map[])
    case Restart => s.(windows := map[], evicted := 0)
  }

  const Init := State(map[], 0, [], 0.0)

  predicate Runs(cfg: Config, actions: seq<Action>)
    decreases |actions|, 0
  {
    actions == [] ||
    (Runs(cfg, actions[..|actions| - 1]) &&
     Enabled(cfg, End(cfg, actions[..|actions| - 1]), actions[|actions| - 1]))
  }

  function End(cfg: Config, actions: seq<Action>): (t: State)
    requires Runs(cfg, actions)
    decreases |actions|, 1
  {
    if actions == [] then Init
    else Next(cfg, End(cfg, actions[..|actions| - 1]), actions[|actions| - 1])
  }

  // --- The invariant -----------------------------------------------------------------

  /** A window agrees with its row, which is the last row of its key. */
  ghost predicate WindowOk(s: State, k: Key, w: Window) {
    && w.row < |s.rows| && s.rows[w.row].key == k && s.rows[w.row].count == w.count
    && s.rows[w.row].openedAt == w.openedAt && w.openedAt <= w.lastTouch <= s.clock
    && forall i :: w.row < i < |s.rows| ==> s.rows[i].key != k
  }

  /** Rows stand in the order they were opened, none later than `now`. */
  ghost predicate RowsInOrder(rows: seq<Row>, now: real) {
    && (forall i :: 0 <= i < |rows| ==> rows[i].openedAt <= now)
    && (forall i, j :: 0 <= i < j < |rows| ==> rows[i].openedAt <= rows[j].openedAt)
  }

  ghost predicate Inv(cfg: Config, s: State) {
    && |s.windows| <= cfg.cap
    && (forall k {:trigger WindowOk(s, k, s.windows[k])} :: k in s.windows ==> WindowOk(s, k, s.windows[k]))
    && RowsInOrder(s.rows, s.clock)
    && (cfg.window <= 0.0 ==> s.windows == map[])
  }

  lemma RemovedSize<V>(m: map<Key, V>, gone: set<Key>)
    requires gone <= m.Keys
    ensures |m - gone| == |m| - |gone|
  {
    assert (m - gone).Keys == m.Keys - gone;
    assert |m.Keys| == |m.Keys - gone| + |gone|;
  }

  lemma MapSizes<V>(m: map<Key, V>, k: Key, v: V)
    ensures |m[k := v]| <= |m| + 1 && |m - {k}| <= |m|
  {
    assert m[k := v].Keys == m.Keys + {k};
    assert (m - {k}).Keys == m.Keys - {k};
  }

  lemma OpenFits(cfg: Config, s: State, k: Key, now: real, victims: set<Key>)
    requires cfg.cap >= 1 && |s.windows| <= cfg.cap
    requires LruChoice(cfg, Swept(cfg, Candidates(cfg, s, k, now), now), victims)
    ensures |Open(cfg, s, k, now, victims).windows| <= cfg.cap
  {
    var before := Candidates(cfg, s, k, now);
    var swept := Swept(cfg, before, now);
    if |swept| >= cfg.cap {
      RemovedSize(swept, victims);
    } else {
      assert swept - {} == swept;
    }
    MapSizes(swept - victims, k, Window(|s.rows|, now, now, 1));
  }

  lemma OpenKeepsWindow(cfg: Config, s: State, k: Key, now: real, victims: set<Key>, j: Key)
    requires Inv(cfg, s) && s.clock <= now && j in Open(cfg, s, k, now, victims).windows
    ensures var t := Open(cfg, s, k, now, victims); WindowOk(t, j, t.windows[j])
  {
    assert j != k ==> WindowOk(s, j, s.windows[j]);
  }

  lemma OpenKeeps(cfg: Config, s: State, k: Key, now: real, victims: set<Key>)
    requires cfg.cap >= 1 && Inv(cfg, s) && s.clock <= now && cfg.window > 0.0
    requires LruChoice(cfg, Swept(cfg, Candidates(cfg, s, k, now), now), victims)
    ensures Inv(cfg, Open(cfg, s, k, now, victims))
  {
    OpenFits(cfg, s, k, now, victims);
    var t := Open(cfg, s, k, now, victims);
    forall j | j in t.windows
      ensures WindowOk(t, j, t.windows[j])
    {
      OpenKeepsWindow(cfg, s, k, now, victims, j);
    }
  }

  lemma FoldKeeps(cfg: Config, s: State, k: Key, now: real)
    requires Inv(cfg, s) && s.clock <= now && Folds(cfg, s, k, now)
    ensures Inv(cfg, Fold(s, k, now))
  {
    var t := Fold(s, k, now);
    assert t.windows.Keys == s.windows.Keys;
    assert WindowOk(s, k, s.windows[k]);
    forall j | j in t.windows
      ensures WindowOk(t, j, t.windows[j])
    {
      assert WindowOk(s, j, s.windows[j]);
    }
  }

  lemma StepKeeps(cfg: Config, s: State, a: Action)
    requires cfg.cap >= 1 && Inv(cfg, s) && Enabled(cfg, s, a)
    ensures Inv(cfg, Next(cfg, s, a))
  {
    match a
    case Record(k, now, victims) =>
      if cfg.window > 0.0 {
        if Folds(cfg, s, k, now) {
          FoldKeeps(cfg, s, k, now);
        } else {
          OpenKeeps(cfg, s, k, now, victims);
        }
      }
    case Archive(i) =>
      var t := Next(cfg, s, a);
      forall j | j in t.windows
        ensures WindowOk(t, j, t.windows[j])
      {
        assert WindowOk(s, j, s.windows[j]);
      }
    case _ =>
  }

  /** Over every run: the index is capped and every open window agrees with its row. */
  lemma {:induction false} IndexAgreesWithRows(cfg: Config, actions: seq<Action>)
    requires cfg.cap >= 1 && Runs(cfg, actions)
    ensures Inv(cfg, End(cfg, actions))
    decreases |actions|
  {
    if actions != [] {
      IndexAgreesWithRows(cfg, actions[..|actions| - 1]);
      StepKeeps(cfg, End(cfg, actions[..|actions| - 1]), actions[|actions| - 1]);
    }
  }

  // --- Count conservation ---------------------------------------------------------------

  function Tally(rows: seq<Row>, k: Key): (total: nat) {
    if rows == [] then 0
    else Tally(rows[..|rows| - 1], k) + if rows[|rows| - 1].key == k then rows[|rows| - 1].count else 0
  }

  function Denials(actions: seq<Action>, k: Key): (count: nat) {
    if actions == [] then 0
    else
      var last := actions[|actions| - 1];
      Denials(actions[..|actions| - 1], k) + if Records(last, k) then 1 else 0
  }

  lemma {:induction false} TallyUpdate(rows: seq<Row>, i: nat, row: Row, k: Key)
    requires i < |rows| && row.key == rows[i].key
    ensures Tally(rows[i := row], k) == Tally(rows, k) + if row.key == k then row.count - rows[i].count else 0
  {
    var n := |rows| - 1;
    if i == n {
      assert rows[i := row][..n] == rows[..n];
    } else {
      assert rows[i := row][..n] == rows[..n][i := row];
      TallyUpdate(rows[..n], i, row, k);
    }
  }

  lemma StepTally(cfg: Config, s: State, a: Action, k: Key)
    requires Inv(cfg, s) && Enabled(cfg, s, a)
    ensures Tally(Next(cfg, s, a).rows, k) == Tally(s.rows, k) + if Records(a, k) then 1 else 0
  {
    var t := Next(cfg, s, a);
    match a
    case Record(j, now, _) =>
      if cfg.window > 0.0 && Folds(cfg, s, j, now) {
        assert WindowOk(s, j, s.windows[j]);
        var i := s.windows[j].row;
        TallyUpdate(s.rows, i, s.rows[i].(count := s.windows[j].count + 1), k);
      } else {
        assert t.rows[..|s.rows|] == s.rows;
      }
    case Archive(i) => TallyUpdate(s.rows, i, s.rows[i].(archived := true), k);
    case _ =>
  }

  /** No denial is lost: the rows of a key add up to the denials recorded for it. */
  lemma {:induction false} CountsAreConserved(cfg: Config, actions: seq<Action>, k: Key)
    requires cfg.cap >= 1 && Runs(cfg, actions)
    ensures Tally(End(cfg, actions).rows, k) == Denials(actions, k)
    decreases |actions|
  {
    if actions != [] {
      var earlier := actions[..|actions| - 1];
      CountsAreConserved(cfg, earlier, k);
      IndexAgreesWithRows(cfg, earlier);
      StepTally(cfg, End(cfg, earlier), actions[|actions| - 1], k);
    }
  }

  // --- Least recently used ------------------------------------------------------------

  /** When a key was last recorded. */
  function LastSeen(actions: seq<Action>, k: Key): (time: Option<real>) {
    if actions == [] then None
    else
      var last := actions[|actions| - 1];
      if Records(last, k) then Some(last.now) else LastSeen(actions[..|actions| - 1], k)
  }

  lemma StepTouches(cfg: Config, s: State, a: Action, k: Key)
    requires cfg.window > 0.0 && Enabled(cfg, s, a) && k in Next(cfg, s, a).windows
    ensures if Records(a, k) then Next(cfg, s, a).windows[k].lastTouch == a.now
            else k in s.windows && Next(cfg, s, a).windows[k] == s.windows[k]
  {
  }

  /** The touch a window carries is the last record of its key. */
  lemma {:induction false} TouchIsLastSeen(cfg: Config, actions: seq<Action>, k: Key)
    requires Runs(cfg, actions) && k in End(cfg, actions).windows && cfg.window > 0.0
    ensures LastSeen(actions, k) == Some(End(cfg, actions).windows[k].lastTouch)
    decreases |actions|
  {
    assert actions != [];
    var earlier, a := actions[..|actions| - 1], actions[|actions| - 1];
    StepTouches(cfg, End(cfg, earlier), a, k);
    if !Records(a, k) {
      TouchIsLastSeen(cfg, earlier, k);
    }
  }

  /** The keys recorded at or after a given moment, among those the index still holds. */
  ghost predicate SeenSince(actions: seq<Action>, keys: set<Key>, t: real) {
    forall k :: k in keys ==> LastSeen(actions, k).Some? && LastSeen(actions, k).value >= t
  }

  lemma SurvivorsSize(windows: map<Key, Window>, victims: set<Key>, k: Key)
    requires victims <= windows.Keys && k !in windows
    ensures |windows.Keys - victims + {k}| == |windows| - |victims| + 1
  {
    assert |windows.Keys| == |windows.Keys - victims| + |victims|;
  }

  /** Who shares a full index with the victim, once the expired windows are gone. */
  function Survivors(cfg: Config, s: State, k: Key, now: real, v: Key): (keys: set<Key>) {
    Swept(cfg, Candidates(cfg, s, k, now), now).Keys - {v}
  }

  lemma VictimFacts(cfg: Config, s: State, k: Key, now: real, victims: set<Key>, v: Key)
    requires cfg.cap >= 1 && |s.windows| <= cfg.cap && v in victims
    requires LruChoice(cfg, Swept(cfg, Candidates(cfg, s, k, now), now), victims)
    ensures v in s.windows && WindowOpen(cfg, s.windows[v], now) && v != k && victims == {v}
    ensures |Survivors(cfg, s, k, now, v) + {k}| >= cfg.cap
    ensures forall u :: u in Survivors(cfg, s, k, now, v) ==>
              u in s.windows && u != k && s.windows[v].lastTouch <= s.windows[u].lastTouch
  {
    var before := Candidates(cfg, s, k, now);
    var swept := Swept(cfg, before, now);
    MapSizes(s.windows, k, Window(0, now, now, 1));
    RemovedSize(before, Expired(cfg, before, now));
    SingleVictim(victims, v);
    SurvivorsSize(swept, victims, k);
  }

  lemma SurvivorsAreFresh(cfg: Config, actions: seq<Action>, k: Key, now: real, victims: set<Key>, v: Key)
    requires cfg.cap >= 1 && cfg.window > 0.0 && v in victims
    requires Runs(cfg, actions) && Enabled(cfg, End(cfg, actions), Record(k, now, victims))
    requires Inv(cfg, End(cfg, actions)) && !Folds(cfg, End(cfg, actions), k, now)
    ensures v in End(cfg, actions).windows
    ensures SeenSince(actions + [Record(k, now, victims)], Survivors(cfg, End(cfg, actions), k, now, v) + {k},
                      End(cfg, actions).windows[v].lastTouch)
  {
    var s := End(cfg, actions);
    VictimFacts(cfg, s, k, now, victims, v);
    assert WindowOk(s, v, s.windows[v]);
    var more := actions + [Record(k, now, victims)];
    assert more[..|more| - 1] == actions;
    forall u | u in Survivors(cfg, s, k, now, v)
      ensures LastSeen(more, u) == Some(s.windows[u].lastTouch) && s.windows[u].lastTouch >= s.windows[v].lastTouch
    {
      TouchIsLastSeen(cfg, actions, u);
    }
  }

  /**
   An unexpired window gives way only to a full index: at least as many other
   distinct keys as the cap have been recorded at or after its own last record.
   An expired window is never the victim, and at most one window is displaced.
   */
  lemma DisplacedOnlyByFresherKeys(cfg: Config, actions: seq<Action>, k: Key, now: real, victims: set<Key>, v: Key)
    requires cfg.cap >= 1 && cfg.window > 0.0 && v in victims
    requires Runs(cfg, actions) && Enabled(cfg, End(cfg, actions), Record(k, now, victims))
    ensures v in End(cfg, actions).windows && WindowOpen(cfg, End(cfg, actions).windows[v], now)
    ensures LastSeen(actions, v).Some? && victims == {v}
    ensures exists others: set<Key> ::
              |others| >= cfg.cap && v !in others &&
              SeenSince(actions + [Record(k, now, victims)], others, LastSeen(actions, v).value)
  {
    var s := End(cfg, actions);
    IndexAgreesWithRows(cfg, actions);
    VictimFacts(cfg, s, k, now, victims, v);
    TouchIsLastSeen(cfg, actions, v);
    SurvivorsAreFresh(cfg, actions, k, now, victims, v);
    var others := Survivors(cfg, s, k, now, v) + {k};
    assert v !in others;
  }

  lemma SingleVictim(victims: set<Key>, v: Key)
    requires v in victims && |victims| <= 1
    ensures victims == {v}
  {
    assert |victims - {v}| == |victims| - 1;
  }

  // --- The markers ------------------------------------------------------------------------

  /** Row `i` is the newest of its key. */
  ghost predicate Newest(rows: seq<Row>, i: nat)
    requires i < |rows|
  {
    forall j :: i < j < |rows| ==> rows[j].key != rows[i].key
  }

  /** Row `j` is the one of its key just before row `i`. */
  ghost predicate Precedes(rows: seq<Row>, j: int, i: int) {
    && 0 <= j < i < |rows| && rows[j].key == rows[i].key
    && forall l :: j < l < i ==> rows[l].key != rows[i].key
  }

  ghost predicate HasWindow(s: State, i: nat)
    requires i < |s.rows|
  {
    s.rows[i].key in s.windows && s.windows[s.rows[i].key].row == i
  }

  predicate Unmarked(row: Row) { row.previous.None? && row.evictions == 0 }

  predicate Seen(rows: seq<Row>, k: Key) { exists i :: 0 <= i < |rows| && rows[i].key == k }

  /** The newest row of the key was archived while its window was still open. */
  ghost predicate ArchivedUnderWindow(cfg: Config, rows: seq<Row>, k: Key, now: real) {
    exists j | 0 <= j < |rows| :: Newest(rows, j) && rows[j].key == k && rows[j].archived &&
                                  now - rows[j].openedAt < cfg.window
  }

  /** Why a new row carries no marker: its key's window is missing, or was given up with its row. */
  lemma UnmarkedOpening(cfg: Config, s: State, k: Key, now: real, victims: set<Key>)
    requires Inv(cfg, s) && !Folds(cfg, s, k, now)
    ensures Unmarked(Open(cfg, s, k, now, victims).rows[|s.rows|]) <==>
            Open(cfg, s, k, now, victims).evicted == 0 &&
            (k !in s.windows || ArchivedUnderWindow(cfg, s.rows, k, now))
  {
    if k in s.windows {
      assert WindowOk(s, k, s.windows[k]);
      assert Newest(s.rows, s.windows[k].row);
    }
  }

  // --- When a window is missing -------------------------------------------------------------

  predicate Drops(a: Action) { a.Close? || a.Restart? }

  /** The index was dropped after the key was last recorded, if it ever was. */
  predicate DroppedSince(actions: seq<Action>, k: Key) {
    if actions == [] then false
    else
      var last := actions[|actions| - 1];
      Drops(last) || (!Records(last, k) && DroppedSince(actions[..|actions| - 1], k))
  }

  lemma StepKeepsSeen(cfg: Config, s: State, a: Action, k: Key)
    requires Inv(cfg, s) && Enabled(cfg, s, a)
    ensures Seen(Next(cfg, s, a).rows, k) <==> Seen(s.rows, k) || Records(a, k)
  {
    var t := Next(cfg, s, a);
    if a.Record? && cfg.window > 0.0 && Folds(cfg, s, a.key, a.now) {
      assert WindowOk(s, a.key, s.windows[a.key]);
      assert s.rows[s.windows[a.key].row].key == a.key;
    } else if a.Record? {
      assert t.rows[|s.rows|].key == a.key;
    }
    assert forall i :: 0 <= i < |s.rows| ==> t.rows[i].key == s.rows[i].key;
  }

  /** Without evictions a record makes its own window and takes no other. */
  lemma RecordKeepsWindows(cfg: Config, s: State, j: Key, now: real, victims: set<Key>, k: Key)
    requires cfg.window > 0.0 && Enabled(cfg, s, Record(j, now, victims))
    requires Next(cfg, s, Record(j, now, victims)).evicted == 0
    ensures s.evicted == 0
    ensures k in Next(cfg, s, Record(j, now, victims)).windows <==> k == j || k in s.windows
  {
    if !Folds(cfg, s, j, now) {
      var before := Candidates(cfg, s, j, now);
      var swept := Swept(cfg, before, now);
      NothingSwept(before, swept);
      assert victims == {};
    }
  }

  lemma NothingSwept(before: map<Key, Window>, swept: map<Key, Window>)
    requires swept.Keys <= before.Keys && Dropped(before, swept) == 0
    ensures swept.Keys == before.Keys
  {
    assert |before.Keys| == |swept.Keys| + |before.Keys - swept.Keys|;
  }

  /** As long as nothing was evicted, a seen key lacks its window exactly if the index was dropped since. */
  lemma {:induction false} MissingWindowIff(cfg: Config, actions: seq<Action>, k: Key)
    requires cfg.cap >= 1 && cfg.window > 0.0 && Runs(cfg, actions)
    requires End(cfg, actions).evicted == 0 && Seen(End(cfg, actions).rows, k)
    ensures k !in End(cfg, actions).windows <==> DroppedSince(actions, k)
    decreases |actions|
  {
    if actions != [] {
      var earlier, a := actions[..|actions| - 1], actions[|actions| - 1];
      var s := End(cfg, earlier);
      IndexAgreesWithRows(cfg, earlier);
      StepKeepsSeen(cfg, s, a, k);
      if a.Record? {
        RecordKeepsWindows(cfg, s, a.key, a.now, a.victims, k);
      }
      if !Drops(a) && !Records(a, k) {
        MissingWindowIff(cfg, earlier, k);
      }
    }
  }

  /**
   When a record opens a row, that row has neither marker although its key had rows
   before exactly if coalescing is off, or the index has shed nothing in this process
   and either was dropped since the key was last recorded or lost the newest row of
   the key to the archive with its window still open.
   */
  lemma UnmarkedRepeatIff(cfg: Config, actions: seq<Action>, k: Key, now: real, victims: set<Key>)
    requires cfg.cap >= 1 && Runs(cfg, actions)
    requires Enabled(cfg, End(cfg, actions), Record(k, now, victims)) && !Folds(cfg, End(cfg, actions), k, now)
    ensures var s := End(cfg, actions);
            var t := Next(cfg, s, Record(k, now, victims));
            |t.rows| == |s.rows| + 1 &&
            (Unmarked(t.rows[|s.rows|]) && Seen(s.rows, k) <==>
             Seen(s.rows, k) &&
             (cfg.window <= 0.0 ||
              (t.evicted == 0 && (DroppedSince(actions, k) || ArchivedUnderWindow(cfg, s.rows, k, now)))))
  {
    var s := End(cfg, actions);
    IndexAgreesWithRows(cfg, actions);
    if cfg.window > 0.0 {
      UnmarkedOpening(cfg, s, k, now, victims);
      if Seen(s.rows, k) && s.evicted == 0 {
        MissingWindowIff(cfg, actions, k);
      }
    }
  }

  // --- Over every run ---------------------------------------------------------------------

  /** A drop of the index came after row `j` had its last count and before row `i` was opened. */
  ghost predicate DroppedBetween(cfg: Config, actions: seq<Action>, n: nat, j: nat, i: nat)
    requires Runs(cfg, actions) && j < |End(cfg, actions).rows|
  {
    && n < |actions| && Drops(actions[n]) && Runs(cfg, actions[..n])
    && j < |End(cfg, actions[..n]).rows| <= i
    && End(cfg, actions[..n]).rows[j].count == End(cfg, actions).rows[j].count
  }

  /** Why row `i` has no marker although row `j` of its key came just before it. */
  ghost predicate Excused(cfg: Config, actions: seq<Action>, j: nat, i: nat)
    requires Runs(cfg, actions) && j < |End(cfg, actions).rows|
  {
    End(cfg, actions).rows[j].archived || exists n :: DroppedBetween(cfg, actions, n, j, i)
  }

  /** Rows are only added; of an existing row only the flag and, while it is the newest, the count change. */
  lemma StepKeepsRow(cfg: Config, s: State, a: Action, j: nat)
    requires Inv(cfg, s) && Enabled(cfg, s, a) && j < |s.rows|
    ensures var t := Next(cfg, s, a);
            && |s.rows| <= |t.rows| && t.rows[j].key == s.rows[j].key
            && t.rows[j].previous == s.rows[j].previous && t.rows[j].evictions == s.rows[j].evictions
            && (s.rows[j].archived ==> t.rows[j].archived)
            && (t.rows[j].count == s.rows[j].count ||
                (Records(a, s.rows[j].key) && Newest(s.rows, j)))
  {
    if a.Record? && cfg.window > 0.0 && Folds(cfg, s, a.key, a.now) {
      assert WindowOk(s, a.key, s.windows[a.key]);
    }
  }

  /** The order of the rows of a key is settled once they are there. */
  lemma StepKeepsOrder(cfg: Config, s: State, a: Action, j: int, i: nat)
    requires Inv(cfg, s) && Enabled(cfg, s, a) && i < |s.rows|
    ensures Precedes(Next(cfg, s, a).rows, j, i) <==> Precedes(s.rows, j, i)
  {
    forall l | 0 <= l < |s.rows|
      ensures Next(cfg, s, a).rows[l].key == s.rows[l].key
    {
      StepKeepsRow(cfg, s, a, l);
    }
    StepKeepsRow(cfg, s, a, i);
  }

  /** A drop stays one that came after the last count of row `j` until its key is recorded again. */
  lemma DropStands(cfg: Config, actions: seq<Action>, n: nat, j: nat)
    requires cfg.cap >= 1 && actions != [] && Runs(cfg, actions)
    requires j < |End(cfg, actions[..|actions| - 1]).rows|
    requires DroppedBetween(cfg, actions[..|actions| - 1], n, j, |End(cfg, actions[..|actions| - 1]).rows|)
    requires !Records(actions[|actions| - 1], End(cfg, actions[..|actions| - 1]).rows[j].key)
    ensures j < |End(cfg, actions).rows| && DroppedBetween(cfg, actions, n, j, |End(cfg, actions).rows|)
  {
    var earlier := actions[..|actions| - 1];
    IndexAgreesWithRows(cfg, earlier);
    StepKeepsRow(cfg, End(cfg, earlier), actions[|actions| - 1], j);
    assert actions[..n] == earlier[..n];
  }

  /** A row of another key than the one just recorded was there before. */
  lemma RowWasThere(cfg: Config, s: State, a: Action, j: nat)
    requires Inv(cfg, s) && Enabled(cfg, s, a) && j < |Next(cfg, s, a).rows|
    requires !Records(a, Next(cfg, s, a).rows[j].key)
    ensures j < |s.rows| && s.rows[j].key == Next(cfg, s, a).rows[j].key
  {
    if j < |s.rows| {
      StepKeepsRow(cfg, s, a, j);
    }
  }

  /** The drop that a key without a window owes its state to, and what it found of a row of that key. */
  lemma {:induction false} DropWitness(cfg: Config, actions: seq<Action>, k: Key, j: nat) returns (n: nat)
    requires cfg.cap >= 1 && Runs(cfg, actions) && DroppedSince(actions, k)
    requires j < |End(cfg, actions).rows| && End(cfg, actions).rows[j].key == k
    ensures DroppedBetween(cfg, actions, n, j, |End(cfg, actions).rows|)
    decreases |actions|
  {
    var earlier, a := actions[..|actions| - 1], actions[|actions| - 1];
    if Drops(a) {
      n := |actions| - 1;
    } else {
      IndexAgreesWithRows(cfg, earlier);
      RowWasThere(cfg, End(cfg, earlier), a, j);
      n := DropWitness(cfg, earlier, k, j);
      DropStands(cfg, actions, n, j);
    }
  }

  /** What is known of the markers of row `i`. */
  ghost predicate MarkersOk(cfg: Config, actions: seq<Action>, i: nat)
    requires Runs(cfg, actions) && i < |End(cfg, actions).rows|
  {
    var rows := End(cfg, actions).rows;
    && (rows[i].previous.Some? ==> exists j :: Precedes(rows, j, i) && rows[j].count == rows[i].previous.value)
    && (Unmarked(rows[i]) && cfg.window > 0.0 ==>
          forall j :: Precedes(rows, j, i) ==> Excused(cfg, actions, j, i))
  }

  lemma ExcuseStands(cfg: Config, actions: seq<Action>, j: nat, i: nat)
    requires cfg.cap >= 1 && actions != [] && Runs(cfg, actions)
    requires j < i < |End(cfg, actions[..|actions| - 1]).rows|
    requires Precedes(End(cfg, actions[..|actions| - 1]).rows, j, i)
    requires Excused(cfg, actions[..|actions| - 1], j, i)
    ensures j < |End(cfg, actions).rows| && Excused(cfg, actions, j, i)
  {
    var earlier := actions[..|actions| - 1];
    var s := End(cfg, earlier);
    IndexAgreesWithRows(cfg, earlier);
    StepKeepsRow(cfg, s, actions[|actions| - 1], j);
    if !s.rows[j].archived {
      var n: nat :| DroppedBetween(cfg, earlier, n, j, i);
      assert actions[..n] == earlier[..n];
      assert DroppedBetween(cfg, actions, n, j, i);
    }
  }

  lemma MarkersStand(cfg: Config, actions: seq<Action>, i: nat)
    requires cfg.cap >= 1 && actions != [] && Runs(cfg, actions)
    requires i < |End(cfg, actions[..|actions| - 1]).rows| && MarkersOk(cfg, actions[..|actions| - 1], i)
    ensures i < |End(cfg, actions).rows| && MarkersOk(cfg, actions, i)
  {
    var earlier, a := actions[..|actions| - 1], actions[|actions| - 1];
    var s, t := End(cfg, earlier), End(cfg, actions);
    IndexAgreesWithRows(cfg, earlier);
    StepKeepsRow(cfg, s, a, i);
    if s.rows[i].previous.Some? {
      var j :| Precedes(s.rows, j, i) && s.rows[j].count == s.rows[i].previous.value;
      StepKeepsOrder(cfg, s, a, j, i);
      StepKeepsRow(cfg, s, a, j);
    }
    forall j | Precedes(t.rows, j, i) && Unmarked(t.rows[i]) && cfg.window > 0.0
      ensures Excused(cfg, actions, j, i)
    {
      StepKeepsOrder(cfg, s, a, j, i);
      ExcuseStands(cfg, actions, j, i);
    }
  }

  lemma PrecededByNewest(rows: seq<Row>, row: Row, j: nat)
    requires j < |rows| && Precedes(rows + [row], j, |rows|)
    ensures Newest(rows, j)
  {
    forall l | j < l < |rows|
      ensures rows[l].key != rows[j].key
    {
      assert (rows + [row])[l] == rows[l];
    }
  }

  /** The action opens a row without a marker, and row `j` comes just before it. */
  ghost predicate OpensUnmarked(cfg: Config, s: State, a: Action, rows: seq<Row>, j: nat) {
    && a.Record? && !Folds(cfg, s, a.key, a.now)
    && |s.rows| < |rows| && Precedes(rows, j, |s.rows|) && Unmarked(rows[|s.rows|])
  }

  lemma DropExcuses(cfg: Config, actions: seq<Action>, k: Key, j: nat)
    requires cfg.cap >= 1 && actions != [] && Runs(cfg, actions)
    requires DroppedSince(actions[..|actions| - 1], k) && j < |End(cfg, actions[..|actions| - 1]).rows|
    requires End(cfg, actions[..|actions| - 1]).rows[j].key == k && j < |End(cfg, actions).rows|
    requires End(cfg, actions).rows[j].count == End(cfg, actions[..|actions| - 1]).rows[j].count
    ensures Excused(cfg, actions, j, |End(cfg, actions[..|actions| - 1]).rows|)
  {
    var earlier := actions[..|actions| - 1];
    var n := DropWitness(cfg, earlier, k, j);
    assert actions[..n] == earlier[..n];
    assert DroppedBetween(cfg, actions, n, j, |End(cfg, earlier).rows|);
  }

  lemma OpeningIsExcused(cfg: Config, actions: seq<Action>, j: nat)
    requires cfg.cap >= 1 && cfg.window > 0.0 && actions != [] && Runs(cfg, actions)
    requires OpensUnmarked(cfg, End(cfg, actions[..|actions| - 1]), actions[|actions| - 1], End(cfg, actions).rows, j)
    ensures Excused(cfg, actions, j, |End(cfg, actions[..|actions| - 1]).rows|)
  {
    var earlier, a := actions[..|actions| - 1], actions[|actions| - 1];
    var s, t := End(cfg, earlier), End(cfg, actions);
    IndexAgreesWithRows(cfg, earlier);
    UnmarkedOpening(cfg, s, a.key, a.now, a.victims);
    PrecededByNewest(s.rows, t.rows[|s.rows|], j);
    StepKeepsRow(cfg, s, a, j);
    if a.key !in s.windows {
      MissingWindowIff(cfg, earlier, a.key);
      DropExcuses(cfg, actions, a.key, j);
    }
  }

  lemma OpeningMarkersOk(cfg: Config, actions: seq<Action>)
    requires cfg.cap >= 1 && actions != [] && Runs(cfg, actions)
    requires |End(cfg, actions).rows| > |End(cfg, actions[..|actions| - 1]).rows|
    ensures MarkersOk(cfg, actions, |End(cfg, actions[..|actions| - 1]).rows|)
  {
    var earlier, a := actions[..|actions| - 1], actions[|actions| - 1];
    var s, t := End(cfg, earlier), End(cfg, actions);
    var i := |s.rows|;
    IndexAgreesWithRows(cfg, earlier);
    if t.rows[i].previous.Some? {
      assert WindowOk(s, a.key, s.windows[a.key]);
      assert Precedes(t.rows, s.windows[a.key].row, i);
    }
    forall j | Precedes(t.rows, j, i) && Unmarked(t.rows[i]) && cfg.window > 0.0
      ensures Excused(cfg, actions, j, i)
    {
      OpeningIsExcused(cfg, actions, j);
    }
  }

  /** The rows that were there keep what is known of them; at most one is new. */
  lemma MarkersStep(cfg: Config, actions: seq<Action>, i: nat)
    requires cfg.cap >= 1 && actions != [] && Runs(cfg, actions) && i < |End(cfg, actions).rows|
    requires i < |End(cfg, actions[..|actions| - 1]).rows| ==> MarkersOk(cfg, actions[..|actions| - 1], i)
    ensures MarkersOk(cfg, actions, i)
  {
    if i < |End(cfg, actions[..|actions| - 1]).rows| {
      MarkersStand(cfg, actions, i);
    } else {
      OpeningMarkersOk(cfg, actions);
    }
  }

  lemma {:induction false} MarkersHold(cfg: Config, actions: seq<Action>, i: nat)
    requires cfg.cap >= 1 && Runs(cfg, actions) && i < |End(cfg, actions).rows|
    ensures MarkersOk(cfg, actions, i)
    decreases |actions|
  {
    assert actions != [];
    var earlier := actions[..|actions| - 1];
    if i < |End(cfg, earlier).rows| {
      MarkersHold(cfg, earlier, i);
    }
    MarkersStep(cfg, actions, i);
  }

  lemma {:induction false} Predecessor(rows: seq<Row>, j: nat, i: nat) returns (l: nat)
    requires j < i < |rows| && rows[j].key == rows[i].key
    ensures Precedes(rows, l, i)
    decreases i - j
  {
    if l' :| j < l' < i && rows[l'].key == rows[i].key {
      l := Predecessor(rows, l', i);
    } else {
      l := j;
    }
  }

  /**
   What an investigator may read off a row's markers, after any run: a previous-window
   tally is the exact count of the row before it; while coalescing is on, a row with
   neither marker is the first of its key, or the row before it was archived, or the
   index was dropped between the last count of that row and this one.
   */
  lemma UnmarkedRowIsFirst(cfg: Config, actions: seq<Action>, i: nat)
    requires cfg.cap >= 1 && Runs(cfg, actions) && i < |End(cfg, actions).rows|
    ensures var rows := End(cfg, actions).rows;
            && (rows[i].previous.Some? ==> exists j :: Precedes(rows, j, i) && rows[j].count == rows[i].previous.value)
            && (Unmarked(rows[i]) && cfg.window > 0.0 ==>
                  (forall j :: 0 <= j < i ==> rows[j].key != rows[i].key) ||
                  exists j :: Precedes(rows, j, i) && Excused(cfg, actions, j, i))
  {
    MarkersHold(cfg, actions, i);
    var rows := End(cfg, actions).rows;
    if j :| 0 <= j < i && rows[j].key == rows[i].key {
      var l := Predecessor(rows, j, i);
    }
  }

  // --- The markers mislead ------------------------------------------------------------------

  lemma Append(cfg: Config, earlier: seq<Action>, a: Action)
    requires Runs(cfg, earlier) && Enabled(cfg, End(cfg, earlier), a)
    ensures Runs(cfg, earlier + [a]) && End(cfg, earlier + [a]) == Next(cfg, End(cfg, earlier), a)
  {
    var more := earlier + [a];
    assert more[..|more| - 1] == earlier;
  }

  const Hour := Config(3600.0, 4)
  const OneRow := State(map[0 := Window(0, 1.0, 1.0, 1)], 0, [Row(0, 1.0, 1, None, 0, false)], 1.0)

  /** What one record leaves, after the row was archived or the index dropped. */
  function Disturbed(a: Action): (s: State)
    requires a == Archive(0) || Drops(a)
  {
    Next(Hour, OneRow, a)
  }

  lemma RecordedAndDisturbed(a: Action)
    requires a == Archive(0) || Drops(a)
    ensures Runs(Hour, [Record(0, 1.0, {}), a]) && End(Hour, [Record(0, 1.0, {}), a]) == Disturbed(a)
  {
    Append(Hour, [], Record(0, 1.0, {}));
    assert [] + [Record(0, 1.0, {})] == [Record(0, 1.0, {})];
    assert End(Hour, [Record(0, 1.0, {})]).windows == OneRow.windows;
    Append(Hour, [Record(0, 1.0, {})], a);
    assert [Record(0, 1.0, {})] + [a] == [Record(0, 1.0, {}), a];
  }

  /** Whether the second row of the key is told apart from a first one. */
  predicate HandsOver(a: Action, now: real) { a == Archive(0) && now - 1.0 >= Hour.window }

  /** The next record of the same key. */
  lemma NextAfter(a: Action, now: real)
    requires (a == Archive(0) || Drops(a)) && 1.0 <= now
    ensures Enabled(Hour, Disturbed(a), Record(0, now, {}))
    ensures var rows := Next(Hour, Disturbed(a), Record(0, now, {})).rows;
            |rows| == 2 && rows[1] == Row(0, now, 1, if HandsOver(a, now) then Some(1) else None, 0, false)
  {
    var s := Disturbed(a);
    var before := Candidates(Hour, s, 0, now);
    assert |OneRow.windows| == 1;
    assert before == if HandsOver(a, now) then OneRow.windows else map[];
    assert Swept(Hour, before, now) == before;
  }

  /**
   Record, disturb, record again.  The second row of the key is unmarked if the index
   was dropped in between, whether by a shutdown or with the old process, and if the
   first row was archived, as long as its window had not lapsed.
   */
  lemma SecondRowHides(a: Action, now: real)
    requires (a == Archive(0) || Drops(a)) && 1.0 <= now
    ensures var actions := [Record(0, 1.0, {}), a, Record(0, now, {})];
            && Runs(Hour, actions) && |End(Hour, actions).rows| == 2
            && End(Hour, actions).rows[0].key == End(Hour, actions).rows[1].key
            && (Drops(a) ==> !End(Hour, actions).rows[0].archived)
            && (Unmarked(End(Hour, actions).rows[1]) <==> !HandsOver(a, now))
            && (HandsOver(a, now) ==> End(Hour, actions).rows[1].previous == Some(1))
  {
    RecordedAndDisturbed(a);
    NextAfter(a, now);
    Append(Hour, [Record(0, 1.0, {}), a], Record(0, now, {}));
    assert [Record(0, 1.0, {}), a] + [Record(0, now, {})] == [Record(0, 1.0, {}), a, Record(0, now, {})];
  }
}
