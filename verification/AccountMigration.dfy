/**
 The two-pass migration of stored account keys to their canonical spelling: it
 refuses startup on any collision before a single row is written.
 */
module AccountMigration {
  import opened Prelude
  import opened Octets
  import opened Base64url
  import opened Jwk
  import opened JwkCanonical

  type AccountId = nat
  type Hash = string -> seq<Byte>

  /** `jwk` is the parsed JSON column, absent when it does not parse; `stored` is nullable. */
  datatype Row = Row(jwk: Option<Value>, stored: Option<string>)

  type Table = map<AccountId, Row>

  datatype Update = Update(jwk: Members, thumbprint: string, id: AccountId)

  predicate Intelligible(codec: Codec, row: Row) {
    row.jwk.Some? && ReadKey(codec, row.jwk.value).Ok?
  }

  function KeyOf(codec: Codec, row: Row): (key: Key)
    requires Intelligible(codec, row)
  {
    ReadKey(codec, row.jwk.value).value
  }

  /** What a readable row becomes. */
  function Canonical(codec: Codec, row: Row): (members: Members)
    requires Intelligible(codec, row)
  {
    Respelled(codec, row.jwk.value.members, KeyOf(codec, row))
  }

  function CanonicalThumbprint(codec: Codec, hash: Hash, row: Row): (thumbprint: string)
    requires Intelligible(codec, row)
  {
    var tp := Thumbprint(codec, hash, Object(Canonical(codec, row)));
    if tp.Ok? then tp.value else ""
  }

  /** `str(stored_thumbprint)`. */
  function Shown(stored: Option<string>): (text: string) {
    if stored.Some? then stored.value else "None"
  }

  /** The thumbprint a row takes part in the collision check with. */
  function Planned(codec: Codec, hash: Hash, row: Row): (thumbprint: string) {
    if Intelligible(codec, row) then CanonicalThumbprint(codec, hash, row) else Shown(row.stored)
  }

  predicate NeedsUpdate(codec: Codec, hash: Hash, row: Row) {
    Intelligible(codec, row) &&
    (Some(Object(Canonical(codec, row))) != row.jwk || Some(CanonicalThumbprint(codec, hash, row)) != row.stored)
  }

  function MigratedRow(codec: Codec, hash: Hash, row: Row): (after: Row) {
    if Intelligible(codec, row) then
      Row(Some(Object(Canonical(codec, row))), Some(CanonicalThumbprint(codec, hash, row)))
    else row
  }

  function Migrated(codec: Codec, hash: Hash, rows: Table): (after: Table) {
    map id | id in rows :: MigratedRow(codec, hash, rows[id])
  }

  ghost predicate Collides(codec: Codec, hash: Hash, rows: Table) {
    exists a, b :: a in rows && b in rows && a != b && Planned(codec, hash, rows[a]) == Planned(codec, hash, rows[b])
  }

  /** Some thumbprint is held by two rows; the final check of the migration. */
  predicate Duplicated(rows: Table) {
    exists a, b :: a in rows && b in rows && a != b && rows[a].stored.Some? && rows[a].stored == rows[b].stored
  }

  /** A migrated row keeps its key, is strictly readable, and is left alone the next time. */
  lemma MigratedRowIsCanonical(codec: Codec, hash: Hash, row: Row)
    requires Faithful(codec)
    requires Intelligible(codec, row)
    ensures var m := MigratedRow(codec, hash, row);
            && Intelligible(codec, m) && KeyOf(codec, m) == KeyOf(codec, row)
            && StrictKey(codec, m.jwk.value) == Ok(KeyOf(codec, row))
            && Planned(codec, hash, m) == Planned(codec, hash, row) && m.stored == Some(Planned(codec, hash, row))
            && !NeedsUpdate(codec, hash, m)
    ensures var m := MigratedRow(codec, hash, row);
            && Thumbprint(codec, hash, m.jwk.value) == Ok(m.stored.value)
            && (forall name :: name in m.jwk.value.members <==> name in row.jwk.value.members)
            && forall name :: name in row.jwk.value.members && name !in ["n", "e", "x", "y"] ==>
                 m.jwk.value.members[name] == row.jwk.value.members[name]
  {
    RespelledIsStrict(codec, row.jwk.value.members, KeyOf(codec, row));
    RespellingIsIdempotent(codec, row.jwk.value.members, KeyOf(codec, row));
  }

  /** The row was readable and now holds the same key in its one spelling, with the thumbprint of that. */
  ghost predicate Rescued(codec: Codec, hash: Hash, before: Row, after: Row) {
    && before.jwk.Some? && ReadKey(codec, before.jwk.value).Ok? && after.jwk.Some? && after.stored.Some?
    && StrictKey(codec, after.jwk.value) == ReadKey(codec, before.jwk.value)
    && Thumbprint(codec, hash, after.jwk.value) == Ok(after.stored.value)
  }

  lemma EveryRowIsRescuedOrKept(codec: Codec, hash: Hash, rows: Table)
    requires Faithful(codec)
    ensures Migrated(codec, hash, rows).Keys == rows.Keys
    ensures forall id :: id in rows ==>
              if rows[id].jwk.Some? && ReadKey(codec, rows[id].jwk.value).Ok?
              then Rescued(codec, hash, rows[id], Migrated(codec, hash, rows)[id])
              else Migrated(codec, hash, rows)[id] == rows[id]
  {
    forall id | id in rows && Intelligible(codec, rows[id])
      ensures Rescued(codec, hash, rows[id], MigratedRow(codec, hash, rows[id]))
    {
      MigratedRowIsCanonical(codec, hash, rows[id]);
    }
  }

  /** Two readable rows collide exactly when they hold the same key, however it is spelled. */
  lemma CollisionIsSameKey(codec: Codec, hash: Hash, a: Row, b: Row)
    requires Faithful(codec)
    requires Intelligible(codec, a) && Intelligible(codec, b)
    ensures Apart(codec, hash, KeyOf(codec, a), KeyOf(codec, b)) ==>
              (Planned(codec, hash, a) == Planned(codec, hash, b) <==> KeyOf(codec, a) == KeyOf(codec, b))
  {
    RespelledIsStrict(codec, a.jwk.value.members, KeyOf(codec, a));
    RespelledIsStrict(codec, b.jwk.value.members, KeyOf(codec, b));
    RespelledShareThumbprintIffSameKey(
      codec, hash, a.jwk.value.members, b.jwk.value.members, KeyOf(codec, a), KeyOf(codec, b));
  }

  /** Once the collision check has passed, the final duplicate check cannot fire. */
  lemma NoDuplicateAfterCollisionCheck(codec: Codec, hash: Hash, rows: Table)
    requires Faithful(codec)
    requires !Collides(codec, hash, rows)
    ensures !Duplicated(Migrated(codec, hash, rows))
  {
    var t := Migrated(codec, hash, rows);
    forall id | id in t && t[id].stored.Some?
      ensures t[id].stored.value == Planned(codec, hash, rows[id])
    {
      if Intelligible(codec, rows[id]) {
        MigratedRowIsCanonical(codec, hash, rows[id]);
      }
    }
  }

  lemma MigratedRowStays(codec: Codec, hash: Hash, row: Row)
    requires Faithful(codec)
    ensures var m := MigratedRow(codec, hash, row);
            && Planned(codec, hash, m) == Planned(codec, hash, row)
            && MigratedRow(codec, hash, m) == m && !NeedsUpdate(codec, hash, m)
  {
    if Intelligible(codec, row) {
      MigratedRowIsCanonical(codec, hash, row);
    }
  }

  /** A second run passes the collision check and updates nothing. */
  lemma SecondRunIsIdle(codec: Codec, hash: Hash, rows: Table)
    requires Faithful(codec)
    requires !Collides(codec, hash, rows)
    ensures !Collides(codec, hash, Migrated(codec, hash, rows))
    ensures Migrated(codec, hash, Migrated(codec, hash, rows)) == Migrated(codec, hash, rows)
    ensures forall id :: id in rows ==> !NeedsUpdate(codec, hash, Migrated(codec, hash, rows)[id])
  {
    var t := Migrated(codec, hash, rows);
    forall id | id in rows
      ensures Planned(codec, hash, t[id]) == Planned(codec, hash, rows[id])
      ensures MigratedRow(codec, hash, t[id]) == t[id] && !NeedsUpdate(codec, hash, t[id])
    {
      MigratedRowStays(codec, hash, rows[id]);
    }
  }

  /** The refusal is stricter than a duplicate key: two unreadable rows without a thumbprint share "None". */
  lemma TwoUnreadableRowsAreRefused(codec: Codec, hash: Hash)
    ensures var rows := map[0 := Row(None, None), 1 := Row(None, None)];
            Collides(codec, hash, rows) && !Duplicated(rows)
  {
    var rows := map[0 := Row(None, None), 1 := Row(None, None)];
    assert Planned(codec, hash, rows[0]) == Planned(codec, hash, rows[1]);
  }

  /** Two readable rows hold one key. */
  ghost predicate KeyShared(codec: Codec, rows: Table) {
    exists a, b | a in rows && b in rows :: a != b && SameKey(codec, rows[a], rows[b])
  }

  ghost predicate SameKey(codec: Codec, a: Row, b: Row) {
    Intelligible(codec, a) && Intelligible(codec, b) && KeyOf(codec, a) == KeyOf(codec, b)
  }

  /** What an unreadable row shows for a thumbprint is what another row is planned under. */
  ghost predicate UnreadableClash(codec: Codec, hash: Hash, rows: Table) {
    exists a, b | a in rows && b in rows :: a != b && ShowsPlanned(codec, hash, rows[a], rows[b])
  }

  ghost predicate ShowsPlanned(codec: Codec, hash: Hash, a: Row, b: Row) {
    !Intelligible(codec, a) && Shown(a.stored) == Planned(codec, hash, b)
  }

  lemma PlannedAlikeIff(codec: Codec, hash: Hash, a: Row, b: Row)
    requires Faithful(codec)
    requires Intelligible(codec, a) && Intelligible(codec, b) ==>
               Apart(codec, hash, KeyOf(codec, a), KeyOf(codec, b))
    ensures Planned(codec, hash, a) == Planned(codec, hash, b) <==>
            SameKey(codec, a, b) || ShowsPlanned(codec, hash, a, b) || ShowsPlanned(codec, hash, b, a)
  {
    if Intelligible(codec, a) && Intelligible(codec, b) {
      CollisionIsSameKey(codec, hash, a, b);
    }
  }

  /**
   Exactly when startup is refused: two readable rows hold one key, or the stored
   thumbprint an unreadable row shows is the planned one of another row.
   */
  lemma RefusedIff(codec: Codec, hash: Hash, rows: Table)
    requires Faithful(codec)
    requires forall a, b | a in rows && b in rows && Intelligible(codec, rows[a]) && Intelligible(codec, rows[b])
               :: Apart(codec, hash, KeyOf(codec, rows[a]), KeyOf(codec, rows[b]))
    ensures Collides(codec, hash, rows) <==> KeyShared(codec, rows) || UnreadableClash(codec, hash, rows)
  {
    forall a, b | a in rows && b in rows
      ensures Planned(codec, hash, rows[a]) == Planned(codec, hash, rows[b]) <==>
              SameKey(codec, rows[a], rows[b]) || ShowsPlanned(codec, hash, rows[a], rows[b]) ||
              ShowsPlanned(codec, hash, rows[b], rows[a])
    {
      PlannedAlikeIff(codec, hash, rows[a], rows[b]);
    }
  }

  // --- The two passes -------------------------------------------------------------------

  /** The rows planned under one thumbprint, in the order they are read. */
  function Holders(codec: Codec, hash: Hash, rows: Table, ids: seq<AccountId>, tp: string): (held: seq<AccountId>)
    requires forall id :: id in ids ==> id in rows
  {
    if ids == [] then []
    else
      var last := ids[|ids| - 1];
      Holders(codec, hash, rows, ids[..|ids| - 1], tp) + if Planned(codec, hash, rows[last]) == tp then [last] else []
  }

  function UpdateOf(codec: Codec, hash: Hash, row: Row, id: AccountId): (update: Update)
    requires Intelligible(codec, row)
  {
    Update(Canonical(codec, row), CanonicalThumbprint(codec, hash, row), id)
  }

  /** The rewrites, in the order the rows are read. */
  function Rewrites(codec: Codec, hash: Hash, rows: Table, ids: seq<AccountId>): (updates: seq<Update>)
    requires forall id :: id in ids ==> id in rows
  {
    if ids == [] then []
    else
      var last := ids[|ids| - 1];
      Rewrites(codec, hash, rows, ids[..|ids| - 1]) +
      if NeedsUpdate(codec, hash, rows[last]) then [UpdateOf(codec, hash, rows[last], last)] else []
  }

  function Applied(rows: Table, updates: seq<Update>): (after: Table) {
    if updates == [] then rows
    else
      var u := updates[|updates| - 1];
      Applied(rows, updates[..|updates| - 1])[u.id := Row(Some(Object(u.jwk)), Some(u.thumbprint))]
  }

  lemma {:induction false} HoldersAreRead(codec: Codec, hash: Hash, rows: Table, ids: seq<AccountId>, tp: string)
    requires forall id :: id in ids ==> id in rows
    ensures forall id ::
              id in Holders(codec, hash, rows, ids, tp) <==> id in ids && Planned(codec, hash, rows[id]) == tp
  {
    if ids != [] {
      HoldersAreRead(codec, hash, rows, ids[..|ids| - 1], tp);
      assert ids == ids[..|ids| - 1] + [ids[|ids| - 1]];
    }
  }

  lemma {:induction false} SeveralHolders(codec: Codec, hash: Hash, rows: Table, ids: seq<AccountId>, tp: string)
    requires forall id :: id in ids ==> id in rows
    requires forall j, k :: 0 <= j < k < |ids| ==> ids[j] != ids[k]
    ensures |Holders(codec, hash, rows, ids, tp)| > 1 <==>
            exists a, b :: a in ids && b in ids && a != b &&
                           Planned(codec, hash, rows[a]) == tp && Planned(codec, hash, rows[b]) == tp
  {
    if ids != [] {
      var earlier, last := ids[..|ids| - 1], ids[|ids| - 1];
      SeveralHolders(codec, hash, rows, earlier, tp);
      HoldersAreRead(codec, hash, rows, earlier, tp);
      assert ids == earlier + [last];
      if Holders(codec, hash, rows, earlier, tp) != [] {
        assert Holders(codec, hash, rows, earlier, tp)[0] in earlier;
      }
    }
  }

  /** The table once the rows read so far are migrated. */
  function Partly(codec: Codec, hash: Hash, rows: Table, ids: seq<AccountId>): (after: Table) {
    map id | id in rows :: if id in ids then MigratedRow(codec, hash, rows[id]) else rows[id]
  }

  lemma PartlyGrows(codec: Codec, hash: Hash, rows: Table, ids: seq<AccountId>, id: AccountId)
    requires id in rows
    ensures Partly(codec, hash, rows, ids + [id]) ==
            Partly(codec, hash, rows, ids)[id := MigratedRow(codec, hash, rows[id])]
  {
  }

  lemma IdleRow(codec: Codec, hash: Hash, rows: Table, ids: seq<AccountId>, id: AccountId)
    requires id in rows && !NeedsUpdate(codec, hash, rows[id])
    ensures Partly(codec, hash, rows, ids)[id := MigratedRow(codec, hash, rows[id])] == Partly(codec, hash, rows, ids)
  {
    assert MigratedRow(codec, hash, rows[id]) == rows[id];
  }

  lemma AppliedGrows(rows: Table, updates: seq<Update>, u: Update)
    ensures Applied(rows, updates + [u]) == Applied(rows, updates)[u.id := Row(Some(Object(u.jwk)), Some(u.thumbprint))]
  {
    assert (updates + [u])[..|updates|] == updates;
  }

  lemma {:induction false} AppliedRewrites(codec: Codec, hash: Hash, rows: Table, ids: seq<AccountId>)
    requires forall id :: id in ids ==> id in rows
    ensures Applied(rows, Rewrites(codec, hash, rows, ids)) == Partly(codec, hash, rows, ids)
  {
    if ids == [] {
      assert Partly(codec, hash, rows, ids) == rows;
    } else {
      var earlier, id := ids[..|ids| - 1], ids[|ids| - 1];
      AppliedRewrites(codec, hash, rows, earlier);
      assert ids == earlier + [id];
      PartlyGrows(codec, hash, rows, earlier, id);
      var before := Rewrites(codec, hash, rows, earlier);
      RewritesGrow(codec, hash, rows, earlier, id);
      if NeedsUpdate(codec, hash, rows[id]) {
        var u := Update(Canonical(codec, rows[id]), CanonicalThumbprint(codec, hash, rows[id]), id);
        assert Rewrites(codec, hash, rows, ids) == before + [u];
        AppliedGrows(rows, before, u);
      } else {
        assert Rewrites(codec, hash, rows, ids) == before + [] == before;
        IdleRow(codec, hash, rows, earlier, id);
      }
    }
  }

  /** The grouping holds, under every thumbprint, the rows read so far that are planned under it. */
  ghost predicate Groups(codec: Codec, hash: Hash, rows: Table, ids: seq<AccountId>,
                         planned: map<string, seq<AccountId>>)
    requires forall id :: id in ids ==> id in rows
  {
    && (forall tp :: tp in planned <==> Holders(codec, hash, rows, ids, tp) != [])
    && (forall tp :: tp in planned ==> planned[tp] == Holders(codec, hash, rows, ids, tp))
  }

  lemma GroupsGrow(codec: Codec, hash: Hash, rows: Table, ids: seq<AccountId>,
                   planned: map<string, seq<AccountId>>, id: AccountId, tp: string)
    requires forall i :: i in ids ==> i in rows
    requires id in rows && tp == Planned(codec, hash, rows[id]) && Groups(codec, hash, rows, ids, planned)
    ensures Groups(codec, hash, rows, ids + [id], planned[tp := (if tp in planned then planned[tp] else []) + [id]])
  {
    assert (ids + [id])[..|ids|] == ids;
  }

  lemma RewritesGrow(codec: Codec, hash: Hash, rows: Table, ids: seq<AccountId>, id: AccountId)
    requires id in rows && forall i :: i in ids ==> i in rows
    ensures Rewrites(codec, hash, rows, ids + [id]) ==
            Rewrites(codec, hash, rows, ids) +
            if NeedsUpdate(codec, hash, rows[id]) then [UpdateOf(codec, hash, rows[id], id)] else []
  {
    assert (ids + [id])[..|ids|] == ids;
  }

  /** The cursor yields every row, each once. */
  ghost predicate Enumerates(ids: seq<AccountId>, rows: Table) {
    && (forall id :: id in ids <==> id in rows)
    && (forall j, k :: 0 <= j < k < |ids| ==> ids[j] != ids[k])
  }

  lemma CollisionCheckIsExact(codec: Codec, hash: Hash, rows: Table, ids: seq<AccountId>,
                              planned: map<string, seq<AccountId>>)
    requires Enumerates(ids, rows)
    requires Groups(codec, hash, rows, ids, planned)
    ensures (exists tp :: tp in planned && |planned[tp]| > 1) <==> Collides(codec, hash, rows)
  {
    if a, b :| a in rows && b in rows && a != b && Planned(codec, hash, rows[a]) == Planned(codec, hash, rows[b]) {
      SeveralHolders(codec, hash, rows, ids, Planned(codec, hash, rows[a]));
    }
    if tp :| tp in planned && |planned[tp]| > 1 {
      SeveralHolders(codec, hash, rows, ids, tp);
    }
  }

  lemma EveryRowIsRewritten(codec: Codec, hash: Hash, rows: Table, ids: seq<AccountId>)
    requires Enumerates(ids, rows)
    ensures Applied(rows, Rewrites(codec, hash, rows, ids)) == Migrated(codec, hash, rows)
  {
    AppliedRewrites(codec, hash, rows, ids);
  }

  // --- A unique index that is already there ---------------------------------------------------

  /** Another row stores the thumbprint at this moment. */
  predicate HeldElsewhere(rows: Table, id: AccountId, tp: string) {
    exists other :: other in rows && other != id && rows[other].stored == Some(tp)
  }

  /** No update runs into the index. */
  predicate Passes(rows: Table, updates: seq<Update>) {
    if updates == [] then true
    else
      var earlier, last := updates[..|updates| - 1], updates[|updates| - 1];
      Passes(rows, earlier) && !HeldElsewhere(Applied(rows, earlier), last.id, last.thumbprint)
  }

  /** Row `i` is to be rewritten, and a row that is read after it still stores its thumbprint. */
  ghost predicate BlockedBy(codec: Codec, hash: Hash, rows: Table, ids: seq<AccountId>, i: nat, j: nat)
    requires forall id :: id in ids ==> id in rows
  {
    i < j < |ids| && NeedsUpdate(codec, hash, rows[ids[i]]) &&
    rows[ids[j]].stored == Some(Planned(codec, hash, rows[ids[i]]))
  }

  ghost predicate Blocked(codec: Codec, hash: Hash, rows: Table, ids: seq<AccountId>, i: nat)
    requires forall id :: id in ids ==> id in rows
  {
    exists j :: BlockedBy(codec, hash, rows, ids, i, j)
  }

  /** When its turn comes, row `n` finds its thumbprint taken. */
  ghost predicate Stuck(codec: Codec, hash: Hash, rows: Table, ids: seq<AccountId>, n: nat)
    requires n < |ids| && forall id :: id in ids ==> id in rows
  {
    NeedsUpdate(codec, hash, rows[ids[n]]) &&
    HeldElsewhere(Partly(codec, hash, rows, ids[..n]), ids[n], Planned(codec, hash, rows[ids[n]]))
  }

  lemma {:induction false} PrefixPasses(rows: Table, updates: seq<Update>, n: nat)
    requires n <= |updates| && Passes(rows, updates)
    ensures Passes(rows, updates[..n])
  {
    if n < |updates| {
      PrefixPasses(rows, updates[..|updates| - 1], n);
      assert updates[..|updates| - 1][..n] == updates[..n];
    } else {
      assert updates[..n] == updates;
    }
  }

  /** The next update either runs into the index, and with it the whole list, or is applied. */
  lemma TakeOneMore(rows: Table, updates: seq<Update>, i: nat)
    requires i < |updates|
    ensures var u, before := updates[i], Applied(rows, updates[..i]);
            && Applied(rows, updates[..i + 1]) == before[u.id := Row(Some(Object(u.jwk)), Some(u.thumbprint))]
            && (Passes(rows, updates[..i + 1]) <==>
                Passes(rows, updates[..i]) && !HeldElsewhere(before, u.id, u.thumbprint))
            && (HeldElsewhere(before, u.id, u.thumbprint) ==> !Passes(rows, updates))
  {
    assert updates[..i + 1] == updates[..i] + [updates[i]];
    if Passes(rows, updates) {
      PrefixPasses(rows, updates, i + 1);
    }
  }

  lemma OneMorePasses(codec: Codec, hash: Hash, rows: Table, earlier: seq<AccountId>, id: AccountId)
    requires id in rows && forall i :: i in earlier ==> i in rows
    ensures Passes(rows, Rewrites(codec, hash, rows, earlier + [id])) <==>
            Passes(rows, Rewrites(codec, hash, rows, earlier)) &&
            !Stuck(codec, hash, rows, earlier + [id], |earlier|)
  {
    var before := Rewrites(codec, hash, rows, earlier);
    assert (earlier + [id])[..|earlier|] == earlier;
    AppliedRewrites(codec, hash, rows, earlier);
    RewritesGrow(codec, hash, rows, earlier, id);
    assert before + [] == before;
  }

  lemma StuckInPrefix(codec: Codec, hash: Hash, rows: Table, earlier: seq<AccountId>, id: AccountId, n: nat)
    requires id in rows && n < |earlier| && forall i :: i in earlier ==> i in rows
    ensures Stuck(codec, hash, rows, earlier + [id], n) <==> Stuck(codec, hash, rows, earlier, n)
  {
    assert (earlier + [id])[..n] == earlier[..n];
  }

  ghost predicate NoneStuck(codec: Codec, hash: Hash, rows: Table, ids: seq<AccountId>)
    requires forall id :: id in ids ==> id in rows
  {
    forall n | 0 <= n < |ids| :: !Stuck(codec, hash, rows, ids, n)
  }

  lemma OneMoreStuck(codec: Codec, hash: Hash, rows: Table, earlier: seq<AccountId>, id: AccountId)
    requires id in rows && forall i :: i in earlier ==> i in rows
    ensures NoneStuck(codec, hash, rows, earlier + [id]) <==>
            NoneStuck(codec, hash, rows, earlier) && !Stuck(codec, hash, rows, earlier + [id], |earlier|)
  {
    forall n | 0 <= n < |earlier|
      ensures Stuck(codec, hash, rows, earlier + [id], n) <==> Stuck(codec, hash, rows, earlier, n)
    {
      StuckInPrefix(codec, hash, rows, earlier, id, n);
    }
  }

  lemma {:induction false} PassesIff(codec: Codec, hash: Hash, rows: Table, ids: seq<AccountId>)
    requires forall id :: id in ids ==> id in rows
    ensures Passes(rows, Rewrites(codec, hash, rows, ids)) <==> NoneStuck(codec, hash, rows, ids)
  {
    if ids != [] {
      var earlier, id := ids[..|ids| - 1], ids[|ids| - 1];
      assert ids == earlier + [id];
      PassesIff(codec, hash, rows, earlier);
      OneMorePasses(codec, hash, rows, earlier, id);
      OneMoreStuck(codec, hash, rows, earlier, id);
    }
  }

  lemma HolderIsLater(codec: Codec, hash: Hash, rows: Table, ids: seq<AccountId>, n: nat, other: AccountId)
    requires Enumerates(ids, rows) && !Collides(codec, hash, rows) && n < |ids| && other in rows && other != ids[n]
    requires Partly(codec, hash, rows, ids[..n])[other].stored == Some(Planned(codec, hash, rows[ids[n]]))
    ensures other !in ids[..n] && rows[other].stored == Some(Planned(codec, hash, rows[ids[n]]))
  {
  }

  lemma HolderBlocks(codec: Codec, hash: Hash, rows: Table, ids: seq<AccountId>, n: nat, j: nat)
    requires forall id :: id in ids ==> id in rows
    requires n < |ids| && j < |ids| && ids[j] !in ids[..n] && ids[j] != ids[n]
    requires NeedsUpdate(codec, hash, rows[ids[n]])
    requires rows[ids[j]].stored == Some(Planned(codec, hash, rows[ids[n]]))
    ensures Blocked(codec, hash, rows, ids, n)
  {
    assert BlockedBy(codec, hash, rows, ids, n, j);
  }

  lemma StuckIsBlocked(codec: Codec, hash: Hash, rows: Table, ids: seq<AccountId>, n: nat)
    requires Enumerates(ids, rows) && !Collides(codec, hash, rows) && n < |ids|
    requires Stuck(codec, hash, rows, ids, n)
    ensures Blocked(codec, hash, rows, ids, n)
  {
    var tp := Planned(codec, hash, rows[ids[n]]);
    var t := Partly(codec, hash, rows, ids[..n]);
    var other :| other in t && other != ids[n] && t[other].stored == Some(tp);
    HolderIsLater(codec, hash, rows, ids, n, other);
    var j: nat :| j < |ids| && ids[j] == other;
    HolderBlocks(codec, hash, rows, ids, n, j);
  }

  lemma BlockedIsStuck(codec: Codec, hash: Hash, rows: Table, ids: seq<AccountId>, n: nat)
    requires Enumerates(ids, rows) && n < |ids| && Blocked(codec, hash, rows, ids, n)
    ensures Stuck(codec, hash, rows, ids, n)
  {
    var j: nat :| BlockedBy(codec, hash, rows, ids, n, j);
    var t := Partly(codec, hash, rows, ids[..n]);
    assert ids[j] !in ids[..n];
    assert t[ids[j]] == rows[ids[j]];
  }

  /**
   With the unique index in place, pass two runs into it exactly if some row is to be
   rewritten to a thumbprint that a row read after it still stores.
   */
  lemma IndexRejectsIff(codec: Codec, hash: Hash, rows: Table, ids: seq<AccountId>)
    requires Faithful(codec) && Enumerates(ids, rows) && !Collides(codec, hash, rows)
    ensures Passes(rows, Rewrites(codec, hash, rows, ids)) <==>
            forall n | 0 <= n < |ids| :: !Blocked(codec, hash, rows, ids, n)
  {
    PassesIff(codec, hash, rows, ids);
    forall n | 0 <= n < |ids|
      ensures Stuck(codec, hash, rows, ids, n) <==> Blocked(codec, hash, rows, ids, n)
    {
      if Stuck(codec, hash, rows, ids, n) {
        StuckIsBlocked(codec, hash, rows, ids, n);
      }
      if Blocked(codec, hash, rows, ids, n) {
        BlockedIsStuck(codec, hash, rows, ids, n);
      }
    }
  }

  datatype Outcome = Canonicalized | Duplicate | IndexConflict

  class AccountStore {
    var rows: Table

    /** Every row once, in whatever order the cursor yields them. */
    method FetchAll() returns (ids: seq<AccountId>)
      ensures Enumerates(ids, rows)
    {
      ids := [];
      var rest := rows.Keys;
      while rest != {}
        invariant rest <= rows.Keys
        invariant forall id :: id in ids <==> id in rows && id !in rest
        invariant forall j, k :: 0 <= j < k < |ids| ==> ids[j] != ids[k]
        decreases |rest|
      {
        var id :| id in rest;
        ids, rest := ids + [id], rest - {id};
      }
    }

    /** One row of pass one: its planned thumbprint, and its rewrite if it needs one. */
    method PlanRow(codec: Codec, hash: Hash, row: Row, id: AccountId) returns (tp: string, update: Option<Update>)
      requires Faithful(codec)
      ensures tp == Planned(codec, hash, row)
      ensures update == if NeedsUpdate(codec, hash, row) then Some(Update(Canonical(codec, row), tp, id)) else None
    {
      if row.jwk.None? {
        return Shown(row.stored), None;
      }
      var r := CanonicalizeJwk(codec, row.jwk.value);
      if r.Err? {
        return Shown(row.stored), None;
      }
      RespelledIsStrict(codec, row.jwk.value.members, KeyOf(codec, row));
      tp := Thumbprint(codec, hash, Object(r.value)).value;
      update :=
        if Some(Object(r.value)) != row.jwk || Some(tp) != row.stored then Some(Update(r.value, tp, id)) else None;
    }

    /** Pass one: what each row will hold, and which rows have to be rewritten.  No writes. */
    method Plan(codec: Codec, hash: Hash, ids: seq<AccountId>)
      returns (planned: map<string, seq<AccountId>>, updates: seq<Update>)
      requires Faithful(codec)
      requires forall id :: id in ids ==> id in rows
      ensures Groups(codec, hash, rows, ids, planned)
      ensures updates == Rewrites(codec, hash, rows, ids)
    {
      planned, updates := map[], [];
      for i := 0 to |ids|
        invariant Groups(codec, hash, rows, ids[..i], planned)
        invariant updates == Rewrites(codec, hash, rows, ids[..i])
      {
        var id := ids[i];
        var tp, update := PlanRow(codec, hash, rows[id], id);
        GroupsGrow(codec, hash, rows, ids[..i], planned, id, tp);
        RewritesGrow(codec, hash, rows, ids[..i], id);
        planned := planned[tp := (if tp in planned then planned[tp] else []) + [id]];
        if update.Some? {
          updates := updates + [update.value];
        }
        assert ids[..i + 1] == ids[..i] + [id];
      }
      assert ids[..|ids|] == ids;
    }

    /** Pass two; an update that runs into the index takes the earlier ones back with it. */
    method ApplyUpdates(updates: seq<Update>, indexed: bool) returns (applied: bool)
      modifies this
      ensures applied <==> !indexed || Passes(old(rows), updates)
      ensures rows == if applied then Applied(old(rows), updates) else old(rows)
    {
      var before := rows;
      for i := 0 to |updates|
        invariant rows == Applied(before, updates[..i])
        invariant indexed ==> Passes(before, updates[..i])
      {
        var u := updates[i];
        TakeOneMore(before, updates, i);
        if indexed && HeldElsewhere(rows, u.id, u.thumbprint) {
          rows := before;
          return false;
        }
        rows := rows[u.id := Row(Some(Object(u.jwk)), Some(u.thumbprint))];
      }
      assert updates[..|updates|] == updates;
      applied := true;
    }

    /**
     Refuses exactly on a collision, fails exactly where the index gets in the way, and
     changes nothing then; otherwise every readable row is canonical, unreadable rows
     are untouched, and the final duplicate check finds nothing.
     */
    method MigrateAccountsCanonicalJwk(codec: Codec, hash: Hash, indexed: bool)
      returns (outcome: Outcome, ghost ids: seq<AccountId>)
      requires Faithful(codec)
      modifies this
      ensures Enumerates(ids, old(rows))
      ensures outcome == Duplicate <==> Collides(codec, hash, old(rows))
      ensures outcome == IndexConflict <==>
              && indexed && !Collides(codec, hash, old(rows))
              && exists n | 0 <= n < |ids| :: Blocked(codec, hash, old(rows), ids, n)
      ensures rows == if outcome == Canonicalized then Migrated(codec, hash, old(rows)) else old(rows)
      ensures rows.Keys == old(rows).Keys
      ensures outcome == Canonicalized ==>
                forall id :: id in rows ==>
                  if old(rows)[id].jwk.Some? && ReadKey(codec, old(rows)[id].jwk.value).Ok?
                  then Rescued(codec, hash, old(rows)[id], rows[id])
                  else rows[id] == old(rows)[id]
    {
      var read := FetchAll();
      ids := read;
      var planned, updates := Plan(codec, hash, read);
      CollisionCheckIsExact(codec, hash, rows, read, planned);
      if tp :| tp in planned && |planned[tp]| > 1 {
        return Duplicate, read;
      }
      EveryRowIsRewritten(codec, hash, rows, read);
      IndexRejectsIff(codec, hash, rows, read);
      var applied := ApplyUpdates(updates, indexed);
      if !applied {
        return IndexConflict, read;
      }
      EveryRowIsRescuedOrKept(codec, hash, old(rows));
      NoDuplicateAfterCollisionCheck(codec, hash, old(rows));
      var duplicated := Duplicated(rows);
      assert !duplicated;
      outcome := Canonicalized;
    }
  }
}
