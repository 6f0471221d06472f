/**
 Account key rollover: the compare-and-set on key and status, the sliding-window
 limit per external-account kid, and the audit row that is its counter, in one
 transaction.
 */
module KeyChangeLimit {
  import opened Prelude

  type AccountId = nat
  type Kid = nat
  type Thumbprint = nat

  datatype Account = Account(kid: Kid, thumbprint: Thumbprint, valid: bool)

  /** A success row; the table keeps its time to the second, `at` is when it was stamped. */
  datatype Success = Success(account: AccountId, at: real)

  datatype State = State(accounts: map<AccountId, Account>, successes: seq<Success>)

  /** `limit` zero disables the limiter; the window is in seconds and may be unset. */
  datatype Policy = Policy(limit: int, window: Option<int>)

  /** The clock is read once for the cutoff and once more for the audit row. */
  datatype Request = Request(
    account: AccountId,
    expected: Thumbprint,
    newKey: Thumbprint,
    cutoffRead: real,
    stampRead: real)

  /** Accounts come and go between the rollovers; no write changes the kid of one. */
  datatype Action =
    | Rollover(q: Request)
    | CreateAccount(id: AccountId, kid: Kid, thumbprint: Thumbprint)
    | Deactivate(id: AccountId)

  datatype Failure = Stale | Misconfigured | RateLimited(count: nat) | Duplicate

  predicate Current(s: State, q: Request) {
    && q.account in s.accounts && s.accounts[q.account].valid
    && s.accounts[q.account].thumbprint == q.expected
  }

  /** The unique index on thumbprints. */
  predicate TakenBy(accounts: map<AccountId, Account>, id: AccountId, thumbprint: Thumbprint) {
    exists a :: a in accounts && a != id && accounts[a].thumbprint == thumbprint
  }

  predicate OfKid(accounts: map<AccountId, Account>, row: Success, kid: Kid) {
    row.account in accounts && accounts[row.account].kid == kid
  }

  /** Rows of the kid whose second is at or after the cutoff second. */
  function CountSince(accounts: map<AccountId, Account>, rows: seq<Success>, kid: Kid, cutoff: int): (count: nat) {
    if rows == [] then 0
    else
      var last := rows[|rows| - 1];
      CountSince(accounts, rows[..|rows| - 1], kid, cutoff) +
      if OfKid(accounts, last, kid) && last.at.Floor >= cutoff then 1 else 0
  }

  function CutoffOf(policy: Policy, q: Request): (cutoff: int)
    requires policy.window.Some?
  {
    (q.cutoffRead - policy.window.value as real).Floor
  }

  function Check(policy: Policy, s: State, q: Request): (failure: Option<Failure>) {
    if !Current(s, q) then Some(Stale)
    else if policy.limit > 0 && (policy.window.None? || policy.window.value < 1) then Some(Misconfigured)
    else
      var count := if policy.limit > 0
        then CountSince(s.accounts, s.successes, s.accounts[q.account].kid, CutoffOf(policy, q))
        else 0;
      if policy.limit > 0 && count >= policy.limit then Some(RateLimited(count))
      else if TakenBy(s.accounts, q.account, q.newKey) then Some(Duplicate)
      else None
  }

  /** A failed transaction leaves everything; a successful one rotates and audits. */
  function Rolled(policy: Policy, s: State, q: Request): (t: State) {
    if Check(policy, s, q).Some? then s
    else State(s.accounts[q.account := s.accounts[q.account].(thumbprint := q.newKey)],
               s.successes + [Success(q.account, q.stampRead)])
  }

  function Next(policy: Policy, s: State, a: Action): (t: State) {
    match a
    case Rollover(q) => Rolled(policy, s, q)
    case CreateAccount(id, kid, thumbprint) =>
      if id in s.accounts || TakenBy(s.accounts, id, thumbprint) then s
      else s.(accounts := s.accounts[id := Account(kid, thumbprint, true)])
    case Deactivate(id) =>
      if id in s.accounts then s.(accounts := s.accounts[id := s.accounts[id].(valid := false)]) else s
  }

  function End(policy: Policy, s: State, actions: seq<Action>): (t: State) {
    if actions == [] then s else Next(policy, End(policy, s, actions[..|actions| - 1]), actions[|actions| - 1])
  }

  /** Successes of a kid in a closed span of real time. */
  function CountWithin(accounts: map<AccountId, Account>, rows: seq<Success>, kid: Kid, from: real, to: real)
    : (count: nat)
  {
    if rows == [] then 0
    else
      var last := rows[|rows| - 1];
      CountWithin(accounts, rows[..|rows| - 1], kid, from, to) +
      if OfKid(accounts, last, kid) && from <= last.at <= to then 1 else 0
  }

  /** Every account is still there, under its kid. */
  predicate KeepsKids(before: map<AccountId, Account>, after: map<AccountId, Account>) {
    forall id :: id in before ==> id in after && after[id].kid == before[id].kid
  }

  /** Every success row belongs to an account. */
  predicate Owned(s: State) {
    forall i :: 0 <= i < |s.successes| ==> s.successes[i].account in s.accounts
  }

  lemma StepKeepsKids(policy: Policy, s: State, a: Action)
    requires Owned(s)
    ensures Owned(Next(policy, s, a)) && KeepsKids(s.accounts, Next(policy, s, a).accounts)
  {
  }

  lemma {:induction false} CountsReadKidsOnly(before: map<AccountId, Account>, after: map<AccountId, Account>,
                                              rows: seq<Success>, kid: Kid, from: real, to: real)
    requires KeepsKids(before, after) && forall i :: 0 <= i < |rows| ==> rows[i].account in before
    ensures CountWithin(before, rows, kid, from, to) == CountWithin(after, rows, kid, from, to)
  {
    if rows != [] {
      CountsReadKidsOnly(before, after, rows[..|rows| - 1], kid, from, to);
    }
  }

  /** Truncating to the second never hides a row of the span from the count. */
  lemma {:induction false} SpanIsCounted(accounts: map<AccountId, Account>, rows: seq<Success>, kid: Kid,
                                         from: real, to: real, start: real)
    requires start <= from
    ensures CountWithin(accounts, rows, kid, from, to) <= CountSince(accounts, rows, kid, start.Floor)
  {
    if rows != [] {
      SpanIsCounted(accounts, rows[..|rows| - 1], kid, from, to, start);
    }
  }

  lemma OneMoreRow(accounts: map<AccountId, Account>, rows: seq<Success>, row: Success, kid: Kid, from: real, to: real)
    ensures CountWithin(accounts, rows + [row], kid, from, to) ==
            CountWithin(accounts, rows, kid, from, to) +
            if OfKid(accounts, row, kid) && from <= row.at <= to then 1 else 0
  {
    assert (rows + [row])[..|rows|] == rows;
  }

  /** A row stamped in the span was let through by a cutoff that looked back over all of it. */
  lemma AdmittedMeansRoom(policy: Policy, s: State, q: Request, from: real, to: real)
    requires policy.limit > 0 && policy.window.Some? && Check(policy, s, q).None?
    requires to == from + policy.window.value as real && q.cutoffRead <= q.stampRead <= to
    ensures CountWithin(s.accounts, s.successes, s.accounts[q.account].kid, from, to) < policy.limit
  {
    var start := q.cutoffRead - policy.window.value as real;
    SpanIsCounted(s.accounts, s.successes, s.accounts[q.account].kid, from, to, start);
  }

  lemma RolloverKeepsBound(policy: Policy, s: State, q: Request, kid: Kid, from: real, to: real)
    requires policy.limit > 0 && policy.window.Some? && q.cutoffRead <= q.stampRead && Owned(s)
    requires to == from + policy.window.value as real
    requires CountWithin(s.accounts, s.successes, kid, from, to) <= policy.limit
    ensures var t := Rolled(policy, s, q); CountWithin(t.accounts, t.successes, kid, from, to) <= policy.limit
  {
    if Check(policy, s, q).None? {
      var t := Rolled(policy, s, q);
      var row := Success(q.account, q.stampRead);
      CountsReadKidsOnly(s.accounts, t.accounts, s.successes, kid, from, to);
      OneMoreRow(t.accounts, s.successes, row, kid, from, to);
      if OfKid(t.accounts, row, kid) && q.stampRead <= to {
        AdmittedMeansRoom(policy, s, q, from, to);
      }
    }
  }

  lemma StepKeepsBound(policy: Policy, s: State, a: Action, kid: Kid, from: real)
    requires policy.limit > 0 && policy.window.Some? && Owned(s)
    requires a.Rollover? ==> a.q.cutoffRead <= a.q.stampRead
    requires CountWithin(s.accounts, s.successes, kid, from, from + policy.window.value as real) <= policy.limit
    ensures var t := Next(policy, s, a);
            CountWithin(t.accounts, t.successes, kid, from, from + policy.window.value as real) <= policy.limit
  {
    if a.Rollover? {
      RolloverKeepsBound(policy, s, a.q, kid, from, from + policy.window.value as real);
    } else {
      var t := Next(policy, s, a);
      StepKeepsKids(policy, s, a);
      CountsReadKidsOnly(s.accounts, t.accounts, s.successes, kid, from, from + policy.window.value as real);
    }
  }

  /**
   Every span of `window` seconds holds at most `limit` successful key changes per
   kid, across all accounts of that kid, over any run, whichever accounts are
   created and deactivated meanwhile.
   */
  lemma {:induction false} KeyChangesAreLimited(policy: Policy, s: State, actions: seq<Action>, kid: Kid, from: real)
    requires policy.limit > 0 && policy.window.Some? && s.successes == []
    requires forall a :: a in actions && a.Rollover? ==> a.q.cutoffRead <= a.q.stampRead
    ensures var t := End(policy, s, actions);
            Owned(t) &&
            CountWithin(t.accounts, t.successes, kid, from, from + policy.window.value as real) <= policy.limit
  {
    if actions != [] {
      var earlier, last := actions[..|actions| - 1], actions[|actions| - 1];
      KeyChangesAreLimited(policy, s, earlier, kid, from);
      assert last in actions;
      StepKeepsBound(policy, End(policy, s, earlier), last, kid, from);
      StepKeepsKids(policy, End(policy, s, earlier), last);
    }
  }

  /** Were the row stamped before the cutoff is read, the bound would not hold. */
  lemma EarlyStampBreaksTheBound()
    ensures var s := State(map[0 := Account(7, 0, true)], []);
            var policy := Policy(1, Some(10));
            var t := End(policy, s, [Rollover(Request(0, 0, 1, 5.0, 5.0)), Rollover(Request(0, 1, 2, 20.0, 6.0))]);
            CountWithin(t.accounts, t.successes, 7, 0.0, 10.0) == 2
  {
    var s := State(map[0 := Account(7, 0, true)], []);
    var policy := Policy(1, Some(10));
    var a, b := Rollover(Request(0, 0, 1, 5.0, 5.0)), Rollover(Request(0, 1, 2, 20.0, 6.0));
    assert [a, b][..1] == [a] && [a][..0] == [];
    assert End(policy, s, []) == s;
    var s1 := State(map[0 := Account(7, 1, true)], [Success(0, 5.0)]);
    assert Next(policy, s, a) == s1;
    assert s1.successes[..0] == [];
    assert CountSince(s1.accounts, s1.successes, 7, 10) == 0;
    var s2 := State(map[0 := Account(7, 2, true)], [Success(0, 5.0), Success(0, 6.0)]);
    assert Next(policy, s1, b) == s2;
    assert s2.successes[..1] == s1.successes;
    assert CountWithin(s2.accounts, s1.successes, 7, 0.0, 10.0) == 1;
  }

  /** The success rows of accounts of one kid whose second is not before a given one. */
  ghost function RecentRows(accounts: map<AccountId, Account>, rows: seq<Success>, kid: Kid, second: int)
    : (places: set<nat>)
  {
    set i: nat | i < |rows| && rows[i].account in accounts && accounts[rows[i].account].kid == kid &&
                 rows[i].at.Floor >= second
  }

  lemma {:induction false} CountIsOfRecentRows(accounts: map<AccountId, Account>, rows: seq<Success>, kid: Kid,
                                               second: int)
    ensures CountSince(accounts, rows, kid, second) == |RecentRows(accounts, rows, kid, second)|
  {
    var recent := RecentRows(accounts, rows, kid, second);
    if rows == [] {
      assert recent == {};
    } else {
      var n := |rows| - 1;
      CountIsOfRecentRows(accounts, rows[..n], kid, second);
      var earlier := RecentRows(accounts, rows[..n], kid, second);
      assert recent == if n in recent then earlier + {n} else earlier;
    }
  }

  /** The rollovers of the kid that the window of this request still covers, to the second. */
  ghost function Covered(policy: Policy, s: State, q: Request): (places: set<nat>)
    requires q.account in s.accounts && policy.window.Some?
  {
    RecentRows(s.accounts, s.successes, s.accounts[q.account].kid,
               (q.cutoffRead - policy.window.value as real).Floor)
  }

  /**
   A rollover goes through exactly if the account is valid and still has the key that
   signed, the new key is nobody else's, and either no limit is set or the policy is
   complete and fewer rows than the limit lie in the window.  Otherwise the first of
   these that fails names the failure.
   */
  lemma RolloverSucceedsIff(policy: Policy, s: State, q: Request)
    ensures Check(policy, s, q).None? <==>
            && q.account in s.accounts && s.accounts[q.account].valid && s.accounts[q.account].thumbprint == q.expected
            && (policy.limit > 0 ==>
                  policy.window.Some? && policy.window.value >= 1 && |Covered(policy, s, q)| < policy.limit)
            && forall a :: a in s.accounts && s.accounts[a].thumbprint == q.newKey ==> a == q.account
    ensures Check(policy, s, q) == Some(Stale) <==>
            !(q.account in s.accounts && s.accounts[q.account].valid && s.accounts[q.account].thumbprint == q.expected)
    ensures Check(policy, s, q).Some? && Check(policy, s, q).value.RateLimited? ==>
              && policy.limit > 0 && q.account in s.accounts && policy.window.Some?
              && Check(policy, s, q).value.count == |Covered(policy, s, q)| >= policy.limit
    ensures Check(policy, s, q) == Some(Misconfigured) ==>
              policy.limit > 0 && (policy.window.None? || policy.window.value < 1)
    ensures Check(policy, s, q) == Some(Duplicate) ==>
              exists a :: a in s.accounts && a != q.account && s.accounts[a].thumbprint == q.newKey
  {
    if q.account in s.accounts && policy.window.Some? {
      CountIsOfRecentRows(s.accounts, s.successes, s.accounts[q.account].kid, CutoffOf(policy, q));
    }
  }

  ghost predicate UniqueKeys(accounts: map<AccountId, Account>) {
    forall a, b | a in accounts && b in accounts && a != b :: accounts[a].thumbprint != accounts[b].thumbprint
  }

  /** Key, audit row and uniqueness move together, and a rollover can be replayed by no one. */
  lemma RotationIsAtomic(policy: Policy, s: State, q: Request, again: Request)
    requires UniqueKeys(s.accounts) && q.newKey != q.expected
    requires again.account == q.account && again.expected == q.expected
    ensures var t := Rolled(policy, s, q);
            && UniqueKeys(t.accounts) && KeepsKids(s.accounts, t.accounts) && t.accounts.Keys == s.accounts.Keys
            && (t.accounts != s.accounts <==> |t.successes| == |s.successes| + 1)
            && (t.accounts != s.accounts ==> Check(policy, t, again) == Some(Stale))
  {
    var t := Rolled(policy, s, q);
    if Check(policy, s, q).None? {
      assert t.accounts[q.account].thumbprint != s.accounts[q.account].thumbprint;
    }
  }

  class AccountStore {
    var accounts: map<AccountId, Account>
    var successes: seq<Success>

    function Abstract(): (s: State)
      reads this
    {
      State(accounts, successes)
    }

    method CountRecent(kid: Kid, cutoff: int) returns (count: nat)
      ensures count == CountSince(accounts, successes, kid, cutoff)
    {
      count := 0;
      for i := 0 to |successes|
        invariant count == CountSince(accounts, successes[..i], kid, cutoff)
      {
        if OfKid(accounts, successes[i], kid) && successes[i].at.Floor >= cutoff {
          count := count + 1;
        }
        assert successes[..i + 1][..i] == successes[..i];
      }
      assert successes[..|successes|] == successes;
    }

    method UpdateAccountKeyWithAudit(policy: Policy, q: Request) returns (failure: Option<Failure>)
      modifies this
      ensures failure == Check(policy, old(Abstract()), q)
      ensures Abstract() == Rolled(policy, old(Abstract()), q)
      ensures failure.None? ==>
                && q.account in old(accounts) && old(accounts)[q.account].valid
                && old(accounts)[q.account].thumbprint == q.expected
                && accounts == old(accounts)[q.account := old(accounts)[q.account].(thumbprint := q.newKey)]
                && successes == old(successes) + [Success(q.account, q.stampRead)]
      ensures failure.Some? ==> accounts == old(accounts) && successes == old(successes)
    {
      if q.account !in accounts || accounts[q.account].thumbprint != q.expected || !accounts[q.account].valid {
        return Some(Stale);
      }
      if policy.limit > 0 {
        if policy.window.None? || policy.window.value < 1 {
          return Some(Misconfigured);
        }
        var count := CountRecent(accounts[q.account].kid, CutoffOf(policy, q));
        if count >= policy.limit {
          return Some(RateLimited(count));
        }
      }
      if a :| a in accounts && a != q.account && accounts[a].thumbprint == q.newKey {
        return Some(Duplicate);
      }
      accounts := accounts[q.account := accounts[q.account].(thumbprint := q.newKey)];
      successes := successes + [Success(q.account, q.stampRead)];
      failure := None;
    }
  }
}
