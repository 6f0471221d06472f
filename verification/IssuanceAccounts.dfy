/** Account locks order every CA submission against deactivation and key change. */
module IssuanceAccounts {
  import opened Prelude
  import opened OrderTable
  import opened IssuanceProtocol
  import opened IssuanceInvariant

  lemma AppendKeepsSubmissions(log: seq<Entry>, e: Entry)
    requires SubmissionsOk(log)
    requires e.Submitted? ==> KeyAt(log, e.account) == Some(e.key) && Deactivated(e.account) !in log
    ensures SubmissionsOk(log + [e])
  {
    var more := log + [e];
    forall i | 0 <= i < |more| && more[i].Submitted?
      ensures KeyAt(more[..i], more[i].account) == Some(more[i].key) && Deactivated(more[i].account) !in more[..i]
    {
      assert more[..i] == log[..i];
      assert i == |log| ==> log[..i] == log;
    }
  }

  lemma AppendKeepsLog(accounts: map<AccountId, Account>, log: seq<Entry>, after: map<AccountId, Account>, e: Entry)
    requires LogOk(accounts, log)
    requires e.Submitted? ==> after == accounts && e.account in accounts &&
                              accounts[e.account].key == e.key && accounts[e.account].active
    requires !e.Submitted? ==> after.Keys == accounts.Keys + {e.account} &&
                               forall a :: a in accounts && a != e.account ==> after[a] == accounts[a]
    requires e.Created? ==> e.account !in accounts && after[e.account].key == e.key && after[e.account].active
    requires e.KeyChanged? ==> e.account in accounts && accounts[e.account].active && after[e.account].key == e.key
    requires e.Deactivated? ==>
               e.account in accounts && !after[e.account].active && after[e.account].key == accounts[e.account].key
    ensures LogOk(after, log + [e])
  {
    forall a | a in after
      ensures KeyAt(log + [e], a) == Some(after[a].key)
    {
    }
    forall a | Deactivated(a) in log + [e]
      ensures a in after && !after[a].active
    {
      assert Deactivated(a) in log || e == Deactivated(a);
    }
    AppendKeepsSubmissions(log, e);
  }

  /** One call moves, without a lock it did not have; accounts and locks stand. */
  ghost predicate QuietMove(s: State, t: State, c: CallId) {
    && c in s.calls && c in t.calls && t.calls == s.calls[c := t.calls[c]]
    && t.calls[c].account == s.calls[c].account && t.calls[c].key == s.calls[c].key
    && (UnderLock(t.calls[c].pc) ==> UnderLock(s.calls[c].pc))
    && (t.calls[c].pc.LeaseOk? ==> s.calls[c].pc.AccountOk? || s.calls[c].pc.LeaseOk?)
    && (t.calls[c].pc.AccountOk? ==>
          s.calls[c].pc.AccountOk? || Usable(s.accounts, s.allowlist, s.calls[c].account, s.calls[c].key))
    && SameAccounts(s, t)
  }

  ghost predicate SameAccounts(s: State, t: State) {
    && t.mutators == s.mutators && t.locks == s.locks
    && t.accounts == s.accounts && t.allowlist == s.allowlist && t.log == s.log
  }

  lemma QuietMoveKeeps(s: State, t: State, c: CallId)
    requires AccountInv(s) && QuietMove(s, t, c)
    ensures AccountInv(t)
  {
  }

  lemma FrontIsQuiet(m: Regime, s: State, a: FrontStep)
    requires FrontEnabled(m, s, a) && !a.Begin? && !a.LockAccount? && !a.ClientCancel? && !a.Retry? && !a.Leave?
    ensures QuietMove(s, FrontNext(m, s, a), a.c)
  {
  }

  lemma EvidenceIsQuiet(m: Regime, s: State, a: BackStep)
    requires BackEnabled(m, s, a)
    requires a.SaveOrphan? || a.NoteOrphan? || a.Record? || a.SaveRejected? || a.NoteRejected?
    ensures QuietMove(s, BackNext(m, s, a), a.c)
  {
  }

  lemma ReclaimIsQuiet(m: Regime, s: State, a: ReclaimStep)
    requires ReclaimEnabled(m, s, a)
    ensures SameAccounts(s, ReclaimNext(m, s, a)) && ReclaimNext(m, s, a).calls == s.calls
  {
  }

  lemma FrontKeeps(m: Regime, s: State, a: FrontStep)
    requires AccountInv(s) && FrontEnabled(m, s, a)
    ensures AccountInv(FrontNext(m, s, a))
  {
    if !a.Begin? && !a.LockAccount? {
      if !a.ClientCancel? && !a.Retry? && !a.Leave? {
        FrontIsQuiet(m, s, a);
      }
      QuietMoveKeeps(s, FrontNext(m, s, a), a.c);
    }
  }

  /** The submission itself: the account read under the lock still stands. */
  lemma SubmitKeeps(m: Regime, s: State, c: CallId, r: ReqId, outcome: Outcome)
    requires AccountInv(s) && BackEnabled(m, s, Submit(c, r, outcome))
    ensures AccountInv(DoSubmit(s, c, r, outcome))
  {
    var k := s.calls[c];
    assert Usable(s.accounts, s.allowlist, k.account, k.key);
    AppendKeepsLog(s.accounts, s.log, s.accounts, Submitted(k.account, k.key));
  }

  lemma QuietBackKeeps(m: Regime, s: State, a: BackStep)
    requires AccountInv(s) && BackEnabled(m, s, a) && !a.Submit? && !a.UnlockAccount? && !a.Exit?
    ensures AccountInv(BackNext(m, s, a))
  {
    if a.SaveOrphan? || a.NoteOrphan? || a.Record? || a.SaveRejected? || a.NoteRejected? {
      EvidenceIsQuiet(m, s, a);
    }
    QuietMoveKeeps(s, BackNext(m, s, a), a.c);
  }

  lemma BackKeeps(m: Regime, s: State, a: BackStep)
    requires AccountInv(s) && BackEnabled(m, s, a)
    ensures AccountInv(BackNext(m, s, a))
  {
    match a
    case Submit(c, r, outcome) => SubmitKeeps(m, s, c, r, outcome);
    case UnlockAccount(c) =>
    case Exit(c) =>
    case _ => QuietBackKeeps(m, s, a);
  }

  /** Only the lock holder writes the account, so no approved call sees it change. */
  lemma MutationKeepsApprovals(s: State, u: MutatorId, account: Account)
    requires LocksOk(s.calls, s.mutators, s.locks) && ApprovalsOk(s.accounts, s.allowlist, s.calls)
    requires u in s.mutators && s.mutators[u].pc == MChecked
    ensures ApprovalsOk(s.accounts[s.mutators[u].account := account], s.allowlist, s.calls)
  {
  }

  lemma MutationKeepsMutators(s: State, u: MutatorId, account: Account)
    requires LocksOk(s.calls, s.mutators, s.locks) && MutatorsApproved(s.accounts, s.allowlist, s.mutators)
    requires u in s.mutators && s.mutators[u].pc == MChecked
    ensures MutatorsApproved(s.accounts[s.mutators[u].account := account], s.allowlist,
                             s.mutators[u := s.mutators[u].(pc := MDone)])
  {
  }

  lemma MutationKeepsLog(s: State, k: Mutator)
    requires LogOk(s.accounts, s.log) && MutationCommits(s, k, true)
    ensures LogOk(s.accounts[k.account := Mutated(s.accounts[k.account], k.kind)], s.log + [MutationEntry(k)])
  {
    var after := s.accounts[k.account := Mutated(s.accounts[k.account], k.kind)];
    AppendKeepsLog(s.accounts, s.log, after, MutationEntry(k));
  }

  /** A mutator that is through holds its lock still, and has nothing left to be approved. */
  lemma DoneKeeps(s: State, u: MutatorId)
    requires LocksOk(s.calls, s.mutators, s.locks) && MutatorsApproved(s.accounts, s.allowlist, s.mutators)
    requires u in s.mutators && s.mutators[u].pc == MChecked
    ensures LocksOk(s.calls, s.mutators[u := s.mutators[u].(pc := MDone)], s.locks)
    ensures MutatorsApproved(s.accounts, s.allowlist, s.mutators[u := s.mutators[u].(pc := MDone)])
  {
  }

  lemma MutatorWriteKeeps(m: Regime, s: State, u: MutatorId, admitted: bool)
    requires AccountInv(s) && u in s.mutators && s.mutators[u].pc == MChecked
    ensures AccountInv(DoMutatorWrite(s, u, admitted))
  {
    var k, t := s.mutators[u], DoMutatorWrite(s, u, admitted);
    DoneKeeps(s, u);
    assert t.calls == s.calls && t.locks == s.locks && t.allowlist == s.allowlist;
    assert t.mutators == s.mutators[u := k.(pc := MDone)];
    if MutationCommits(s, k, admitted) {
      MutationKeepsApprovals(s, u, Mutated(s.accounts[k.account], k.kind));
      MutationKeepsMutators(s, u, Mutated(s.accounts[k.account], k.kind));
      MutationKeepsLog(s, k);
    } else {
      assert t.accounts == s.accounts && t.log == s.log;
    }
  }

  lemma MutatorKeeps(m: Regime, s: State, a: MutatorStep)
    requires AccountInv(s) && MutatorEnabled(m, s, a)
    ensures AccountInv(MutatorNext(m, s, a))
  {
    match a
    case MutatorWrite(u, admitted) => MutatorWriteKeeps(m, s, u, admitted);
    case _ =>
  }

  lemma TableKeeps(m: Regime, s: State, a: TableStep)
    requires AccountInv(s) && TableEnabled(m, s, a)
    ensures AccountInv(TableNext(m, s, a))
  {
    match a
    case CreateAccount(acct, key, kid) =>
      AppendKeepsLog(s.accounts, s.log, TableNext(m, s, a).accounts, Created(acct, key));
    case _ =>
  }

  lemma StepKeepsAccounts(m: Regime, s: State, a: Action)
    requires AccountInv(s) && Enabled(m, s, a)
    ensures AccountInv(Next(m, s, a))
  {
    match a
    case Front(f) => FrontKeeps(m, s, f);
    case Back(b) => BackKeeps(m, s, b);
    case Table(t) => TableKeeps(m, s, t);
    case Reclaiming(q) => ReclaimIsQuiet(m, s, q);
    case Mutating(u) => MutatorKeeps(m, s, u);
  }
}
