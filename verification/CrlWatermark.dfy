/** The newest CRL already acted on, per CA, and the confirmations that move it. */
module CrlWatermark {
  import opened Prelude
  import opened Timestamps

  type IssuerKey = nat
  type Serial = nat

  /** The CRL Number column: text that parses as an integer, or does not. */
  datatype Number = Numeral(n: int) | Garbage

  datatype Mark = Mark(number: Option<Number>, thisUpdate: string)

  datatype Verdict = First | Newer | Equal | Older | Indeterminate

  /** `datetime.fromisoformat`, on the one form CRL timestamps are stored in. */
  ghost function FromIso(text: string): (stamp: Option<Stamp>) {
    if exists t :: ValidStamp(t) && IsoFormat(t) == text then
      var t :| ValidStamp(t) && IsoFormat(t) == text;
      Some(t)
    else None
  }

  predicate BothNumerals(a: Option<Number>, b: Option<Number>) {
    a.Some? && b.Some? && a.value.Numeral? && b.value.Numeral?
  }

  /** The verdict on a freshly verified document, against what has been acted on. */
  ghost function CompareToWatermark(seen: Option<Mark>, number: Option<Number>, thisUpdate: Option<string>)
    : (verdict: Verdict)
  {
    if seen.None? then First
    else if BothNumerals(number, seen.value.number) then
      var (served, stored) := (number.value.n, seen.value.number.value.n);
      if served > stored then Newer else if served == stored then Equal else Older
    else if thisUpdate.None? then Indeterminate
    else
      var (served, stored) := (FromIso(thisUpdate.value), FromIso(seen.value.thisUpdate));
      if served.None? || stored.None? then Indeterminate
      else if Before(stored.value, served.value) then Newer
      else if served == stored then Equal
      else Older
  }

  /** The test made again inside the confirming transaction, on text. */
  predicate Advances(seen: Option<Mark>, served: Mark) {
    if seen.None? then true
    else if BothNumerals(served.number, seen.value.number) then served.number.value.n > seen.value.number.value.n
    else TextLess(seen.value.thisUpdate, served.thisUpdate)
  }

  lemma IsoReadsBack(t: Stamp)
    requires ValidStamp(t)
    ensures FromIso(IsoFormat(t)) == Some(t)
  {
    var u :| ValidStamp(u) && IsoFormat(u) == IsoFormat(t) && FromIso(IsoFormat(t)) == Some(u);
    IsoIsInjective(t, u);
  }

  predicate WellFormed(seen: Option<Mark>, stored: Stamp) {
    seen.Some? ==> ValidStamp(stored) && seen.value.thisUpdate == IsoFormat(stored)
  }

  /** On well-formed timestamps the two tests never disagree. */
  lemma AdvancesIffNewerOrFirst(seen: Option<Mark>, stored: Stamp, number: Option<Number>, t: Stamp)
    requires WellFormed(seen, stored) && ValidStamp(t)
    ensures Advances(seen, Mark(number, IsoFormat(t))) <==>
            CompareToWatermark(seen, number, Some(IsoFormat(t))) in {First, Newer}
  {
    if seen.Some? {
      IsoReadsBack(t);
      IsoReadsBack(stored);
      IsoOrderIsChronological(stored, t);
    }
  }

  /** Two numbers decide alone, whatever the timestamps say. */
  lemma NumbersDecide(seen: Mark, m: int, n: int, thisUpdate: Option<string>)
    requires seen.number == Some(Numeral(m))
    ensures var verdict := CompareToWatermark(Some(seen), Some(Numeral(n)), thisUpdate);
            && verdict in {Newer, Equal, Older}
            && (verdict == Newer <==> n > m) && (verdict == Equal <==> n == m) && (verdict == Older <==> n < m)
  {
  }

  lemma BeforeIsTotal(a: Stamp, b: Stamp)
    ensures Before(a, b) || a == b || Before(b, a)
    ensures !(Before(a, b) && Before(b, a)) && !Before(a, a)
  {
  }

  /** Unless both documents are numbered, their timestamps decide. */
  lemma TimesDecide(seen: Mark, stored: Stamp, number: Option<Number>, served: Stamp)
    requires ValidStamp(stored) && ValidStamp(served) && seen.thisUpdate == IsoFormat(stored)
    requires !(number.Some? && number.value.Numeral? && seen.number.Some? && seen.number.value.Numeral?)
    ensures var verdict := CompareToWatermark(Some(seen), number, Some(IsoFormat(served)));
            && verdict in {Newer, Equal, Older}
            && (verdict == Newer <==> Before(stored, served)) && (verdict == Equal <==> served == stored)
            && (verdict == Older <==> Before(served, stored))
  {
    IsoReadsBack(stored);
    IsoReadsBack(served);
    BeforeIsTotal(stored, served);
  }

  /** There is no verdict exactly if a timestamp is needed and one of the two does not read as one. */
  lemma UndecidedIff(seen: Option<Mark>, number: Option<Number>, thisUpdate: Option<string>)
    ensures CompareToWatermark(seen, number, thisUpdate) == First <==> seen.None?
    ensures CompareToWatermark(seen, number, thisUpdate) == Indeterminate <==>
            && seen.Some?
            && !(number.Some? && number.value.Numeral? && seen.value.number.Some? && seen.value.number.value.Numeral?)
            && (thisUpdate.None? || (forall t | ValidStamp(t) :: IsoFormat(t) != thisUpdate.value) ||
                forall t | ValidStamp(t) :: IsoFormat(t) != seen.value.thisUpdate)
  {
  }

  // --- Confirmations ------------------------------------------------------------------

  /** Whether a certificate is in a status that can be confirmed, and was. */
  datatype Cert = Cert(confirmable: bool, confirmed: bool)

  datatype State = State(certs: map<Serial, Cert>, marks: map<IssuerKey, Mark>, audits: seq<Serial>)

  /** One committed confirmation: the serial, and the document it was decided on. */
  datatype Commit = Commit(serial: Serial, evidence: Option<(IssuerKey, Mark)>)

  function MarkOf(s: State, k: IssuerKey): (mark: Option<Mark>) {
    if k in s.marks then Some(s.marks[k]) else None
  }

  /** The compare-and-set on the certificate row. */
  predicate Wins(s: State, c: Commit) {
    c.serial in s.certs && s.certs[c.serial].confirmable && !s.certs[c.serial].confirmed
  }

  predicate Moves(s: State, c: Commit) {
    Wins(s, c) && c.evidence.Some? && c.evidence.value.1.thisUpdate != "" &&
    Advances(MarkOf(s, c.evidence.value.0), c.evidence.value.1)
  }

  function Next(s: State, c: Commit): (t: State) {
    if !Wins(s, c) then s
    else State(s.certs[c.serial := Cert(true, true)],
               if Moves(s, c) then s.marks[c.evidence.value.0 := c.evidence.value.1] else s.marks,
               s.audits + [c.serial])
  }

  /** Reads and fetches happen at any earlier time, so commits arrive with any document. */
  function End(s: State, commits: seq<Commit>): (t: State)
    decreases |commits|
  {
    if commits == [] then s else Next(End(s, commits[..|commits| - 1]), commits[|commits| - 1])
  }

  /** The documents of CA `k` that confirmations committed, in order. */
  function ActedOn(s: State, commits: seq<Commit>, k: IssuerKey): (documents: seq<Mark>)
    decreases |commits|
  {
    if commits == [] then []
    else
      var earlier, c := commits[..|commits| - 1], commits[|commits| - 1];
      ActedOn(s, earlier, k) +
      if Wins(End(s, earlier), c) && c.evidence.Some? && c.evidence.value.0 == k && c.evidence.value.1.thisUpdate != ""
      then [c.evidence.value.1] else []
  }

  predicate Numbered(m: Mark) { m.number.Some? && m.number.value.Numeral? }

  function NumberOf(m: Mark): (n: int)
    requires Numbered(m)
  {
    m.number.value.n
  }

  /** The stored mark carries a number, was acted on, and no number acted on exceeds it. */
  ghost predicate IsMaximum(stored: Option<Mark>, documents: seq<Mark>) {
    && (stored.None? <==> documents == [])
    && (stored.Some? ==> stored.value in documents && Numbered(stored.value))
    && (stored.Some? ==> forall m :: m in documents && Numbered(m) ==> NumberOf(m) <= NumberOf(stored.value))
  }

  /**
   For a CA whose documents all carry a number, after any interleaving of
   confirmations the stored watermark is the maximum among those acted on.
   */
  lemma {:induction false} WatermarkIsTheMaximum(s: State, commits: seq<Commit>, k: IssuerKey)
    requires k !in s.marks && forall m :: m in ActedOn(s, commits, k) ==> Numbered(m)
    ensures IsMaximum(MarkOf(End(s, commits), k), ActedOn(s, commits, k))
    decreases |commits|
  {
    if commits != [] {
      var earlier := commits[..|commits| - 1];
      assert forall m :: m in ActedOn(s, earlier, k) ==> m in ActedOn(s, commits, k);
      WatermarkIsTheMaximum(s, earlier, k);
    }
  }

  // --- When the number is kept --------------------------------------------------------

  /** The commit replaces the watermark of `k` by a document without a number. */
  predicate Displaces(s: State, c: Commit, k: IssuerKey) {
    Moves(s, c) && c.evidence.value.0 == k && !Numbered(c.evidence.value.1)
  }

  /** A numbered mark of `k` is still there after `later`, numbered and not lower. */
  predicate KeepsNumber(before: State, later: State, k: IssuerKey) {
    k in before.marks && Numbered(before.marks[k]) ==>
      k in later.marks && Numbered(later.marks[k]) && NumberOf(before.marks[k]) <= NumberOf(later.marks[k])
  }

  function After(s: State, commits: seq<Commit>, n: nat): (t: State)
    requires n <= |commits|
  {
    End(s, commits[..n])
  }

  lemma AfterOneMore(s: State, commits: seq<Commit>, n: nat)
    requires n < |commits|
    ensures After(s, commits, n + 1) == Next(After(s, commits, n), commits[n])
  {
    assert commits[..n + 1][..n] == commits[..n];
  }

  /** One step keeps a numbered mark exactly if it does not displace it. */
  lemma StepKeepsNumberIff(s: State, commits: seq<Commit>, k: IssuerKey, n: nat)
    requires n < |commits|
    ensures KeepsNumber(After(s, commits, n), After(s, commits, n + 1), k) <==> !LosesNumber(s, commits, k, n)
  {
    AfterOneMore(s, commits, n);
  }

  /** Commit `n` takes a numbered watermark of `k` away. */
  predicate LosesNumber(s: State, commits: seq<Commit>, k: IssuerKey, n: nat)
    requires n < |commits|
  {
    var before := After(s, commits, n);
    k in before.marks && Numbered(before.marks[k]) && Displaces(before, commits[n], k)
  }

  lemma {:induction false} KeptNumber(s: State, commits: seq<Commit>, k: IssuerKey, i: nat, j: nat)
    requires i <= j <= |commits| && forall n | 0 <= n < |commits| :: !LosesNumber(s, commits, k, n)
    ensures KeepsNumber(After(s, commits, i), After(s, commits, j), k)
    decreases j - i
  {
    if i < j {
      KeptNumber(s, commits, k, i, j - 1);
      assert !LosesNumber(s, commits, k, j - 1);
      StepKeepsNumberIff(s, commits, k, j - 1);
    }
  }

  /** From any point of the run to any later one, the number of `k` is kept. */
  ghost predicate AlwaysKept(s: State, commits: seq<Commit>, k: IssuerKey) {
    forall i, j | 0 <= i <= j <= |commits| :: KeepsNumber(After(s, commits, i), After(s, commits, j), k)
  }

  /**
   Over a whole run the number of a CA's watermark is kept - it is neither lost nor
   lowered, not even for a while - exactly if no confirmation replaces a numbered
   watermark of it by an unnumbered document.
   */
  lemma NumberIsKeptIff(s: State, commits: seq<Commit>, k: IssuerKey)
    ensures AlwaysKept(s, commits, k) <==> forall n | 0 <= n < |commits| :: !LosesNumber(s, commits, k, n)
  {
    if AlwaysKept(s, commits, k) {
      forall n | 0 <= n < |commits|
        ensures !LosesNumber(s, commits, k, n)
      {
        assert KeepsNumber(After(s, commits, n), After(s, commits, n + 1), k);
        StepKeepsNumberIff(s, commits, k, n);
      }
    }
    if forall n | 0 <= n < |commits| :: !LosesNumber(s, commits, k, n) {
      forall i, j | 0 <= i <= j <= |commits|
        ensures KeepsNumber(After(s, commits, i), After(s, commits, j), k)
      {
        KeptNumber(s, commits, k, i, j);
      }
    }
  }

  ghost predicate MaximumAt(s: State, commits: seq<Commit>, k: IssuerKey, n: nat)
    requires n <= |commits|
  {
    IsMaximum(MarkOf(After(s, commits, n), k), ActedOn(s, commits[..n], k))
  }

  lemma OneMoreKeepsMaximum(s: State, commits: seq<Commit>, k: IssuerKey, n: nat)
    requires n < |commits| && MaximumAt(s, commits, k, n) && !Displaces(After(s, commits, n), commits[n], k)
    ensures MaximumAt(s, commits, k, n + 1)
  {
    AfterOneMore(s, commits, n);
    assert commits[..n + 1][..n] == commits[..n];
  }

  lemma {:induction false} UndisplacedIsMaximum(s: State, commits: seq<Commit>, k: IssuerKey, n: nat)
    requires k !in s.marks && n <= |commits|
    requires forall i | 0 <= i < n :: !Displaces(After(s, commits, i), commits[i], k)
    ensures MaximumAt(s, commits, k, n)
  {
    if n > 0 {
      UndisplacedIsMaximum(s, commits, k, n - 1);
      OneMoreKeepsMaximum(s, commits, k, n - 1);
    }
  }

  /**
   The watermark is at every moment the maximum of the numbers acted on so far
   exactly if no confirmation ever moves it to an unnumbered document.
   */
  lemma AlwaysTheMaximumIff(s: State, commits: seq<Commit>, k: IssuerKey)
    requires k !in s.marks
    ensures (forall n | 0 <= n <= |commits| :: MaximumAt(s, commits, k, n)) <==>
            (forall n | 0 <= n < |commits| :: !Displaces(After(s, commits, n), commits[n], k))
  {
    if forall n | 0 <= n <= |commits| :: MaximumAt(s, commits, k, n) {
      forall n | 0 <= n < |commits|
        ensures !Displaces(After(s, commits, n), commits[n], k)
      {
        AfterOneMore(s, commits, n);
        assert MaximumAt(s, commits, k, n + 1);
      }
    }
    if forall n | 0 <= n < |commits| :: !Displaces(After(s, commits, n), commits[n], k) {
      forall n | 0 <= n <= |commits|
        ensures MaximumAt(s, commits, k, n)
      {
        UndisplacedIsMaximum(s, commits, k, n);
      }
    }
  }

  /** How often a serial was audited as confirmed. */
  function Times(audits: seq<Serial>, serial: Serial): (count: nat) {
    if audits == [] then 0
    else Times(audits[..|audits| - 1], serial) + if audits[|audits| - 1] == serial then 1 else 0
  }

  /** A serial is confirmed at most once, and is audited exactly when it is. */
  lemma {:induction false} ConfirmedOnceWithAudit(s: State, commits: seq<Commit>, serial: Serial)
    requires serial in s.certs && !s.certs[serial].confirmed
    ensures serial in End(s, commits).certs && End(s, commits).certs[serial].confirmable == s.certs[serial].confirmable
    ensures Times(End(s, commits).audits, serial) ==
            Times(s.audits, serial) + if End(s, commits).certs[serial].confirmed then 1 else 0
    decreases |commits|
  {
    if commits != [] {
      ConfirmedOnceWithAudit(s, commits[..|commits| - 1], serial);
      var before := End(s, commits[..|commits| - 1]);
      var c := commits[|commits| - 1];
      assert (before.audits + [c.serial])[..|before.audits|] == before.audits;
    }
  }

  /** The commit won, was decided on `mark` for CA `k`, and its serial ended up confirmed and audited. */
  ghost predicate Confirmed(s: State, commits: seq<Commit>, n: nat, k: IssuerKey, mark: Mark) {
    && n < |commits| && Wins(After(s, commits, n), commits[n]) && commits[n].evidence == Some((k, mark))
    && commits[n].serial in End(s, commits).certs && End(s, commits).certs[commits[n].serial].confirmed
    && commits[n].serial in End(s, commits).audits
  }

  lemma ConfirmedStays(s: State, commits: seq<Commit>, n: nat, k: IssuerKey, mark: Mark)
    requires commits != [] && Confirmed(s, commits[..|commits| - 1], n, k, mark)
    ensures Confirmed(s, commits, n, k, mark)
  {
    assert commits[..|commits| - 1][..n] == commits[..n];
  }

  /**
   Whatever watermark a run leaves, some confirmation of that run put it there, and
   its serial is confirmed and audited: no watermark without its confirmation.
   */
  lemma {:induction false} EveryMarkWasConfirmed(s: State, commits: seq<Commit>, k: IssuerKey)
    requires k !in s.marks && k in End(s, commits).marks
    ensures exists n :: Confirmed(s, commits, n, k, End(s, commits).marks[k])
    decreases |commits|
  {
    var last := |commits| - 1;
    var before := End(s, commits[..last]);
    if Moves(before, commits[last]) && commits[last].evidence.value.0 == k {
      assert Confirmed(s, commits, last, k, End(s, commits).marks[k]);
    } else {
      EveryMarkWasConfirmed(s, commits[..last], k);
      var n :| Confirmed(s, commits[..last], n, k, before.marks[k]);
      ConfirmedStays(s, commits, n, k, before.marks[k]);
    }
  }

  const Noon := Stamp(2026, 1, 1, 12, 0, 0)

  /**
   Without numbers on every document there is no maximum: an unnumbered document
   in between lets the number go from 10 back to 5.
   */
  lemma UnnumberedDocumentLosesTheMaximum()
    ensures var s := State(map[1 := Cert(true, false), 2 := Cert(true, false), 3 := Cert(true, false)], map[], []);
            var commits := [Commit(1, Some((0, Mark(Some(Numeral(10)), IsoFormat(Noon))))),
                            Commit(2, Some((0, Mark(None, IsoFormat(Noon.(minute := 1)))))),
                            Commit(3, Some((0, Mark(Some(Numeral(5)), IsoFormat(Noon.(minute := 2))))))];
            0 in End(s, commits).marks && End(s, commits).marks[0].number == Some(Numeral(5))
  {
    var s := State(map[1 := Cert(true, false), 2 := Cert(true, false), 3 := Cert(true, false)], map[], []);
    var a := Commit(1, Some((0, Mark(Some(Numeral(10)), IsoFormat(Noon)))));
    var b := Commit(2, Some((0, Mark(None, IsoFormat(Noon.(minute := 1))))));
    var c := Commit(3, Some((0, Mark(Some(Numeral(5)), IsoFormat(Noon.(minute := 2))))));
    IsoOrderIsChronological(Noon, Noon.(minute := 1));
    IsoOrderIsChronological(Noon.(minute := 1), Noon.(minute := 2));
    assert [a, b, c][..2] == [a, b] && [a, b][..1] == [a] && [a][..0] == [];
    assert End(s, []) == s;
    var s1 := Next(s, a);
    assert End(s, [a]) == s1 && s1.marks == map[0 := a.evidence.value.1];
    var s2 := Next(s1, b);
    assert End(s, [a, b]) == s2 && s2.marks == map[0 := b.evidence.value.1];
    assert End(s, [a, b, c]) == Next(s2, c);
  }

  // --- The store ----------------------------------------------------------------------

  class RevocationStore {
    var certs: map<Serial, Cert>
    var marks: map<IssuerKey, Mark>
    var audits: seq<Serial>

    ghost function Abstract(): (s: State)
      reads this
    {
      State(certs, marks, audits)
    }

    /** Forward, never backward; true if it moved. */
    method AdvanceCrlWatermark(k: IssuerKey, served: Mark) returns (moved: bool)
      modifies this`marks
      ensures moved <==> Advances(if k in old(marks) then Some(old(marks)[k]) else None, served)
      ensures marks == if moved then old(marks)[k := served] else old(marks)
      ensures k !in old(marks) ==> moved
      ensures k in old(marks) ==>
                var seen := old(marks)[k];
                moved <==> if served.number.Some? && served.number.value.Numeral? && seen.number.Some? &&
                              seen.number.value.Numeral?
                           then served.number.value.n > seen.number.value.n
                           else TextLess(seen.thisUpdate, served.thisUpdate)
    {
      if k in marks {
        var advances := false;
        var existing := marks[k];
        if served.number.Some? && existing.number.Some? {
          if served.number.value.Numeral? && existing.number.value.Numeral? {
            advances := served.number.value.n > existing.number.value.n;
          } else {
            advances := TextLess(existing.thisUpdate, served.thisUpdate);
          }
        } else {
          advances := TextLess(existing.thisUpdate, served.thisUpdate);
        }
        if !advances {
          return false;
        }
      }
      marks := marks[k := served];
      moved := true;
    }

    /** One transaction: the flag, the watermark and the audit row, or nothing. */
    method ConfirmCaRevocationWithAudit(c: Commit) returns (won: bool)
      modifies this
      ensures Abstract() == Next(old(Abstract()), c)
      ensures won <==> Wins(old(Abstract()), c)
      ensures won <==> c.serial in old(certs) && old(certs)[c.serial].confirmable && !old(certs)[c.serial].confirmed
      ensures !won ==> certs == old(certs) && marks == old(marks) && audits == old(audits)
      ensures won ==> certs == old(certs)[c.serial := old(certs)[c.serial].(confirmed := true)]
      ensures won ==> audits == old(audits) + [c.serial]
      ensures won && (c.evidence.None? || c.evidence.value.1.thisUpdate == "") ==> marks == old(marks)
    {
      if c.serial !in certs || !certs[c.serial].confirmable || certs[c.serial].confirmed {
        return false;
      }
      certs := certs[c.serial := certs[c.serial].(confirmed := true)];
      if c.evidence.Some? && c.evidence.value.1.thisUpdate != "" {
        var _ := AdvanceCrlWatermark(c.evidence.value.0, c.evidence.value.1);
      }
      audits := audits + [c.serial];
      won := true;
    }
  }
}
