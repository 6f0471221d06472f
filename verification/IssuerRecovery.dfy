/**
 Recovering the issuers of a stored certificate from the chains of others.  A
 certificate is identified with its fingerprint; what its fields say and which key
 signed it are uninterpreted.
 */
module IssuerRecovery {
  import opened Prelude

  type Cert = nat
  type Name = nat
  type RowId = nat

  datatype Facts = Facts(subject: Cert -> Name, issuer: Cert -> Name, isCa: Cert -> bool, signed: (Cert, Cert) -> bool)

  /** One PEM entry of a stored chain: the certificates it holds, or none if it does not parse. */
  type Entry = Option<seq<Cert>>

  datatype Row = Row(id: RowId, chain: seq<Entry>)

  datatype Candidate = Candidate(cert: Cert, source: RowId)

  const MAX_CHAIN_DEPTH := 8

  /** The name is a filter; the signature decides. */
  predicate Issued(facts: Facts, parent: Cert, child: Cert) {
    facts.subject(parent) == facts.issuer(child) && facts.signed(parent, child)
  }

  // --- What the stored chains hold ---------------------------------------------------------

  function CasIn(facts: Facts, certs: seq<Cert>, source: RowId): (cas: seq<Candidate>) {
    if certs == [] then []
    else
      var c := certs[|certs| - 1];
      CasIn(facts, certs[..|certs| - 1], source) + if facts.isCa(c) then [Candidate(c, source)] else []
  }

  function CertsOf(entry: Entry): (certs: seq<Cert>) {
    if entry.Some? then entry.value else []
  }

  function CasOfChain(facts: Facts, chain: seq<Entry>, source: RowId): (cas: seq<Candidate>) {
    if chain == [] then []
    else CasOfChain(facts, chain[..|chain| - 1], source) + CasIn(facts, CertsOf(chain[|chain| - 1]), source)
  }

  /** Every CA certificate stored, in the order the scan meets them. */
  function CasOfRows(facts: Facts, rows: seq<Row>): (cas: seq<Candidate>) {
    if rows == [] then []
    else CasOfRows(facts, rows[..|rows| - 1]) + CasOfChain(facts, rows[|rows| - 1].chain, rows[|rows| - 1].id)
  }

  function CertsIn(found: seq<Candidate>): (certs: set<Cert>) {
    set i | 0 <= i < |found| :: found[i].cert
  }

  /** The first occurrence of each certificate. */
  function Distinct(found: seq<Candidate>): (kept: seq<Candidate>) {
    if found == [] then []
    else
      var earlier, last := Distinct(found[..|found| - 1]), found[|found| - 1];
      if last.cert in CertsIn(earlier) then earlier else earlier + [last]
  }

  ghost predicate NoRepeats(path: seq<Candidate>) {
    forall i, j :: 0 <= i < j < |path| ==> path[i].cert != path[j].cert
  }

  lemma {:induction false} DistinctIsExact(found: seq<Candidate>)
    ensures CertsIn(Distinct(found)) == CertsIn(found) && NoRepeats(Distinct(found))
    ensures forall c :: c in Distinct(found) ==> c in found
  {
    if found != [] {
      var earlier := found[..|found| - 1];
      DistinctIsExact(earlier);
      assert found == earlier + [found[|found| - 1]];
      AppendCert(earlier, found[|found| - 1]);
      AppendCert(Distinct(earlier), found[|found| - 1]);
    }
  }

  lemma AppendCert(found: seq<Candidate>, c: Candidate)
    ensures CertsIn(found + [c]) == CertsIn(found) + {c.cert}
  {
    var more := found + [c];
    assert more[|found|] == c;
    assert forall i :: 0 <= i < |found| ==> more[i] == found[i];
  }

  lemma {:induction false} DistinctGrows(a: seq<Candidate>, b: seq<Candidate>)
    ensures Distinct(a) <= Distinct(a + b)
  {
    if b == [] {
      assert a + b == a;
    } else {
      DistinctGrows(a, b[..|b| - 1]);
      assert (a + b)[..|a + b| - 1] == a + b[..|b| - 1];
    }
  }

  // --- What is among them ---------------------------------------------------------------------

  /** Some entry of the chain holds the certificate. */
  ghost predicate Holds(chain: seq<Entry>, cert: Cert) {
    exists j :: 0 <= j < |chain| && chain[j].Some? && cert in chain[j].value
  }

  /** Some row of that id does. */
  ghost predicate StoredIn(rows: seq<Row>, cert: Cert, id: RowId) {
    exists i :: 0 <= i < |rows| && rows[i].id == id && Holds(rows[i].chain, cert)
  }

  ghost predicate Stored(rows: seq<Row>, cert: Cert) {
    exists i :: 0 <= i < |rows| && Holds(rows[i].chain, cert)
  }

  lemma {:induction false} CasInAreCas(facts: Facts, certs: seq<Cert>, source: RowId, c: Candidate)
    ensures c in CasIn(facts, certs, source) <==> c.source == source && facts.isCa(c.cert) && c.cert in certs
  {
    if certs != [] {
      CasInAreCas(facts, certs[..|certs| - 1], source, c);
      assert certs == certs[..|certs| - 1] + [certs[|certs| - 1]];
    }
  }

  lemma OneEntryMore(chain: seq<Entry>, cert: Cert)
    requires chain != []
    ensures Holds(chain, cert) <==> Holds(chain[..|chain| - 1], cert) || cert in CertsOf(chain[|chain| - 1])
  {
    if cert in CertsOf(chain[|chain| - 1]) {
      assert chain[|chain| - 1].Some? && cert in chain[|chain| - 1].value;
    }
    var earlier := chain[..|chain| - 1];
    if j :| 0 <= j < |earlier| && earlier[j].Some? && cert in earlier[j].value {
      assert chain[j].Some? && cert in chain[j].value;
    }
    if j :| 0 <= j < |chain| && chain[j].Some? && cert in chain[j].value {
      assert j < |earlier| ==> earlier[j] == chain[j];
    }
  }

  lemma {:induction false} CasOfChainAreCas(facts: Facts, chain: seq<Entry>, source: RowId, c: Candidate)
    ensures c in CasOfChain(facts, chain, source) <==> c.source == source && facts.isCa(c.cert) && Holds(chain, c.cert)
  {
    if chain != [] {
      CasOfChainAreCas(facts, chain[..|chain| - 1], source, c);
      CasInAreCas(facts, CertsOf(chain[|chain| - 1]), source, c);
      OneEntryMore(chain, c.cert);
    }
  }

  lemma OneRowMore(rows: seq<Row>, cert: Cert, id: RowId)
    requires rows != []
    ensures var last := rows[|rows| - 1];
            StoredIn(rows, cert, id) <==>
            StoredIn(rows[..|rows| - 1], cert, id) || (last.id == id && Holds(last.chain, cert))
  {
    var earlier := rows[..|rows| - 1];
    if i :| 0 <= i < |earlier| && earlier[i].id == id && Holds(earlier[i].chain, cert) {
      assert rows[i].id == id && Holds(rows[i].chain, cert);
    }
    if i :| 0 <= i < |rows| && rows[i].id == id && Holds(rows[i].chain, cert) {
      assert i < |earlier| ==> earlier[i] == rows[i];
    }
  }

  /** The candidates are the CA certificates of the stored chains, each with a row that holds it. */
  lemma {:induction false} CandidatesAreStoredCas(facts: Facts, rows: seq<Row>, c: Candidate)
    ensures c in CasOfRows(facts, rows) <==> facts.isCa(c.cert) && StoredIn(rows, c.cert, c.source)
  {
    if rows != [] {
      var last := rows[|rows| - 1];
      CandidatesAreStoredCas(facts, rows[..|rows| - 1], c);
      CasOfChainAreCas(facts, last.chain, last.id, c);
      OneRowMore(rows, c.cert, c.source);
    }
  }

  lemma StoredCasAreFound(facts: Facts, rows: seq<Row>, cert: Cert)
    ensures cert in CertsIn(CasOfRows(facts, rows)) <==> facts.isCa(cert) && Stored(rows, cert)
  {
    var found := CasOfRows(facts, rows);
    if i :| 0 <= i < |found| && found[i].cert == cert {
      CandidatesAreStoredCas(facts, rows, found[i]);
    }
    if i :| facts.isCa(cert) && 0 <= i < |rows| && Holds(rows[i].chain, cert) {
      var c := Candidate(cert, rows[i].id);
      CandidatesAreStoredCas(facts, rows, c);
      assert c in found;
    }
  }

  lemma KeptAreStored(facts: Facts, rows: seq<Row>, kept: seq<Candidate>)
    requires kept <= Distinct(CasOfRows(facts, rows))
    ensures NoRepeats(kept) && forall c :: c in kept ==> facts.isCa(c.cert) && StoredIn(rows, c.cert, c.source)
    ensures kept == Distinct(CasOfRows(facts, rows)) ==>
              forall cert :: cert in CertsIn(kept) <==> facts.isCa(cert) && Stored(rows, cert)
  {
    DistinctIsExact(CasOfRows(facts, rows));
    forall c | c in kept
      ensures facts.isCa(c.cert) && StoredIn(rows, c.cert, c.source)
    {
      assert c in Distinct(CasOfRows(facts, rows));
      CandidatesAreStoredCas(facts, rows, c);
    }
    forall cert
      ensures cert in CertsIn(CasOfRows(facts, rows)) <==> facts.isCa(cert) && Stored(rows, cert)
    {
      StoredCasAreFound(facts, rows, cert);
    }
  }

  // --- The scan ------------------------------------------------------------------------------

  /** Adds one certificate; false when the candidate cap stops the scan. */
  method Consider(facts: Facts, certificate: Cert, source: RowId, candidates: seq<Candidate>, maxCandidates: nat)
    returns (more: seq<Candidate>, truncated: bool)
    requires |candidates| <= maxCandidates
    ensures truncated <==>
            facts.isCa(certificate) && certificate !in CertsIn(candidates) && |candidates| == maxCandidates
    ensures truncated ==> more == candidates
    ensures !truncated ==>
              more == if facts.isCa(certificate) && certificate !in CertsIn(candidates)
                      then candidates + [Candidate(certificate, source)] else candidates
    ensures |more| <= maxCandidates
  {
    more, truncated := candidates, false;
    if !facts.isCa(certificate) || certificate in CertsIn(candidates) {
      return;
    }
    if |candidates| >= maxCandidates {
      truncated := true;
      return;
    }
    more := candidates + [Candidate(certificate, source)];
  }

  /** One certificate has been added to what was found, unless the cap stopped it. */
  lemma ConsiderStep(facts: Facts, found: seq<Candidate>, certs: seq<Cert>, k: nat, source: RowId)
    requires k < |certs|
    ensures found + CasIn(facts, certs[..k + 1], source) ==
            found + CasIn(facts, certs[..k], source) +
            if facts.isCa(certs[k]) then [Candidate(certs[k], source)] else []
  {
    assert certs[..k + 1][..k] == certs[..k];
  }

  method ScanEntry(facts: Facts, certs: seq<Cert>, source: RowId, ghost found: seq<Candidate>,
                   candidates: seq<Candidate>, maxCandidates: nat)
    returns (more: seq<Candidate>, truncated: bool)
    requires |candidates| <= maxCandidates && candidates == Distinct(found)
    ensures |more| <= maxCandidates && more <= Distinct(found + CasIn(facts, certs, source))
    ensures !truncated <==> more == Distinct(found + CasIn(facts, certs, source))
    ensures truncated ==> |more| == maxCandidates
  {
    more, truncated := candidates, false;
    assert found + CasIn(facts, certs[..0], source) == found;
    for k := 0 to |certs|
      invariant !truncated && |more| <= maxCandidates
      invariant more == Distinct(found + CasIn(facts, certs[..k], source))
    {
      ghost var before := found + CasIn(facts, certs[..k], source);
      ConsiderStep(facts, found, certs, k, source);
      more, truncated := Consider(facts, certs[k], source, more, maxCandidates);
      if truncated {
        StoppedShort(facts, found, certs, k, source);
        return;
      }
      assert (before + [Candidate(certs[k], source)])[..|before|] == before && before + [] == before;
    }
    assert certs[..|certs|] == certs;
  }

  /** A certificate that is new but not taken keeps the scan short of the whole. */
  lemma StoppedShort(facts: Facts, found: seq<Candidate>, certs: seq<Cert>, k: nat, source: RowId)
    requires k < |certs| && facts.isCa(certs[k])
    requires certs[k] !in CertsIn(Distinct(found + CasIn(facts, certs[..k], source)))
    ensures Distinct(found + CasIn(facts, certs[..k], source)) < Distinct(found + CasIn(facts, certs, source))
  {
    var before := found + CasIn(facts, certs[..k], source);
    var c := Candidate(certs[k], source);
    ConsiderStep(facts, found, certs, k, source);
    var rest := CasSuffix(facts, certs, k + 1, source);
    Associate(found, CasIn(facts, certs[..k + 1], source), rest);
    DistinctGrows(before + [c], rest);
    OneMore(before, c);
  }

  lemma OneMore(before: seq<Candidate>, c: Candidate)
    requires c.cert !in CertsIn(Distinct(before))
    ensures Distinct(before + [c]) == Distinct(before) + [c]
  {
    assert (before + [c])[..|before|] == before;
  }

  lemma {:induction false} CasSuffix(facts: Facts, certs: seq<Cert>, k: nat, source: RowId)
    returns (rest: seq<Candidate>)
    requires k <= |certs|
    ensures CasIn(facts, certs, source) == CasIn(facts, certs[..k], source) + rest
  {
    if k == |certs| {
      assert certs[..k] == certs;
      rest := [];
    } else {
      var n := |certs| - 1;
      rest := CasSuffix(facts, certs[..n], k, source);
      assert certs[..n][..k] == certs[..k];
      rest := rest + if facts.isCa(certs[n]) then [Candidate(certs[n], source)] else [];
    }
  }

  lemma {:induction false} ChainSuffix(facts: Facts, chain: seq<Entry>, k: nat, source: RowId)
    returns (rest: seq<Candidate>)
    requires k <= |chain|
    ensures CasOfChain(facts, chain, source) == CasOfChain(facts, chain[..k], source) + rest
  {
    if k == |chain| {
      assert chain[..k] == chain;
      rest := [];
    } else {
      var n := |chain| - 1;
      var earlier := ChainSuffix(facts, chain[..n], k, source);
      assert chain[..n][..k] == chain[..k];
      var here := CasIn(facts, CertsOf(chain[n]), source);
      rest := earlier + here;
      Associate(CasOfChain(facts, chain[..k], source), earlier, here);
    }
  }

  lemma {:induction false} RowSuffix(facts: Facts, rows: seq<Row>, k: nat) returns (rest: seq<Candidate>)
    requires k <= |rows|
    ensures CasOfRows(facts, rows) == CasOfRows(facts, rows[..k]) + rest
  {
    if k == |rows| {
      assert rows[..k] == rows;
      rest := [];
    } else {
      var n := |rows| - 1;
      var earlier := RowSuffix(facts, rows[..n], k);
      assert rows[..n][..k] == rows[..k];
      var here := CasOfChain(facts, rows[n].chain, rows[n].id);
      rest := earlier + here;
      Associate(CasOfRows(facts, rows[..k]), earlier, here);
    }
  }

  lemma Associate(a: seq<Candidate>, b: seq<Candidate>, c: seq<Candidate>)
    ensures a + b + c == a + (b + c)
  {
  }

  lemma ChainStep(facts: Facts, found: seq<Candidate>, chain: seq<Entry>, k: nat, source: RowId)
    requires k < |chain|
    ensures found + CasOfChain(facts, chain[..k + 1], source) ==
            found + CasOfChain(facts, chain[..k], source) + CasIn(facts, CertsOf(chain[k]), source)
  {
    assert chain[..k + 1][..k] == chain[..k];
    Associate(found, CasOfChain(facts, chain[..k], source), CasIn(facts, CertsOf(chain[k]), source));
  }

  lemma ChainGrows(facts: Facts, found: seq<Candidate>, chain: seq<Entry>, k: nat, source: RowId)
    requires k <= |chain|
    ensures Distinct(found + CasOfChain(facts, chain[..k], source)) <=
            Distinct(found + CasOfChain(facts, chain, source))
  {
    var rest := ChainSuffix(facts, chain, k, source);
    Associate(found, CasOfChain(facts, chain[..k], source), rest);
    DistinctGrows(found + CasOfChain(facts, chain[..k], source), rest);
  }

  method ScanChain(facts: Facts, row: Row, ghost found: seq<Candidate>, candidates: seq<Candidate>, maxCandidates: nat)
    returns (more: seq<Candidate>, truncated: bool)
    requires |candidates| <= maxCandidates && candidates == Distinct(found)
    ensures |more| <= maxCandidates && more <= Distinct(found + CasOfChain(facts, row.chain, row.id))
    ensures !truncated <==> more == Distinct(found + CasOfChain(facts, row.chain, row.id))
    ensures truncated ==> |more| == maxCandidates
  {
    more, truncated := candidates, false;
    assert found + CasOfChain(facts, row.chain[..0], row.id) == found;
    for k := 0 to |row.chain|
      invariant !truncated && |more| <= maxCandidates
      invariant more == Distinct(found + CasOfChain(facts, row.chain[..k], row.id))
    {
      ghost var before := found + CasOfChain(facts, row.chain[..k], row.id);
      ChainStep(facts, found, row.chain, k, row.id);
      more, truncated := ScanEntry(facts, CertsOf(row.chain[k]), row.id, before, more, maxCandidates);
      if truncated {
        ChainGrows(facts, found, row.chain, k + 1, row.id);
        return;
      }
    }
    assert row.chain[..|row.chain|] == row.chain;
  }

  /**
   Distinct CA certificates in scan order.  An untruncated scan returns exactly
   those stored; a truncated one ran into one of its two bounds.
   */
  method CollectCandidateIssuers(facts: Facts, rows: seq<Row>, maxRows: nat, maxCandidates: nat)
    returns (candidates: seq<Candidate>, rowsScanned: nat, truncated: bool)
    ensures candidates <= Distinct(CasOfRows(facts, rows))
    ensures !truncated ==> candidates == Distinct(CasOfRows(facts, rows)) && rowsScanned == |rows|
    ensures truncated ==>
              || rowsScanned == maxRows < |rows|
              || (|candidates| == maxCandidates && candidates != Distinct(CasOfRows(facts, rows)))
    ensures |candidates| <= maxCandidates && rowsScanned <= maxRows
    ensures NoRepeats(candidates)
    ensures forall c :: c in candidates ==> facts.isCa(c.cert) && StoredIn(rows, c.cert, c.source)
    ensures !truncated ==> forall cert :: cert in CertsIn(candidates) <==> facts.isCa(cert) && Stored(rows, cert)
  {
    candidates, rowsScanned, truncated := [], 0, false;
    while rowsScanned < |rows|
      invariant !truncated && rowsScanned <= |rows| && rowsScanned <= maxRows
      invariant |candidates| <= maxCandidates && candidates == Distinct(CasOfRows(facts, rows[..rowsScanned]))
    {
      if rowsScanned >= maxRows {
        truncated := true;
        ghost var rest := RowSuffix(facts, rows, rowsScanned);
        DistinctGrows(CasOfRows(facts, rows[..rowsScanned]), rest);
        KeptAreStored(facts, rows, candidates);
        return;
      }
      ghost var before := CasOfRows(facts, rows[..rowsScanned]);
      ghost var here := CasOfChain(facts, rows[rowsScanned].chain, rows[rowsScanned].id);
      assert rows[..rowsScanned + 1][..rowsScanned] == rows[..rowsScanned];
      candidates, truncated := ScanChain(facts, rows[rowsScanned], before, candidates, maxCandidates);
      rowsScanned := rowsScanned + 1;
      if truncated {
        ghost var rest := RowSuffix(facts, rows, rowsScanned);
        DistinctGrows(before + here, rest);
        KeptAreStored(facts, rows, candidates);
        return;
      }
    }
    assert rows[..|rows|] == rows;
    KeptAreStored(facts, rows, candidates);
  }

  // --- The walk ----------------------------------------------------------------------------------

  /** The first unused candidate whose key signed the child. */
  function DirectIssuer(facts: Facts, child: Cert, candidates: seq<Candidate>, consumed: set<Cert>)
    : (r: Option<Candidate>)
    ensures r.Some? ==> r.value in candidates && r.value.cert !in consumed && Issued(facts, r.value.cert, child)
    ensures r.None? ==> forall c :: c in candidates && c.cert !in consumed ==> !Issued(facts, c.cert, child)
    ensures r.Some? ==> facts.subject(r.value.cert) == facts.issuer(child) && facts.signed(r.value.cert, child)
    ensures r.None? ==>
              forall c :: c in candidates && c.cert !in consumed ==>
                !(facts.subject(c.cert) == facts.issuer(child) && facts.signed(c.cert, child))
  {
    if candidates == [] then None
    else if candidates[0].cert !in consumed && Issued(facts, candidates[0].cert, child) then Some(candidates[0])
    else DirectIssuer(facts, child, candidates[1..], consumed)
  }

  function ChildOf(leaf: Cert, path: seq<Candidate>, i: nat): (child: Cert)
    requires i <= |path|
  {
    if i == 0 then leaf else path[i - 1].cert
  }

  predicate SelfIssued(facts: Facts, c: Cert) { facts.subject(c) == facts.issuer(c) }

  /** A link is a candidate that signed the one below; only the top may be self-issued. */
  ghost predicate LinkOk(facts: Facts, leaf: Cert, candidates: seq<Candidate>, path: seq<Candidate>, i: nat)
    requires i < |path|
  {
    && path[i] in candidates && Issued(facts, path[i].cert, ChildOf(leaf, path, i))
    && (i < |path| - 1 ==> !SelfIssued(facts, path[i].cert))
  }

  ghost predicate VerifiedPath(facts: Facts, leaf: Cert, candidates: seq<Candidate>, path: seq<Candidate>) {
    && NoRepeats(path) && |path| <= MAX_CHAIN_DEPTH
    && forall i {:trigger LinkOk(facts, leaf, candidates, path, i)} ::
         0 <= i < |path| ==> LinkOk(facts, leaf, candidates, path, i)
  }

  /** Nothing unused signs the top of the path. */
  ghost predicate Exhausted(facts: Facts, leaf: Cert, candidates: seq<Candidate>, path: seq<Candidate>) {
    forall c :: c in candidates && c.cert !in CertsIn(path) ==> !Issued(facts, c.cert, ChildOf(leaf, path, |path|))
  }

  /** The walk stops at the depth limit, at a self-issued certificate, or when nothing unused signs. */
  ghost predicate Complete(facts: Facts, leaf: Cert, candidates: seq<Candidate>, path: seq<Candidate>) {
    |path| == MAX_CHAIN_DEPTH || Exhausted(facts, leaf, candidates, path) ||
    (path != [] && SelfIssued(facts, path[|path| - 1].cert))
  }

  lemma PathGrows(facts: Facts, leaf: Cert, candidates: seq<Candidate>, path: seq<Candidate>, c: Candidate)
    requires VerifiedPath(facts, leaf, candidates, path) && |path| < MAX_CHAIN_DEPTH
    requires path != [] ==> !SelfIssued(facts, path[|path| - 1].cert)
    requires c in candidates && c.cert !in CertsIn(path) && Issued(facts, c.cert, ChildOf(leaf, path, |path|))
    ensures VerifiedPath(facts, leaf, candidates, path + [c]) && CertsIn(path + [c]) == CertsIn(path) + {c.cert}
  {
    AppendCert(path, c);
    NewCertKeepsDistinct(path, c);
    var more := path + [c];
    forall i | 0 <= i < |more|
      ensures LinkOk(facts, leaf, candidates, more, i)
    {
      assert ChildOf(leaf, more, i) == ChildOf(leaf, path, i);
      if i < |path| {
        assert LinkOk(facts, leaf, candidates, path, i);
      }
    }
  }

  lemma NewCertKeepsDistinct(path: seq<Candidate>, c: Candidate)
    requires NoRepeats(path) && c.cert !in CertsIn(path)
    ensures NoRepeats(path + [c])
  {
    assert forall j :: 0 <= j < |path| ==> path[j].cert in CertsIn(path);
  }

  method BuildVerifiedChain(facts: Facts, leaf: Cert, candidates: seq<Candidate>) returns (path: seq<Candidate>)
    ensures VerifiedPath(facts, leaf, candidates, path)
    ensures Complete(facts, leaf, candidates, path)
    ensures path == [] ==> Exhausted(facts, leaf, candidates, path)
    ensures |path| <= 8 && forall i :: 0 <= i < |path| - 1 ==> facts.subject(path[i].cert) != facts.issuer(path[i].cert)
    ensures |path| < 8 && !Exhausted(facts, leaf, candidates, path) ==>
              path != [] && facts.subject(path[|path| - 1].cert) == facts.issuer(path[|path| - 1].cert)
  {
    path := [];
    var consumed: set<Cert> := {};
    var current := leaf;
    for i := 0 to MAX_CHAIN_DEPTH
      invariant |path| == i && VerifiedPath(facts, leaf, candidates, path)
      invariant consumed == CertsIn(path) && current == ChildOf(leaf, path, i)
      invariant forall j :: 0 <= j < i ==> !SelfIssued(facts, path[j].cert)
    {
      var issuer := DirectIssuer(facts, current, candidates, consumed);
      if issuer.None? {
        return;
      }
      PathGrows(facts, leaf, candidates, path, issuer.value);
      path := path + [issuer.value];
      consumed := consumed + {issuer.value.cert};
      if SelfIssued(facts, issuer.value.cert) {
        return;
      }
      current := issuer.value.cert;
    }
  }

  // --- The use of what was recovered ---------------------------------------------------------------

  /** Some certificate in the chain issued the leaf. */
  ghost predicate Issuable(facts: Facts, leaf: Cert, chain: seq<Entry>) {
    exists i, j :: 0 <= i < |chain| && 0 <= j < |CertsOf(chain[i])| && Issued(facts, CertsOf(chain[i])[j], leaf)
  }

  /** The signer of a leaf in its own stored chain, name and signature both. */
  method IssuingCaCertificate(facts: Facts, leaf: Cert, chain: seq<Entry>) returns (r: Option<Cert>)
    ensures r.Some? <==> Issuable(facts, leaf, chain)
    ensures r.Some? ==> Issued(facts, r.value, leaf) && exists i :: 0 <= i < |chain| && r.value in CertsOf(chain[i])
    ensures r.Some? ==> facts.subject(r.value) == facts.issuer(leaf) && facts.signed(r.value, leaf)
    ensures r.None? ==>
              forall c :: Holds(chain, c) ==> !(facts.subject(c) == facts.issuer(leaf) && facts.signed(c, leaf))
  {
    for i := 0 to |chain|
      invariant forall k, l :: 0 <= k < i && 0 <= l < |CertsOf(chain[k])| ==> !Issued(facts, CertsOf(chain[k])[l], leaf)
    {
      var certs := CertsOf(chain[i]);
      for j := 0 to |certs|
        invariant forall l :: 0 <= l < j ==> !Issued(facts, certs[l], leaf)
      {
        if Issued(facts, certs[j], leaf) {
          return Some(certs[j]);
        }
      }
    }
    forall c | Holds(chain, c)
      ensures !Issued(facts, c, leaf)
    {
      var i :| 0 <= i < |chain| && chain[i].Some? && c in chain[i].value;
      var j :| 0 <= j < |chain[i].value| && chain[i].value[j] == c;
      assert CertsOf(chain[i])[j] == c;
    }
    r := None;
  }

  /** One PEM block per link. */
  function ChainPem(path: seq<Candidate>): (entries: seq<Entry>) {
    seq(|path|, i requires 0 <= i < |path| => Some([path[i].cert]))
  }

  datatype Outcome = Outcome(chain: seq<Entry>, path: seq<Candidate>, rowsScanned: nat, truncated: bool)

  /**
   Whatever is recovered makes the ordinary verifier find a signer of the leaf; if
   the scan was not cut short, something is recovered exactly when some stored CA
   certificate issued the leaf.
   */
  method RecoverIssuerChain(facts: Facts, leaf: Option<Cert>, rows: seq<Row>, maxRows: nat, maxCandidates: nat)
    returns (r: Outcome)
    ensures leaf.None? ==> r.chain == []
    ensures leaf.Some? && r.chain != [] ==>
              Issuable(facts, leaf.value, r.chain) &&
              VerifiedPath(facts, leaf.value, Distinct(CasOfRows(facts, rows)), r.path)
    ensures leaf.Some? && !r.truncated ==>
              (r.chain != [] <==> exists c :: c in CertsIn(CasOfRows(facts, rows)) && Issued(facts, c, leaf.value))
    ensures leaf.Some? && !r.truncated ==> Complete(facts, leaf.value, Distinct(CasOfRows(facts, rows)), r.path)
    ensures r.chain == ChainPem(r.path)
    ensures |r.chain| == |r.path| && forall i :: 0 <= i < |r.path| ==> r.chain[i] == Some([r.path[i].cert])
    ensures leaf.Some? && r.path != [] ==>
              var c := r.path[0].cert;
              && facts.isCa(c) && Stored(rows, c)
              && facts.subject(c) == facts.issuer(leaf.value) && facts.signed(c, leaf.value)
    ensures leaf.Some? && !r.truncated && r.chain == [] ==>
              forall c :: facts.isCa(c) && Stored(rows, c) ==>
                !(facts.subject(c) == facts.issuer(leaf.value) && facts.signed(c, leaf.value))
  {
    if leaf.None? {
      return Outcome([], [], 0, false);
    }
    var candidates, rowsScanned, truncated := CollectCandidateIssuers(facts, rows, maxRows, maxCandidates);
    DistinctIsExact(CasOfRows(facts, rows));
    var path := BuildVerifiedChain(facts, leaf.value, candidates);
    RecoveredIssues(facts, leaf.value, candidates, path);
    PathAmong(facts, leaf.value, candidates, Distinct(CasOfRows(facts, rows)), path);
    FirstIsStored(facts, leaf.value, rows, candidates, path);
    if !truncated && path == [] {
      NoStoredIssuer(facts, rows, leaf.value);
    }
    r := Outcome(ChainPem(path), path, rowsScanned, truncated);
  }

  lemma FirstIsStored(facts: Facts, leaf: Cert, rows: seq<Row>, candidates: seq<Candidate>, path: seq<Candidate>)
    requires VerifiedPath(facts, leaf, candidates, path) && candidates <= Distinct(CasOfRows(facts, rows))
    ensures path != [] ==>
              var c := path[0].cert;
              && facts.isCa(c) && Stored(rows, c)
              && facts.subject(c) == facts.issuer(leaf) && facts.signed(c, leaf)
  {
    if path != [] {
      assert LinkOk(facts, leaf, candidates, path, 0);
      KeptAreStored(facts, rows, candidates);
      var i :| 0 <= i < |rows| && rows[i].id == path[0].source && Holds(rows[i].chain, path[0].cert);
    }
  }

  lemma NoStoredIssuer(facts: Facts, rows: seq<Row>, leaf: Cert)
    requires forall c :: c in CertsIn(CasOfRows(facts, rows)) ==> !Issued(facts, c, leaf)
    ensures forall c :: facts.isCa(c) && Stored(rows, c) ==>
              !(facts.subject(c) == facts.issuer(leaf) && facts.signed(c, leaf))
  {
    forall c | facts.isCa(c) && Stored(rows, c)
      ensures !Issued(facts, c, leaf)
    {
      StoredCasAreFound(facts, rows, c);
    }
  }

  lemma PathAmong(facts: Facts, leaf: Cert, candidates: seq<Candidate>, all: seq<Candidate>, path: seq<Candidate>)
    requires VerifiedPath(facts, leaf, candidates, path) && candidates <= all
    ensures VerifiedPath(facts, leaf, all, path)
  {
    forall i | 0 <= i < |path|
      ensures LinkOk(facts, leaf, all, path, i)
    {
      assert LinkOk(facts, leaf, candidates, path, i);
      var j :| 0 <= j < |candidates| && candidates[j] == path[i];
      assert all[j] == path[i];
    }
  }

  lemma RecoveredIssues(facts: Facts, leaf: Cert, candidates: seq<Candidate>, path: seq<Candidate>)
    requires VerifiedPath(facts, leaf, candidates, path) && (path == [] ==> Exhausted(facts, leaf, candidates, path))
    ensures path != [] ==> Issuable(facts, leaf, ChainPem(path))
    ensures path != [] <==> exists c :: c in CertsIn(candidates) && Issued(facts, c, leaf)
  {
    if path != [] {
      var first := path[0].cert;
      assert LinkOk(facts, leaf, candidates, path, 0);
      assert CertsOf(ChainPem(path)[0])[0] == first;
      var i :| 0 <= i < |candidates| && candidates[i] == path[0];
      assert first in CertsIn(candidates);
    } else {
      forall c | c in CertsIn(candidates)
        ensures !Issued(facts, c, leaf)
      {
        var i :| 0 <= i < |candidates| && candidates[i].cert == c;
        assert candidates[i] in candidates && c !in CertsIn(path);
      }
    }
  }
}
