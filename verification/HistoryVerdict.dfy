/**
 Whether a repository without a publication declaration was ever declared public,
 judged over the commit graph of HEAD and every ref.
 */
module HistoryVerdict {
  import opened Prelude

  type Commit = nat
  type Oid = nat

  /** The declaration file of one commit: none, not a regular file, or a blob. */
  datatype Entry = Missing | Irregular | Blob(oid: Oid)

  datatype Line = Line(commit: Commit, parents: seq<Commit>)

  datatype Refusal = ShortOutput | DeclaredOtherwise

  /** `isPrivate` says whether a blob's text cleanly declares private-until-review. */
  datatype History = History(graph: map<Commit, seq<Commit>>, present: map<Commit, Entry>, isPrivate: Oid -> bool)

  predicate WellFormed(h: History) { h.graph.Keys == h.present.Keys }

  predicate CleanPrivate(h: History, c: Commit)
    requires c in h.present
  {
    h.present[c].Blob? && h.isPrivate(h.present[c].oid)
  }

  /** A declaration that is not a clean private one. */
  predicate Exposed(h: History, c: Commit)
    requires c in h.present
  {
    h.present[c] != Missing && !CleanPrivate(h, c)
  }

  // --- The definition by paths ---------------------------------------------------------

  /** A walk along parents. */
  ghost predicate IsPath(h: History, path: seq<Commit>) {
    && path != [] && (forall i :: 0 <= i < |path| ==> path[i] in h.graph)
    && forall i :: 0 <= i < |path| - 1 ==> path[i + 1] in h.graph[path[i]]
  }

  /**
   From `c` to a commit whose declaration is there and is not a blob that cleanly says
   private, with no commit before it whose declaration is such a blob.
   */
  ghost predicate ExposingPath(h: History, c: Commit, path: seq<Commit>)
    requires WellFormed(h)
  {
    && IsPath(h, path) && path[0] == c
    && (var last := h.present[path[|path| - 1]];
        last == Irregular || (last.Blob? && !h.isPrivate(last.oid)))
    && forall i :: 0 <= i < |path| - 1 ==> !(h.present[path[i]].Blob? && h.isPrivate(h.present[path[i]].oid))
  }

  ghost predicate Reaches(h: History, c: Commit)
    requires WellFormed(h)
  {
    exists path :: ExposingPath(h, c, path)
  }

  /** The parent of an undeclared commit passes its exposure on. */
  ghost predicate ParentReaches(h: History, c: Commit)
    requires WellFormed(h) && c in h.graph
  {
    exists p :: p in h.graph[c] && p in h.graph && Reaches(h, p)
  }

  lemma ReachesByParents(h: History, c: Commit)
    requires WellFormed(h) && c in h.graph
    ensures Reaches(h, c) <==> Exposed(h, c) || (h.present[c] == Missing && ParentReaches(h, c))
  {
    if Exposed(h, c) {
      assert ExposingPath(h, c, [c]);
    } else if Reaches(h, c) {
      var path :| ExposingPath(h, c, path);
      var rest := path[1..];
      assert ExposingPath(h, path[1], rest);
    }
    if h.present[c] == Missing && ParentReaches(h, c) {
      var p :| p in h.graph[c] && p in h.graph && Reaches(h, p);
      var path :| ExposingPath(h, p, path);
      ExtendPath(h, c, p, path);
    }
  }

  lemma ExtendPath(h: History, c: Commit, p: Commit, path: seq<Commit>)
    requires WellFormed(h) && c in h.graph && p in h.graph[c] && !CleanPrivate(h, c)
    requires ExposingPath(h, p, path)
    ensures ExposingPath(h, c, [c] + path)
  {
    var longer := [c] + path;
    forall i | 0 <= i < |longer| - 1
      ensures longer[i + 1] in h.graph[longer[i]] && !CleanPrivate(h, longer[i])
    {
      if i > 0 {
        assert longer[i] == path[i - 1] && longer[i + 1] == path[i];
      }
    }
  }

  // --- The verdict ---------------------------------------------------------------------------

  /** What `--topo-order` promises: each commit once, children before their parents. */
  ghost predicate ChildrenFirst(walk: seq<Line>) {
    && (forall i, j :: 0 <= i < j < |walk| ==> walk[i].commit != walk[j].commit)
    && forall i, j :: 0 <= j <= i < |walk| ==> walk[j].commit !in walk[i].parents
  }

  ghost predicate LineOk(h: History, line: Line, entry: Entry) {
    && line.commit in h.graph && h.graph[line.commit] == line.parents
    && line.commit in h.present && h.present[line.commit] == entry
  }

  ghost predicate Walked(walk: seq<Line>, c: Commit) {
    exists i :: 0 <= i < |walk| && walk[i].commit == c
  }

  /** The history that the walk and the batch check, line by line, describe together. */
  ghost predicate Describes(h: History, walk: seq<Line>, checked: seq<Entry>, isPrivate: Oid -> bool)
    requires |checked| == |walk|
  {
    && WellFormed(h) && h.isPrivate == isPrivate
    && (forall c :: c in h.graph <==> Walked(walk, c))
    && (forall i {:trigger LineOk(h, walk[i], checked[i])} :: 0 <= i < |walk| ==> LineOk(h, walk[i], checked[i]))
  }

  /** Only one history fits, so the verdict is about it. */
  lemma DescribesOne(h: History, g: History, walk: seq<Line>, checked: seq<Entry>, isPrivate: Oid -> bool)
    requires |checked| == |walk| && Describes(h, walk, checked, isPrivate) && Describes(g, walk, checked, isPrivate)
    ensures h == g
  {
    forall c | c in h.graph
      ensures c in g.graph && h.graph[c] == g.graph[c] && h.present[c] == g.present[c]
    {
      var i :| 0 <= i < |walk| && walk[i].commit == c;
      assert LineOk(h, walk[i], checked[i]) && LineOk(g, walk[i], checked[i]);
    }
    assert h.graph.Keys == g.graph.Keys;
  }

  method BuildHistory(walk: seq<Line>, checked: seq<Entry>, isPrivate: Oid -> bool) returns (h: History)
    requires |checked| == |walk| && ChildrenFirst(walk)
    ensures Describes(h, walk, checked, isPrivate)
  {
    var graph: map<Commit, seq<Commit>> := map[];
    var present: map<Commit, Entry> := map[];
    for i := 0 to |walk|
      invariant graph.Keys == present.Keys
      invariant forall c :: c in graph <==> exists j :: 0 <= j < i && walk[j].commit == c
      invariant forall j :: 0 <= j < i ==>
                  graph[walk[j].commit] == walk[j].parents && present[walk[j].commit] == checked[j]
    {
      graph := graph[walk[i].commit := walk[i].parents];
      present := present[walk[i].commit := checked[i]];
    }
    h := History(graph, present, isPrivate);
    forall i | 0 <= i < |walk|
      ensures LineOk(h, walk[i], checked[i])
    {
    }
  }

  /** A commit of the walk that no other walked commit descends from. */
  ghost predicate Tip(h: History, c: Commit) {
    c in h.graph && forall d :: d in h.graph ==> c !in h.graph[d]
  }

  ghost predicate NeverExposed(h: History, head: Commit)
    requires WellFormed(h)
  {
    head in h.graph && !Reaches(h, head) && forall t :: Tip(h, t) ==> !Reaches(h, t)
  }

  /** The commits some walked commit names as a parent. */
  function Parented(walk: seq<Line>): (commits: set<Commit>) {
    set i, p | 0 <= i < |walk| && p in walk[i].parents :: p
  }

  lemma TipsAreExact(walk: seq<Line>, checked: seq<Entry>, h: History, tips: set<Commit>)
    requires |checked| == |walk| && Describes(h, walk, checked, h.isPrivate)
    requires tips == set i | 0 <= i < |walk| && walk[i].commit !in Parented(walk) :: walk[i].commit
    ensures forall t :: t in tips <==> Tip(h, t)
  {
    forall t
      ensures t in tips <==> Tip(h, t)
    {
      if t in tips {
        forall d | d in h.graph
          ensures t !in h.graph[d]
        {
          var i :| 0 <= i < |walk| && walk[i].commit == d;
          assert LineOk(h, walk[i], checked[i]);
        }
      }
      if Tip(h, t) {
        forall i | 0 <= i < |walk|
          ensures t !in walk[i].parents
        {
          assert LineOk(h, walk[i], checked[i]);
        }
        assert t !in Parented(walk);
      }
    }
  }

  method FindTips(walk: seq<Line>, ghost checked: seq<Entry>, ghost h: History) returns (tips: set<Commit>)
    requires |checked| == |walk| && Describes(h, walk, checked, h.isPrivate)
    ensures forall t :: t in tips <==> Tip(h, t)
  {
    var parented := Parented(walk);
    tips := set i | 0 <= i < |walk| && walk[i].commit !in parented :: walk[i].commit;
    TipsAreExact(walk, checked, h, tips);
  }

  /** Which blobs read as a clean private declaration. */
  method ReadBlobs(present: map<Commit, Entry>, isPrivate: Oid -> bool) returns (privateBlob: map<Oid, bool>)
    ensures forall c :: c in present && present[c].Blob? ==>
              present[c].oid in privateBlob && privateBlob[present[c].oid] == isPrivate(present[c].oid)
  {
    privateBlob := map[];
    var rest := present.Keys;
    while rest != {}
      invariant rest <= present.Keys
      invariant forall c :: c in present && c !in rest && present[c].Blob? ==>
                  present[c].oid in privateBlob && privateBlob[present[c].oid] == isPrivate(present[c].oid)
      decreases |rest|
    {
      var c :| c in rest;
      rest := rest - {c};
      if present[c].Blob? {
        privateBlob := privateBlob[present[c].oid := isPrivate(present[c].oid)];
      }
    }
  }

  /** One commit, once its walked parents are decided. */
  lemma DecidedByParents(h: History, c: Commit, safe: map<Commit, bool>, verdict: bool)
    requires WellFormed(h) && c in h.graph
    requires forall p :: p in h.graph[c] && p in h.graph ==> p in safe
    requires forall p :: p in safe ==> p in h.graph && (safe[p] <==> !Reaches(h, p))
    requires verdict == if h.present[c] != Missing then CleanPrivate(h, c)
                        else forall p :: p in h.graph[c] && p in safe ==> safe[p]
    ensures verdict <==> !Reaches(h, c)
  {
    ReachesByParents(h, c);
  }

  /** Parents first: every commit is safe exactly when no exposing path leaves it. */
  method DecideAll(walk: seq<Line>, ghost checked: seq<Entry>, h: History) returns (safe: map<Commit, bool>)
    requires |checked| == |walk| && ChildrenFirst(walk) && Describes(h, walk, checked, h.isPrivate)
    ensures safe.Keys == h.graph.Keys
    ensures forall c :: c in safe ==> (safe[c] <==> !Reaches(h, c))
  {
    var privateBlob := ReadBlobs(h.present, h.isPrivate);
    safe := map[];
    var k := |walk|;
    while k > 0
      invariant 0 <= k <= |walk|
      invariant forall c :: c in safe <==> exists i :: k <= i < |walk| && walk[i].commit == c
      invariant forall c :: c in safe ==> c in h.graph && (safe[c] <==> !Reaches(h, c))
    {
      k := k - 1;
      var c, parents := walk[k].commit, walk[k].parents;
      assert LineOk(h, walk[k], checked[k]);
      var entry := h.present[c];
      var verdict: bool;
      if entry != Missing {
        verdict := entry.Blob? && privateBlob[entry.oid];
      } else {
        verdict := forall p :: p in parents && p in safe ==> safe[p];
      }
      forall p | p in parents && p in h.graph
        ensures p in safe
      {
        var i :| 0 <= i < |walk| && walk[i].commit == p;
        assert i > k;
      }
      DecidedByParents(h, c, safe, verdict);
      safe := safe[c := verdict];
    }
  }

  /**
   Absence of the declaration is a skip exactly when, from HEAD and from every
   tip, each walk along parents to a declaration that is not private first passes
   a clean private one.
   */
  method AbsentDeclarationVerdict(walk: seq<Line>, head: Commit, checked: seq<Entry>, isPrivate: Oid -> bool)
    returns (r: Result<(), Refusal>, ghost h: History)
    requires ChildrenFirst(walk)
    ensures |checked| != |walk| <==> r == Err(ShortOutput)
    ensures |checked| == |walk| ==>
              Describes(h, walk, checked, isPrivate) && (r.Ok? <==> NeverExposed(h, head))
  {
    if |checked| != |walk| {
      return Err(ShortOutput), History(map[], map[], isPrivate);
    }
    var history := BuildHistory(walk, checked, isPrivate);
    h := history;
    var tips := FindTips(walk, checked, history);
    var safe := DecideAll(walk, checked, history);
    if head in safe && safe[head] && forall t :: t in tips ==> safe[t] {
      return Ok(()), h;
    }
    r := Err(DeclaredOtherwise);
  }
}
