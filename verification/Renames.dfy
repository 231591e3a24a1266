/** Rename detection: matching paths a side deleted with paths it added. */
module Renames {
  import opened Wrappers
  import opened Sorting
  import opened Leaves

  const RENAME_LIMIT := 7000
  const RENAME_MATRIX_CAP := 10000

  type RenameMap = map<Path, Path>

  function Gone(base: LeafMap, side: LeafMap): LeafMap { map p | p in base && p !in side :: base[p] }

  // ---- What a rename map is ------------------------------------------------------------------

  ghost predicate Injective(m: RenameMap) {
    forall p, q :: p in m && q in m && p != q ==> m[p] != m[q]
  }

  ghost predicate OnlyLeaf(m: LeafMap, p: Path) {
    p in m && forall q :: q in m && m[q] == m[p] ==> q == p
  }

  /** The same leaf, found once among the deletions and once among the additions. */
  ghost predicate ExactPair(dels: LeafMap, adds: LeafMap, d: Path, a: Path) {
    OnlyLeaf(dels, d) && OnlyLeaf(adds, a) && dels[d] == adds[a]
  }

  function Score(repo: Repo, d: Leaf, a: Leaf): Option<int> {
    var x, y := BlobBytes(repo, d.hash), BlobBytes(repo, a.hash);
    if x.None? || y.None? then None else repo.similarity(x.value, y.value)
  }

  /** A pair that is similar enough, with neither end in an exact pair. */
  ghost predicate Similar(repo: Repo, threshold: int, dels: LeafMap, adds: LeafMap, d: Path, a: Path) {
    && d in dels && a in adds
    && (forall a' :: !ExactPair(dels, adds, d, a')) && (forall d' :: !ExactPair(dels, adds, d', a))
    && Score(repo, dels[d], adds[a]).Some? && Score(repo, dels[d], adds[a]).value >= threshold
  }

  /** Of two blobs the deleted one is compared as the old text and the added one as the new. */
  lemma SimilarMeans(repo: Repo, threshold: int, dels: LeafMap, adds: LeafMap, d: Path, a: Path, x: string, y: string)
    requires d in dels && a in adds && dels[d].hash == Blob(x) && adds[a].hash == Blob(y) && {Blob(x), Blob(y)} <= repo.stored
    requires forall d', a' :: d' == d || a' == a ==> !ExactPair(dels, adds, d', a')
    ensures Similar(repo, threshold, dels, adds, d, a) <==> repo.similarity(x, y).Some? && repo.similarity(x, y).value >= threshold
  {
    hide ExactPair;
  }

  ghost function ScoreAt(repo: Repo, dels: LeafMap, adds: LeafMap, d: Path, a: Path): int {
    if d in dels && a in adds then
      match Score(repo, dels[d], adds[a]) { case Some(s) => s case None => 0 }
    else 0
  }

  /** A similar pair that was not chosen shares an end with a chosen one of no smaller score. */
  ghost predicate Blocked(repo: Repo, threshold: int, dels: LeafMap, adds: LeafMap, m: RenameMap, d: Path, a: Path) {
    exists d' :: d' in m && (d' == d || m[d'] == a) && Similar(repo, threshold, dels, adds, d', m[d'])
              && ScoreAt(repo, dels, adds, d', m[d']) >= ScoreAt(repo, dels, adds, d, a)
  }

  ghost function ExactDels(dels: LeafMap, adds: LeafMap): set<Path> {
    set d | d in dels && exists a :: ExactPair(dels, adds, d, a)
  }

  ghost function ExactAdds(dels: LeafMap, adds: LeafMap): set<Path> {
    set a | a in adds && exists d :: ExactPair(dels, adds, d, a)
  }

  predicate Fits(nd: nat, na: nat) {
    nd <= RENAME_LIMIT && na <= RENAME_LIMIT && nd * na <= RENAME_MATRIX_CAP
  }

  /** Few enough candidates are left after the exact pairs to compare every pair. */
  ghost predicate WithinLimits(dels: LeafMap, adds: LeafMap) {
    Fits(|dels.Keys - ExactDels(dels, adds)|, |adds.Keys - ExactAdds(dels, adds)|)
  }

  ghost predicate Matches(dels: LeafMap, adds: LeafMap, m: RenameMap) {
    m.Keys <= dels.Keys && m.Values <= adds.Keys && Injective(m)
  }

  /** An injective matching with every exact pair; beyond the limits nothing else, within
      them a greedy choice of similar pairs. */
  ghost predicate Detected(repo: Repo, threshold: int, dels: LeafMap, adds: LeafMap, m: RenameMap) {
    && Matches(dels, adds, m)
    && (forall d, a :: ExactPair(dels, adds, d, a) ==> d in m && m[d] == a)
    && (forall d :: d in m && !ExactPair(dels, adds, d, m[d]) ==>
          WithinLimits(dels, adds) && Similar(repo, threshold, dels, adds, d, m[d]))
    && (WithinLimits(dels, adds) ==> forall d, a :: Similar(repo, threshold, dels, adds, d, a) ==>
          Blocked(repo, threshold, dels, adds, m, d, a))
  }

  /** A set of at least one pair has one of greatest score. */
  lemma {:induction false} Best(pairs: set<(Path, Path)>, score: (Path, Path) -> int) returns (c: (Path, Path))
    requires pairs != {}
    ensures c in pairs && forall x :: x in pairs ==> score(x.0, x.1) <= score(c.0, c.1)
  {
    var first :| first in pairs;
    var rest := pairs - {first};
    c := first;
    if rest != {} {
      var b := Best(rest, score);
      if score(b.0, b.1) > score(first.0, first.1) { c := b; }
    }
    forall x | x in pairs ensures score(x.0, x.1) <= score(c.0, c.1) {
      if x != first { assert x in rest; }
    }
  }

  ghost predicate DistinctScores(repo: Repo, threshold: int, dels: LeafMap, adds: LeafMap) {
    forall d, a, d', a' ::
      (Similar(repo, threshold, dels, adds, d, a) && Similar(repo, threshold, dels, adds, d', a')
       && ScoreAt(repo, dels, adds, d, a) == ScoreAt(repo, dels, adds, d', a')) ==> d == d' && a == a'
  }

  ghost function Pairs(m: RenameMap): set<(Path, Path)> { set d | d in m :: (d, m[d]) }

  /** When no two similar pairs tie, the outcome does not depend on the order in which the
      hash maps are walked. */
  lemma OneOutcome(repo: Repo, threshold: int, dels: LeafMap, adds: LeafMap, m: RenameMap, n: RenameMap)
    requires Detected(repo, threshold, dels, adds, m) && Detected(repo, threshold, dels, adds, n)
    requires DistinctScores(repo, threshold, dels, adds)
    ensures m == n
  {
    hide Detected, DistinctScores, ScoreAt;
    var diff := (Pairs(m) - Pairs(n)) + (Pairs(n) - Pairs(m));
    if diff != {} {
      var c := Best(diff, (d, a) => ScoreAt(repo, dels, adds, d, a));
      if c in Pairs(m) {
        var x := Rival(repo, threshold, dels, adds, m, n, c);
      } else {
        var x := Rival(repo, threshold, dels, adds, n, m, c);
      }
    }
    SamePairs(m, n);
    SamePairs(n, m);
  }

  lemma SamePairs(m: RenameMap, n: RenameMap)
    requires Pairs(m) <= Pairs(n)
    ensures forall d :: d in m ==> d in n && m[d] == n[d]
  {
    forall d | d in m ensures d in n && m[d] == n[d] { assert (d, m[d]) in Pairs(n); }
  }

  /** A pair that only one outcome chose lost to a better one in the other. */
  lemma Rival(repo: Repo, threshold: int, dels: LeafMap, adds: LeafMap, m: RenameMap, n: RenameMap, c: (Path, Path))
    returns (x: (Path, Path))
    requires Detected(repo, threshold, dels, adds, m) && Detected(repo, threshold, dels, adds, n)
    requires DistinctScores(repo, threshold, dels, adds)
    requires c in Pairs(m) - Pairs(n)
    ensures x in Pairs(n) - Pairs(m) && ScoreAt(repo, dels, adds, x.0, x.1) > ScoreAt(repo, dels, adds, c.0, c.1)
  {
    var d, a := c.0, c.1;
    assert !ExactPair(dels, adds, d, a) by { assert d in n ==> (d, n[d]) in Pairs(n); }
    assert Blocked(repo, threshold, dels, adds, n, d, a);
    var d' :| d' in n && (d' == d || n[d'] == a) && Similar(repo, threshold, dels, adds, d', n[d'])
              && ScoreAt(repo, dels, adds, d', n[d']) >= ScoreAt(repo, dels, adds, d, a);
    x := (d', n[d']);
  }

  /** An unchanged side has no renames. */
  lemma NoRenames(repo: Repo, threshold: int, base: LeafMap, side: LeafMap, m: RenameMap)
    requires Detected(repo, threshold, Gone(base, side), Gone(side, base), m) && base == side
    ensures m == map[]
  {
  }

  // ---- The algorithm, as a function of the order of the hash maps --------------------------------

  datatype Cand = Cand(path: Path, leaf: Leaf)

  ghost predicate Lists(list: seq<Cand>, m: LeafMap) {
    && (forall i, j :: 0 <= i < j < |list| ==> list[i].path != list[j].path)
    && (forall i :: 0 <= i < |list| ==> list[i].path in m && m[list[i].path] == list[i].leaf)
    && (forall p :: p in m ==> exists i :: 0 <= i < |list| && list[i].path == p)
  }

  /** The paths of `base` among `keys` that `side` lacks. */
  function GoneAmong(keys: seq<Path>, base: LeafMap, side: LeafMap): seq<Cand> {
    if keys == [] then []
    else
      var k := keys[|keys| - 1];
      GoneAmong(keys[..|keys| - 1], base, side) + if k in base && k !in side then [Cand(k, base[k])] else []
  }

  function GoneList(order: Order, base: LeafMap, side: LeafMap): seq<Cand> { GoneAmong(order(base.Keys), base, side) }

  ghost predicate OnlyAt(list: seq<Cand>, leaf: Leaf, i: int) {
    0 <= i < |list| && list[i].leaf == leaf && forall j :: 0 <= j < |list| && list[j].leaf == leaf ==> j == i
  }

  /** The index of the only candidate with this leaf. */
  ghost function Only(list: seq<Cand>, leaf: Leaf): (found: Option<nat>)
    ensures found.Some? ==> OnlyAt(list, leaf, found.value)
    ensures found.None? ==> forall i :: !OnlyAt(list, leaf, i)
  {
    if exists i :: OnlyAt(list, leaf, i) then
      var i :| OnlyAt(list, leaf, i);
      Some(i)
    else None
  }

  ghost predicate ExactAt(dels: seq<Cand>, adds: seq<Cand>, i: int, j: int) {
    0 <= i < |dels| && OnlyAt(dels, dels[i].leaf, i) && OnlyAt(adds, dels[i].leaf, j)
  }

  /** The exact pairs of the first `n` deletions. */
  ghost function ExactPairs(dels: seq<Cand>, adds: seq<Cand>, n: nat): RenameMap
    requires n <= |dels|
  {
    if n == 0 then map[]
    else
      var m := ExactPairs(dels, adds, n - 1);
      var d, a := Only(dels, dels[n - 1].leaf), Only(adds, dels[n - 1].leaf);
      if d.Some? && a.Some? then m[dels[n - 1].path := adds[a.value].path] else m
  }

  /** Which deletions, and which additions, have an exact pair. */
  ghost function PairedDels(dels: seq<Cand>, adds: seq<Cand>): (used: seq<bool>)
    ensures |used| == |dels| && forall i :: 0 <= i < |dels| ==> (used[i] <==> exists j :: ExactAt(dels, adds, i, j))
  {
    seq(|dels|, i => exists j :: ExactAt(dels, adds, i, j))
  }

  ghost function PairedAdds(dels: seq<Cand>, adds: seq<Cand>): (used: seq<bool>)
    ensures |used| == |adds| && forall j :: 0 <= j < |adds| ==> (used[j] <==> exists i :: ExactAt(dels, adds, i, j))
  {
    seq(|adds|, j => exists i :: ExactAt(dels, adds, i, j))
  }

  function CountFree(used: seq<bool>): nat {
    if used == [] then 0 else CountFree(used[..|used| - 1]) + if used[|used| - 1] then 0 else 1
  }

  datatype Hit = Hit(score: int, d: nat, a: nat)

  predicate HitLe(x: Hit, y: Hit) {
    if x.score != y.score then x.score > y.score
    else if x.d != y.d then x.d < y.d
    else x.a <= y.a
  }

  /** The hits of deletion `i` with the first `n` additions. */
  function RowHits(repo: Repo, threshold: int, dels: seq<Cand>, adds: seq<Cand>, usedA: seq<bool>, i: nat, n: nat): seq<Hit>
    requires |usedA| == |adds| && i < |dels| && n <= |adds|
  {
    if n == 0 then []
    else
      var score := Score(repo, dels[i].leaf, adds[n - 1].leaf);
      RowHits(repo, threshold, dels, adds, usedA, i, n - 1)
      + if !usedA[n - 1] && score.Some? && score.value >= threshold then [Hit(score.value, i, n - 1)] else []
  }

  /** The hits of the first `n` deletions. */
  function AllHits(repo: Repo, threshold: int, dels: seq<Cand>, adds: seq<Cand>, usedD: seq<bool>, usedA: seq<bool>, n: nat): seq<Hit>
    requires |usedD| == |dels| && |usedA| == |adds| && n <= |dels|
  {
    if n == 0 then []
    else
      AllHits(repo, threshold, dels, adds, usedD, usedA, n - 1)
      + if usedD[n - 1] then [] else RowHits(repo, threshold, dels, adds, usedA, n - 1, |adds|)
  }

  datatype Matching = Matching(into: RenameMap, usedD: seq<bool>, usedA: seq<bool>)

  predicate Free(m: Matching, h: Hit) { h.d < |m.usedD| && h.a < |m.usedA| && !m.usedD[h.d] && !m.usedA[h.a] }

  /** The matching after the first `n` hits. */
  function TakeUpTo(dels: seq<Cand>, adds: seq<Cand>, hits: seq<Hit>, n: nat, start: Matching): (m: Matching)
    requires n <= |hits| && |start.usedD| == |dels| && |start.usedA| == |adds|
    ensures |m.usedD| == |dels| && |m.usedA| == |adds|
  {
    if n == 0 then start
    else
      var m, h := TakeUpTo(dels, adds, hits, n - 1, start), hits[n - 1];
      if Free(m, h) then Matching(m.into[dels[h.d].path := adds[h.a].path], m.usedD[h.d := true], m.usedA[h.a := true]) else m
  }

  /** What detection finds for these lists of candidates. */
  ghost function RenamesIn(repo: Repo, threshold: int, dels: seq<Cand>, adds: seq<Cand>): RenameMap {
    var exact := ExactPairs(dels, adds, |dels|);
    var usedD, usedA := PairedDels(dels, adds), PairedAdds(dels, adds);
    if CountFree(usedD) == 0 || CountFree(usedA) == 0 || !Fits(CountFree(usedD), CountFree(usedA)) then exact
    else
      var hits := Sort(HitLe, AllHits(repo, threshold, dels, adds, usedD, usedA, |dels|));
      TakeUpTo(dels, adds, hits, |hits|, Matching(exact, usedD, usedA)).into
  }

  ghost function RenamesOf(repo: Repo, threshold: int, base: LeafMap, side: LeafMap): RenameMap {
    RenamesIn(repo, threshold, GoneList(repo.order, base, side), GoneList(repo.order, side, base))
  }

  // ---- The algorithm ---------------------------------------------------------------------------------

  /** The paths of `base` that `side` lacks, in the order the map yields them. */
  method CollectGone(order: Order, base: LeafMap, side: LeafMap) returns (list: seq<Cand>)
    ensures list == GoneList(order, base, side)
  {
    list := [];
    var keys := order(base.Keys);
    var i := 0;
    while i < |keys|
      invariant 0 <= i <= |keys| && list == GoneAmong(keys[..i], base, side)
    {
      assert keys[..i + 1][..i] == keys[..i] && keys[i] in base.Keys;
      if keys[i] !in side { list := list + [Cand(keys[i], base[keys[i]])]; }
      i := i + 1;
    }
    assert keys[..i] == keys;
  }

  method UniqueLeaf(list: seq<Cand>, leaf: Leaf) returns (found: Option<nat>)
    ensures found == Only(list, leaf)
  {
    found := None;
    var i := 0;
    while i < |list|
      invariant 0 <= i <= |list|
      invariant found.Some? ==> found.value < i && OnlyAt(list[..i], leaf, found.value)
      invariant found.None? ==> forall j :: 0 <= j < i ==> list[j].leaf != leaf
    {
      if list[i].leaf == leaf {
        if found.Some? { return None; }
        found := Some(i);
      }
      i := i + 1;
    }
    assert list[..i] == list;
  }

  /** Matches the leaves that occur once on either side, and marks both ends used. */
  method ExactRenames(dels: seq<Cand>, adds: seq<Cand>, usedD: array<bool>, usedA: array<bool>) returns (into: RenameMap)
    requires usedD.Length == |dels| && usedA.Length == |adds| && usedD != usedA
    requires forall i :: 0 <= i < |dels| ==> !usedD[i]
    requires forall j :: 0 <= j < |adds| ==> !usedA[j]
    modifies usedD, usedA
    ensures into == ExactPairs(dels, adds, |dels|) && usedD[..] == PairedDels(dels, adds) && usedA[..] == PairedAdds(dels, adds)
  {
    into := map[];
    var i := 0;
    while i < |dels|
      invariant 0 <= i <= |dels| && into == ExactPairs(dels, adds, i)
      invariant forall k :: 0 <= k < |dels| ==> (usedD[k] <==> k < i && exists j :: ExactAt(dels, adds, k, j))
      invariant forall j :: 0 <= j < |adds| ==> (usedA[j] <==> exists k :: k < i && ExactAt(dels, adds, k, j))
    {
      var ai := UniqueLeaf(adds, dels[i].leaf);
      if ai.Some? {
        var di := UniqueLeaf(dels, dels[i].leaf);
        if di.Some? {
          assert ExactAt(dels, adds, i, ai.value);
          if !usedA[ai.value] {
            into := into[dels[i].path := adds[ai.value].path];
            usedD[i] := true;
            usedA[ai.value] := true;
          }
        }
      }
      i := i + 1;
    }
  }

  method CountUnused(used: array<bool>) returns (n: nat)
    ensures n == CountFree(used[..])
  {
    n := 0;
    var i := 0;
    while i < used.Length
      invariant 0 <= i <= used.Length && n == CountFree(used[..i])
    {
      assert used[..i + 1][..i] == used[..i];
      if !used[i] { n := n + 1; }
      i := i + 1;
    }
    assert used[..i] == used[..];
  }

  /** Every pair of unmatched candidates that is similar enough. */
  method CollectHits(repo: Repo, threshold: int, dels: seq<Cand>, adds: seq<Cand>, usedD: array<bool>, usedA: array<bool>)
    returns (hits: seq<Hit>)
    requires usedD.Length == |dels| && usedA.Length == |adds|
    ensures hits == AllHits(repo, threshold, dels, adds, usedD[..], usedA[..], |dels|)
  {
    hide RowHits, AllHits;
    hits := [];
    NoHits(repo, threshold, dels, adds, usedD[..], usedA[..]);
    var i := 0;
    while i < |dels|
      invariant 0 <= i <= |dels| && hits == AllHits(repo, threshold, dels, adds, usedD[..], usedA[..], i)
    {
      AllStep(repo, threshold, dels, adds, usedD[..], usedA[..], i);
      if !usedD[i] && BlobBytes(repo, dels[i].leaf.hash).Some? {
        ghost var before := hits;
        var j := 0;
        while j < |adds|
          invariant 0 <= j <= |adds| && hits == before + RowHits(repo, threshold, dels, adds, usedA[..], i, j)
        {
          RowStep(repo, threshold, dels, adds, usedA[..], i, j);
          if !usedA[j] {
            var score := Score(repo, dels[i].leaf, adds[j].leaf);
            if score.Some? && score.value >= threshold { hits := hits + [Hit(score.value, i, j)]; }
          }
          j := j + 1;
        }
      } else if !usedD[i] {
        UnreadRow(repo, threshold, dels, adds, usedA[..], i, |adds|);
      }
      i := i + 1;
    }
  }

  lemma RowStep(repo: Repo, threshold: int, dels: seq<Cand>, adds: seq<Cand>, usedA: seq<bool>, i: nat, j: nat)
    requires |usedA| == |adds| && i < |dels| && j < |adds|
    ensures var score := Score(repo, dels[i].leaf, adds[j].leaf);
            RowHits(repo, threshold, dels, adds, usedA, i, j + 1) == RowHits(repo, threshold, dels, adds, usedA, i, j)
            + if !usedA[j] && score.Some? && score.value >= threshold then [Hit(score.value, i, j)] else []
  {
  }

  lemma AllStep(repo: Repo, threshold: int, dels: seq<Cand>, adds: seq<Cand>, usedD: seq<bool>, usedA: seq<bool>, i: nat)
    requires |usedD| == |dels| && |usedA| == |adds| && i < |dels|
    ensures AllHits(repo, threshold, dels, adds, usedD, usedA, i + 1) == AllHits(repo, threshold, dels, adds, usedD, usedA, i)
            + if usedD[i] then [] else RowHits(repo, threshold, dels, adds, usedA, i, |adds|)
  {
  }

  lemma NoHits(repo: Repo, threshold: int, dels: seq<Cand>, adds: seq<Cand>, usedD: seq<bool>, usedA: seq<bool>)
    requires |usedD| == |dels| && |usedA| == |adds|
    ensures AllHits(repo, threshold, dels, adds, usedD, usedA, 0) == []
    ensures forall i: nat | i < |dels| :: RowHits(repo, threshold, dels, adds, usedA, i, 0) == []
  {
  }

  /** Takes hits in order, skipping those with an end already used. */
  method TakeHits(dels: seq<Cand>, adds: seq<Cand>, hits: seq<Hit>, usedD: array<bool>, usedA: array<bool>, exact: RenameMap)
    returns (into: RenameMap)
    requires usedD != usedA && usedD.Length == |dels| && usedA.Length == |adds|
    requires forall h :: h in hits ==> h.d < |dels| && h.a < |adds|
    modifies usedD, usedA
    ensures into == TakeUpTo(dels, adds, hits, |hits|, Matching(exact, old(usedD[..]), old(usedA[..]))).into
  {
    into := exact;
    var n := 0;
    while n < |hits|
      invariant 0 <= n <= |hits|
      invariant Matching(into, usedD[..], usedA[..]) == TakeUpTo(dels, adds, hits, n, Matching(exact, old(usedD[..]), old(usedA[..])))
    {
      var h := hits[n];
      if !usedD[h.d] && !usedA[h.a] {
        into := into[dels[h.d].path := adds[h.a].path];
        usedD[h.d] := true;
        usedA[h.a] := true;
      }
      n := n + 1;
    }
  }

  /** Matches deleted paths with added ones: unique identical leaves first, then similar
      contents from the best score down, unless there are too many left to compare. */
  method DetectRenames(repo: Repo, base: LeafMap, side: LeafMap, threshold: int) returns (into: RenameMap)
    ensures into == RenamesOf(repo, threshold, base, side)
    ensures Detected(repo, threshold, Gone(base, side), Gone(side, base), into)
  {
    hide Detected, Sort, AllHits, CountFree, Fits, TakeUpTo, ExactPairs;
    RenamesDetected(repo, threshold, base, side);
    var dels := CollectGone(repo.order, base, side);
    var adds := CollectGone(repo.order, side, base);
    var usedD := new bool[|dels|](_ => false);
    var usedA := new bool[|adds|](_ => false);
    into := ExactRenames(dels, adds, usedD, usedA);
    var nd := CountUnused(usedD);
    var na := CountUnused(usedA);
    if nd == 0 || na == 0 || !Fits(nd, na) { return; }
    var hits := CollectHits(repo, threshold, dels, adds, usedD, usedA);
    HitsAre(repo, threshold, dels, adds, usedD[..], usedA[..]);
    var sorted := Sort(HitLe, hits);
    SortedHits(hits);
    into := TakeHits(dels, adds, sorted, usedD, usedA, into);
  }

  // ---- What the function finds ----------------------------------------------------------------------

  lemma {:induction false} UnreadRow(repo: Repo, threshold: int, dels: seq<Cand>, adds: seq<Cand>, usedA: seq<bool>, i: nat, n: nat)
    requires |usedA| == |adds| && i < |dels| && n <= |adds| && BlobBytes(repo, dels[i].leaf.hash).None?
    ensures RowHits(repo, threshold, dels, adds, usedA, i, n) == []
  {
    if n > 0 { UnreadRow(repo, threshold, dels, adds, usedA, i, n - 1); }
  }

  lemma {:induction false} GoneListed(keys: seq<Path>, base: LeafMap, side: LeafMap)
    requires forall i, j :: 0 <= i < j < |keys| ==> keys[i] != keys[j]
    ensures Lists(GoneAmong(keys, base, side), GoneMap(keys, base, side))
  {
    hide Lists, GoneMap;
    GoneMapStep(keys, base, side);
    if keys == [] {
      NoneListed();
    } else {
      var front, k := keys[..|keys| - 1], keys[|keys| - 1];
      GoneListed(front, base, side);
      if k in base && k !in side {
        OneListed(GoneAmong(front, base, side), GoneMap(front, base, side), k, base[k]);
      } else {
        assert GoneAmong(keys, base, side) == GoneAmong(front, base, side);
      }
    }
  }

  /** `GoneAmong` as a map. */
  function GoneMap(keys: seq<Path>, base: LeafMap, side: LeafMap): LeafMap {
    map p | p in base && p !in side && p in keys :: base[p]
  }

  lemma GoneMapStep(keys: seq<Path>, base: LeafMap, side: LeafMap)
    requires forall i, j :: 0 <= i < j < |keys| ==> keys[i] != keys[j]
    ensures keys == [] ==> GoneMap(keys, base, side) == map[]
    ensures keys != [] ==>
              var front, k := keys[..|keys| - 1], keys[|keys| - 1];
              && k !in GoneMap(front, base, side)
              && GoneMap(keys, base, side) == if k in base && k !in side then GoneMap(front, base, side)[k := base[k]] else GoneMap(front, base, side)
  {
    if keys != [] { assert keys == keys[..|keys| - 1] + [keys[|keys| - 1]]; }
  }

  lemma NoneListed()
    ensures Lists([], map[])
  {
  }

  lemma OneListed(list: seq<Cand>, m: LeafMap, p: Path, leaf: Leaf)
    requires Lists(list, m) && p !in m
    ensures Lists(list + [Cand(p, leaf)], m[p := leaf])
  {
    var more := list + [Cand(p, leaf)];
    var grown := m[p := leaf];
    assert more[|list|] == Cand(p, leaf);
    assert forall i :: 0 <= i < |list| ==> more[i] == list[i];
    forall q | q in grown ensures exists i :: 0 <= i < |more| && more[i].path == q {
      if q != p {
        var i :| 0 <= i < |list| && list[i].path == q;
        assert more[i].path == q;
      }
    }
  }

  lemma GoneIsListed(order: Order, base: LeafMap, side: LeafMap)
    ensures Lists(GoneList(order, base, side), Gone(base, side))
  {
    var keys := order(base.Keys);
    assert Enumerates(keys, base.Keys);
    GoneListed(keys, base, side);
    assert (map p | p in base && p !in side && p in keys :: base[p]) == Gone(base, side);
  }

  lemma ExactIndices(dels: seq<Cand>, adds: seq<Cand>, dm: LeafMap, am: LeafMap, i: int, j: int)
    requires Lists(dels, dm) && Lists(adds, am) && 0 <= i < |dels| && 0 <= j < |adds|
    ensures ExactAt(dels, adds, i, j) <==> ExactPair(dm, am, dels[i].path, adds[j].path)
  {
  }

  ghost predicate IsHit(repo: Repo, threshold: int, dels: seq<Cand>, adds: seq<Cand>, usedD: seq<bool>, usedA: seq<bool>, h: Hit)
    requires |usedD| == |dels| && |usedA| == |adds|
  {
    && h.d < |dels| && h.a < |adds| && !usedD[h.d] && !usedA[h.a]
    && Score(repo, dels[h.d].leaf, adds[h.a].leaf) == Some(h.score) && h.score >= threshold
  }

  /** The exact pairs are in `m`, and the marks say which candidates have one. */
  ghost predicate ExactMarks(dels: seq<Cand>, adds: seq<Cand>, usedD: seq<bool>, usedA: seq<bool>, m: RenameMap) {
    && |usedD| == |dels| && |usedA| == |adds|
    && (forall i :: 0 <= i < |dels| ==> (usedD[i] <==> exists j :: ExactAt(dels, adds, i, j)))
    && (forall j :: 0 <= j < |adds| ==> (usedA[j] <==> exists i :: ExactAt(dels, adds, i, j)))
    && (forall i, j :: ExactAt(dels, adds, i, j) ==> dels[i].path in m && m[dels[i].path] == adds[j].path)
    && forall p :: p in m ==> exists i, j :: ExactAt(dels, adds, i, j) && dels[i].path == p && adds[j].path == m[p]
  }

  lemma {:induction false} ExactPairsAre(dels: seq<Cand>, adds: seq<Cand>, n: nat)
    requires n <= |dels| && Paths(dels)
    ensures forall k, j :: k < n && ExactAt(dels, adds, k, j) ==>
              dels[k].path in ExactPairs(dels, adds, n) && ExactPairs(dels, adds, n)[dels[k].path] == adds[j].path
    ensures forall p :: p in ExactPairs(dels, adds, n) ==>
              exists k, j :: k < n && ExactAt(dels, adds, k, j) && dels[k].path == p && adds[j].path == ExactPairs(dels, adds, n)[p]
  {
    if n > 0 { ExactPairsAre(dels, adds, n - 1); }
  }

  lemma ExactMarked(dels: seq<Cand>, adds: seq<Cand>)
    requires Paths(dels)
    ensures ExactMarks(dels, adds, PairedDels(dels, adds), PairedAdds(dels, adds), ExactPairs(dels, adds, |dels|))
  {
    ExactPairsAre(dels, adds, |dels|);
  }

  /** The paths of the first `n` candidates that are not taken. */
  function FreeOf(list: seq<Cand>, taken: set<Path>, n: nat): set<Path>
    requires n <= |list|
  {
    set k | 0 <= k < n && list[k].path !in taken :: list[k].path
  }

  lemma FreeMore(list: seq<Cand>, taken: set<Path>, n: nat)
    requires Paths(list) && n < |list|
    ensures FreeOf(list, taken, n + 1) == FreeOf(list, taken, n) + if list[n].path in taken then {} else {list[n].path}
    ensures list[n].path !in FreeOf(list, taken, n)
  {
  }

  /** The free candidates are counted one by one. */
  lemma {:induction false} FreeCount(list: seq<Cand>, used: seq<bool>, taken: set<Path>, n: nat)
    requires Paths(list) && Used(used, list, taken) && n <= |list|
    ensures CountFree(used[..n]) == |FreeOf(list, taken, n)|
  {
    if n > 0 {
      hide FreeOf, Paths;
      FreeCount(list, used, taken, n - 1);
      FreeMore(list, taken, n - 1);
      UsedAt(used, list, taken, n - 1);
      assert used[..n][..n - 1] == used[..n - 1];
    }
  }

  lemma FreeLeft(list: seq<Cand>, m: LeafMap, used: seq<bool>, taken: set<Path>)
    requires Lists(list, m) && Used(used, list, taken)
    ensures CountFree(used) == |m.Keys - taken|
  {
    hide Lists;
    ListPaths(list, m);
    FreeCount(list, used, taken, |list|);
    assert used[..|list|] == used;
    FreePaths(list, m, taken);
  }

  lemma FreePaths(list: seq<Cand>, m: LeafMap, taken: set<Path>)
    requires Lists(list, m)
    ensures FreeOf(list, taken, |list|) == m.Keys - taken
  {
  }

  lemma {:induction false} RowHitsAre(repo: Repo, threshold: int, dels: seq<Cand>, adds: seq<Cand>, usedD: seq<bool>, usedA: seq<bool>,
                                      i: nat, n: nat)
    requires |usedD| == |dels| && |usedA| == |adds| && i < |dels| && n <= |adds| && !usedD[i]
    ensures forall h :: h in RowHits(repo, threshold, dels, adds, usedA, i, n) <==>
              h.d == i && h.a < n && IsHit(repo, threshold, dels, adds, usedD, usedA, h)
  {
    if n > 0 { RowHitsAre(repo, threshold, dels, adds, usedD, usedA, i, n - 1); }
  }

  lemma {:induction false} HitsUpTo(repo: Repo, threshold: int, dels: seq<Cand>, adds: seq<Cand>, usedD: seq<bool>, usedA: seq<bool>, n: nat)
    requires |usedD| == |dels| && |usedA| == |adds| && n <= |dels|
    ensures forall h :: h in AllHits(repo, threshold, dels, adds, usedD, usedA, n) <==>
              h.d < n && IsHit(repo, threshold, dels, adds, usedD, usedA, h)
  {
    hide IsHit, RowHits;
    HitsUnused(repo, threshold, dels, adds, usedD, usedA);
    if n > 0 {
      HitsUpTo(repo, threshold, dels, adds, usedD, usedA, n - 1);
      var less, row := AllHits(repo, threshold, dels, adds, usedD, usedA, n - 1), RowHits(repo, threshold, dels, adds, usedA, n - 1, |adds|);
      if usedD[n - 1] {
        assert AllHits(repo, threshold, dels, adds, usedD, usedA, n) == less;
      } else {
        RowHitsAre(repo, threshold, dels, adds, usedD, usedA, n - 1, |adds|);
        assert AllHits(repo, threshold, dels, adds, usedD, usedA, n) == less + row;
      }
    }
  }

  lemma HitsUnused(repo: Repo, threshold: int, dels: seq<Cand>, adds: seq<Cand>, usedD: seq<bool>, usedA: seq<bool>)
    requires |usedD| == |dels| && |usedA| == |adds|
    ensures forall h :: IsHit(repo, threshold, dels, adds, usedD, usedA, h) ==> h.d < |dels| && h.a < |adds| && !usedD[h.d]
  {
  }

  /** Exactly the pairs of unmatched candidates that are readable and similar enough. */
  lemma HitsAre(repo: Repo, threshold: int, dels: seq<Cand>, adds: seq<Cand>, usedD: seq<bool>, usedA: seq<bool>)
    requires |usedD| == |dels| && |usedA| == |adds|
    ensures forall h :: h in AllHits(repo, threshold, dels, adds, usedD, usedA, |dels|) <==>
              IsHit(repo, threshold, dels, adds, usedD, usedA, h)
    ensures forall h :: h in AllHits(repo, threshold, dels, adds, usedD, usedA, |dels|) ==> h.d < |dels| && h.a < |adds|
  {
    HitsUpTo(repo, threshold, dels, adds, usedD, usedA, |dels|);
    HitsUnused(repo, threshold, dels, adds, usedD, usedA);
  }

  lemma SortedHits(hits: seq<Hit>)
    ensures Sorted(HitLe, Sort(HitLe, hits)) && forall h :: h in Sort(HitLe, hits) <==> h in hits
  {
    HitOrder();
    SortIsSorted(HitLe, hits);
    var s := Sort(HitLe, hits);
    forall h ensures h in s <==> h in hits {
      assert h in s <==> h in multiset(s);
      assert h in hits <==> h in multiset(hits);
    }
  }

  ghost predicate Chosen(into: RenameMap, dels: seq<Cand>, adds: seq<Cand>, h: Hit) {
    h.d < |dels| && h.a < |adds| && dels[h.d].path in into && into[dels[h.d].path] == adds[h.a].path
  }

  ghost predicate Paths(list: seq<Cand>) {
    forall i, j :: 0 <= i < j < |list| ==> list[i].path != list[j].path
  }

  ghost predicate Used(used: seq<bool>, list: seq<Cand>, taken: set<Path>) {
    |used| == |list| && forall i :: 0 <= i < |list| ==> (used[i] <==> list[i].path in taken)
  }

  /** `into` is `exact` plus pairs from the first `n` hits. */
  ghost predicate Grown(into: RenameMap, exact: RenameMap, dels: seq<Cand>, adds: seq<Cand>, hits: seq<Hit>, n: nat) {
    && (forall p :: p in exact ==> p in into && into[p] == exact[p])
    && forall p :: p in into && p !in exact ==>
         exists k :: 0 <= k < n && k < |hits| && hits[k].d < |dels| && hits[k].a < |adds|
                     && dels[hits[k].d].path == p && adds[hits[k].a].path == into[p]
  }

  ghost predicate Unmatched(exact: RenameMap, dels: seq<Cand>, adds: seq<Cand>, h: Hit) {
    h.d < |dels| && h.a < |adds| && dels[h.d].path !in exact && adds[h.a].path !in exact.Values
  }

  /** Greedy taking keeps the matching injective and blocks each hit by an earlier taken one. */
  lemma {:induction false} TakenGrows(dels: seq<Cand>, adds: seq<Cand>, hits: seq<Hit>, n: nat, start: Matching)
    requires n <= |hits| && Used(start.usedD, dels, start.into.Keys) && Used(start.usedA, adds, start.into.Values)
    requires Paths(dels) && Paths(adds) && Injective(start.into)
    requires forall k :: 0 <= k < |hits| ==> Unmatched(start.into, dels, adds, hits[k])
    ensures var m := TakeUpTo(dels, adds, hits, n, start);
            && Injective(m.into) && Grown(m.into, start.into, dels, adds, hits, n)
            && Used(m.usedD, dels, m.into.Keys) && Used(m.usedA, adds, m.into.Values)
            && forall k :: 0 <= k < n ==> Settled(m.into, dels, adds, hits, k)
  {
    hide Injective, Chosen, Settled, Grown, Paths;
    if n == 0 {
      GrownStart(start.into, dels, adds, hits);
    } else {
      TakenGrows(dels, adds, hits, n - 1, start);
      TakenStep(dels, adds, hits, n - 1, start, TakeUpTo(dels, adds, hits, n - 1, start));
    }
  }

  lemma TakenStep(dels: seq<Cand>, adds: seq<Cand>, hits: seq<Hit>, n: nat, start: Matching, m: Matching)
    requires n < |hits| && Paths(dels) && Paths(adds) && Unmatched(start.into, dels, adds, hits[n])
    requires Injective(m.into) && Grown(m.into, start.into, dels, adds, hits, n)
    requires Used(m.usedD, dels, m.into.Keys) && Used(m.usedA, adds, m.into.Values)
    requires forall k :: 0 <= k < n ==> Settled(m.into, dels, adds, hits, k)
    ensures var h := hits[n];
            var next := if Free(m, h) then Matching(m.into[dels[h.d].path := adds[h.a].path], m.usedD[h.d := true], m.usedA[h.a := true]) else m;
            && Injective(next.into) && Grown(next.into, start.into, dels, adds, hits, n + 1)
            && Used(next.usedD, dels, next.into.Keys) && Used(next.usedA, adds, next.into.Values)
            && forall k :: 0 <= k < n + 1 ==> Settled(next.into, dels, adds, hits, k)
  {
    hide Injective, Chosen, Settled, Grown, Paths, Used;
    var h := hits[n];
    UsedAt(m.usedD, dels, m.into.Keys, h.d);
    UsedAt(m.usedA, adds, m.into.Values, h.a);
    if Free(m, h) {
      PutPair(m.into, dels[h.d].path, adds[h.a].path);
      MarkUsed(m.usedD, dels, m.into.Keys, h.d);
      MarkUsed(m.usedA, adds, m.into.Values, h.a);
      Grow(m.into, start.into, dels, adds, hits, n);
      assert m.into[dels[h.d].path := adds[h.a].path].Keys == m.into.Keys + {dels[h.d].path};
    } else {
      RivalChosen(m.into, start.into, dels, adds, hits, n);
    }
  }

  lemma UsedAt(used: seq<bool>, list: seq<Cand>, taken: set<Path>, i: nat)
    requires Used(used, list, taken) && i < |list|
    ensures |used| == |list| && (used[i] <==> list[i].path in taken)
  {
  }

  lemma GrownStart(exact: RenameMap, dels: seq<Cand>, adds: seq<Cand>, hits: seq<Hit>)
    ensures Grown(exact, exact, dels, adds, hits, 0)
  {
  }

  lemma MarkUsed(used: seq<bool>, list: seq<Cand>, taken: set<Path>, i: nat)
    requires Used(used, list, taken) && Paths(list) && i < |list|
    ensures Used(used[i := true], list, taken + {list[i].path})
  {
  }

  lemma Grow(into: RenameMap, exact: RenameMap, dels: seq<Cand>, adds: seq<Cand>, hits: seq<Hit>, n: nat)
    requires Grown(into, exact, dels, adds, hits, n) && n < |hits| && Unmatched(exact, dels, adds, hits[n])
    requires dels[hits[n].d].path !in into
    requires forall k :: 0 <= k < n ==> Settled(into, dels, adds, hits, k)
    ensures var next := into[dels[hits[n].d].path := adds[hits[n].a].path];
            && Grown(next, exact, dels, adds, hits, n + 1)
            && forall k :: 0 <= k <= n ==> Settled(next, dels, adds, hits, k)
  {
    var next := into[dels[hits[n].d].path := adds[hits[n].a].path];
    assert Chosen(next, dels, adds, hits[n]);
    forall k | 0 <= k < n ensures Settled(next, dels, adds, hits, k) { StillSettled(into, next, dels, adds, hits, k); }
  }

  lemma PutPair(m: RenameMap, d: Path, a: Path)
    requires Injective(m) && d !in m && a !in m.Values
    ensures Injective(m[d := a]) && m[d := a].Values == m.Values + {a}
  {
    forall x ensures x in m[d := a].Values <==> x in m.Values + {a} {
      if x in m.Values {
        var p :| p in m && m[p] == x;
        assert m[d := a][p] == x;
      }
      assert m[d := a][d] == a;
    }
  }

  /** A hit no later than the k-th one was chosen and shares an end with it. */
  ghost predicate Settled(into: RenameMap, dels: seq<Cand>, adds: seq<Cand>, hits: seq<Hit>, k: nat)
    requires k < |hits|
  {
    exists e :: 0 <= e <= k && Chosen(into, dels, adds, hits[e]) && (hits[e].d == hits[k].d || hits[e].a == hits[k].a)
  }

  lemma StillSettled(was: RenameMap, into: RenameMap, dels: seq<Cand>, adds: seq<Cand>, hits: seq<Hit>, k: nat)
    requires k < |hits| && Settled(was, dels, adds, hits, k) && forall p :: p in was ==> p in into && into[p] == was[p]
    ensures Settled(into, dels, adds, hits, k)
  {
  }

  lemma RivalChosen(into: RenameMap, exact: RenameMap, dels: seq<Cand>, adds: seq<Cand>, hits: seq<Hit>, n: nat)
    requires n < |hits| && Grown(into, exact, dels, adds, hits, n) && Unmatched(exact, dels, adds, hits[n])
    requires dels[hits[n].d].path in into || adds[hits[n].a].path in into.Values
    requires Paths(dels) && Paths(adds) && Injective(into)
    ensures Settled(into, dels, adds, hits, n) && Grown(into, exact, dels, adds, hits, n + 1)
  {
    var p :| p in into && (p == dels[hits[n].d].path || into[p] == adds[hits[n].a].path);
    assert forall q :: q in exact ==> exact[q] in exact.Values && into[q] == exact[q];
    var k :| 0 <= k < n && k < |hits| && hits[k].d < |dels| && hits[k].a < |adds|
             && dels[hits[k].d].path == p && adds[hits[k].a].path == into[p];
    assert Chosen(into, dels, adds, hits[k]);
  }

  /** Exactly the exact pairs. */
  ghost predicate ExactOnly(dels: LeafMap, adds: LeafMap, m: RenameMap) {
    && Matches(dels, adds, m)
    && (forall d, a :: ExactPair(dels, adds, d, a) ==> d in m && m[d] == a)
    && (forall d :: d in m ==> ExactPair(dels, adds, d, m[d]))
    && m.Keys == ExactDels(dels, adds) && m.Values == ExactAdds(dels, adds)
  }

  /** What the function finds is a detection. */
  lemma RenamesDetected(repo: Repo, threshold: int, base: LeafMap, side: LeafMap)
    ensures Detected(repo, threshold, Gone(base, side), Gone(side, base), RenamesOf(repo, threshold, base, side))
  {
    GoneIsListed(repo.order, base, side);
    GoneIsListed(repo.order, side, base);
    FoundDetected(repo, threshold, GoneList(repo.order, base, side), GoneList(repo.order, side, base), Gone(base, side), Gone(side, base));
  }

  lemma FoundDetected(repo: Repo, threshold: int, dels: seq<Cand>, adds: seq<Cand>, dm: LeafMap, am: LeafMap)
    requires Lists(dels, dm) && Lists(adds, am)
    ensures Detected(repo, threshold, dm, am, RenamesIn(repo, threshold, dels, adds))
  {
    hide ExactOnly, Detected, Lists, Used, ExactMarks, WithinLimits, Fits, TakeUpTo, AllHits, CountFree, ExactPairs;
    var exact := ExactPairs(dels, adds, |dels|);
    var usedD, usedA := PairedDels(dels, adds), PairedAdds(dels, adds);
    ListPaths(dels, dm);
    ListPaths(adds, am);
    ExactMarked(dels, adds);
    ExactOutcome(dels, adds, dm, am, usedD, usedA, exact);
    FreeLeft(dels, dm, usedD, exact.Keys);
    FreeLeft(adds, am, usedA, exact.Values);
    var nd, na := CountFree(usedD), CountFree(usedA);
    Limits(dm, am, exact, nd, na);
    if nd == 0 || na == 0 {
      NothingLeft(repo, threshold, dm, am, exact);
    } else if !Fits(nd, na) {
      TooMany(repo, threshold, dm, am, exact);
    } else {
      SimilarDetected(repo, threshold, dels, adds, dm, am, exact, usedD, usedA);
    }
  }

  lemma SimilarDetected(repo: Repo, threshold: int, dels: seq<Cand>, adds: seq<Cand>, dm: LeafMap, am: LeafMap, exact: RenameMap,
                        usedD: seq<bool>, usedA: seq<bool>)
    requires Lists(dels, dm) && Lists(adds, am) && ExactOnly(dm, am, exact) && WithinLimits(dm, am)
    requires |usedD| == |dels| && |usedA| == |adds| && Used(usedD, dels, exact.Keys) && Used(usedA, adds, exact.Values)
    ensures var hits := Sort(HitLe, AllHits(repo, threshold, dels, adds, usedD, usedA, |dels|));
            Detected(repo, threshold, dm, am, TakeUpTo(dels, adds, hits, |hits|, Matching(exact, usedD, usedA)).into)
  {
    hide ExactOnly, Detected, Lists, WithinLimits, IsHit, Used, Injective, TakeUpTo;
    ListPaths(dels, dm);
    ListPaths(adds, am);
    var all := AllHits(repo, threshold, dels, adds, usedD, usedA, |dels|);
    HitsAre(repo, threshold, dels, adds, usedD, usedA);
    var hits := Sort(HitLe, all);
    HitsSorted(repo, threshold, dels, adds, usedD, usedA, all, exact);
    ExactInjective(dm, am, exact);
    TakenGrows(dels, adds, hits, |hits|, Matching(exact, usedD, usedA));
    Taken(repo, threshold, dels, adds, dm, am, exact, usedD, usedA, hits, TakeUpTo(dels, adds, hits, |hits|, Matching(exact, usedD, usedA)).into);
  }

  lemma ExactInjective(dm: LeafMap, am: LeafMap, m: RenameMap)
    requires ExactOnly(dm, am, m)
    ensures Injective(m)
  {
  }

  lemma ListPaths(list: seq<Cand>, m: LeafMap)
    requires Lists(list, m)
    ensures Paths(list)
  {
  }

  lemma ExactOutcome(dels: seq<Cand>, adds: seq<Cand>, dm: LeafMap, am: LeafMap, usedD: seq<bool>, usedA: seq<bool>, m: RenameMap)
    requires Lists(dels, dm) && Lists(adds, am) && ExactMarks(dels, adds, usedD, usedA, m)
    ensures ExactOnly(dm, am, m) && Used(usedD, dels, m.Keys) && Used(usedA, adds, m.Values)
  {
    forall d, a | ExactPair(dm, am, d, a)
      ensures d in m && m[d] == a
    {
      var i :| 0 <= i < |dels| && dels[i].path == d;
      var j :| 0 <= j < |adds| && adds[j].path == a;
      ExactIndices(dels, adds, dm, am, i, j);
    }
    forall d | d in m ensures ExactPair(dm, am, d, m[d]) {
      var i, j :| ExactAt(dels, adds, i, j) && dels[i].path == d && adds[j].path == m[d];
      ExactIndices(dels, adds, dm, am, i, j);
    }
    hide ExactMarks, ExactOnly, Lists, Used;
    PairsOfExact(dm, am, m);
    MarkedDels(dels, adds, dm, am, usedD, usedA, m);
    MarkedAdds(dels, adds, dm, am, usedD, usedA, m);
  }

  lemma MarkedDels(dels: seq<Cand>, adds: seq<Cand>, dm: LeafMap, am: LeafMap, usedD: seq<bool>, usedA: seq<bool>, m: RenameMap)
    requires Lists(dels, dm) && Lists(adds, am) && ExactMarks(dels, adds, usedD, usedA, m)
    ensures Used(usedD, dels, m.Keys)
  {
    forall i | 0 <= i < |dels| && dels[i].path in m ensures usedD[i] {
      var k, j :| ExactAt(dels, adds, k, j) && dels[k].path == dels[i].path && adds[j].path == m[dels[i].path];
      assert k == i;
    }
  }

  lemma MarkedAdds(dels: seq<Cand>, adds: seq<Cand>, dm: LeafMap, am: LeafMap, usedD: seq<bool>, usedA: seq<bool>, m: RenameMap)
    requires Lists(dels, dm) && Lists(adds, am) && ExactMarks(dels, adds, usedD, usedA, m)
    ensures Used(usedA, adds, m.Values)
  {
    forall j | 0 <= j < |adds| ensures usedA[j] <==> adds[j].path in m.Values {
      if usedA[j] {
        var i :| ExactAt(dels, adds, i, j);
        assert m[dels[i].path] in m.Values;
      }
      if adds[j].path in m.Values {
        var p :| p in m && m[p] == adds[j].path;
        var i, k :| ExactAt(dels, adds, i, k) && dels[i].path == p && adds[k].path == m[p];
        assert k == j;
      }
    }
  }

  lemma PairsOfExact(dm: LeafMap, am: LeafMap, m: RenameMap)
    requires forall d, a :: ExactPair(dm, am, d, a) ==> d in m && m[d] == a
    requires forall d :: d in m ==> ExactPair(dm, am, d, m[d])
    ensures ExactOnly(dm, am, m)
  {
  }

  lemma Limits(dm: LeafMap, am: LeafMap, m: RenameMap, nd: nat, na: nat)
    requires ExactOnly(dm, am, m) && nd == |dm.Keys - m.Keys| && na == |am.Keys - m.Values|
    ensures WithinLimits(dm, am) <==> Fits(nd, na)
    ensures nd == 0 ==> m.Keys == dm.Keys
    ensures na == 0 ==> m.Values == am.Keys
  {
  }

  lemma NothingLeft(repo: Repo, threshold: int, dm: LeafMap, am: LeafMap, m: RenameMap)
    requires ExactOnly(dm, am, m) && (m.Keys == dm.Keys || m.Values == am.Keys)
    ensures Detected(repo, threshold, dm, am, m)
  {
  }

  lemma TooMany(repo: Repo, threshold: int, dm: LeafMap, am: LeafMap, m: RenameMap)
    requires ExactOnly(dm, am, m) && !WithinLimits(dm, am)
    ensures Detected(repo, threshold, dm, am, m)
  {
  }

  lemma HitOrder()
    ensures TotalPreorder(HitLe)
  {
  }

  lemma HitsSorted(repo: Repo, threshold: int, dels: seq<Cand>, adds: seq<Cand>, freeD: seq<bool>, freeA: seq<bool>,
                   hits: seq<Hit>, exact: RenameMap)
    requires Used(freeD, dels, exact.Keys) && Used(freeA, adds, exact.Values)
    requires forall h :: h in hits <==> IsHit(repo, threshold, dels, adds, freeD, freeA, h)
    ensures var s := Sort(HitLe, hits);
            && Sorted(HitLe, s)
            && (forall h :: h in s <==> IsHit(repo, threshold, dels, adds, freeD, freeA, h))
            && forall k :: 0 <= k < |s| ==> Unmatched(exact, dels, adds, s[k])
  {
    SortedHits(hits);
    var s := Sort(HitLe, hits);
    forall k | 0 <= k < |s| ensures Unmatched(exact, dels, adds, s[k]) { assert s[k] in s; }
  }

  lemma Taken(repo: Repo, threshold: int, dels: seq<Cand>, adds: seq<Cand>, dm: LeafMap, am: LeafMap, exact: RenameMap,
              freeD: seq<bool>, freeA: seq<bool>, hits: seq<Hit>, into: RenameMap)
    requires Lists(dels, dm) && Lists(adds, am) && ExactOnly(dm, am, exact) && WithinLimits(dm, am)
    requires Used(freeD, dels, exact.Keys) && Used(freeA, adds, exact.Values)
    requires Sorted(HitLe, hits) && forall h :: h in hits <==> IsHit(repo, threshold, dels, adds, freeD, freeA, h)
    requires Injective(into) && Grown(into, exact, dels, adds, hits, |hits|)
    requires forall k :: 0 <= k < |hits| ==> Settled(into, dels, adds, hits, k)
    ensures Detected(repo, threshold, dm, am, into)
  {
    hide ExactOnly, Lists, Used, WithinLimits, Similar, ScoreAt, ExactPair, Settled, Sorted, IsHit, Unmatched, Blocked, Injective, Grown;
    forall d | d in into
      ensures d in dm && into[d] in am
      ensures !ExactPair(dm, am, d, into[d]) ==> Similar(repo, threshold, dm, am, d, into[d])
    {
      TakenSound(repo, threshold, dels, adds, dm, am, exact, freeD, freeA, hits, into, d);
    }
    forall d, a | ExactPair(dm, am, d, a) ensures d in into && into[d] == a {
      ExactAll(dm, am, exact, into, dels, adds, hits, d, a);
    }
    forall d, a | Similar(repo, threshold, dm, am, d, a) ensures Blocked(repo, threshold, dm, am, into, d, a) {
      TakenBlocked(repo, threshold, dels, adds, dm, am, exact, freeD, freeA, hits, into, d, a);
    }
  }

  lemma TakenSound(repo: Repo, threshold: int, dels: seq<Cand>, adds: seq<Cand>, dm: LeafMap, am: LeafMap, exact: RenameMap,
                   freeD: seq<bool>, freeA: seq<bool>, hits: seq<Hit>, into: RenameMap, d: Path)
    requires Lists(dels, dm) && Lists(adds, am) && ExactOnly(dm, am, exact)
    requires Used(freeD, dels, exact.Keys) && Used(freeA, adds, exact.Values)
    requires forall h :: h in hits <==> IsHit(repo, threshold, dels, adds, freeD, freeA, h)
    requires Grown(into, exact, dels, adds, hits, |hits|) && d in into
    ensures d in dm && into[d] in am
    ensures !ExactPair(dm, am, d, into[d]) ==> Similar(repo, threshold, dm, am, d, into[d])
  {
    hide Lists, Used, Similar, ScoreAt, ExactPair, IsHit;
    if d in exact {
      assert exact[d] in exact.Values;
    } else {
      var k :| 0 <= k < |hits| && hits[k].d < |dels| && hits[k].a < |adds|
               && dels[hits[k].d].path == d && adds[hits[k].a].path == into[d];
      assert hits[k] in hits;
      HitSimilar(repo, threshold, dels, adds, dm, am, exact, freeD, freeA, hits[k]);
      SimilarEnds(repo, threshold, dm, am, d, into[d]);
    }
  }

  lemma SimilarEnds(repo: Repo, threshold: int, dm: LeafMap, am: LeafMap, d: Path, a: Path)
    requires Similar(repo, threshold, dm, am, d, a)
    ensures d in dm && a in am
  {
  }

  lemma TakenBlocked(repo: Repo, threshold: int, dels: seq<Cand>, adds: seq<Cand>, dm: LeafMap, am: LeafMap, exact: RenameMap,
                     freeD: seq<bool>, freeA: seq<bool>, hits: seq<Hit>, into: RenameMap, d: Path, a: Path)
    requires Lists(dels, dm) && Lists(adds, am) && ExactOnly(dm, am, exact)
    requires Used(freeD, dels, exact.Keys) && Used(freeA, adds, exact.Values)
    requires Sorted(HitLe, hits) && forall h :: h in hits <==> IsHit(repo, threshold, dels, adds, freeD, freeA, h)
    requires forall k :: 0 <= k < |hits| ==> Settled(into, dels, adds, hits, k)
    requires Similar(repo, threshold, dm, am, d, a)
    ensures Blocked(repo, threshold, dm, am, into, d, a)
  {
    hide ExactOnly, Lists, Used, Similar, ScoreAt;
    var h := SimilarHit(repo, threshold, dels, adds, dm, am, exact, freeD, freeA, d, a);
    var k :| 0 <= k < |hits| && hits[k] == h;
    assert Settled(into, dels, adds, hits, k);
    var e :| 0 <= e <= k && Chosen(into, dels, adds, hits[e]) && (hits[e].d == hits[k].d || hits[e].a == hits[k].a);
    assert hits[e] in hits;
    HitSimilar(repo, threshold, dels, adds, dm, am, exact, freeD, freeA, hits[e]);
    assert hits[e].score >= hits[k].score;
    var d' := dels[hits[e].d].path;
    assert d' in into && (d' == d || into[d'] == a);
  }

  lemma ExactAll(dm: LeafMap, am: LeafMap, exact: RenameMap, into: RenameMap, dels: seq<Cand>, adds: seq<Cand>, hits: seq<Hit>, d: Path, a: Path)
    requires ExactOnly(dm, am, exact) && ExactPair(dm, am, d, a) && Grown(into, exact, dels, adds, hits, |hits|)
    ensures d in into && into[d] == a
  {
  }

  lemma HitSimilar(repo: Repo, threshold: int, dels: seq<Cand>, adds: seq<Cand>, dm: LeafMap, am: LeafMap, exact: RenameMap,
                   freeD: seq<bool>, freeA: seq<bool>, h: Hit)
    requires Lists(dels, dm) && Lists(adds, am) && ExactOnly(dm, am, exact)
    requires Used(freeD, dels, exact.Keys) && Used(freeA, adds, exact.Values)
    requires IsHit(repo, threshold, dels, adds, freeD, freeA, h)
    ensures Similar(repo, threshold, dm, am, dels[h.d].path, adds[h.a].path)
    ensures ScoreAt(repo, dm, am, dels[h.d].path, adds[h.a].path) == h.score
  {
  }

  lemma SimilarHit(repo: Repo, threshold: int, dels: seq<Cand>, adds: seq<Cand>, dm: LeafMap, am: LeafMap, exact: RenameMap,
                   freeD: seq<bool>, freeA: seq<bool>, d: Path, a: Path) returns (h: Hit)
    requires Lists(dels, dm) && Lists(adds, am) && ExactOnly(dm, am, exact)
    requires Used(freeD, dels, exact.Keys) && Used(freeA, adds, exact.Values)
    requires Similar(repo, threshold, dm, am, d, a)
    ensures IsHit(repo, threshold, dels, adds, freeD, freeA, h)
    ensures dels[h.d].path == d && adds[h.a].path == a && h.score == ScoreAt(repo, dm, am, d, a)
  {
    var i :| 0 <= i < |dels| && dels[i].path == d;
    var j :| 0 <= j < |adds| && adds[j].path == a;
    h := Hit(Score(repo, dm[d], am[a]).value, i, j);
    assert forall x :: x in exact ==> ExactPair(dm, am, x, exact[x]);
    assert a !in exact.Values by {
      forall d' | d' in exact ensures exact[d'] != a { assert ExactPair(dm, am, d', exact[d']); }
    }
  }
}
