/**
 * The order of the type list as the hash cache keeps it: each type's predecessor
 * (packages/live/src/dirty-units.ts, typeOrder). A type is its path here, and `FIRST`, the
 * empty path, stands for "none before it".
 */
module TypeOrder {
  type Path = string

  const FIRST: Path := ""

  ghost predicate NoRepeats(paths: seq<Path>) { forall i, j :: 0 <= i < j < |paths| ==> paths[i] != paths[j] }

  /** No path twice, none empty. */
  ghost predicate Proper(paths: seq<Path>) {
    NoRepeats(paths) && forall i :: 0 <= i < |paths| ==> paths[i] != FIRST
  }

  function Before(paths: seq<Path>, i: nat): Path
    requires i <= |paths|
  {
    if i > 0 then paths[i - 1] else FIRST
  }

  function Order(paths: seq<Path>): map<Path, Path> {
    if paths == [] then map[] else
      var n := |paths| - 1;
      Order(paths[..n])[paths[n] := Before(paths, n)]
  }

  /** `typeOrder`. */
  method PredecessorMap(paths: seq<Path>) returns (order: map<Path, Path>)
    ensures order == Order(paths)
  {
    order := map[];
    for i := 0 to |paths|
      invariant order == Order(paths[..i])
    {
      assert paths[..i + 1][..i] == paths[..i];
      order := order[paths[i] := if i > 0 then paths[i - 1] else ""];
    }
    assert paths[..|paths|] == paths;
  }

  lemma {:induction false} OrderKeys(paths: seq<Path>)
    ensures Order(paths).Keys == set p | p in paths
    decreases |paths|
  {
    if paths != [] {
      var n := |paths| - 1;
      OrderKeys(paths[..n]);
      assert paths == paths[..n] + [paths[n]];
    }
  }

  /** In a list without duplicates a path's entry is what stands before it. */
  lemma {:induction false} OrderWithoutRepeats(paths: seq<Path>, i: nat)
    requires NoRepeats(paths) && i < |paths|
    ensures paths[i] in Order(paths) && Order(paths)[paths[i]] == Before(paths, i)
    decreases |paths|
  {
    var n := |paths| - 1;
    if i < n {
      var fewer := paths[..n];
      assert NoRepeats(fewer) && fewer[i] == paths[i] && Before(fewer, i) == Before(paths, i);
      OrderWithoutRepeats(fewer, i);
    }
  }

  lemma OrderAt(paths: seq<Path>, i: nat)
    requires Proper(paths) && i < |paths|
    ensures paths[i] in Order(paths) && Order(paths)[paths[i]] == Before(paths, i)
  {
    OrderWithoutRepeats(paths, i);
  }

  /** The only place with a given predecessor is the next one. */
  lemma PlaceAfter(paths: seq<Path>, k: nat, m: nat)
    requires Proper(paths) && k < |paths| && m <= |paths| && Before(paths, k) == Before(paths, m)
    ensures k == m
  {
    assert k > 0 && m > 0 ==> paths[k - 1] == paths[m - 1];
  }

  lemma PlaceOf(paths: seq<Path>, p: Path) returns (k: nat)
    requires Proper(paths) && p in Order(paths)
    ensures k < |paths| && paths[k] == p && Before(paths, k) == Order(paths)[p]
  {
    OrderKeys(paths);
    k :| k < |paths| && paths[k] == p;
    OrderAt(paths, k);
  }

  /** Equal predecessor maps, equal lists: the maps decide the order. */
  lemma OrderDecides(a: seq<Path>, b: seq<Path>)
    requires Proper(a) && Proper(b) && Order(a) == Order(b)
    ensures a == b
  {
    hide *;
    SameUpTo(a, b, |a|);
    SameUpTo(b, a, |b|);
  }

  lemma {:induction false} SameUpTo(a: seq<Path>, b: seq<Path>, n: nat)
    requires Proper(a) && Proper(b) && Order(a) == Order(b) && n <= |a|
    ensures n <= |b| && a[..n] == b[..n]
    decreases n
  {
    hide *;
    if n > 0 {
      var m := n - 1;
      SameUpTo(a, b, m);
      OrderAt(a, m);
      var k := PlaceOf(b, a[m]);
      SameBefore(a, b, m);
      PlaceAfter(b, k, m);
      assert a[..n] == a[..m] + [a[m]] && b[..n] == b[..m] + [b[m]];
    }
  }

  lemma SameBefore(a: seq<Path>, b: seq<Path>, m: nat)
    requires m <= |a| && m <= |b| && a[..m] == b[..m]
    ensures Before(a, m) == Before(b, m)
  {
    assert m > 0 ==> a[m - 1] == a[..m][m - 1] && b[m - 1] == b[..m][m - 1];
  }

  // ---------------------------------------------------------------------------
  // What a move marks
  // ---------------------------------------------------------------------------

  /** The paths whose predecessor differs: the ones a change of order dirties. */
  function Marked(was: seq<Path>, now: seq<Path>): set<Path> {
    set p | p in Order(was) && p in Order(now) && Order(was)[p] != Order(now)[p]
  }

  function Placed(rest: seq<Path>, i: nat, p: Path): seq<Path>
    requires i <= |rest|
  {
    rest[..i] + [p] + rest[i..]
  }

  lemma PlacedIsProper(rest: seq<Path>, i: nat, p: Path)
    requires i <= |rest| && Proper(rest) && p !in rest && p != FIRST
    ensures Proper(Placed(rest, i, p))
    ensures forall q :: q in Placed(rest, i, p) <==> q in rest || q == p
  {
    assert rest == rest[..i] + rest[i..];
  }

  /** The predecessors around the place where one path was put. */
  lemma PlacedAt(rest: seq<Path>, i: nat, p: Path, k: nat)
    requires i <= |rest| && Proper(rest) && p !in rest && p != FIRST && k < |rest|
    ensures var order := Order(Placed(rest, i, p));
      && p in order && order[p] == Before(rest, i)
      && rest[k] in order && order[rest[k]] == if k == i then p else Before(rest, k)
  {
    hide Order, Proper;
    var s := Placed(rest, i, p);
    PlacedIsProper(rest, i, p);
    OrderAt(s, i);
    OrderAt(s, if k < i then k else k + 1);
  }

  lemma PlacedKeys(rest: seq<Path>, i: nat, p: Path)
    requires i <= |rest| && Proper(rest) && p !in rest && p != FIRST
    ensures forall q :: q in Order(Placed(rest, i, p)) <==> q in rest || q == p
    ensures Order(Placed(rest, i, p))[p] == Before(rest, i)
  {
    var s := Placed(rest, i, p);
    PlacedIsProper(rest, i, p);
    OrderKeys(s);
    assert s[i] == p;
    OrderAt(s, i);
  }

  /** Moving one type marks exactly it, its old successor and its new successor. */
  lemma MovingOne(rest: seq<Path>, i: nat, j: nat, p: Path)
    requires i <= |rest| && j <= |rest| && i != j && Proper(rest) && p !in rest && p != FIRST
    ensures forall q :: q in Marked(Placed(rest, i, p), Placed(rest, j, p)) <==>
      q == p || (i < |rest| && q == rest[i]) || (j < |rest| && q == rest[j])
  {
    hide Order, Proper, Placed;
    var marked := Marked(Placed(rest, i, p), Placed(rest, j, p));
    PlacedKeys(rest, i, p);
    PlacedKeys(rest, j, p);
    BeforeDiffers(rest, i, j);
    forall k | 0 <= k < |rest| ensures rest[k] in marked <==> k == i || k == j {
      PlacedAt(rest, i, p, k);
      PlacedAt(rest, j, p, k);
      NotBefore(rest, k, p);
    }
    forall q | q in marked && q != p ensures (i < |rest| && q == rest[i]) || (j < |rest| && q == rest[j]) {
      var k :| 0 <= k < |rest| && rest[k] == q;
    }
  }

  lemma BeforeDiffers(rest: seq<Path>, i: nat, j: nat)
    requires i <= |rest| && j <= |rest| && i != j && Proper(rest)
    ensures Before(rest, i) != Before(rest, j)
  {
    if i < |rest| { PlaceDiffers(rest, i, j); } else { PlaceDiffers(rest, j, i); }
  }

  lemma PlaceDiffers(rest: seq<Path>, i: nat, j: nat)
    requires i < |rest| && j <= |rest| && i != j && Proper(rest)
    ensures Before(rest, i) != Before(rest, j)
  {
    if Before(rest, i) == Before(rest, j) { PlaceAfter(rest, i, j); }
  }

  lemma NotBefore(rest: seq<Path>, k: nat, p: Path)
    requires k <= |rest| && p !in rest && p != FIRST
    ensures Before(rest, k) != p
  {
  }

  // ---------------------------------------------------------------------------
  // Blocks
  // ---------------------------------------------------------------------------

  /** Where the type at `k` of p + a + b + r is in p + b + a + r. */
  function Swapped(p: nat, a: nat, b: nat, k: nat): nat {
    if p <= k < p + a then k + b else if p + a <= k < p + a + b then k - a else k
  }

  lemma SwappedAt(p: seq<Path>, a: seq<Path>, b: seq<Path>, r: seq<Path>, k: nat)
    requires k < |p + a + b + r|
    ensures Swapped(|p|, |a|, |b|, k) < |p + b + a + r| && (p + b + a + r)[Swapped(|p|, |a|, |b|, k)] == (p + a + b + r)[k]
  {
  }

  lemma SwappedIsProper(p: seq<Path>, a: seq<Path>, b: seq<Path>, r: seq<Path>)
    requires Proper(p + a + b + r)
    ensures Proper(p + b + a + r)
  {
    var was, now := p + a + b + r, p + b + a + r;
    forall j | 0 <= j < |now|
      ensures Swapped(|p|, |b|, |a|, j) < |was| && was[Swapped(|p|, |b|, |a|, j)] == now[j]
    {
      SwappedAt(p, b, a, r, j);
    }
    forall i, j | 0 <= i < j < |now| ensures now[i] != now[j] {
      assert Swapped(|p|, |b|, |a|, i) != Swapped(|p|, |b|, |a|, j);
    }
  }

  /** The only types with another one before them are the first of each block and the first behind both. */
  lemma BeforeSwapped(p: seq<Path>, a: seq<Path>, b: seq<Path>, r: seq<Path>, k: nat)
    requires Proper(p + a + b + r) && a != [] && b != [] && k < |p + a + b + r|
    ensures var was, now := p + a + b + r, p + b + a + r;
      Before(was, k) == Before(now, Swapped(|p|, |a|, |b|, k)) <==> k != |p| && k != |p| + |a| && k != |p| + |a| + |b|
  {
    var was, now, j := p + a + b + r, p + b + a + r, Swapped(|p|, |a|, |b|, k);
    if k == |p| {
      assert Before(now, j) == was[|p| + |a| + |b| - 1];
    } else if k == |p| + |a| {
      assert Before(was, k) == was[k - 1] && Before(now, j) == Before(was, |p|);
    } else if k == |p| + |a| + |b| {
      assert Before(was, k) == was[k - 1] && Before(now, j) == was[|p| + |a| - 1];
    } else if k > 0 {
      SwappedAt(p, a, b, r, k - 1);
      assert Swapped(|p|, |a|, |b|, k - 1) == j - 1;
    }
  }

  /**
   * Two neighbouring blocks that trade places mark the first type of each and the one that
   * stands behind both, if any, whatever is before and in them: the rest keep their predecessor.
   */
  lemma MovingABlock(p: seq<Path>, a: seq<Path>, b: seq<Path>, r: seq<Path>)
    requires Proper(p + a + b + r) && a != [] && b != []
    ensures Marked(p + a + b + r, p + b + a + r) == {a[0], b[0]} + if r != [] then {r[0]} else {}
  {
    hide Order, Proper, Swapped, Before;
    var was, now := p + a + b + r, p + b + a + r;
    var marked := Marked(was, now);
    SwappedIsProper(p, a, b, r);
    OrderKeys(was);
    forall k | 0 <= k < |was| ensures was[k] in marked <==> k == |p| || k == |p| + |a| || k == |p| + |a| + |b| {
      SwappedAt(p, a, b, r, k);
      OrderAt(was, k);
      OrderAt(now, Swapped(|p|, |a|, |b|, k));
      BeforeSwapped(p, a, b, r, k);
    }
    assert was[|p|] == a[0] && was[|p| + |a|] == b[0] && (r != [] ==> was[|p| + |a| + |b|] == r[0]);
    forall q | q in marked ensures q in {a[0], b[0]} + if r != [] then {r[0]} else {} {
      assert q in was;
      var k :| 0 <= k < |was| && was[k] == q;
    }
  }
}
