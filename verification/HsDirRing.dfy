/** The hidden-service directory ring (`phinet-core/src/hsdir_ring.rs`, after section 2.2.3 of Tor
    rend-spec-v3). The hashes that place relays and descriptors on the ring are parameters: `index` gives
    a relay's position, `targets` a descriptor's position for each replica. */
module HsDirRing {
  import opened NumberTheory
  import Sorting
  import opened Sets

  const SPREAD: nat := 3
  const REPLICAS: nat := 2

  type Index = nat

  datatype Relay = Relay(nodeId: string)

  /** Positions on the ring are compared from some target on: first those at or after it. */
  datatype Place = Place(lap: nat, at: Index)

  predicate Lt(a: Place, b: Place) {
    a.lap < b.lap || (a.lap == b.lap && a.at < b.at)
  }

  type Positions = Relay -> Index

  type Key = Relay -> Place

  /** Where relays sit going clockwise from `target`; from 0, this is the order of the ring itself. */
  function Clockwise(index: Positions, target: Index): Key {
    r => Place(if index(r) >= target then 0 else 1, index(r))
  }

  function InOrder(index: Positions): Key {
    Clockwise(index, 0)
  }

  // ── Sorting by a key ────────────────────────────────────────────────

  predicate NotAfter(key: Key, a: Relay, b: Relay) {
    !Lt(key(b), key(a))
  }

  function Sort(rs: seq<Relay>, key: Key): seq<Relay> {
    Sorting.Sort(rs, (a, b) => NotAfter(key, a, b))
  }

  predicate Ascending(rs: seq<Relay>, key: Key) {
    forall i, j :: 0 <= i < j < |rs| ==> Lt(key(rs[i]), key(rs[j]))
  }

  predicate Distinct(rs: seq<Relay>) {
    forall i, j :: 0 <= i < j < |rs| ==> rs[i] != rs[j]
  }

  /** No two of the relays share a position. */
  predicate Apart(rs: seq<Relay>, index: Positions) {
    forall i, j :: 0 <= i < j < |rs| ==> index(rs[i]) != index(rs[j])
  }

  predicate Separate(rs: seq<Relay>, key: Key) {
    forall i, j :: 0 <= i < j < |rs| ==> key(rs[i]) != key(rs[j])
  }

  function Members(rs: seq<Relay>): set<Relay> {
    set r | r in rs
  }

  lemma SortAscending(rs: seq<Relay>, key: Key)
    requires Separate(rs, key)
    ensures var s := Sort(rs, key);
            Ascending(s, key) && |s| == |rs| && Members(s) == Members(rs)
  {
    var le := (a, b) => NotAfter(key, a, b);
    var s := Sort(rs, key);
    Sorting.SortKeeps(rs, le);
    Sorting.SortSorted(rs, le);
    assert forall r :: r in s <==> r in multiset(s);
    assert forall r :: r in rs <==> r in multiset(rs);
    assert Sorting.DistinctBy(rs, key);
    Sorting.DistinctPermuted(rs, s, key);
    forall i, j | 0 <= i < j < |s|
      ensures Lt(key(s[i]), key(s[j]))
    {
      assert le(s[i], s[j]);
    }
  }

  /** There is only one way to put a set of relays in ascending order. */
  lemma {:induction false} AscendingUnique(a: seq<Relay>, b: seq<Relay>, key: Key)
    requires Ascending(a, key) && Ascending(b, key) && Members(a) == Members(b)
    ensures a == b
  {
    assert a != [] ==> a[0] in Members(a);
    assert b != [] ==> b[0] in Members(b);
    if a != [] && b != [] {
      assert a[0] in Members(b) && b[0] in Members(a);
      assert a[0] == b[0];
      assert Members(a[1..]) == Members(a) - {a[0]} by {
        TailMembers(a, key);
      }
      assert Members(b[1..]) == Members(b) - {b[0]} by {
        TailMembers(b, key);
      }
      AscendingUnique(a[1..], b[1..], key);
    }
  }

  lemma TailMembers(a: seq<Relay>, key: Key)
    requires Ascending(a, key) && a != []
    ensures Members(a[1..]) == Members(a) - {a[0]}
  {
    assert a == [a[0]] + a[1..];
  }

  // ── The walk of the source ──────────────────────────────────────────

  /** `partition_point`: how many relays sit before the target. */
  function StartAt(ring: seq<Relay>, index: Positions, target: Index): (n: nat)
    ensures n <= |ring|
  {
    if ring == [] then 0
    else if index(ring[|ring| - 1]) < target then |ring|
    else StartAt(ring[..|ring| - 1], index, target)
  }

  lemma {:induction false} StartSplits(ring: seq<Relay>, index: Positions, target: Index)
    requires Ascending(ring, InOrder(index))
    ensures var n := StartAt(ring, index, target);
            && (forall i :: 0 <= i < n ==> index(ring[i]) < target)
            && (forall i :: n <= i < |ring| ==> index(ring[i]) >= target)
  {
    if ring != [] {
      var last := |ring| - 1;
      if index(ring[last]) >= target {
        var init := ring[..last];
        StartSplits(init, index, target);
        assert forall i :: 0 <= i < last ==> init[i] == ring[i];
      }
    }
  }

  /** The ring seen from the target on. */
  function Rotated(ring: seq<Relay>, start: nat): seq<Relay>
    requires start <= |ring|
  {
    ring[start..] + ring[..start]
  }

  /** Walking the ring from the target on meets the relays in order of their clockwise distance. */
  lemma WalkIsClockwise(rs: seq<Relay>, index: Positions, target: Index)
    requires Apart(rs, index)
    ensures var ring := Sort(rs, InOrder(index));
            Rotated(ring, StartAt(ring, index, target)) == Sort(rs, Clockwise(index, target))
  {
    var ring, key := Sort(rs, InOrder(index)), Clockwise(index, target);
    ClockwiseApart(rs, index, target);
    SortAscending(rs, InOrder(index));
    StartSplits(ring, index, target);
    var start := StartAt(ring, index, target);
    var walk := Rotated(ring, start);
    RotationAscending(ring, index, target, start);
    assert Members(walk) == Members(ring) by {
      assert ring == ring[..start] + ring[start..];
    }
    ClockwiseApart(rs, index, target);
    SortAscending(rs, key);
    AscendingUnique(walk, Sort(rs, key), key);
  }

  lemma RotationAscending(ring: seq<Relay>, index: Positions, target: Index, start: nat)
    requires Ascending(ring, InOrder(index)) && start <= |ring|
    requires forall i :: 0 <= i < start ==> index(ring[i]) < target
    requires forall i :: start <= i < |ring| ==> index(ring[i]) >= target
    ensures Ascending(Rotated(ring, start), Clockwise(index, target))
  {
    var walk, key, wrap := Rotated(ring, start), Clockwise(index, target), |ring| - start;
    forall i, j | 0 <= i < j < |walk|
      ensures Lt(key(walk[i]), key(walk[j]))
    {
      var a, b := if i < wrap then start + i else i - wrap, if j < wrap then start + j else j - wrap;
      assert walk[i] == ring[a] && walk[j] == ring[b];
      assert a < b ==> index(ring[a]) < index(ring[b]);
    }
  }

  lemma ClockwiseApart(rs: seq<Relay>, index: Positions, target: Index)
    requires Apart(rs, index)
    ensures Separate(rs, Clockwise(index, target)) && Separate(rs, InOrder(index))
  {
  }

  lemma WalkStep(ring: seq<Relay>, start: nat, k: nat)
    requires start <= |ring| && ring != []
    ensures 0 <= (start + k) % |ring| < |ring| && 0 <= k % |ring| < |ring|
    ensures ring[(start + k) % |ring|] == Rotated(ring, start)[k % |ring|]
  {
    var n := |ring|;
    var q, r := k / n, k % n;
    assert k == q * n + r;
    if start + r < n {
      ModUnique(start + k, q, start + r, n);
    } else {
      assert start + k == (q + 1) * n + (start + r - n) by {
        assert (q + 1) * n == q * n + n;
      }
      ModUnique(start + k, q + 1, start + r - n, n);
    }
  }

  // ── The result ──────────────────────────────────────────────────────

  /** The relays nearest to the target going clockwise, nearest first. */
  function Nearest(rs: seq<Relay>, index: Positions, target: Index): seq<Relay> {
    var sorted := Sort(rs, Clockwise(index, target));
    sorted[..Least(SPREAD, |sorted|)]
  }

  function Push(out: seq<Relay>, id: Relay): seq<Relay> {
    if id in out then out else out + [id]
  }

  /** `more` added to `out`, leaving out repetitions. */
  function Merge(out: seq<Relay>, more: seq<Relay>): seq<Relay>
    decreases |more|
  {
    if more == [] then out else Merge(Push(out, more[0]), more[1..])
  }

  /** The relays responsible for a descriptor: those nearest to each of its positions. */
  function Responsible(rs: seq<Relay>, index: Positions, targets: seq<Index>): seq<Relay>
    requires |targets| == REPLICAS
  {
    Merge(Nearest(rs, index, targets[0]), Nearest(rs, index, targets[1]))
  }

  lemma {:induction false} MergeSnoc(out: seq<Relay>, more: seq<Relay>, id: Relay)
    ensures Merge(out, more + [id]) == Push(Merge(out, more), id)
    decreases |more|
  {
    if more == [] {
      assert more + [id] == [id] && [id][1..] == [];
    } else {
      assert (more + [id])[1..] == more[1..] + [id];
      MergeSnoc(Push(out, more[0]), more[1..], id);
    }
  }

  lemma {:induction false} MergeMeaning(out: seq<Relay>, more: seq<Relay>)
    requires Distinct(out)
    ensures Distinct(Merge(out, more)) && Members(Merge(out, more)) == Members(out) + Members(more)
    ensures out <= Merge(out, more)
    decreases |more|
  {
    if more == [] {
    } else {
      MergeMeaning(Push(out, more[0]), more[1..]);
      assert Members(more) == {more[0]} + Members(more[1..]);
      assert Members(Push(out, more[0])) == Members(out) + {more[0]};
    }
  }

  /** Nothing is added by relays that are there already. */
  lemma {:induction false} MergeKnown(out: seq<Relay>, more: seq<Relay>)
    requires forall r :: r in more ==> r in out
    ensures Merge(out, more) == out
    decreases |more|
  {
    if more != [] {
      assert more[0] in out;
      MergeKnown(out, more[1..]);
    }
  }

  lemma {:induction false} MergeConcat(out: seq<Relay>, a: seq<Relay>, b: seq<Relay>)
    ensures Merge(out, a + b) == Merge(Merge(out, a), b)
    decreases |a|
  {
    if a == [] {
      assert a + b == b;
    } else {
      assert (a + b)[1..] == a[1..] + b;
      MergeConcat(Push(out, a[0]), a[1..], b);
    }
  }

  /** Merging distinct relays into nothing. */
  lemma {:induction false} MergeFresh(out: seq<Relay>, more: seq<Relay>)
    requires Distinct(out + more)
    ensures Merge(out, more) == out + more
    decreases |more|
  {
    if more == [] {
      assert out + more == out;
    } else {
      assert more[0] !in out by {
        assert (out + more)[|out|] == more[0];
        forall i | 0 <= i < |out|
          ensures out[i] != more[0]
        {
          assert (out + more)[i] == out[i];
        }
      }
      assert (out + [more[0]]) + more[1..] == out + more;
      MergeFresh(out + [more[0]], more[1..]);
    }
  }

  // ── The source's loop ───────────────────────────────────────────────

  /** Indexing that wraps at the end of the ring. */
  function At(ring: seq<Relay>, i: nat): Relay
    requires ring != []
  {
    ring[i % |ring|]
  }

  /** The `SPREAD` relays the inner loop looks at, wrapping at the end of the ring. */
  function Picks(ring: seq<Relay>, start: nat): (ps: seq<Relay>)
    requires ring != []
    ensures |ps| == SPREAD
  {
    seq(SPREAD, k requires 0 <= k < SPREAD => At(ring, start + k))
  }

  /** Pushing one after another until `limit` relays have been found. */
  function Collect(out: seq<Relay>, picks: seq<Relay>, limit: nat): seq<Relay>
    decreases |picks|
  {
    if picks == [] then out
    else
      var out' := Push(out, picks[0]);
      if |out'| >= limit then out' else Collect(out', picks[1..], limit)
  }

  function AllPicks(rs: seq<Relay>, index: Positions, targets: seq<Index>): (ps: seq<Relay>)
    requires |targets| == REPLICAS && rs != []
    ensures |ps| == REPLICAS * SPREAD
  {
    var ring := Sort(rs, InOrder(index));
    SortLength(rs, InOrder(index));
    Picks(ring, StartAt(ring, index, targets[0])) + Picks(ring, StartAt(ring, index, targets[1]))
  }

  lemma SortLength(rs: seq<Relay>, key: Key)
    ensures |Sort(rs, key)| == |rs|
  {
    Sorting.SortKeeps(rs, (a, b) => NotAfter(key, a, b));
  }

  function Answer(rs: seq<Relay>, index: Positions, targets: seq<Index>): seq<Relay>
    requires |targets| == REPLICAS
  {
    if rs == [] then [] else Collect([], AllPicks(rs, index, targets), |rs|)
  }

  /** `responsible_hsdirs`. */
  method ResponsibleHsdirs(rs: seq<Relay>, index: Positions, targets: seq<Index>) returns (out: seq<Relay>)
    requires |targets| == REPLICAS
    ensures out == Answer(rs, index, targets)
    ensures Apart(rs, index) ==> out == Responsible(rs, index, targets)
  {
    hide Collect, Sort, StartAt, Responsible, Apart, Picks, Clockwise;
    if Apart(rs, index) {
      AnswerIsResponsible(rs, index, targets);
    }
    if rs == [] {
      return [];
    }
    var ring := Sort(rs, InOrder(index));
    SortLength(rs, InOrder(index));
    ghost var all := AllPicks(rs, index, targets);
    assert all[0..] == all;
    out := [];
    for replica := 0 to REPLICAS
      invariant Collect([], all, |rs|) == Collect(out, all[replica * SPREAD..], |rs|)
    {
      var start := StartAt(ring, index, targets[replica]);
      ghost var rest := all[(replica + 1) * SPREAD..];
      assert all[replica * SPREAD..] == Picks(ring, start) + rest;
      var full;
      out, full := WalkFrom(ring, start, out, |rs|, rest);
      if full {
        return;
      }
    }
    assert all[REPLICAS * SPREAD..] == [];
    CollectNothing(out, |rs|);
  }

  /** The inner loop; `full` when it ends the whole search. */
  method WalkFrom(ring: seq<Relay>, start: nat, found: seq<Relay>, limit: nat, ghost rest: seq<Relay>)
    returns (out: seq<Relay>, full: bool)
    requires ring != []
    ensures Collect(found, Picks(ring, start) + rest, limit) == if full then out else Collect(out, rest, limit)
  {
    hide Collect, At;
    ghost var picks := Picks(ring, start) + rest;
    assert picks[0..] == picks;
    out := found;
    for k := 0 to SPREAD
      invariant Collect(found, picks, limit) == Collect(out, picks[k..], limit)
    {
      var id := At(ring, start + k);
      CollectStep(out, picks, k, limit);
      if id !in out {
        out := out + [id];
      }
      if |out| >= limit {
        return out, true;
      }
    }
    assert picks[SPREAD..] == rest;
    return out, false;
  }

  lemma CollectStep(out: seq<Relay>, picks: seq<Relay>, k: nat, limit: nat)
    requires k < |picks|
    ensures var out' := Push(out, picks[k]);
            Collect(out, picks[k..], limit) == if |out'| >= limit then out' else Collect(out', picks[k + 1..], limit)
  {
    assert picks[k..][1..] == picks[k + 1..];
  }

  lemma CollectNothing(out: seq<Relay>, limit: nat)
    ensures Collect(out, [], limit) == out
  {
  }

  // ── The code's answer is the reference answer ───────────────────────

  lemma {:induction false} DistinctCount(rs: seq<Relay>)
    requires Distinct(rs)
    ensures |Members(rs)| == |rs|
  {
    if rs != [] {
      DistinctCount(rs[1..]);
      assert rs == [rs[0]] + rs[1..];
      assert Members(rs) == {rs[0]} + Members(rs[1..]);
    }
  }

  lemma SubsetOfSameSize<T>(a: set<T>, b: set<T>)
    requires a <= b && |a| >= |b|
    ensures a == b
  {
    assert b == a + (b - a);
    assert |b| == |a| + |b - a|;
  }

  /** Stopping early loses nothing: by then every relay has been found. */
  lemma {:induction false} CollectIsMerge(out: seq<Relay>, picks: seq<Relay>, rs: seq<Relay>)
    requires Distinct(out) && Members(out) <= Members(rs) && Members(picks) <= Members(rs)
    ensures Collect(out, picks, |rs|) == Merge(out, picks)
    decreases |picks|
  {
    if picks != [] {
      var out', rest := Push(out, picks[0]), picks[1..];
      assert picks[0] in Members(picks);
      assert Members(out') <= Members(rs);
      assert Members(rest) <= Members(picks);
      if |out'| >= |rs| {
        DistinctCount(out');
        MembersCount(rs);
        SubsetOfSameSize(Members(out'), Members(rs));
        forall r | r in rest
          ensures r in out'
        {
          assert r in Members(rest) && r in Members(out');
        }
        MergeKnown(out', rest);
      } else {
        CollectIsMerge(out', rest, rs);
      }
    }
  }

  lemma {:induction false} MembersCount(rs: seq<Relay>)
    ensures |Members(rs)| <= |rs|
  {
    if rs != [] {
      MembersCount(rs[1..]);
      assert rs == [rs[0]] + rs[1..];
      assert Members(rs) == {rs[0]} + Members(rs[1..]);
    }
  }

  lemma PicksFollowWalk(rs: seq<Relay>, index: Positions, target: Index)
    requires Apart(rs, index) && rs != []
    ensures var ring := Sort(rs, InOrder(index));
            && |ring| == |rs|
            && var ps, walk := Picks(ring, StartAt(ring, index, target)), Sort(rs, Clockwise(index, target));
            && |walk| == |rs| && Members(walk) == Members(rs)
            && forall k :: 0 <= k < SPREAD ==> 0 <= k % |rs| < |rs| && ps[k] == walk[k % |rs|]
  {
    hide Ascending, StartAt, Clockwise, Sort, Apart, Members, Rotated;
    var ring, key := Sort(rs, InOrder(index)), Clockwise(index, target);
    SortLength(rs, InOrder(index));
    WalkIsClockwise(rs, index, target);
    ClockwiseApart(rs, index, target);
    SortAscending(rs, key);
    forall k | 0 <= k < SPREAD
      ensures 0 <= k % |rs| < |rs| && Picks(ring, StartAt(ring, index, target))[k] == Sort(rs, key)[k % |rs|]
    {
      WalkStep(ring, StartAt(ring, index, target), k);
    }
  }

  /** Going round again adds nothing. */
  lemma MergeRound(walk: seq<Relay>, ps: seq<Relay>, out: seq<Relay>)
    requires walk != [] && |ps| == SPREAD
    requires forall k :: 0 <= k < SPREAD ==> 0 <= k % |walk| < |walk| && ps[k] == walk[k % |walk|]
    ensures Members(ps) <= Members(walk)
    ensures Merge(out, ps) == Merge(out, walk[..Least(SPREAD, |walk|)])
  {
    var near := walk[..Least(SPREAD, |walk|)];
    var m := |near|;
    forall k | 0 <= k < m
      ensures ps[k] == near[k]
    {
      ModSmall(k, |walk|);
    }
    assert ps == near + ps[m..];
    forall r | r in ps[m..]
      ensures r in Merge(out, near)
    {
      var i :| m <= i < SPREAD && ps[i] == r;
      assert near == walk && r == near[i % |walk|];
      MergeHolds(out, near, r);
    }
    MergeConcat(out, near, ps[m..]);
    MergeKnown(Merge(out, near), ps[m..]);
  }

  /** The inner loop looks at the nearest relays, and again at some of them if there are few. */
  lemma PicksAreNearest(rs: seq<Relay>, index: Positions, target: Index, out: seq<Relay>)
    requires Apart(rs, index) && rs != []
    ensures var ring := Sort(rs, InOrder(index));
            && |ring| == |rs|
            && var ps := Picks(ring, StartAt(ring, index, target));
            && Members(ps) <= Members(rs)
            && Merge(out, ps) == Merge(out, Nearest(rs, index, target))
  {
    hide StartAt, Clockwise, Apart, Picks, Sort, Merge;
    PicksFollowWalk(rs, index, target);
    var ring := Sort(rs, InOrder(index));
    MergeRound(Sort(rs, Clockwise(index, target)), Picks(ring, StartAt(ring, index, target)), out);
  }

  lemma {:induction false} MergeHolds(out: seq<Relay>, more: seq<Relay>, r: Relay)
    ensures r in Merge(out, more) <==> r in out || r in more
    decreases |more|
  {
    if more != [] {
      MergeHolds(Push(out, more[0]), more[1..], r);
      assert more == [more[0]] + more[1..];
    }
  }

  /** Publisher and client agree on the reference answer: whatever `relays` lists first, each replica goes
      to the relays nearest clockwise. */
  lemma AnswerIsResponsible(rs: seq<Relay>, index: Positions, targets: seq<Index>)
    requires |targets| == REPLICAS && Apart(rs, index)
    ensures Answer(rs, index, targets) == Responsible(rs, index, targets)
  {
    if rs != [] {
      var ring := Sort(rs, InOrder(index));
      var near := Nearest(rs, index, targets[0]);
      PicksAreNearest(rs, index, targets[0], []);
      PicksAreNearest(rs, index, targets[1], near);
      var p0, p1 := Picks(ring, StartAt(ring, index, targets[0])), Picks(ring, StartAt(ring, index, targets[1]));
      assert Members(p0 + p1) == Members(p0) + Members(p1);
      CollectIsMerge([], p0 + p1, rs);
      MergeConcat([], p0, p1);
      NearestDistinct(rs, index, targets[0]);
      assert [] + near == near;
      MergeFresh([], near);
    }
  }

  lemma NearestDistinct(rs: seq<Relay>, index: Positions, target: Index)
    requires Apart(rs, index)
    ensures var near := Nearest(rs, index, target);
            && Ascending(near, Clockwise(index, target)) && Distinct(near)
            && |near| == Least(SPREAD, |rs|) && Members(near) <= Members(rs)
  {
    hide Clockwise;
    var key := Clockwise(index, target);
    ClockwiseApart(rs, index, target);
    SortAscending(rs, key);
    var sorted := Sort(rs, key);
    assert forall i, j :: 0 <= i < j < |sorted| ==> Lt(key(sorted[i]), key(sorted[j]));
  }

  // ── Which relays these are ──────────────────────────────────────────

  /** The relays met before `r`. */
  function Before(all: set<Relay>, key: Key, r: Relay): set<Relay> {
    set s | s in all && Lt(key(s), key(r))
  }

  /** Those with fewer than `SPREAD` relays before them, however the set is listed. */
  function Top(all: set<Relay>, key: Key): set<Relay> {
    set r | r in all && |Before(all, key, r)| < SPREAD
  }

  lemma RankIsPosition(rs: seq<Relay>, key: Key, i: nat)
    requires Ascending(rs, key) && i < |rs|
    ensures |Before(Members(rs), key, rs[i])| == i
  {
    var init := rs[..i];
    forall r
      ensures r in Before(Members(rs), key, rs[i]) <==> r in Members(init)
    {
      if r in Before(Members(rs), key, rs[i]) {
        var j :| 0 <= j < |rs| && rs[j] == r;
        assert j < i && init[j] == r;
      }
      if r in init {
        var j :| 0 <= j < |init| && init[j] == r;
        assert Lt(key(rs[j]), key(rs[i]));
      }
    }
    assert Before(Members(rs), key, rs[i]) == Members(init);
    AscendingDistinct(rs, key);
    DistinctCount(init);
  }

  lemma AscendingDistinct(rs: seq<Relay>, key: Key)
    requires Ascending(rs, key)
    ensures Distinct(rs)
  {
    forall i, j | 0 <= i < j < |rs|
      ensures rs[i] != rs[j]
    {
      assert Lt(key(rs[i]), key(rs[j]));
    }
  }

  lemma NearestIsTop(rs: seq<Relay>, index: Positions, target: Index)
    requires Apart(rs, index)
    ensures Members(Nearest(rs, index, target)) == Top(Members(rs), Clockwise(index, target))
  {
    hide Sort, Before, Clockwise;
    var key := Clockwise(index, target);
    ClockwiseApart(rs, index, target);
    SortAscending(rs, key);
    var sorted := Sort(rs, key);
    var near := Nearest(rs, index, target);
    forall r
      ensures r in Members(near) <==> r in Top(Members(rs), key)
    {
      if r in Members(rs) {
        assert r in Members(sorted);
        var i :| 0 <= i < |sorted| && sorted[i] == r;
        RankIsPosition(sorted, key, i);
        if i < SPREAD {
          assert near[i] == r;
        }
      }
      if r in Members(near) {
        var i :| 0 <= i < |near| && near[i] == r;
        assert sorted[i] == r;
        RankIsPosition(sorted, key, i);
        assert r in Members(sorted);
      }
    }
  }

  /** `is_responsible`: a relay is responsible exactly when at one of the descriptor's positions fewer than
      `SPREAD` relays come before it. */
  lemma ResponsibleMeaning(rs: seq<Relay>, index: Positions, targets: seq<Index>, r: Relay)
    requires |targets| == REPLICAS && Apart(rs, index)
    ensures r in Answer(rs, index, targets) <==>
      r in rs && exists t :: t in targets && |Before(Members(rs), Clockwise(index, t), r)| < SPREAD
  {
    hide Before, Clockwise;
    AnswerMembers(rs, index, targets);
    NearestIsTop(rs, index, targets[0]);
    NearestIsTop(rs, index, targets[1]);
    assert r in Answer(rs, index, targets) <==> r in Members(Answer(rs, index, targets));
    assert targets == [targets[0], targets[1]];
  }

  lemma AnswerMembers(rs: seq<Relay>, index: Positions, targets: seq<Index>)
    requires |targets| == REPLICAS && Apart(rs, index)
    ensures var a := Answer(rs, index, targets);
            && Distinct(a)
            && Members(a) == Members(Nearest(rs, index, targets[0])) + Members(Nearest(rs, index, targets[1]))
            && Nearest(rs, index, targets[0]) <= a
  {
    AnswerIsResponsible(rs, index, targets);
    NearestDistinct(rs, index, targets[0]);
    MergeMeaning(Nearest(rs, index, targets[0]), Nearest(rs, index, targets[1]));
  }

  /** Between three and six distinct relays, as far as there are that many. */
  lemma AnswerSize(rs: seq<Relay>, index: Positions, targets: seq<Index>)
    requires |targets| == REPLICAS && Apart(rs, index)
    ensures var a := Answer(rs, index, targets);
            && Distinct(a) && Members(a) <= Members(rs)
            && Least(SPREAD, |rs|) <= |a| <= Least(REPLICAS * SPREAD, |rs|)
  {
    hide Apart, Distinct;
    var near0, near1 := Nearest(rs, index, targets[0]), Nearest(rs, index, targets[1]);
    var a := Answer(rs, index, targets);
    AnswerMembers(rs, index, targets);
    NearestDistinct(rs, index, targets[0]);
    NearestDistinct(rs, index, targets[1]);
    DistinctCount(a);
    DistinctCount(near0);
    DistinctCount(near1);
    MembersCount(rs);
    SubsetSize(Members(a), Members(rs));
    assert |Members(near0) + Members(near1)| <= |Members(near0)| + |Members(near1)|;
  }

  // ── Order and churn ─────────────────────────────────────────────────

  lemma SameTopSameNearest(rs: seq<Relay>, rs': seq<Relay>, index: Positions, target: Index)
    requires Apart(rs, index) && Apart(rs', index)
    requires Top(Members(rs), Clockwise(index, target)) == Top(Members(rs'), Clockwise(index, target))
    ensures Nearest(rs, index, target) == Nearest(rs', index, target)
  {
    hide Sort, Top, Clockwise, Apart;
    NearestIsTop(rs, index, target);
    NearestIsTop(rs', index, target);
    NearestDistinct(rs, index, target);
    NearestDistinct(rs', index, target);
    AscendingUnique(Nearest(rs, index, target), Nearest(rs', index, target), Clockwise(index, target));
  }

  /** The order in which the relays are listed does not matter, so publisher and client find the same
      relays in the same order. */
  lemma OrderIndependent(rs: seq<Relay>, rs': seq<Relay>, index: Positions, targets: seq<Index>)
    requires |targets| == REPLICAS && Apart(rs, index) && Apart(rs', index) && Members(rs) == Members(rs')
    ensures Answer(rs, index, targets) == Answer(rs', index, targets)
  {
    AnswerIsResponsible(rs, index, targets);
    AnswerIsResponsible(rs', index, targets);
    SameTopSameNearest(rs, rs', index, targets[0]);
    SameTopSameNearest(rs, rs', index, targets[1]);
  }

  /** Keys tell the relays of the set apart. */
  ghost predicate Telling(all: set<Relay>, key: Key) {
    forall r, s :: r in all && s in all && r != s ==> Lt(key(r), key(s)) || Lt(key(s), key(r))
  }

  lemma ApartTells(rs: seq<Relay>, index: Positions, target: Index)
    requires Apart(rs, index)
    ensures Telling(Members(rs), Clockwise(index, target))
  {
    forall r, s | r in rs && s in rs && r != s
      ensures index(r) != index(s)
    {
      var i :| 0 <= i < |rs| && rs[i] == r;
      var j :| 0 <= j < |rs| && rs[j] == s;
      assert i < j || j < i;
    }
  }

  lemma TopWithout(all: set<Relay>, key: Key, r: Relay)
    requires Telling(all, key) && r !in Top(all, key)
    ensures Top(all - {r}, key) == Top(all, key)
  {
    var less := all - {r};
    forall s
      ensures s in Top(less, key) <==> s in Top(all, key)
    {
      if s in less {
        assert Before(less, key, s) == Before(all, key, s) - {r};
        if r in Before(all, key, s) {
          assert r in all;
          SubsetSize(Before(all, key, r), Before(all, key, s) - {r});
        }
      }
    }
  }

  /** A relay that holds no replica can go without moving any descriptor. */
  lemma RemovalUnnoticed(rs: seq<Relay>, rs': seq<Relay>, index: Positions, targets: seq<Index>, r: Relay)
    requires |targets| == REPLICAS && Apart(rs, index) && Apart(rs', index)
    requires Members(rs') == Members(rs) - {r} && r !in Answer(rs, index, targets)
    ensures Answer(rs', index, targets) == Answer(rs, index, targets)
  {
    hide Top, Clockwise, Apart;
    AnswerIsResponsible(rs, index, targets);
    AnswerIsResponsible(rs', index, targets);
    AnswerMembers(rs, index, targets);
    assert r !in Members(Answer(rs, index, targets));
    forall i | 0 <= i < REPLICAS
      ensures Nearest(rs, index, targets[i]) == Nearest(rs', index, targets[i])
    {
      NearestIsTop(rs, index, targets[i]);
      ApartTells(rs, index, targets[i]);
      TopWithout(Members(rs), Clockwise(index, targets[i]), r);
      SameTopSameNearest(rs, rs', index, targets[i]);
    }
  }

  lemma TopWith(all: set<Relay>, key: Key, x: Relay)
    requires Telling(all + {x}, key) && x !in all
    ensures Top(all + {x}, key) <= Top(all, key) + {x}
    ensures forall r, s :: r in Top(all, key) - Top(all + {x}, key) && s in Top(all, key) - Top(all + {x}, key) ==> r == s
  {
    var more := all + {x};
    forall r | r in all
      ensures Before(all, key, r) <= Before(more, key, r) <= Before(all, key, r) + {x}
      ensures |Before(all, key, r)| <= |Before(more, key, r)| <= |Before(all, key, r)| + 1
    {
      SubsetSize(Before(all, key, r), Before(more, key, r));
      SubsetSize(Before(more, key, r), Before(all, key, r) + {x});
    }
    forall r, s | r in Top(all, key) - Top(more, key) && s in Top(all, key) - Top(more, key)
      ensures r == s
    {
      if r != s {
        RanksDiffer(all, key, r, s);
      }
    }
  }

  lemma RanksDiffer(all: set<Relay>, key: Key, r: Relay, s: Relay)
    requires Telling(all, key) && r in all && s in all && r != s
    ensures |Before(all, key, r)| != |Before(all, key, s)|
  {
    if Lt(key(r), key(s)) {
      SubsetSize(Before(all, key, r) + {r}, Before(all, key, s));
    } else {
      SubsetSize(Before(all, key, s) + {s}, Before(all, key, r));
    }
  }

  lemma ReplicaDisplaces(rs: seq<Relay>, rs': seq<Relay>, index: Positions, target: Index, x: Relay)
    requires Apart(rs, index) && Apart(rs', index) && Members(rs') == Members(rs) + {x} && x !in rs
    ensures Members(Nearest(rs', index, target)) <= Members(Nearest(rs, index, target)) + {x}
    ensures |Members(Nearest(rs, index, target)) - Members(Nearest(rs', index, target))| <= 1
  {
    hide Top, Clockwise, Apart, Nearest, Telling;
    NearestIsTop(rs, index, target);
    NearestIsTop(rs', index, target);
    ApartTells(rs', index, target);
    assert x !in Members(rs);
    TopWith(Members(rs), Clockwise(index, target), x);
    AtMostOne(Members(Nearest(rs, index, target)) - Members(Nearest(rs', index, target)));
  }

  /** A relay that joins takes over from at most one relay per replica, and nothing else changes. */
  lemma AdditionDisplaces(rs: seq<Relay>, rs': seq<Relay>, index: Positions, targets: seq<Index>, x: Relay)
    requires |targets| == REPLICAS && Apart(rs, index) && Apart(rs', index)
    requires Members(rs') == Members(rs) + {x} && x !in rs
    ensures Members(Answer(rs', index, targets)) <= Members(Answer(rs, index, targets)) + {x}
    ensures forall i :: 0 <= i < REPLICAS ==>
      |Members(Nearest(rs, index, targets[i])) - Members(Nearest(rs', index, targets[i]))| <= 1
    ensures |Members(Answer(rs, index, targets)) - Members(Answer(rs', index, targets))| <= REPLICAS
  {
    hide Apart, Nearest, Answer, Members, Distinct;
    AnswerMembers(rs, index, targets);
    AnswerMembers(rs', index, targets);
    ReplicaDisplaces(rs, rs', index, targets[0], x);
    ReplicaDisplaces(rs, rs', index, targets[1], x);
    var gone0 := Members(Nearest(rs, index, targets[0])) - Members(Nearest(rs', index, targets[0]));
    var gone1 := Members(Nearest(rs, index, targets[1])) - Members(Nearest(rs', index, targets[1]));
    SubsetSize(Members(Answer(rs, index, targets)) - Members(Answer(rs', index, targets)), gone0 + gone1);
  }

  lemma AtMostOne<T>(a: set<T>)
    requires forall r, s :: r in a && s in a ==> r == s
    ensures |a| <= 1
  {
    if a != {} {
      var r :| r in a;
      assert a == {r};
    }
  }
}
