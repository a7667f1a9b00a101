/** Merging votes into a consensus (`phinet-core/src/directory.rs:654-846`). Hash maps are walked in an
    order nobody chooses; the methods below pick that order arbitrarily. */
module Merging {
  import opened Wrappers
  import opened Bytes
  import opened Circuit
  import opened Text
  import opened Flatten
  import opened Directory
  import NumberTheory
  import Sorting
  import SharedRandom

  // ── Majority ────────────────────────────────────────────────────────

  predicate LeU16(a: u16, b: u16) {
    a <= b
  }

  predicate LeU32(a: u32, b: u32) {
    a <= b
  }

  /** `a` is had at least as often as `b`, and is the smaller one if equally often. */
  predicate Better<T>(m: multiset<T>, le: (T, T) -> bool, a: T, b: T) {
    m[a] > m[b] || (m[a] == m[b] && le(a, b))
  }

  function BestOf<T(==)>(items: seq<T>, m: multiset<T>, le: (T, T) -> bool): Option<T> {
    if items == [] then None
    else
      var rest := BestOf(items[1..], m, le);
      if rest.None? || Better(m, le, items[0], rest.value) then Some(items[0]) else rest
  }

  /** What `majority_or_min` returns, if there is anything to choose from. */
  function MajorityOf<T(==)>(items: seq<T>, le: (T, T) -> bool): Option<T> {
    BestOf(items, multiset(items), le)
  }

  lemma {:induction false} BestMeaning<T(!new)>(items: seq<T>, m: multiset<T>, le: (T, T) -> bool)
    requires Sorting.Preorder(le)
    ensures var r := BestOf(items, m, le);
            && (r.None? <==> items == [])
            && (r.Some? ==> r.value in items && forall x :: x in items ==> Better(m, le, r.value, x))
  {
    if items != [] {
      BestMeaning(items[1..], m, le);
      assert items == [items[0]] + items[1..];
    }
  }

  /** The winner is the most frequent item, the smallest of them on a tie. That determines it. */
  lemma MajorityUnique<T(!new)>(items: seq<T>, le: (T, T) -> bool, r: T)
    requires Sorting.Preorder(le) && Sorting.Antisymmetric(multiset(items), le)
    requires r in items && forall x :: x in items ==> Better(multiset(items), le, r, x)
    ensures MajorityOf(items, le) == Some(r)
  {
    BestMeaning(items, multiset(items), le);
    var best := MajorityOf(items, le).value;
    assert Better(multiset(items), le, r, best) && Better(multiset(items), le, best, r);
    assert r in multiset(items) && best in multiset(items);
  }

  /** In so many words. */
  lemma MajorityMeaning<T(!new)>(items: seq<T>, le: (T, T) -> bool, x: T)
    requires Sorting.Preorder(le) && x in items
    ensures var r := MajorityOf(items, le);
            && r.Some? && r.value in items
            && (multiset(items)[x] < multiset(items)[r.value]
                || (multiset(items)[x] == multiset(items)[r.value] && le(r.value, x)))
  {
    BestMeaning(items, multiset(items), le);
    var best := MajorityOf(items, le).value;
    assert Better(multiset(items), le, best, x);
  }

  lemma MajorityPermuted<T(!new)>(xs: seq<T>, ys: seq<T>, le: (T, T) -> bool)
    requires Sorting.Preorder(le) && Sorting.Antisymmetric(multiset(xs), le) && multiset(xs) == multiset(ys)
    ensures MajorityOf(xs, le) == MajorityOf(ys, le)
  {
    BestMeaning(ys, multiset(ys), le);
    if ys == [] {
      assert |xs| == |multiset(xs)| == 0;
    } else {
      var best := MajorityOf(ys, le).value;
      assert best in multiset(xs);
      forall x | x in xs
        ensures Better(multiset(xs), le, best, x)
      {
        assert x in multiset(ys);
      }
      MajorityUnique(xs, le, best);
    }
  }

  /** `majority_or_min`, `majority_or_min_u16`: count, then take the best count in any order. */
  method MajorityOrMin<T(!new,==)>(items: seq<T>, le: (T, T) -> bool, none: T) returns (r: T)
    requires Sorting.Preorder(le) && Sorting.Antisymmetric(multiset(items), le)
    ensures r == MajorityOf(items, le).GetOr(none)
  {
    var counts: map<T, nat> := map[];
    for i := 0 to |items|
      invariant forall x :: x in counts <==> x in items[..i]
      invariant forall x :: x in counts ==> counts[x] == multiset(items[..i])[x]
    {
      var item := items[i];
      assert items[..i + 1] == items[..i] + [item];
      assert item !in counts ==> multiset(items[..i])[item] == 0;
      counts := counts[item := (if item in counts then counts[item] else 0) + 1];
    }
    assert items[..|items|] == items;
    if items == [] {
      return none;
    }
    assert items[0] in counts;
    var left := counts.Keys;
    r :| r in left;
    left := left - {r};
    while left != {}
      invariant left <= counts.Keys && r in counts
      invariant forall x :: x in counts && x !in left ==> Better(multiset(items), le, r, x)
    {
      var x :| x in left;
      left := left - {x};
      if counts[x] > counts[r] || (counts[x] == counts[r] && le(x, r)) {
        r := x;
      }
    }
    MajorityUnique(items, le, r);
  }

  // ── Median and flags ────────────────────────────────────────────────

  function Median(xs: seq<u32>): u32 {
    Sorting.SortKeeps(xs, LeU32);
    if xs == [] then 0 else Sorting.Sort(xs, LeU32)[|xs| / 2]
  }

  /** The middle one when they stand in order, the upper of two. */
  lemma MedianMeaning(xs: seq<u32>, ys: seq<u32>)
    requires xs != [] && multiset(ys) == multiset(xs) && forall i, j :: 0 <= i < j < |ys| ==> ys[i] <= ys[j]
    ensures |ys| == |xs| && Median(xs) == ys[|xs| / 2]
  {
    assert |multiset(ys)| == |ys| && |multiset(xs)| == |xs|;
    Sorting.SortKeeps(xs, LeU32);
    Sorting.SortSorted(xs, LeU32);
    assert Sorting.Sorted(ys, LeU32);
    Sorting.SortedUnique(Sorting.Sort(xs, LeU32), ys, LeU32);
  }

  predicate BitSet(x: nat, bit: nat) {
    (x / Pow2(bit)) % 2 == 1
  }

  /** How many of the masks have the bit. */
  function SetCount(masks: seq<u32>, bit: nat): (n: nat)
    ensures n <= |masks|
  {
    if masks == [] then 0 else SetCount(masks[1..], bit) + (if BitSet(masks[0], bit) then 1 else 0)
  }

  predicate Majority(masks: seq<u32>, bit: nat) {
    SetCount(masks, bit) >= (|masks| + 1) / 2
  }

  /** The bits below `n` that a majority has set. */
  function MergedBits(masks: seq<u32>, n: nat): (r: nat)
    ensures r < Pow2(n)
  {
    if n == 0 then 0
    else MergedBits(masks, n - 1) + (if Majority(masks, n - 1) then Pow2(n - 1) else 0)
  }

  function MergedFlags(masks: seq<u32>): u32 {
    Pow2At32();
    MergedBits(masks, 32)
  }

  lemma Pow2At32()
    ensures Pow2(32) == U32_LIMIT
  {
    assert Pow2(8) == 256;
    Pow2Sum(8, 8);
    Pow2Sum(16, 16);
  }

  lemma {:induction false} Pow2Sum(m: nat, n: nat)
    ensures Pow2(m + n) == Pow2(m) * Pow2(n)
  {
    if m > 0 {
      Pow2Sum(m - 1, n);
    }
  }

  lemma Pow2Split(n: nat, b: nat)
    requires b < n
    ensures Pow2(n) == Pow2(b) * (2 * Pow2(n - b - 1))
  {
    Pow2Sum(b, n - b);
  }

  lemma BitOfSum(low: nat, n: nat, b: nat, high: bool)
    requires low < Pow2(n) && b <= n
    ensures BitSet(low + (if high then Pow2(n) else 0), b) == if b == n then high else BitSet(low, b)
  {
    hide Pow2;
    if b == n {
      BitTop(low, Pow2(n));
    } else if high {
      Pow2Split(n, b);
      BitShift(low, Pow2(b), Pow2(n - b - 1));
    }
  }

  lemma BitTop(low: nat, unit: nat)
    requires low < unit
    ensures low / unit == 0 && (low + unit) / unit == 1
  {
  }

  lemma BitShift(low: nat, unit: nat, rest: nat)
    requires unit > 0
    ensures ((low + unit * (2 * rest)) / unit) % 2 == (low / unit) % 2
  {
    var q, r := low / unit, low % unit;
    assert low + unit * (2 * rest) == (q + 2 * rest) * unit + r;
    NumberTheory.ModUnique(low + unit * (2 * rest), q + 2 * rest, r, unit);
  }

  /** A bit is set exactly if at least half have it, so also on a tie. */
  lemma {:induction false} MergedBitsMeaning(masks: seq<u32>, n: nat, bit: nat)
    requires bit < n
    ensures BitSet(MergedBits(masks, n), bit) <==> 2 * SetCount(masks, bit) >= |masks|
  {
    BitOfSum(MergedBits(masks, n - 1), n - 1, bit, Majority(masks, n - 1));
    if bit < n - 1 {
      MergedBitsMeaning(masks, n - 1, bit);
    }
  }

  /** The flag loop. */
  method MergeFlags(masks: seq<u32>) returns (flags: u32)
    ensures flags == MergedFlags(masks)
  {
    var merged: nat := 0;
    for bit := 0 to 32
      invariant merged == MergedBits(masks, bit)
    {
      var count := 0;
      for i := 0 to |masks|
        invariant count + SetCount(masks[i..], bit) == SetCount(masks, bit)
      {
        if BitSet(masks[i], bit) {
          count := count + 1;
        }
      }
      if count >= (|masks| + 1) / 2 {
        merged := merged + Pow2(bit);
      }
    }
    Pow2At32();
    flags := merged;
  }

  // ── One peer ────────────────────────────────────────────────────────

  function Hosts(obs: seq<PeerEntry>): seq<bytes> {
    Flat(obs, (o: PeerEntry) => [o.host])
  }

  function StaticPubs(obs: seq<PeerEntry>): seq<bytes> {
    Flat(obs, (o: PeerEntry) => [o.staticPub])
  }

  function Ports(obs: seq<PeerEntry>): seq<u16> {
    Flat(obs, (o: PeerEntry) => [o.port])
  }

  function ExitPolicies(obs: seq<PeerEntry>): seq<bytes> {
    Flat(obs, (o: PeerEntry) => [o.exitPolicy])
  }

  /** Silence does not count. */
  function Families(obs: seq<PeerEntry>): seq<bytes> {
    Flat(obs, (o: PeerEntry) => if o.family == [] then [] else [o.family])
  }

  function Bandwidths(obs: seq<PeerEntry>): seq<u32> {
    Flat(obs, (o: PeerEntry) => [o.bandwidth])
  }

  function Masks(obs: seq<PeerEntry>): seq<u32> {
    Flat(obs, (o: PeerEntry) => [o.flags])
  }

  function MergedPeer(id: bytes, obs: seq<PeerEntry>): (row: PeerEntry)
    ensures row.nodeId == id
  {
    PeerEntry(
      id, MajorityOf(Hosts(obs), Lex).GetOr([]), MajorityOf(Ports(obs), LeU16).GetOr(0),
      MajorityOf(StaticPubs(obs), Lex).GetOr([]), MergedFlags(Masks(obs)), Median(Bandwidths(obs)),
      MajorityOf(ExitPolicies(obs), Lex).GetOr([]), MajorityOf(Families(obs), Lex).GetOr([]))
  }

  lemma LexAntisymmetric(m: multiset<bytes>)
    ensures Sorting.Antisymmetric(m, Lex)
  {
    forall x, y | x in m && y in m && Lex(x, y) && Lex(y, x)
      ensures x == y
    {
      LexTotal(x, y);
    }
  }

  method MergePeer(id: bytes, obs: seq<PeerEntry>) returns (p: PeerEntry)
    ensures p == MergedPeer(id, obs)
  {
    hide Flat, MajorityOf, MergedFlags, Median;
    LexOrders();
    LexAntisymmetric(multiset(Hosts(obs)));
    LexAntisymmetric(multiset(StaticPubs(obs)));
    LexAntisymmetric(multiset(ExitPolicies(obs)));
    LexAntisymmetric(multiset(Families(obs)));
    var host := MajorityOrMin(Hosts(obs), Lex, []);
    var staticPub := MajorityOrMin(StaticPubs(obs), Lex, []);
    var port := MajorityOrMin(Ports(obs), LeU16, 0);
    var exitPolicy := MajorityOrMin(ExitPolicies(obs), Lex, []);
    var family := MajorityOrMin(Families(obs), Lex, []);
    var bandwidth := Median(Bandwidths(obs));
    var flags := MergeFlags(Masks(obs));
    p := PeerEntry(id, host, port, staticPub, flags, bandwidth, exitPolicy, family);
  }

  lemma {:induction false} SetCountPermuted(xs: seq<u32>, ys: seq<u32>, bit: nat)
    requires multiset(xs) == multiset(ys)
    ensures SetCount(xs, bit) == SetCount(ys, bit)
    decreases |xs|
  {
    if xs == [] {
      assert |ys| == |multiset(ys)| == 0;
    } else {
      assert xs == [xs[0]] + xs[1..];
      assert xs[0] in multiset(ys);
      var j :| 0 <= j < |ys| && ys[j] == xs[0];
      Removed(ys, j);
      assert multiset(xs) == multiset{xs[0]} + multiset(xs[1..]);
      assert multiset(xs[1..]) == multiset(xs) - multiset{xs[0]} == multiset(ys[..j] + ys[j + 1..]);
      SetCountPermuted(xs[1..], ys[..j] + ys[j + 1..], bit);
      SetCountWithout(ys, j, bit);
    }
  }

  lemma {:induction false} SetCountWithout(ys: seq<u32>, j: nat, bit: nat)
    requires j < |ys|
    ensures SetCount(ys, bit) == SetCount(ys[..j] + ys[j + 1..], bit) + (if BitSet(ys[j], bit) then 1 else 0)
  {
    if j == 0 {
      assert ys[..0] + ys[1..] == ys[1..];
    } else {
      SetCountWithout(ys[1..], j - 1, bit);
      assert (ys[..j] + ys[j + 1..])[1..] == ys[1..][..j - 1] + ys[1..][j..];
    }
  }

  lemma {:induction false} MergedBitsPermuted(xs: seq<u32>, ys: seq<u32>, n: nat)
    requires multiset(xs) == multiset(ys)
    ensures MergedBits(xs, n) == MergedBits(ys, n)
  {
    if n > 0 {
      MergedBitsPermuted(xs, ys, n - 1);
      SetCountPermuted(xs, ys, n - 1);
      assert |xs| == |multiset(xs)| == |multiset(ys)| == |ys|;
    }
  }

  lemma MedianPermuted(xs: seq<u32>, ys: seq<u32>)
    requires multiset(xs) == multiset(ys)
    ensures Median(xs) == Median(ys)
  {
    Sorting.SortPermuted(xs, ys, LeU32);
    assert |xs| == |multiset(xs)| == |multiset(ys)| == |ys|;
  }

  /** One peer's row depends on what was observed, not on the order. */
  lemma MergedPeerPermuted(id: bytes, a: seq<PeerEntry>, b: seq<PeerEntry>)
    requires multiset(a) == multiset(b)
    ensures MergedPeer(id, a) == MergedPeer(id, b)
  {
    hide Flat, MajorityOf, Median, MergedBits;
    LexOrders();
    FlatPermuted(a, b, (o: PeerEntry) => [o.host]);
    FlatPermuted(a, b, (o: PeerEntry) => [o.staticPub]);
    FlatPermuted(a, b, (o: PeerEntry) => [o.port]);
    FlatPermuted(a, b, (o: PeerEntry) => [o.exitPolicy]);
    FlatPermuted(a, b, (o: PeerEntry) => if o.family == [] then [] else [o.family]);
    FlatPermuted(a, b, (o: PeerEntry) => [o.bandwidth]);
    FlatPermuted(a, b, (o: PeerEntry) => [o.flags]);
    LexAntisymmetric(multiset(Hosts(a)));
    LexAntisymmetric(multiset(StaticPubs(a)));
    LexAntisymmetric(multiset(ExitPolicies(a)));
    LexAntisymmetric(multiset(Families(a)));
    MajorityPermuted(Hosts(a), Hosts(b), Lex);
    MajorityPermuted(StaticPubs(a), StaticPubs(b), Lex);
    MajorityPermuted(ExitPolicies(a), ExitPolicies(b), Lex);
    MajorityPermuted(Families(a), Families(b), Lex);
    MajorityPermuted(Ports(a), Ports(b), LeU16);
    MedianPermuted(Bandwidths(a), Bandwidths(b));
    MergedBitsPermuted(Masks(a), Masks(b), 32);
  }

  // ── All peers ───────────────────────────────────────────────────────

  function AllPeers(votes: seq<Vote>): seq<PeerEntry> {
    Flat(votes, (v: Vote) => v.peers)
  }

  function Observing(id: bytes): PeerEntry -> seq<PeerEntry> {
    (p: PeerEntry) => if p.nodeId == id then [p] else []
  }

  /** What was observed of one peer. */
  function ObservationsOf(all: seq<PeerEntry>, id: bytes): seq<PeerEntry> {
    Flat(all, Observing(id))
  }

  function IdsIn(all: seq<PeerEntry>): set<bytes> {
    set p | p in all :: p.nodeId
  }

  predicate ByNodeId(a: PeerEntry, b: PeerEntry) {
    Lex(a.nodeId, b.nodeId)
  }

  /** The merged peer list: sorted, one row for every id observed. */
  ghost predicate IsMerged(all: seq<PeerEntry>, rows: seq<PeerEntry>) {
    && Sorting.Sorted(rows, ByNodeId)
    && (forall r :: r in rows ==> r.nodeId in IdsIn(all) && r == MergedPeer(r.nodeId, ObservationsOf(all, r.nodeId)))
    && (forall id :: id in IdsIn(all) ==> exists r :: r in rows && r.nodeId == id)
    && (forall i, j :: 0 <= i < j < |rows| ==> rows[i].nodeId != rows[j].nodeId)
  }

  lemma ObservedMore(all: seq<PeerEntry>, p: PeerEntry, id: bytes)
    ensures ObservationsOf(all + [p], id) == ObservationsOf(all, id) + (if p.nodeId == id then [p] else [])
    ensures IdsIn(all + [p]) == IdsIn(all) + {p.nodeId}
  {
    FlatSnoc(all, p, Observing(id));
  }

  lemma NotObserved(all: seq<PeerEntry>, id: bytes)
    requires id !in IdsIn(all)
    ensures ObservationsOf(all, id) == []
  {
    if ObservationsOf(all, id) != [] {
      var p := ObservationsOf(all, id)[0];
      FlatMember(all, Observing(id), p);
    }
  }

  /** The grouping loop: one vote's peers. */
  method GroupPeers(groups: map<bytes, seq<PeerEntry>>, peers: seq<PeerEntry>, ghost seen: seq<PeerEntry>)
    returns (r: map<bytes, seq<PeerEntry>>)
    requires Groups(groups, seen)
    ensures Groups(r, seen + peers)
  {
    hide ObservationsOf, IdsIn;
    r := groups;
    assert seen + peers[..0] == seen;
    for j := 0 to |peers|
      invariant Groups(r, seen + peers[..j])
    {
      var p := peers[j];
      ghost var before := seen + peers[..j];
      assert seen + peers[..j + 1] == before + [p];
      forall id
        ensures ObservationsOf(before + [p], id) == ObservationsOf(before, id) + (if p.nodeId == id then [p] else [])
        ensures IdsIn(before + [p]) == IdsIn(before) + {p.nodeId}
      {
        ObservedMore(before, p, id);
      }
      if p.nodeId !in r {
        NotObserved(before, p.nodeId);
      }
      r := r[p.nodeId := (if p.nodeId in r then r[p.nodeId] else []) + [p]];
    }
    assert seen + peers[..|peers|] == seen + peers;
  }

  ghost predicate Groups(groups: map<bytes, seq<PeerEntry>>, seen: seq<PeerEntry>) {
    && (forall id :: id in groups <==> id in IdsIn(seen))
    && (forall id :: id in groups ==> groups[id] == ObservationsOf(seen, id))
  }

  /** The merging loop, over the groups in any order. */
  method MergeGroups(groups: map<bytes, seq<PeerEntry>>, ghost all: seq<PeerEntry>) returns (rows: seq<PeerEntry>)
    requires Groups(groups, all)
    ensures IsMerged(all, rows)
  {
    hide ObservationsOf, IdsIn, MergedPeer;
    rows := [];
    var left := groups.Keys;
    while left != {}
      invariant left <= groups.Keys
      invariant forall r :: r in rows ==>
        r.nodeId in groups && r.nodeId !in left && r == MergedPeer(r.nodeId, groups[r.nodeId])
      invariant forall id :: id in groups && id !in left ==> exists r :: r in rows && r.nodeId == id
      invariant forall i, j :: 0 <= i < j < |rows| ==> rows[i].nodeId != rows[j].nodeId
    {
      var id :| id in left;
      left := left - {id};
      var row := MergePeer(id, groups[id]);
      ghost var before := rows;
      NewRow(rows, row);
      rows := rows + [row];
      assert row in rows && forall r :: r in before ==> r in rows;
    }
    SortRows(rows);
    rows := Sorting.Sort(rows, ByNodeId);
  }

  lemma NewRow(rows: seq<PeerEntry>, row: PeerEntry)
    requires forall i, j :: 0 <= i < j < |rows| ==> rows[i].nodeId != rows[j].nodeId
    requires (forall r :: r in rows ==> r.nodeId != row.nodeId) || row !in rows
    ensures (forall r :: r in rows ==> r.nodeId != row.nodeId) ==>
      forall i, j :: 0 <= i < j < |rows + [row]| ==> (rows + [row])[i].nodeId != (rows + [row])[j].nodeId
  {
  }

  ghost predicate DistinctIds(rows: seq<PeerEntry>) {
    forall i, j :: 0 <= i < j < |rows| ==> rows[i].nodeId != rows[j].nodeId
  }

  function NodeId(): PeerEntry -> bytes {
    (p: PeerEntry) => p.nodeId
  }

  lemma DistinctIdsBy(rows: seq<PeerEntry>)
    ensures DistinctIds(rows) <==> Sorting.DistinctBy(rows, NodeId())
  {
    assert forall i :: 0 <= i < |rows| ==> NodeId()(rows[i]) == rows[i].nodeId;
    if Sorting.DistinctBy(rows, NodeId()) {
      forall i, j | 0 <= i < j < |rows|
        ensures rows[i].nodeId != rows[j].nodeId
      {
        assert NodeId()(rows[i]) != NodeId()(rows[j]);
      }
    }
  }

  lemma ByNodeIdOrders()
    ensures Sorting.Preorder(ByNodeId)
  {
    LexOrders();
  }

  /** Sorting keeps the rows and their distinctness. */
  lemma SortRows(rows: seq<PeerEntry>)
    requires DistinctIds(rows)
    ensures var s := Sorting.Sort(rows, ByNodeId);
            Sorting.Sorted(s, ByNodeId) && DistinctIds(s) && forall r :: r in s <==> r in rows
  {
    ByNodeIdOrders();
    Sorting.SortKeeps(rows, ByNodeId);
    Sorting.SortSorted(rows, ByNodeId);
    var s := Sorting.Sort(rows, ByNodeId);
    assert forall r :: r in s <==> r in multiset(s);
    assert forall r :: r in rows <==> r in multiset(rows);
    DistinctIdsBy(rows);
    DistinctIdsBy(s);
    Sorting.DistinctPermuted(rows, s, NodeId());
  }

  /** There is only one merged list, and it does not depend on the order of observations. */
  lemma MergedUnique(all: seq<PeerEntry>, all': seq<PeerEntry>, a: seq<PeerEntry>, b: seq<PeerEntry>)
    requires multiset(all) == multiset(all') && IsMerged(all, a) && IsMerged(all', b)
    ensures a == b
  {
    hide MergedPeer;
    MergedSubset(all, all', a, b);
    MergedSubset(all', all, b, a);
    DistinctIdsBy(a);
    DistinctIdsBy(b);
    Sorting.SameMembers(a, b, NodeId());
    forall x, y | x in multiset(a) && y in multiset(a) && ByNodeId(x, y) && ByNodeId(y, x)
      ensures x == y
    {
      LexTotal(x.nodeId, y.nodeId);
      Sorting.KeyTells(a, NodeId(), x, y);
    }
    Sorting.SortedUnique(a, b, ByNodeId);
  }

  lemma MergedHas(all: seq<PeerEntry>, rows: seq<PeerEntry>, id: bytes)
    requires IsMerged(all, rows) && id in IdsIn(all)
    ensures MergedPeer(id, ObservationsOf(all, id)) in rows
  {
    hide MergedPeer, ObservationsOf, Sorting.Sorted;
    var r :| r in rows && r.nodeId == id;
  }

  lemma MergedHasOnly(all: seq<PeerEntry>, rows: seq<PeerEntry>, r: PeerEntry)
    requires IsMerged(all, rows) && r in rows
    ensures r.nodeId in IdsIn(all) && r == MergedPeer(r.nodeId, ObservationsOf(all, r.nodeId))
  {
    hide MergedPeer, ObservationsOf, Sorting.Sorted;
  }

  lemma MergedSubset(all: seq<PeerEntry>, all': seq<PeerEntry>, a: seq<PeerEntry>, b: seq<PeerEntry>)
    requires multiset(all) == multiset(all') && IsMerged(all, a) && IsMerged(all', b)
    ensures forall r :: r in a ==> r in b
  {
    hide MergedPeer, IsMerged, IdsIn, Flat;
    forall r | r in a
      ensures r in b
    {
      var id := r.nodeId;
      MergedHasOnly(all, a, r);
      SameIds(all, all', id);
      MergedHas(all', b, id);
      FlatPermuted(all, all', Observing(id));
      MergedPeerPermuted(id, ObservationsOf(all, id), ObservationsOf(all', id));
    }
  }

  lemma SameIds(all: seq<PeerEntry>, all': seq<PeerEntry>, id: bytes)
    requires multiset(all) == multiset(all') && id in IdsIn(all)
    ensures id in IdsIn(all')
  {
    var p :| p in all && p.nodeId == id;
    assert p in multiset(all');
  }

  /** A merged list is one of the observations in any order. */
  lemma MergedPermuted(all: seq<PeerEntry>, all': seq<PeerEntry>, rows: seq<PeerEntry>)
    requires multiset(all) == multiset(all') && IsMerged(all, rows)
    ensures IsMerged(all', rows)
  {
    hide MergedPeer, ObservationsOf, Sorting.Sorted;
    forall r | r in rows
      ensures r.nodeId in IdsIn(all') && r == MergedPeer(r.nodeId, ObservationsOf(all', r.nodeId))
    {
      SameIds(all, all', r.nodeId);
      SameObservations(all, all', r.nodeId);
    }
    forall id | id in IdsIn(all')
      ensures exists r :: r in rows && r.nodeId == id
    {
      SameIds(all', all, id);
    }
  }

  lemma SameObservations(all: seq<PeerEntry>, all': seq<PeerEntry>, id: bytes)
    requires multiset(all) == multiset(all') && id in IdsIn(all)
    ensures MergedPeer(id, ObservationsOf(all, id)) == MergedPeer(id, ObservationsOf(all', id))
  {
    hide MergedPeer, Flat;
    FlatPermuted(all, all', Observing(id));
    MergedPeerPermuted(id, ObservationsOf(all, id), ObservationsOf(all', id));
  }

  // ── The rest of the document ────────────────────────────────────────

  /** `max().unwrap_or(0)` and `min().unwrap_or(0)`. */
  function MaxOf(xs: seq<u64>): u64
    decreases |xs|
  {
    if xs == [] then 0
    else
      var m, last := MaxOf(xs[..|xs| - 1]), xs[|xs| - 1];
      if last >= m then last else m
  }

  function MinOf(xs: seq<u64>): u64
    decreases |xs|
  {
    if xs == [] then 0
    else
      var m, last := MinOf(xs[..|xs| - 1]), xs[|xs| - 1];
      if |xs| == 1 || last < m then last else m
  }

  lemma {:induction false} ExtremesMeaning(xs: seq<u64>)
    requires xs != []
    ensures MaxOf(xs) in xs && MinOf(xs) in xs
    ensures forall x :: x in xs ==> MinOf(xs) <= x <= MaxOf(xs)
    decreases |xs|
  {
    var init, last := xs[..|xs| - 1], xs[|xs| - 1];
    assert xs == init + [last];
    if init != [] {
      ExtremesMeaning(init);
    }
  }

  lemma ExtremesPermuted(xs: seq<u64>, ys: seq<u64>)
    requires multiset(xs) == multiset(ys)
    ensures MaxOf(xs) == MaxOf(ys) && MinOf(xs) == MinOf(ys)
  {
    assert |xs| == |multiset(xs)| == |multiset(ys)| == |ys|;
    if xs != [] {
      ExtremesMeaning(xs);
      ExtremesMeaning(ys);
      assert forall x :: x in xs <==> x in multiset(xs);
      assert forall x :: x in ys <==> x in multiset(ys);
    }
  }

  function Afters(votes: seq<Vote>): seq<u64> {
    Flat(votes, (v: Vote) => [v.validAfter])
  }

  function Untils(votes: seq<Vote>): seq<u64> {
    Flat(votes, (v: Vote) => [v.validUntil])
  }

  function CommitmentOf(v: Vote): seq<SrvCommitment> {
    if v.srvCommit == [] then [] else [SrvCommitment(v.authorityPub, v.srvCommit)]
  }

  predicate ByAuthorityPub(a: SrvCommitment, b: SrvCommitment) {
    Lex(a.authorityPub, b.authorityPub)
  }

  /** `dedup_by`: of neighbours with the same authority the first stays. */
  function Dedup(cs: seq<SrvCommitment>): seq<SrvCommitment>
    decreases |cs|
  {
    if |cs| < 2 then cs
    else if cs[0].authorityPub == cs[1].authorityPub then Dedup([cs[0]] + cs[2..])
    else [cs[0]] + Dedup(cs[1..])
  }

  function Carried(votes: seq<Vote>): seq<SrvCommitment> {
    Dedup(Sorting.Sort(Flat(votes, CommitmentOf), ByAuthorityPub))
  }

  /** `iter().find()`. */
  function FindCommitment(cs: seq<SrvCommitment>, authority: bytes): Option<bytes> {
    if cs == [] then None
    else if cs[0].authorityPub == authority then Some(cs[0].commitment)
    else FindCommitment(cs[1..], authority)
  }

  /** The reveal in a vote, if it matches what was committed last period. */
  function RevealIn(hash: SharedRandom.Hash, prev: Consensus, period: u64, v: Vote): seq<SharedRandom.Reveal> {
    var value := HexDecodeExactly(v.srvReveal, 32);
    var commitment := FindCommitment(prev.srvCommitments, v.authorityPub);
    if v.srvReveal == [] || value.None? || commitment.None? then []
    else if SharedRandom.CheckReveal(hash, v.authorityPub, value.value, period, commitment.value) then
      [SharedRandom.Reveal(v.authorityPub, value.value)]
    else []
  }

  function RevealsIn(hash: SharedRandom.Hash, votes: seq<Vote>, prev: Option<Consensus>, period: u64): seq<SharedRandom.Reveal> {
    if prev.None? then [] else Flat(votes, (v: Vote) => RevealIn(hash, prev.value, period, v))
  }

  function SharedValue(hash: SharedRandom.Hash, votes: seq<Vote>, prev: Option<Consensus>, period: u64): bytes {
    SharedRandom.SrvOf(hash, SharedRandom.Entries(RevealsIn(hash, votes, prev, period)), period, 2).GetOr([])
  }

  /** What a consensus built from the votes is. */
  ghost predicate IsConsensus(
    hash: SharedRandom.Hash, networkId: bytes, votes: seq<Vote>, prev: Option<Consensus>, period: u64, doc: Consensus)
  {
    && doc.networkId == networkId
    && doc.validAfter == MaxOf(Afters(votes)) && doc.validUntil == MinOf(Untils(votes))
    && IsMerged(AllPeers(votes), doc.peers)
    && doc.srvCommitments == Carried(votes)
    && doc.sharedRandom == SharedValue(hash, votes, prev, period)
    && doc.signatures == []
  }

  /** `build_consensus_inner`. */
  method BuildConsensusInner(networkId: bytes, votes: seq<Vote>) returns (doc: Consensus)
    ensures doc == Consensus(networkId, [], [], MaxOf(Afters(votes)), MinOf(Untils(votes)), doc.peers, [])
    ensures IsMerged(AllPeers(votes), doc.peers)
  {
    hide IsMerged, Flat, MaxOf, MinOf;
    var groups: map<bytes, seq<PeerEntry>> := map[];
    assert AllPeers(votes[..0]) == [] by {
      AllPeersNone(votes);
    }
    for i := 0 to |votes|
      invariant Groups(groups, AllPeers(votes[..i]))
    {
      groups := GroupPeers(groups, votes[i].peers, AllPeers(votes[..i]));
      assert votes[..i + 1] == votes[..i] + [votes[i]];
      FlatSnoc(votes[..i], votes[i], (v: Vote) => v.peers);
    }
    assert votes[..|votes|] == votes;
    var rows := MergeGroups(groups, AllPeers(votes));
    doc := Consensus(networkId, [], [], MaxOf(Afters(votes)), MinOf(Untils(votes)), rows, []);
  }

  lemma AllPeersNone(votes: seq<Vote>)
    ensures AllPeers(votes[..0]) == []
  {
  }

  /** `build_consensus_with_srv`. */
  method BuildConsensusWithSrv(
    hash: SharedRandom.Hash, networkId: bytes, votes: seq<Vote>, prev: Option<Consensus>, period: u64) returns (doc: Consensus)
    ensures IsConsensus(hash, networkId, votes, prev, period, doc)
  {
    hide IsMerged, Flat, MaxOf, MinOf, RevealIn;
    doc := BuildConsensusInner(networkId, votes);
    var shown: seq<SharedRandom.Reveal> := [];
    if prev.Some? {
      ghost var f := (v: Vote) => RevealIn(hash, prev.value, period, v);
      FlatNone(f);
      for i := 0 to |votes|
        invariant shown == Flat(votes[..i], f)
      {
        assert votes[..i + 1] == votes[..i] + [votes[i]];
        FlatSnoc(votes[..i], votes[i], f);
        shown := shown + RevealIn(hash, prev.value, period, votes[i]);
      }
      assert votes[..|votes|] == votes;
    }
    var srv := SharedRandom.ComputeSrv(hash, shown, period, 2);
    doc := doc.(sharedRandom := srv.GetOr([]), srvCommitments := Carried(votes));
  }

  lemma FlatNone<T, U>(f: T -> seq<U>)
    ensures Flat([], f) == []
  {
  }

  // ── Determinism ─────────────────────────────────────────────────────

  predicate OneVoteEach(votes: seq<Vote>) {
    forall i, j :: 0 <= i < j < |votes| ==> votes[i].authorityPub != votes[j].authorityPub
  }

  /** What the votes contribute is told apart by authority, if each contributes at most one thing. */
  lemma {:induction false} OneContributionEach<U>(votes: seq<Vote>, f: Vote -> seq<U>, of: U -> bytes)
    requires OneVoteEach(votes)
    requires forall v :: v in votes ==> |f(v)| <= 1 && forall u :: u in f(v) ==> of(u) == v.authorityPub
    ensures forall i, j :: 0 <= i < j < |Flat(votes, f)| ==> of(Flat(votes, f)[i]) != of(Flat(votes, f)[j])
    decreases |votes|
  {
    if votes != [] {
      var init, last := votes[..|votes| - 1], votes[|votes| - 1];
      OneContributionEach(init, f, of);
      var before, more := Flat(init, f), f(last);
      forall i, j | 0 <= i < j < |before + more|
        ensures of((before + more)[i]) != of((before + more)[j])
      {
        if j >= |before| {
          assert (before + more)[j] == more[0] && more[0] in f(last);
          assert i < |before|;
          FlatMember(init, f, before[i]);
        }
      }
    }
  }

  lemma RevealsDistinct(hash: SharedRandom.Hash, votes: seq<Vote>, prev: Option<Consensus>, period: u64)
    requires OneVoteEach(votes)
    ensures SharedRandom.DistinctAuthorities(RevealsIn(hash, votes, prev, period))
  {
    if prev.Some? {
      OneContributionEach(votes, (v: Vote) => RevealIn(hash, prev.value, period, v), (r: SharedRandom.Reveal) => r.authority);
    }
  }

  /** No authority shows two values that both open what it committed to. */
  predicate Opening(hash: SharedRandom.Hash, votes: seq<Vote>, prev: Option<Consensus>, period: u64) {
    prev.Some? ==> forall i, j :: 0 <= i < |votes| && 0 <= j < |votes| && votes[i].authorityPub == votes[j].authorityPub ==>
      var a, b := RevealIn(hash, prev.value, period, votes[i]), RevealIn(hash, prev.value, period, votes[j]);
      a != [] && b != [] ==> a == b
  }

  /** It would take a collision of the hash. */
  lemma OpeningOrCollision(hash: SharedRandom.Hash, v: Vote, v': Vote, prev: Consensus, period: u64)
    requires v.authorityPub == v'.authorityPub
    requires RevealIn(hash, prev, period, v) != [] && RevealIn(hash, prev, period, v') != []
    ensures var a, b := RevealIn(hash, prev, period, v)[0].value, RevealIn(hash, prev, period, v')[0].value;
            var x, y := SharedRandom.CommitInput(v.authorityPub, a, period), SharedRandom.CommitInput(v.authorityPub, b, period);
            hash(x) == hash(y) && (RevealIn(hash, prev, period, v) != RevealIn(hash, prev, period, v') ==> x != y)
  {
    hide SharedRandom.CommitInput, HexDecodeExactly, FindCommitment;
    var a, b := RevealIn(hash, prev, period, v)[0].value, RevealIn(hash, prev, period, v')[0].value;
    SharedRandom.CommitmentBinds(hash, v.authorityPub, a, b, period);
  }

  lemma OpeningTells(hash: SharedRandom.Hash, votes: seq<Vote>, prev: Option<Consensus>, period: u64)
    requires Opening(hash, votes, prev, period)
    ensures SharedRandom.OneValueEach(RevealsIn(hash, votes, prev, period))
  {
    hide Flat;
    if prev.Some? {
      var f := (v: Vote) => RevealIn(hash, prev.value, period, v);
      var rs := Flat(votes, f);
      forall i, j | 0 <= i < |rs| && 0 <= j < |rs| && rs[i].authority == rs[j].authority
        ensures rs[i] == rs[j]
      {
        FlatMember(votes, f, rs[i]);
        FlatMember(votes, f, rs[j]);
        var v :| v in votes && rs[i] in f(v);
        var v' :| v' in votes && rs[j] in f(v');
        var k :| 0 <= k < |votes| && votes[k] == v;
        var k' :| 0 <= k' < |votes| && votes[k'] == v';
        OneReveal(hash, prev.value, period, v, rs[i]);
        OneReveal(hash, prev.value, period, v', rs[j]);
        assert votes[k].authorityPub == votes[k'].authorityPub;
      }
    }
  }

  lemma OneReveal(hash: SharedRandom.Hash, prev: Consensus, period: u64, v: Vote, r: SharedRandom.Reveal)
    requires r in RevealIn(hash, prev, period, v)
    ensures RevealIn(hash, prev, period, v) == [r] && r.authority == v.authorityPub
  {
  }

  lemma SharedValuePermuted(hash: SharedRandom.Hash, votes: seq<Vote>, votes': seq<Vote>, prev: Option<Consensus>, period: u64)
    requires Opening(hash, votes, prev, period) && multiset(votes) == multiset(votes')
    ensures SharedValue(hash, votes, prev, period) == SharedValue(hash, votes', prev, period)
  {
    hide Flat, RevealIn, Opening;
    OpeningTells(hash, votes, prev, period);
    if prev.Some? {
      FlatPermuted(votes, votes', (v: Vote) => RevealIn(hash, prev.value, period, v));
    }
    SharedRandom.SrvRepeated(
      hash, RevealsIn(hash, votes, prev, period), RevealsIn(hash, votes', prev, period), period, 2);
  }

  /** No authority commits to two values. */
  predicate Agreeing(votes: seq<Vote>) {
    forall i, j :: 0 <= i < |votes| && 0 <= j < |votes| ==>
      votes[i].authorityPub == votes[j].authorityPub && votes[i].srvCommit != [] && votes[j].srvCommit != [] ==>
        votes[i].srvCommit == votes[j].srvCommit
  }

  lemma AgreeingTells(votes: seq<Vote>)
    requires Agreeing(votes)
    ensures Sorting.Antisymmetric(multiset(Flat(votes, CommitmentOf)), ByAuthorityPub)
  {
    var cs := Flat(votes, CommitmentOf);
    hide Flat, Lex;
    forall x, y | x in multiset(cs) && y in multiset(cs) && ByAuthorityPub(x, y) && ByAuthorityPub(y, x)
      ensures x == y
    {
      LexTotal(x.authorityPub, y.authorityPub);
      FlatMember(votes, CommitmentOf, x);
      FlatMember(votes, CommitmentOf, y);
    }
  }

  lemma CarriedPermuted(votes: seq<Vote>, votes': seq<Vote>)
    requires Agreeing(votes) && multiset(votes) == multiset(votes')
    ensures Carried(votes) == Carried(votes')
  {
    var cs := Flat(votes, CommitmentOf);
    AgreeingTells(votes);
    hide Flat, Sorting.Sort, Lex, Agreeing, Sorting.Antisymmetric;
    LexOrders();
    FlatPermuted(votes, votes', CommitmentOf);
    assert Sorting.Preorder(ByAuthorityPub);
    Sorting.SortPermuted(cs, Flat(votes', CommitmentOf), ByAuthorityPub);
  }

  /** Consensus determinism. When no authority commits to two values, nor opens its commitment with two,
      however often it votes, authorities that have the same votes build the same document, byte for byte, in
      whatever order the votes came and the tables were walked. */
  lemma ConsensusDeterministic(
    hash: SharedRandom.Hash, networkId: bytes, votes: seq<Vote>, votes': seq<Vote>, prev: Option<Consensus>, period: u64,
    doc: Consensus, doc': Consensus)
    requires Agreeing(votes) && Opening(hash, votes, prev, period) && multiset(votes) == multiset(votes')
    requires IsConsensus(hash, networkId, votes, prev, period, doc)
    requires IsConsensus(hash, networkId, votes', prev, period, doc')
    ensures doc == doc'
  {
    hide IsMerged, Flat, MaxOf, MinOf, SharedValue, Carried, Opening, Agreeing;
    FlatPermuted(votes, votes', (v: Vote) => [v.validAfter]);
    FlatPermuted(votes, votes', (v: Vote) => [v.validUntil]);
    FlatPermuted(votes, votes', (v: Vote) => v.peers);
    ExtremesPermuted(Afters(votes), Afters(votes'));
    ExtremesPermuted(Untils(votes), Untils(votes'));
    MergedUnique(AllPeers(votes), AllPeers(votes'), doc.peers, doc'.peers);
    SharedValuePermuted(hash, votes, votes', prev, period);
    CarriedPermuted(votes, votes');
  }

  /** One vote each is enough for both. */
  lemma OneVoteTells(hash: SharedRandom.Hash, votes: seq<Vote>, prev: Option<Consensus>, period: u64)
    requires OneVoteEach(votes)
    ensures Agreeing(votes) && Opening(hash, votes, prev, period)
  {
    hide RevealIn;
    OneVoteAgrees(votes);
    forall i, j | 0 <= i < |votes| && 0 <= j < |votes| && votes[i].authorityPub == votes[j].authorityPub
      ensures i == j
    {
      assert i < j || j < i || i == j;
    }
  }

  lemma OneVoteAgrees(votes: seq<Vote>)
    requires OneVoteEach(votes)
    ensures Agreeing(votes)
  {
    forall i, j | 0 <= i < |votes| && 0 <= j < |votes| && votes[i].authorityPub == votes[j].authorityPub
      ensures i == j
    {
      assert i < j || j < i || i == j;
    }
  }

  /** Of an authority's commitments the first to come is found. */
  lemma {:induction false} InsertedFirst(x: SrvCommitment, cs: seq<SrvCommitment>)
    ensures FindCommitment(Sorting.Insert(x, cs, ByAuthorityPub), x.authorityPub) == Some(x.commitment)
  {
    hide Lex;
    if cs != [] && !ByAuthorityPub(x, cs[0]) {
      LexTotal(x.authorityPub, cs[0].authorityPub);
      assert cs[0].authorityPub != x.authorityPub by {
        if cs[0].authorityPub == x.authorityPub {
          LexTotal(x.authorityPub, x.authorityPub);
        }
      }
      InsertedFirst(x, cs[1..]);
    }
  }

  lemma {:induction false} DedupFinds(cs: seq<SrvCommitment>, authority: bytes)
    ensures FindCommitment(Dedup(cs), authority) == FindCommitment(cs, authority)
    decreases |cs|
  {
    if |cs| >= 2 {
      if cs[0].authorityPub == cs[1].authorityPub {
        var rest := [cs[0]] + cs[2..];
        assert rest[1..] == cs[2..] && cs[1..][1..] == cs[2..];
        DedupFinds(rest, authority);
      } else {
        DedupFinds(cs[1..], authority);
      }
    }
  }

  lemma FirstVoteCarried(v: Vote, rest: seq<Vote>)
    requires v.srvCommit != []
    ensures FindCommitment(Carried([v] + rest), v.authorityPub) == Some(v.srvCommit)
  {
    hide Flat, Sorting.Sort, Dedup, FindCommitment, Lex;
    var x := SrvCommitment(v.authorityPub, v.srvCommit);
    FlatConcat([v], rest, CommitmentOf);
    assert [v] == [] + [v];
    FlatSnoc([], v, CommitmentOf);
    FlatEmpty([], CommitmentOf);
    var cs := Flat(rest, CommitmentOf);
    assert Flat([v] + rest, CommitmentOf) == [x] + cs;
    SortFirst(x, cs);
    DedupFinds(Sorting.Sort([x] + cs, ByAuthorityPub), v.authorityPub);
  }

  lemma SortFirst(x: SrvCommitment, cs: seq<SrvCommitment>)
    ensures FindCommitment(Sorting.Sort([x] + cs, ByAuthorityPub), x.authorityPub) == Some(x.commitment)
  {
    assert ([x] + cs)[1..] == cs;
    InsertedFirst(x, Sorting.Sort(cs, ByAuthorityPub));
  }

  /** One vote brought to the front. */
  function Fronted(votes: seq<Vote>, i: nat): seq<Vote>
    requires i < |votes|
  {
    [votes[i]] + (votes[..i] + votes[i + 1..])
  }

  lemma FrontedSame(votes: seq<Vote>, i: nat)
    requires i < |votes|
    ensures multiset(Fronted(votes, i)) == multiset(votes)
  {
    Removed(votes, i);
  }

  /** The carried commitments do not depend on the order of the votes exactly when no authority commits to two
      values; how often it repeats one does not matter. */
  lemma RepeatedVotes(votes: seq<Vote>)
    ensures Agreeing(votes) <==> forall votes' :: multiset(votes') == multiset(votes) ==> Carried(votes') == Carried(votes)
  {
    hide Carried, FindCommitment;
    if Agreeing(votes) {
      forall votes' | multiset(votes') == multiset(votes)
        ensures Carried(votes') == Carried(votes)
      {
        CarriedPermuted(votes, votes');
      }
    } else {
      var i, j :| 0 <= i < |votes| && 0 <= j < |votes| && votes[i].authorityPub == votes[j].authorityPub
        && votes[i].srvCommit != [] && votes[j].srvCommit != [] && votes[i].srvCommit != votes[j].srvCommit;
      FirstVoteCarried(votes[i], votes[..i] + votes[i + 1..]);
      FirstVoteCarried(votes[j], votes[..j] + votes[j + 1..]);
      FrontedSame(votes, i);
      FrontedSame(votes, j);
      assert Carried(Fronted(votes, i)) != Carried(Fronted(votes, j));
    }
  }

  /** The whole document: unless the hash collides, the votes have one document in every order exactly when no
      authority commits to two values. */
  lemma RepeatedVotesDocument(
    hash: SharedRandom.Hash, networkId: bytes, votes: seq<Vote>, prev: Option<Consensus>, period: u64, doc: Consensus)
    requires IsConsensus(hash, networkId, votes, prev, period, doc) && Opening(hash, votes, prev, period)
    ensures Agreeing(votes) <==>
      forall votes' :: multiset(votes') == multiset(votes) ==> IsConsensus(hash, networkId, votes', prev, period, doc)
  {
    hide IsMerged, Flat, MaxOf, MinOf, SharedValue, Carried, Opening, Agreeing;
    RepeatedVotes(votes);
    forall votes' | multiset(votes') == multiset(votes) && Agreeing(votes)
      ensures IsConsensus(hash, networkId, votes', prev, period, doc)
    {
      FlatPermuted(votes, votes', (v: Vote) => [v.validAfter]);
      FlatPermuted(votes, votes', (v: Vote) => [v.validUntil]);
      FlatPermuted(votes, votes', (v: Vote) => v.peers);
      ExtremesPermuted(Afters(votes), Afters(votes'));
      ExtremesPermuted(Untils(votes), Untils(votes'));
      MergedPermuted(AllPeers(votes), AllPeers(votes'), doc.peers);
      SharedValuePermuted(hash, votes, votes', prev, period);
      CarriedPermuted(votes, votes');
    }
    if forall votes' :: multiset(votes') == multiset(votes) ==> IsConsensus(hash, networkId, votes', prev, period, doc) {
      forall votes' | multiset(votes') == multiset(votes)
        ensures Carried(votes') == Carried(votes)
      {
        assert IsConsensus(hash, networkId, votes', prev, period, doc);
      }
    }
  }

  /** An authority that votes twice with different commitments leaves the choice to the order. */
  lemma DoubleVotesDepend(v: Vote, c: bytes, d: bytes)
    requires c != [] && d != [] && c != d
    ensures Carried([v.(srvCommit := c), v.(srvCommit := d)]) == [SrvCommitment(v.authorityPub, c)]
    ensures Carried([v.(srvCommit := d), v.(srvCommit := c)]) == [SrvCommitment(v.authorityPub, d)]
  {
    FirstCommitmentStays(v, c, d);
    FirstCommitmentStays(v, d, c);
  }

  lemma FirstCommitmentStays(v: Vote, c: bytes, d: bytes)
    requires c != [] && d != []
    ensures Carried([v.(srvCommit := c), v.(srvCommit := d)]) == [SrvCommitment(v.authorityPub, c)]
  {
    var first, second := v.(srvCommit := c), v.(srvCommit := d);
    var x, y := SrvCommitment(v.authorityPub, c), SrvCommitment(v.authorityPub, d);
    assert [first, second] == [first] + [second];
    FlatSnoc([first], second, CommitmentOf);
    assert [first] == [] + [first];
    FlatSnoc([], first, CommitmentOf);
    assert Flat([first, second], CommitmentOf) == [x, y];
    LexTotal(v.authorityPub, v.authorityPub);
    var cs := [x, y];
    assert cs[1..] == [y] && [y][1..] == [];
    assert Sorting.Sort([y], ByAuthorityPub) == [y];
    assert Sorting.Sort(cs, ByAuthorityPub) == [x] + [y] == cs;
    assert [cs[0]] + cs[2..] == [x];
    assert Dedup([x]) == [x];
    assert Dedup(cs) == Dedup([cs[0]] + cs[2..]);
  }
}
