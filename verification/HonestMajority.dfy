/** What a strict majority of honest observations of a peer decides in the merged row
    (`phinet-core/src/directory.rs:754-804`), whatever the others report. */
module HonestMajority {
  import opened Wrappers
  import opened Bytes
  import opened Text
  import opened Flatten
  import opened Directory
  import opened Merging
  import Sorting

  // ── Agreed fields ───────────────────────────────────────────────────

  lemma {:induction false} AllTheSame<T>(xs: seq<T>, x: T)
    requires forall i :: 0 <= i < |xs| ==> xs[i] == x
    ensures multiset(xs)[x] == |xs|
  {
    if xs != [] {
      assert xs == [xs[0]] + xs[1..];
      AllTheSame(xs[1..], x);
    }
  }

  lemma {:induction false} CountAtMost<T>(xs: seq<T>, x: T)
    ensures multiset(xs)[x] <= |xs|
  {
    if xs != [] {
      assert xs == [xs[0]] + xs[1..];
      CountAtMost(xs[1..], x);
    }
  }

  /** More than half of the items are `x`. */
  lemma MajorityWins<T(!new)>(agreed: seq<T>, rest: seq<T>, le: (T, T) -> bool, x: T)
    requires Sorting.Preorder(le) && Sorting.Antisymmetric(multiset(agreed + rest), le)
    requires |agreed| > |rest| && forall i :: 0 <= i < |agreed| ==> agreed[i] == x
    ensures MajorityOf(agreed + rest, le) == Some(x)
  {
    var items := agreed + rest;
    AllTheSame(agreed, x);
    assert agreed[0] == x && items[0] == x;
    forall y | y in items
      ensures Better(multiset(items), le, x, y)
    {
      CountAtMost(rest, y);
      if y == x {
        assert le(x, y) || le(y, x);
      } else {
        assert y !in agreed;
        assert multiset(agreed)[y] == 0;
      }
    }
    MajorityUnique(items, le, x);
  }

  // ── Median ──────────────────────────────────────────────────────────

  function Keep(p: u32 -> bool): u32 -> seq<u32> {
    x => if p(x) then [x] else []
  }

  lemma {:induction false} KeepNone(xs: seq<u32>, p: u32 -> bool)
    requires forall i :: 0 <= i < |xs| ==> !p(xs[i])
    ensures Flat(xs, Keep(p)) == []
    decreases |xs|
  {
    if xs != [] {
      KeepNone(xs[..|xs| - 1], p);
    }
  }

  lemma {:induction false} KeepAll(xs: seq<u32>, p: u32 -> bool)
    requires forall i :: 0 <= i < |xs| ==> p(xs[i])
    ensures |Flat(xs, Keep(p))| == |xs|
    decreases |xs|
  {
    if xs != [] {
      KeepAll(xs[..|xs| - 1], p);
    }
  }

  lemma {:induction false} KeepAtMost(xs: seq<u32>, p: u32 -> bool)
    ensures |Flat(xs, Keep(p))| <= |xs|
    decreases |xs|
  {
    if xs != [] {
      KeepAtMost(xs[..|xs| - 1], p);
    }
  }

  /** Half of the sorted list cannot consist of what no honest party reported. */
  lemma HalfIsNotBad(good: seq<u32>, bad: seq<u32>, part: seq<u32>, other: seq<u32>, p: u32 -> bool)
    requires |good| > |bad| && forall i :: 0 <= i < |good| ==> !p(good[i])
    requires multiset(part + other) == multiset(good + bad) && |part| > |bad|
    ensures exists i :: 0 <= i < |part| && !p(part[i])
  {
    if forall i :: 0 <= i < |part| ==> p(part[i]) {
      KeepAll(part, p);
      KeepNone(good, p);
      KeepAtMost(bad, p);
      FlatConcat(part, other, Keep(p));
      FlatConcat(good, bad, Keep(p));
      FlatPermuted(part + other, good + bad, Keep(p));
      SameLength(Flat(part + other, Keep(p)), Flat(good + bad, Keep(p)));
    }
  }

  lemma SameLength<T>(a: seq<T>, b: seq<T>)
    requires multiset(a) == multiset(b)
    ensures |a| == |b|
  {
    assert |a| == |multiset(a)| == |multiset(b)| == |b|;
  }

  lemma MedianAtLeast(good: seq<u32>, bad: seq<u32>, s: seq<u32>, lo: u32)
    requires |good| > |bad| && forall i :: 0 <= i < |good| ==> lo <= good[i]
    requires multiset(s) == multiset(good + bad) && |s| == |good + bad| && Sorting.Sorted(s, LeU32)
    ensures lo <= s[|s| / 2]
  {
    hide Flat;
    var mid := |s| / 2;
    var part := s[..mid + 1];
    assert s == part + s[mid + 1..];
    HalfIsNotBad(good, bad, part, s[mid + 1..], x => x < lo);
    var i :| 0 <= i < |part| && !(part[i] < lo);
    assert s[i] >= lo && (i < mid ==> LeU32(s[i], s[mid]));
  }

  lemma MedianAtMost(good: seq<u32>, bad: seq<u32>, s: seq<u32>, hi: u32)
    requires |good| > |bad| && forall i :: 0 <= i < |good| ==> good[i] <= hi
    requires multiset(s) == multiset(good + bad) && |s| == |good + bad| && Sorting.Sorted(s, LeU32)
    ensures s[|s| / 2] <= hi
  {
    hide Flat;
    var mid := |s| / 2;
    var part := s[mid..];
    assert s == s[..mid] + part;
    assert multiset(part + s[..mid]) == multiset(s);
    HalfIsNotBad(good, bad, part, s[..mid], x => x > hi);
    var j :| 0 <= j < |part| && !(part[j] > hi);
    assert s[mid + j] <= hi && (0 < j ==> LeU32(s[mid], s[mid + j]));
  }

  lemma MedianBetween(good: seq<u32>, bad: seq<u32>, lo: u32, hi: u32)
    requires |good| > |bad| && forall i :: 0 <= i < |good| ==> lo <= good[i] <= hi
    ensures lo <= Median(good + bad) <= hi
  {
    hide Sorting.Sorted;
    var s := Sorting.Sort(good + bad, LeU32);
    Sorting.SortKeeps(good + bad, LeU32);
    Sorting.SortSorted(good + bad, LeU32);
    MedianAtLeast(good, bad, s, lo);
    MedianAtMost(good, bad, s, hi);
  }

  // ── Flags ───────────────────────────────────────────────────────────

  lemma {:induction false} SetCountConcat(xs: seq<u32>, ys: seq<u32>, bit: nat)
    ensures SetCount(xs + ys, bit) == SetCount(xs, bit) + SetCount(ys, bit)
  {
    hide BitSet;
    if xs == [] {
      assert xs + ys == ys;
    } else {
      assert (xs + ys)[1..] == xs[1..] + ys;
      SetCountConcat(xs[1..], ys, bit);
    }
  }

  lemma {:induction false} SetCountAgreed(xs: seq<u32>, bit: nat, value: bool)
    requires forall i :: 0 <= i < |xs| ==> BitSet(xs[i], bit) == value
    ensures SetCount(xs, bit) == if value then |xs| else 0
  {
    hide BitSet;
    if xs != [] {
      SetCountAgreed(xs[1..], bit, value);
    }
  }

  lemma FlagDecided(good: seq<u32>, bad: seq<u32>, bit: nat, value: bool)
    requires |good| > |bad| && bit < 32 && forall i :: 0 <= i < |good| ==> BitSet(good[i], bit) == value
    ensures BitSet(MergedFlags(good + bad), bit) == value
  {
    hide BitSet;
    SetCountConcat(good, bad, bit);
    SetCountAgreed(good, bit, value);
    MergedBitsMeaning(good + bad, 32, bit);
  }

  // ── The merged row ──────────────────────────────────────────────────

  lemma {:induction false} FlatOne<T, U>(xs: seq<T>, f: T -> seq<U>, g: T -> U)
    requires forall i :: 0 <= i < |xs| ==> f(xs[i]) == [g(xs[i])]
    ensures |Flat(xs, f)| == |xs| && forall i :: 0 <= i < |xs| ==> Flat(xs, f)[i] == g(xs[i])
    decreases |xs|
  {
    if xs != [] {
      FlatOne(xs[..|xs| - 1], f, g);
    }
  }

  lemma {:induction false} FlatShort<T, U>(xs: seq<T>, f: T -> seq<U>)
    requires forall i :: 0 <= i < |xs| ==> |f(xs[i])| <= 1
    ensures |Flat(xs, f)| <= |xs|
    decreases |xs|
  {
    if xs != [] {
      FlatShort(xs[..|xs| - 1], f);
    }
  }

  /** A field on which the honest agree. */
  lemma FieldDecided<U(!new)>(
    honest: seq<PeerEntry>, others: seq<PeerEntry>, f: PeerEntry -> seq<U>, le: (U, U) -> bool, x: U)
    requires |honest| > |others| && Sorting.Preorder(le)
    requires Sorting.Antisymmetric(multiset(Flat(honest + others, f)), le)
    requires forall i :: 0 <= i < |honest| ==> f(honest[i]) == [x]
    requires forall i :: 0 <= i < |others| ==> |f(others[i])| <= 1
    ensures MajorityOf(Flat(honest + others, f), le) == Some(x)
  {
    hide Flat, MajorityOf, Sorting.Antisymmetric, Sorting.Preorder;
    FlatConcat(honest, others, f);
    FlatOne(honest, f, (p: PeerEntry) => x);
    FlatShort(others, f);
    MajorityWins(Flat(honest, f), Flat(others, f), le, x);
  }

  /** What honest observers agree on: `None` where they do not. */
  datatype Agreed = Agreed(
    host: Option<bytes>, port: Option<u16>, staticPub: Option<bytes>, exitPolicy: Option<bytes>, family: Option<bytes>)

  predicate Agrees(p: PeerEntry, a: Agreed) {
    && (a.host.Some? ==> p.host == a.host.value) && (a.port.Some? ==> p.port == a.port.value)
    && (a.staticPub.Some? ==> p.staticPub == a.staticPub.value)
    && (a.exitPolicy.Some? ==> p.exitPolicy == a.exitPolicy.value)
    && (a.family.Some? ==> p.family == a.family.value)
  }

  lemma TextDecided(honest: seq<PeerEntry>, others: seq<PeerEntry>, f: PeerEntry -> seq<bytes>, x: bytes)
    requires |honest| > |others|
    requires forall i :: 0 <= i < |honest| ==> f(honest[i]) == [x]
    requires forall i :: 0 <= i < |others| ==> |f(others[i])| <= 1
    ensures MajorityOf(Flat(honest + others, f), Lex) == Some(x)
  {
    LexOrders();
    LexAntisymmetric(multiset(Flat(honest + others, f)));
    FieldDecided(honest, others, f, Lex, x);
  }

  lemma FieldsDecided(id: bytes, honest: seq<PeerEntry>, others: seq<PeerEntry>, agreed: Agreed)
    requires |honest| > |others| && forall i :: 0 <= i < |honest| ==> Agrees(honest[i], agreed)
    requires agreed.family != Some([])
    ensures Agrees(MergedPeer(id, honest + others), agreed)
  {
    hide Flat, MajorityOf, MergedFlags, Median, Lex;
    if agreed.host.Some? {
      TextDecided(honest, others, (o: PeerEntry) => [o.host], agreed.host.value);
    }
    if agreed.port.Some? {
      FieldDecided(honest, others, (o: PeerEntry) => [o.port], LeU16, agreed.port.value);
    }
    if agreed.staticPub.Some? {
      TextDecided(honest, others, (o: PeerEntry) => [o.staticPub], agreed.staticPub.value);
    }
    if agreed.exitPolicy.Some? {
      TextDecided(honest, others, (o: PeerEntry) => [o.exitPolicy], agreed.exitPolicy.value);
    }
    if agreed.family.Some? {
      TextDecided(honest, others, (o: PeerEntry) => if o.family == [] then [] else [o.family], agreed.family.value);
    }
  }

  lemma NumbersDecided(id: bytes, honest: seq<PeerEntry>, others: seq<PeerEntry>, lo: u32, hi: u32, bit: nat, value: bool)
    requires |honest| > |others| && forall i :: 0 <= i < |honest| ==> lo <= honest[i].bandwidth <= hi
    ensures lo <= MergedPeer(id, honest + others).bandwidth <= hi
    ensures bit < 32 && (forall i :: 0 <= i < |honest| ==> BitSet(honest[i].flags, bit) == value) ==>
      BitSet(MergedPeer(id, honest + others).flags, bit) == value
  {
    hide Flat, MajorityOf, MergedFlags, Median, BitSet;
    var bw, fl := (o: PeerEntry) => [o.bandwidth], (o: PeerEntry) => [o.flags];
    FlatConcat(honest, others, bw);
    FlatConcat(honest, others, fl);
    FlatOne(honest, bw, (o: PeerEntry) => o.bandwidth);
    FlatOne(others, bw, (o: PeerEntry) => o.bandwidth);
    FlatOne(honest, fl, (o: PeerEntry) => o.flags);
    FlatOne(others, fl, (o: PeerEntry) => o.flags);
    MedianBetween(Flat(honest, bw), Flat(others, bw), lo, hi);
    if bit < 32 && forall i :: 0 <= i < |honest| ==> BitSet(honest[i].flags, bit) == value {
      FlagDecided(Flat(honest, fl), Flat(others, fl), bit, value);
    }
  }

  lemma TextMajority(items: seq<bytes>)
    ensures var r := MajorityOf(items, Lex);
            (r.None? <==> items == []) && (r.Some? ==> r.value in items)
  {
    hide BestOf, Lex;
    LexOrders();
    BestMeaning(items, multiset(items), Lex);
  }

  /** A merged row is without a family exactly if no observer named one. */
  lemma FamilyAbsent(id: bytes, obs: seq<PeerEntry>)
    ensures MergedPeer(id, obs).family == [] <==> forall i :: 0 <= i < |obs| ==> obs[i].family == []
  {
    hide Flat, MajorityOf, MergedFlags, Median, Lex;
    var named := Families(obs);
    TextMajority(named);
    forall i | 0 <= i < |obs|
      ensures obs[i].family != [] ==> named != []
    {
      NamedMember(obs, obs[i].family);
    }
    if named != [] {
      NamedMember(obs, MajorityOf(named, Lex).value);
    }
  }

  lemma NamedMember(obs: seq<PeerEntry>, family: bytes)
    ensures family in Families(obs) <==> family != [] && exists i :: 0 <= i < |obs| && obs[i].family == family
  {
    hide Flat;
    FlatMember(obs, (o: PeerEntry) => if o.family == [] then [] else [o.family], family);
  }

  /** Honest majority decides. When more than half of a peer's observations are honest, however they are
      mixed with the others, the merged bandwidth lies between the least and the greatest honest one, every
      flag bit on which the honest agree has that value, and so has every field; but an agreed absence of a
      family stands exactly if nobody at all names one. */
  lemma HonestMajorityDecides(
    id: bytes, obs: seq<PeerEntry>, honest: seq<PeerEntry>, others: seq<PeerEntry>, agreed: Agreed,
    lo: u32, hi: u32, bit: nat, value: bool)
    requires multiset(obs) == multiset(honest) + multiset(others) && |honest| > |others|
    requires forall i :: 0 <= i < |honest| ==> Agrees(honest[i], agreed) && lo <= honest[i].bandwidth <= hi
    ensures Agrees(MergedPeer(id, obs), agreed)
         <==> (agreed.family == Some([]) ==> forall i :: 0 <= i < |obs| ==> obs[i].family == [])
    ensures Agrees(MergedPeer(id, obs), agreed.(family := if agreed.family == Some([]) then None else agreed.family))
    ensures lo <= MergedPeer(id, obs).bandwidth <= hi
    ensures bit < 32 && (forall i :: 0 <= i < |honest| ==> BitSet(honest[i].flags, bit) == value) ==>
      BitSet(MergedPeer(id, obs).flags, bit) == value
  {
    hide MergedPeer, BitSet;
    assert multiset(obs) == multiset(honest + others);
    MergedPeerPermuted(id, obs, honest + others);
    FieldsDecided(id, honest, others, agreed.(family := if agreed.family == Some([]) then None else agreed.family));
    FamilyAbsent(id, obs);
    NumbersDecided(id, honest, others, lo, hi, bit, value);
  }

  lemma OnlyChoice(x: bytes)
    ensures MajorityOf([x], Lex) == Some(x)
  {
    hide Lex;
    assert [x][1..] == [];
  }

  /** One observation with a family outweighs any number without. */
  lemma SilenceLoses(id: bytes, silent: seq<PeerEntry>, liar: PeerEntry)
    requires liar.family != [] && forall i :: 0 <= i < |silent| ==> silent[i].family == []
    ensures MergedPeer(id, silent + [liar]).family == liar.family
  {
    hide MergedFlags, Median, Flat, MajorityOf;
    var f := (o: PeerEntry) => if o.family == [] then [] else [o.family];
    FlatEmpty(silent, f);
    FlatSnoc(silent, liar, f);
    assert [] + [liar.family] == [liar.family];
    OnlyChoice(liar.family);
  }
}
