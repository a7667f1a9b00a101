/** Shared randomness by commitment and reveal (`phinet-core/src/shared_random.rs`, after Tor proposal 250).
    SHA-256 is the parameter `hash`. */
module SharedRandom {
  import opened Wrappers
  import opened Bytes
  import opened Circuit
  import opened Text
  import opened Sorting

  type Hash = bytes -> Key32

  function CommitInput(authority: bytes, value: Key32, period: u64): bytes {
    Ascii("phinet-srv-commit-v1") + authority + Be64(period) + value
  }

  /** `commit`. */
  function Commit(hash: Hash, authority: bytes, value: Key32, period: u64): bytes {
    HexEncode(hash(CommitInput(authority, value, period)))
  }

  /** `check_reveal`. */
  predicate CheckReveal(hash: Hash, authority: bytes, value: Key32, period: u64, commitment: bytes) {
    Commit(hash, authority, value, period) == commitment
  }

  /** A commitment binds to its value: another value passes exactly when its input collides with the
      committed one under the hash. */
  lemma CommitmentBinds(hash: Hash, authority: bytes, value: Key32, other: Key32, period: u64)
    ensures CheckReveal(hash, authority, other, period, Commit(hash, authority, value, period)) <==>
      hash(CommitInput(authority, value, period)) == hash(CommitInput(authority, other, period))
    ensures CommitInput(authority, value, period) == CommitInput(authority, other, period) <==> value == other
  {
    HexRoundTrip(hash(CommitInput(authority, value, period)));
    HexRoundTrip(hash(CommitInput(authority, other, period)));
    var head := Ascii("phinet-srv-commit-v1") + authority + Be64(period);
    assert CommitInput(authority, value, period)[|head|..] == value;
    assert CommitInput(authority, other, period)[|head|..] == other;
  }

  datatype Reveal = Reveal(authority: bytes, value: Key32)

  predicate ByAuthority(a: Reveal, b: Reveal) {
    Lex(a.authority, b.authority)
  }

  // ── The sorted map ──────────────────────────────────────────────────

  /** `BTreeMap::insert` on the list of its entries. */
  function Put(entries: seq<Reveal>, r: Reveal): seq<Reveal> {
    if entries == [] then [r]
    else if entries[0].authority == r.authority then [r] + entries[1..]
    else if Lex(r.authority, entries[0].authority) then [r] + entries
    else [entries[0]] + Put(entries[1..], r)
  }

  function Entries(shown: seq<Reveal>): seq<Reveal>
    decreases |shown|
  {
    if shown == [] then [] else Put(Entries(shown[..|shown| - 1]), shown[|shown| - 1])
  }

  function EntryBytes(r: Reveal): bytes {
    Be32(|r.authority| % U32_LIMIT) + r.authority + r.value
  }

  function EntriesBytes(es: seq<Reveal>): bytes
    decreases |es|
  {
    if es == [] then [] else EntriesBytes(es[..|es| - 1]) + EntryBytes(es[|es| - 1])
  }

  function SrvOf(hash: Hash, es: seq<Reveal>, period: u64, min: nat): Option<bytes> {
    if |es| < min then None
    else Some(HexEncode(hash(Ascii("phinet-srv-v1") + Be64(period) + EntriesBytes(es))))
  }

  /** `compute_srv`. */
  method ComputeSrv(hash: Hash, shown: seq<Reveal>, period: u64, min: nat) returns (r: Option<bytes>)
    ensures r == SrvOf(hash, Entries(shown), period, min)
  {
    hide EntryBytes, Put;
    var sorted: seq<Reveal> := [];
    for i := 0 to |shown|
      invariant sorted == Entries(shown[..i])
    {
      assert shown[..i + 1][..i] == shown[..i];
      sorted := Put(sorted, shown[i]);
    }
    assert shown[..|shown|] == shown;
    if |sorted| < min {
      return None;
    }
    var head := Ascii("phinet-srv-v1") + Be64(period);
    var fed := head;
    assert head + [] == head;
    for i := 0 to |sorted|
      invariant fed == head + EntriesBytes(sorted[..i])
    {
      assert sorted[..i + 1][..i] == sorted[..i];
      fed := fed + EntryBytes(sorted[i]);
    }
    assert sorted[..|sorted|] == sorted;
    return Some(HexEncode(hash(fed)));
  }

  // ── Order does not matter ───────────────────────────────────────────

  predicate DistinctAuthorities(shown: seq<Reveal>) {
    forall i, j :: 0 <= i < j < |shown| ==> shown[i].authority != shown[j].authority
  }

  lemma {:induction false} PutKeeps(es: seq<Reveal>, r: Reveal)
    requires forall e :: e in multiset(es) ==> e.authority != r.authority
    ensures multiset(Put(es, r)) == multiset(es) + multiset{r}
  {
    if es != [] {
      assert es == [es[0]] + es[1..];
      assert es[0] in multiset(es);
      if !Lex(r.authority, es[0].authority) {
        PutKeeps(es[1..], r);
      }
    }
  }

  lemma {:induction false} PutSorted(es: seq<Reveal>, r: Reveal)
    requires Sorted(es, ByAuthority) && forall e :: e in multiset(es) ==> e.authority != r.authority
    ensures Sorted(Put(es, r), ByAuthority)
  {
    hide Sorted;
    if es == [] {
      PrependSorted(r, es, ByAuthority);
      assert [r] + es == [r];
    } else {
      HeadLeast(es, ByAuthority);
      assert es[0] in multiset(es);
      if Lex(r.authority, es[0].authority) {
        forall e | e in multiset(es)
          ensures ByAuthority(r, e)
        {
          LexTotal(es[0].authority, es[0].authority);
          LexTransitive(r.authority, es[0].authority, e.authority);
        }
        PrependSorted(r, es, ByAuthority);
      } else {
        LexTotal(r.authority, es[0].authority);
        PutSorted(es[1..], r);
        PutKeeps(es[1..], r);
        PrependSorted(es[0], Put(es[1..], r), ByAuthority);
      }
    }
  }

  /** With one reveal per authority the map holds exactly them. */
  lemma {:induction false} EntriesMeaning(shown: seq<Reveal>)
    requires DistinctAuthorities(shown)
    ensures multiset(Entries(shown)) == multiset(shown) && |Entries(shown)| == |shown|
    ensures Sorted(Entries(shown), ByAuthority)
    decreases |shown|
  {
    if shown != [] {
      var last := |shown| - 1;
      var init, r := shown[..last], shown[last];
      assert shown == init + [r];
      EntriesMeaning(init);
      forall e | e in multiset(Entries(init))
        ensures e.authority != r.authority
      {
        assert e in multiset(init);
      }
      PutKeeps(Entries(init), r);
      PutSorted(Entries(init), r);
    }
    assert |multiset(Entries(shown))| == |multiset(shown)|;
  }

  lemma DistinctAntisymmetric(shown: seq<Reveal>)
    requires DistinctAuthorities(shown)
    ensures Antisymmetric(multiset(shown), ByAuthority)
  {
    forall x, y | x in multiset(shown) && y in multiset(shown) && ByAuthority(x, y) && ByAuthority(y, x)
      ensures x == y
    {
      LexTotal(x.authority, y.authority);
      var i :| 0 <= i < |shown| && shown[i] == x;
      var j :| 0 <= j < |shown| && shown[j] == y;
    }
  }

  /** With one reveal per authority the shared value does not depend on the order of arrival. */
  lemma SrvOrderIndependent(hash: Hash, a: seq<Reveal>, b: seq<Reveal>, period: u64, min: nat)
    requires DistinctAuthorities(a) && DistinctAuthorities(b) && multiset(a) == multiset(b)
    ensures SrvOf(hash, Entries(a), period, min) == SrvOf(hash, Entries(b), period, min)
    ensures SrvOf(hash, Entries(a), period, min).Some? <==> |a| >= min
  {
    EntriesMeaning(a);
    EntriesMeaning(b);
    DistinctAntisymmetric(a);
    SortedUnique(Entries(a), Entries(b), ByAuthority);
  }

  // ── Reveals that are repeated ───────────────────────────────────────

  /** An authority may be heard several times, always with the same value. */
  predicate OneValueEach(shown: seq<Reveal>) {
    forall i, j :: 0 <= i < |shown| && 0 <= j < |shown| && shown[i].authority == shown[j].authority ==> shown[i] == shown[j]
  }

  lemma NotFirst(es: seq<Reveal>, r: Reveal)
    requires Sorted(es, ByAuthority) && DistinctAuthorities(es) && r in es && es[0] != r
    ensures es[0].authority != r.authority && !Lex(r.authority, es[0].authority)
    ensures r in es[1..] && Sorted(es[1..], ByAuthority) && DistinctAuthorities(es[1..])
  {
    hide Sorted, Lex;
    assert es == [es[0]] + es[1..];
    var k :| 0 < k < |es| && es[k] == r;
    assert es[0].authority != es[k].authority;
    HeadLeast(es, ByAuthority);
    assert r in multiset(es);
    LexTotal(es[0].authority, r.authority);
  }

  lemma {:induction false} PutAgain(es: seq<Reveal>, r: Reveal)
    requires Sorted(es, ByAuthority) && DistinctAuthorities(es) && r in es
    ensures Put(es, r) == es
  {
    hide Sorted, Lex, DistinctAuthorities;
    if es[0] != r {
      NotFirst(es, r);
      PutAgain(es[1..], r);
    }
  }

  /** The map holds each of them once. */
  lemma {:induction false} EntriesOnce(shown: seq<Reveal>)
    requires OneValueEach(shown)
    ensures Sorted(Entries(shown), ByAuthority) && DistinctAuthorities(Entries(shown))
    ensures forall e :: e in Entries(shown) <==> e in shown
    decreases |shown|
  {
    hide Sorted;
    if shown != [] {
      var last := |shown| - 1;
      var init, r := shown[..last], shown[last];
      assert shown == init + [r];
      EntriesOnce(init);
      var es := Entries(init);
      if r in init {
        PutAgain(es, r);
      } else {
        forall e: Reveal | e in multiset(es)
          ensures e.authority != r.authority
        {
          assert e in es && e in init;
          var i :| 0 <= i < last && init[i] == e;
          assert shown[i] == e && shown[last] == r;
        }
        PutKeeps(es, r);
        PutSorted(es, r);
        PutDistinct(es, r);
        assert forall e :: e in Put(es, r) <==> e in multiset(Put(es, r));
      }
    } else {
      EmptySorted(ByAuthority);
    }
  }

  lemma EmptySorted<T(!new)>(leq: (T, T) -> bool)
    ensures Sorted([], leq)
  {
  }

  lemma PutDistinct(es: seq<Reveal>, r: Reveal)
    requires DistinctAuthorities(es) && forall e :: e in multiset(es) ==> e.authority != r.authority
    requires multiset(Put(es, r)) == multiset(es) + multiset{r}
    ensures DistinctAuthorities(Put(es, r))
  {
    var key := (e: Reveal) => e.authority;
    var more := es + [r];
    forall i, j | 0 <= i < j < |more|
      ensures key(more[i]) != key(more[j])
    {
      assert es[i] in multiset(es);
    }
    assert multiset(more) == multiset(Put(es, r));
    DistinctPermuted(more, Put(es, r), key);
    assert forall i :: 0 <= i < |Put(es, r)| ==> key(Put(es, r)[i]) == Put(es, r)[i].authority;
  }

  /** Distinct lists of the same members have the same members once each. */
  lemma OnceEach(a: seq<Reveal>, b: seq<Reveal>)
    requires DistinctAuthorities(a) && DistinctAuthorities(b) && forall e :: e in a <==> e in b
    ensures multiset(a) == multiset(b)
  {
    forall e: Reveal
      ensures multiset(a)[e] == multiset(b)[e]
    {
      CountOnce(a, e);
      CountOnce(b, e);
    }
  }

  lemma {:induction false} CountOnce(a: seq<Reveal>, e: Reveal)
    requires DistinctAuthorities(a)
    ensures multiset(a)[e] == if e in a then 1 else 0
  {
    if a != [] {
      assert a == [a[0]] + a[1..];
      CountOnce(a[1..], e);
      if e in a[1..] {
        var k :| 0 < k < |a| && a[k] == e;
        assert a[0].authority != a[k].authority;
      }
    }
  }

  /** However often an authority repeats its value, the shared value does not depend on the order of arrival. */
  lemma SrvRepeated(hash: Hash, a: seq<Reveal>, b: seq<Reveal>, period: u64, min: nat)
    requires OneValueEach(a) && multiset(a) == multiset(b)
    ensures SrvOf(hash, Entries(a), period, min) == SrvOf(hash, Entries(b), period, min)
  {
    hide Sorted;
    forall e: Reveal
      ensures e in a <==> e in b
    {
      assert e in a <==> e in multiset(a);
      assert e in b <==> e in multiset(b);
    }
    OneValuePermuted(a, b);
    EntriesOnce(a);
    EntriesOnce(b);
    OnceEach(Entries(a), Entries(b));
    DistinctAntisymmetric(Entries(a));
    SortedUnique(Entries(a), Entries(b), ByAuthority);
  }

  lemma OneValuePermuted(a: seq<Reveal>, b: seq<Reveal>)
    requires OneValueEach(a) && forall e :: e in a <==> e in b
    ensures OneValueEach(b)
  {
    forall i, j | 0 <= i < |b| && 0 <= j < |b| && b[i].authority == b[j].authority
      ensures b[i] == b[j]
    {
      assert b[i] in a && b[j] in a;
    }
  }

  // ── What the value says ─────────────────────────────────────────────

  predicate SmallNames(es: seq<Reveal>) {
    forall e :: e in es ==> |e.authority| < U32_LIMIT
  }

  /** What is hashed for the shared value. */
  function SrvInput(es: seq<Reveal>, period: u64): bytes {
    Ascii("phinet-srv-v1") + Be64(period) + EntriesBytes(es)
  }

  predicate Collide(hash: Hash, x: bytes, y: bytes) {
    x != y && hash(x) == hash(y)
  }

  lemma {:induction false} EntriesCons(e: Reveal, es: seq<Reveal>)
    ensures EntriesBytes([e] + es) == EntryBytes(e) + EntriesBytes(es)
    decreases |es|
  {
    hide EntryBytes;
    if es == [] {
      assert [e] + es == [] + [e];
      assert EntriesBytes([e])[..] == [] + EntryBytes(e);
    } else {
      var init, last := es[..|es| - 1], es[|es| - 1];
      assert ([e] + es)[..|es|] == [e] + init && ([e] + es)[|es|] == last;
      EntriesCons(e, init);
      assert EntryBytes(e) + (EntriesBytes(init) + EntryBytes(last)) == (EntryBytes(e) + EntriesBytes(init)) + EntryBytes(last);
    }
  }

  lemma EntrySplits(e: Reveal, x: bytes, f: Reveal, y: bytes)
    requires |e.authority| < U32_LIMIT && |f.authority| < U32_LIMIT && EntryBytes(e) + x == EntryBytes(f) + y
    ensures e == f && x == y
  {
    hide Be32;
    var e1, f1 := e.authority + (e.value + x), f.authority + (f.value + y);
    assert EntryBytes(e) + x == Be32(|e.authority|) + e1 && EntryBytes(f) + y == Be32(|f.authority|) + f1;
    SplitSame(Be32(|e.authority|), e1, Be32(|f.authority|), f1);
    Be32RoundTrip(|e.authority|);
    Be32RoundTrip(|f.authority|);
    SplitSame(e.authority, e.value + x, f.authority, f.value + y);
    SplitSame(e.value, x, f.value, y);
  }

  /** Different entries are hashed as different bytes. */
  lemma {:induction false} EntriesTell(es: seq<Reveal>, fs: seq<Reveal>)
    requires SmallNames(es) && SmallNames(fs) && EntriesBytes(es) == EntriesBytes(fs)
    ensures es == fs
    decreases |es|
  {
    hide EntryBytes;
    if es != [] {
      assert es == [es[0]] + es[1..];
      EntriesCons(es[0], es[1..]);
      EntryLong(es[0]);
    }
    if fs != [] {
      assert fs == [fs[0]] + fs[1..];
      EntriesCons(fs[0], fs[1..]);
      EntryLong(fs[0]);
    }
    if es != [] && fs != [] {
      EntrySplits(es[0], EntriesBytes(es[1..]), fs[0], EntriesBytes(fs[1..]));
      EntriesTell(es[1..], fs[1..]);
    } else {
      assert EntriesBytes([]) == [];
    }
  }

  lemma EntryLong(e: Reveal)
    ensures |EntryBytes(e)| > 0
  {
  }

  /** One shared value, one list of entries and one period, short of a collision. */
  lemma SrvTells(hash: Hash, es: seq<Reveal>, fs: seq<Reveal>, period: u64, period': u64, min: nat)
    requires SmallNames(es) && SmallNames(fs)
    requires SrvOf(hash, es, period, min).Some? && SrvOf(hash, es, period, min) == SrvOf(hash, fs, period', min)
    ensures (es == fs && period == period') || Collide(hash, SrvInput(es, period), SrvInput(fs, period'))
  {
    hide Be64, EntriesBytes;
    HexRoundTrip(hash(SrvInput(es, period)));
    HexRoundTrip(hash(SrvInput(fs, period')));
    if SrvInput(es, period) == SrvInput(fs, period') {
      var head := Ascii("phinet-srv-v1");
      assert SrvInput(es, period) == head + (Be64(period) + EntriesBytes(es));
      assert SrvInput(fs, period') == head + (Be64(period') + EntriesBytes(fs));
      SplitSame(head, Be64(period) + EntriesBytes(es), head, Be64(period') + EntriesBytes(fs));
      SplitSame(Be64(period), EntriesBytes(es), Be64(period'), EntriesBytes(fs));
      Be64RoundTrip(period);
      Be64RoundTrip(period');
      EntriesTell(es, fs);
    }
  }

  /** Whatever else had been revealed would have given another value: nobody can know the value before the last
      reveal is known. */
  lemma RevealsDecide(hash: Hash, a: seq<Reveal>, b: seq<Reveal>, period: u64, period': u64, min: nat)
    requires DistinctAuthorities(a) && DistinctAuthorities(b) && SmallNames(a) && SmallNames(b)
    requires SrvOf(hash, Entries(a), period, min).Some?
    requires SrvOf(hash, Entries(a), period, min) == SrvOf(hash, Entries(b), period', min)
    ensures (multiset(a) == multiset(b) && period == period')
         || Collide(hash, SrvInput(Entries(a), period), SrvInput(Entries(b), period'))
  {
    hide EntriesBytes, SrvOf, Sorted;
    EntriesMeaning(a);
    EntriesMeaning(b);
    SameNames(a, Entries(a));
    SameNames(b, Entries(b));
    SrvTells(hash, Entries(a), Entries(b), period, period', min);
  }

  lemma SameNames(a: seq<Reveal>, es: seq<Reveal>)
    requires multiset(a) == multiset(es) && SmallNames(a)
    ensures SmallNames(es)
  {
    forall e | e in es
      ensures e in a
    {
      assert e in multiset(es);
    }
  }

  /** A commitment is one authority's, to one value, for one period, short of a collision. */
  lemma CommitmentTells(hash: Hash, a: bytes, v: Key32, period: u64, a': bytes, v': Key32, period': u64)
    requires Commit(hash, a, v, period) == Commit(hash, a', v', period')
    ensures (a == a' && v == v' && period == period') || Collide(hash, CommitInput(a, v, period), CommitInput(a', v', period'))
  {
    hide Be64;
    HexRoundTrip(hash(CommitInput(a, v, period)));
    HexRoundTrip(hash(CommitInput(a', v', period')));
    var x, y := CommitInput(a, v, period), CommitInput(a', v', period');
    if x == y {
      var head := Ascii("phinet-srv-commit-v1");
      assert |x| == |head| + |a| + 40 && |y| == |head| + |a'| + 40;
      assert x == head + (a + (Be64(period) + v)) && y == head + (a' + (Be64(period') + v'));
      SplitSame(head, a + (Be64(period) + v), head, a' + (Be64(period') + v'));
      SplitSame(a, Be64(period) + v, a', Be64(period') + v');
      SplitSame(Be64(period), v, Be64(period'), v');
      Be64RoundTrip(period);
      Be64RoundTrip(period');
    }
  }
}
