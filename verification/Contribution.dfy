/** Each authority's part in the shared random value (`phinet-bwscanner/src/lib.rs:97-168`), and what comes of
    it over whole runs of the protocol. The state file is the class's field; fresh randomness is a
    parameter. */
module Contribution {
  import opened Wrappers
  import opened Bytes
  import opened Circuit
  import opened Text
  import opened Flatten
  import opened Directory
  import opened Merging
  import opened SharedRandom
  import Sorting

  /** `SrvPending`; values are hex. */
  datatype Pending = Pending(period: u64, value: bytes, nextValue: bytes)

  const NEW_PENDING: Pending := Pending(0, [], [])

  datatype Output = Output(commitment: bytes, revealed: bytes)

  function Advanced(st: Pending, period: u64): Pending {
    if period > st.period then
      Pending(period, if period == st.period + 1 && st.nextValue != [] then st.nextValue else [], [])
    else st
  }

  function Committed(st: Pending, draw: Key32): Pending {
    if st.nextValue == [] then st.(nextValue := HexEncode(draw)) else st
  }

  function NextBytes(st: Pending): Key32 {
    HexDecodeExactly(st.nextValue, 32).GetOr(Zeros(32))
  }

  /** `srv_contribution`. */
  function Contribute(hash: Hash, authority: bytes, st: Pending, period: u64, draw: Key32): (Pending, Output) {
    var advanced := Advanced(st, period);
    var revealed := if advanced.period == period then advanced.value else [];
    var st' := Committed(advanced, draw);
    (st', Output(Commit(hash, authority, NextBytes(st'), WrapSucc(period)), revealed))
  }

  class SrvStore {
    var period: u64
    var value: bytes
    var nextValue: bytes

    function View(): Pending
      reads this
    {
      Pending(period, value, nextValue)
    }

    constructor ()
      ensures View() == NEW_PENDING
    {
      period, value, nextValue := 0, [], [];
    }

    method SrvContribution(hash: Hash, authority: bytes, now: u64, draw: Key32) returns (out: Output)
      modifies this
      ensures (View(), out) == Contribute(hash, authority, old(View()), now, draw)
    {
      if now > period {
        if now == period + 1 && nextValue != [] {
          value := nextValue;
        } else {
          value := [];
        }
        nextValue := [];
        period := now;
      }
      var revealed := if period == now && value != [] then value else [];
      if nextValue == [] {
        nextValue := HexEncode(draw);
      }
      var nextBytes: Key32 := HexDecodeExactly(nextValue, 32).GetOr(Zeros(32));
      out := Output(Commit(hash, authority, nextBytes, WrapSucc(now)), revealed);
    }
  }

  // ── One authority's run ─────────────────────────────────────────────

  datatype Call = Call(period: u64, drawn: Key32)

  function StateAfter(hash: Hash, authority: bytes, calls: seq<Call>): Pending
    decreases |calls|
  {
    if calls == [] then NEW_PENDING
    else
      var last := calls[|calls| - 1];
      Contribute(hash, authority, StateAfter(hash, authority, calls[..|calls| - 1]), last.period, last.drawn).0
  }

  /** What call `k` published. */
  function OutputOf(hash: Hash, authority: bytes, calls: seq<Call>, k: nat): Output
    requires k < |calls|
  {
    Contribute(hash, authority, StateAfter(hash, authority, calls[..k]), calls[k].period, calls[k].drawn).1
  }

  predicate InOrder(calls: seq<Call>) {
    forall i, j :: 0 <= i < j < |calls| ==> calls[i].period <= calls[j].period
  }

  predicate CalledIn(calls: seq<Call>, period: int) {
    exists i :: 0 <= i < |calls| && calls[i].period == period
  }

  /** The number drawn at the first call of a period; later draws in it are not used. */
  function DrawnIn(calls: seq<Call>, period: int): Key32
    decreases |calls|
  {
    if calls == [] then Zeros(32)
    else
      var init, last := calls[..|calls| - 1], calls[|calls| - 1];
      if last.period == period && !CalledIn(init, period) then last.drawn else DrawnIn(init, period)
  }

  /** The state after a run: the current period's number is committed, the previous period's is revealed. */
  predicate Tracks(st: Pending, calls: seq<Call>) {
    if calls == [] then st == NEW_PENDING
    else
      var p := calls[|calls| - 1].period;
      && st.period == p
      && st.nextValue == HexEncode(DrawnIn(calls, p))
      && st.value == if CalledIn(calls, p - 1) then HexEncode(DrawnIn(calls, p - 1)) else []
  }

  lemma CalledMore(calls: seq<Call>, c: Call, period: int)
    ensures CalledIn(calls + [c], period) <==> CalledIn(calls, period) || c.period == period
  {
    var more := calls + [c];
    if CalledIn(calls, period) {
      var i :| 0 <= i < |calls| && calls[i].period == period;
      assert more[i].period == period;
    }
    if c.period == period {
      assert more[|calls|].period == period;
    }
    if CalledIn(more, period) {
      var i :| 0 <= i < |more| && more[i].period == period;
      assert i < |calls| ==> calls[i].period == period;
    }
  }

  lemma DrawnMore(calls: seq<Call>, c: Call, period: int)
    ensures DrawnIn(calls + [c], period)
         == if c.period == period && !CalledIn(calls, period) then c.drawn else DrawnIn(calls, period)
  {
    assert (calls + [c])[..|calls|] == calls;
  }

  /** Who was called when, just before the next call. */
  lemma CallFacts(calls: seq<Call>, c: Call)
    requires InOrder(calls + [c])
    ensures calls == [] ==> forall x: int :: !CalledIn(calls, x)
    ensures calls != [] ==>
      var last := calls[|calls| - 1].period;
      && last <= c.period && CalledIn(calls, last) && forall x: int :: CalledIn(calls, x) ==> x <= last
  {
    var all := calls + [c];
    assert forall i :: 0 <= i < |calls| ==> all[i] == calls[i];
    assert all[|calls|] == c;
    if calls != [] {
      var last := |calls| - 1;
      assert calls[last].period == all[last].period;
      forall x: int | CalledIn(calls, x)
        ensures x <= calls[last].period
      {
        var i :| 0 <= i < |calls| && calls[i].period == x;
        assert all[i].period == x;
      }
    }
  }

  lemma TracksStep(hash: Hash, authority: bytes, st: Pending, calls: seq<Call>, c: Call)
    requires Tracks(st, calls) && InOrder(calls + [c])
    ensures Tracks(Contribute(hash, authority, st, c.period, c.drawn).0, calls + [c])
    ensures NextBytes(Contribute(hash, authority, st, c.period, c.drawn).0) == DrawnIn(calls + [c], c.period)
    ensures Contribute(hash, authority, st, c.period, c.drawn).1.revealed
         == if CalledIn(calls + [c], c.period - 1) then HexEncode(DrawnIn(calls + [c], c.period - 1)) else []
  {
    hide DrawnIn, CalledIn, HexEncode, HexDecodeExactly, Commit, InOrder;
    CallFacts(calls, c);
    CalledMore(calls, c, c.period - 1);
    DrawnMore(calls, c, c.period);
    DrawnMore(calls, c, c.period - 1);
    DecodesBack(DrawnIn(calls + [c], c.period));
  }

  lemma DecodesBack(value: Key32)
    ensures HexDecodeExactly(HexEncode(value), 32) == Some(value) && HexEncode(value) != []
  {
    HexRoundTrip(value);
  }

  lemma {:induction false} RunTracks(hash: Hash, authority: bytes, calls: seq<Call>)
    requires InOrder(calls)
    ensures Tracks(StateAfter(hash, authority, calls), calls)
    decreases |calls|
  {
    if calls != [] {
      var init, last := calls[..|calls| - 1], calls[|calls| - 1];
      assert calls == init + [last];
      RunTracks(hash, authority, init);
      TracksStep(hash, authority, StateAfter(hash, authority, init), init, last);
    }
  }

  /** Later calls change neither who was called nor what was drawn in a period that had begun. */
  lemma {:induction false} EarlierStays(calls: seq<Call>, k: nat, period: int)
    requires InOrder(calls) && 0 < k <= |calls| && period <= calls[k - 1].period
    ensures calls[k - 1].period > period || CalledIn(calls[..k], period)
    ensures CalledIn(calls, period) <==> CalledIn(calls[..k], period)
    ensures DrawnIn(calls, period) == DrawnIn(calls[..k], period)
    decreases |calls|
  {
    assert calls[..k][k - 1] == calls[k - 1];
    if k < |calls| {
      var init, last := calls[..|calls| - 1], calls[|calls| - 1];
      assert calls == init + [last] && init[..k] == calls[..k];
      EarlierStays(init, k, period);
      CalledMore(init, last, period);
      DrawnMore(init, last, period);
      assert init[k - 1] == calls[k - 1];
    } else {
      assert calls[..k] == calls;
    }
  }

  lemma PrefixInOrder(calls: seq<Call>, k: nat)
    requires InOrder(calls) && k <= |calls|
    ensures InOrder(calls[..k])
  {
  }

  lemma NeverBefore(calls: seq<Call>)
    ensures !CalledIn(calls, -1)
  {
  }

  /** What an authority publishes in a period depends only on the period's first draw and the previous
      period's: every call of the period says the same, the reveal is there exactly if there was a call in
      the period before, and it is then what was committed there. */
  lemma ContributionMeaning(hash: Hash, authority: bytes, calls: seq<Call>, k: nat)
    requires InOrder(calls) && k < |calls|
    ensures var p: int := calls[k].period;
            OutputOf(hash, authority, calls, k) == Output(
              Commit(hash, authority, DrawnIn(calls, p), WrapSucc(calls[k].period)),
              if CalledIn(calls, p - 1) then HexEncode(DrawnIn(calls, p - 1)) else [])
  {
    hide DrawnIn, CalledIn, HexEncode, HexDecodeExactly, Commit, InOrder, StateAfter, Tracks;
    var p: int := calls[k].period;
    var before := calls[..k];
    assert calls[..k + 1] == before + [calls[k]];
    PrefixInOrder(calls, k);
    PrefixInOrder(calls, k + 1);
    RunTracks(hash, authority, before);
    TracksStep(hash, authority, StateAfter(hash, authority, before), before, calls[k]);
    EarlierStays(calls, k + 1, p);
    EarlierStays(calls, k + 1, p - 1);
  }

  /** Calls in the same period publish the same; a reveal opens the commitment of the period before. */
  lemma StableAndBound(hash: Hash, authority: bytes, calls: seq<Call>, i: nat, k: nat)
    requires InOrder(calls) && i < |calls| && k < |calls|
    ensures calls[i].period == calls[k].period ==>
      OutputOf(hash, authority, calls, i) == OutputOf(hash, authority, calls, k)
    ensures calls[i].period + 1 == calls[k].period ==>
      var value := HexDecodeExactly(OutputOf(hash, authority, calls, k).revealed, 32);
      && value.Some?
      && CheckReveal(hash, authority, value.value, calls[k].period, OutputOf(hash, authority, calls, i).commitment)
    ensures OutputOf(hash, authority, calls, k).revealed != [] <==> CalledIn(calls, calls[k].period - 1)
  {
    hide DrawnIn, HexEncode, HexDecodeExactly, Commit, InOrder, OutputOf;
    ContributionMeaning(hash, authority, calls, i);
    ContributionMeaning(hash, authority, calls, k);
    assert calls[i].period + 1 == calls[k].period ==> CalledIn(calls, calls[k].period - 1);
    DecodesBack(DrawnIn(calls, calls[k].period - 1));
  }

  // ── All authorities ─────────────────────────────────────────────────

  const EPOCH_SECS: nat := 86_400

  /** Last period's consensus, if that is what the merging step was given
      (`phinet-bwscanner/src/main.rs:573-601`). */
  function UsablePrev(prev: Option<Consensus>, period: u64): Option<Consensus> {
    var last := if period == 0 then 0 else period - 1;
    if prev.Some? && prev.value.validAfter / EPOCH_SECS == last then prev else None
  }

  lemma UsableMeans(prev: Option<Consensus>, period: u64)
    ensures UsablePrev(prev, period) == None || UsablePrev(prev, period) == prev
    ensures period > 0 ==>
      (UsablePrev(prev, period).Some? <==>
        prev.Some? && (period - 1) * EPOCH_SECS <= prev.value.validAfter < period * EPOCH_SECS)
    ensures period == 0 ==> (UsablePrev(prev, 0).Some? <==> prev.Some? && prev.value.validAfter < EPOCH_SECS)
  {
  }

  /** Each authority's calls. */
  type History = map<bytes, seq<Call>>

  /** A vote of the period carrying what a call of the period published. */
  ghost predicate HonestVote(hash: Hash, hist: History, period: u64, v: Vote) {
    && v.authorityPub in hist && InOrder(hist[v.authorityPub])
    && var calls := hist[v.authorityPub];
    exists k :: 0 <= k < |calls| && calls[k].period == period
      && OutputOf(hash, v.authorityPub, calls, k) == Output(v.srvCommit, v.srvReveal)
  }

  ghost predicate HonestVotes(hash: Hash, hist: History, period: u64, votes: seq<Vote>) {
    OneVoteEach(votes) && forall v :: v in votes ==> HonestVote(hash, hist, period, v)
  }

  function Authorities(votes: seq<Vote>): set<bytes> {
    set v | v in votes :: v.authorityPub
  }

  lemma HonestVoteSays(hash: Hash, hist: History, period: u64, v: Vote)
    requires HonestVote(hash, hist, period, v)
    ensures v.authorityPub in hist
    ensures var calls := hist[v.authorityPub];
            && CalledIn(calls, period)
            && v.srvCommit == Commit(hash, v.authorityPub, DrawnIn(calls, period), WrapSucc(period)) && v.srvCommit != []
            && v.srvReveal == if CalledIn(calls, period - 1) then HexEncode(DrawnIn(calls, period - 1)) else []
  {
    hide DrawnIn, HexEncode, InOrder, OutputOf, CommitInput;
    var calls := hist[v.authorityPub];
    var k :| 0 <= k < |calls| && calls[k].period == period
      && OutputOf(hash, v.authorityPub, calls, k) == Output(v.srvCommit, v.srvReveal);
    ContributionMeaning(hash, v.authorityPub, calls, k);
    DecodesBack(hash(CommitInput(v.authorityPub, DrawnIn(calls, period), WrapSucc(period))));
  }

  // ── What a consensus carries forward ────────────────────────────────

  function Pub(): SrvCommitment -> bytes {
    (c: SrvCommitment) => c.authorityPub
  }

  lemma {:induction false} DedupDistinct(cs: seq<SrvCommitment>)
    requires Sorting.DistinctBy(cs, Pub())
    ensures Dedup(cs) == cs
  {
    if |cs| >= 2 {
      assert Pub()(cs[0]) != Pub()(cs[1]);
      DedupDistinct(cs[1..]);
    }
  }

  lemma {:induction false} FindMeaning(cs: seq<SrvCommitment>, authority: bytes)
    requires Sorting.DistinctBy(cs, Pub())
    ensures forall c :: c in cs && c.authorityPub == authority ==> FindCommitment(cs, authority) == Some(c.commitment)
    ensures (forall c :: c in cs ==> c.authorityPub != authority) ==> FindCommitment(cs, authority) == None
  {
    if cs != [] {
      FindMeaning(cs[1..], authority);
      assert cs == [cs[0]] + cs[1..];
      forall c | c in cs && c.authorityPub == authority
        ensures FindCommitment(cs, authority) == Some(c.commitment)
      {
        if cs[0].authorityPub == authority {
          Sorting.KeyTells(cs, Pub(), c, cs[0]);
        }
      }
    }
  }

  lemma CarriedDistinct(votes: seq<Vote>)
    requires OneVoteEach(votes)
    ensures Sorting.DistinctBy(Carried(votes), Pub()) && multiset(Carried(votes)) == multiset(Flat(votes, CommitmentOf))
  {
    var cs := Flat(votes, CommitmentOf);
    OneContributionEach(votes, CommitmentOf, Pub());
    hide Flat, Sorting.Sort, OneVoteEach;
    assert Sorting.DistinctBy(cs, Pub());
    Sorting.SortKeeps(cs, ByAuthorityPub);
    Sorting.DistinctPermuted(cs, Sorting.Sort(cs, ByAuthorityPub), Pub());
    DedupDistinct(Sorting.Sort(cs, ByAuthorityPub));
  }

  /** A consensus carries the commitment of every vote in it, found under its authority, and no other. */
  lemma CarriedFinds(votes: seq<Vote>, authority: bytes)
    requires OneVoteEach(votes)
    ensures forall v :: v in votes && v.srvCommit != [] ==> FindCommitment(Carried(votes), v.authorityPub) == Some(v.srvCommit)
    ensures authority !in Authorities(votes) ==> FindCommitment(Carried(votes), authority) == None
  {
    hide Carried, Flat, OneVoteEach, FindCommitment, Sorting.DistinctBy;
    var cs := Carried(votes);
    CarriedDistinct(votes);
    forall c
      ensures c in cs <==> exists v :: v in votes && c in CommitmentOf(v)
    {
      assert c in cs <==> c in multiset(cs);
      FlatMember(votes, CommitmentOf, c);
    }
    forall v | v in votes && v.srvCommit != []
      ensures FindCommitment(cs, v.authorityPub) == Some(v.srvCommit)
    {
      FindMeaning(cs, v.authorityPub);
      assert SrvCommitment(v.authorityPub, v.srvCommit) in CommitmentOf(v);
    }
    if authority !in Authorities(votes) {
      FindMeaning(cs, authority);
    }
  }

  // ── The shared value ────────────────────────────────────────────────

  /** The commitment found for an authority that took part in the period before. */
  lemma CommitmentFound(hash: Hash, hist: History, prevVotes: seq<Vote>, period: u64, authority: bytes)
    requires period > 0 && HonestVotes(hash, hist, period - 1, prevVotes)
    ensures authority in Authorities(prevVotes) ==>
      && authority in hist && CalledIn(hist[authority], period - 1)
      && FindCommitment(Carried(prevVotes), authority)
      == Some(Commit(hash, authority, DrawnIn(hist[authority], period - 1), period))
    ensures authority !in Authorities(prevVotes) ==> FindCommitment(Carried(prevVotes), authority) == None
  {
    hide DrawnIn, HexEncode, Carried, OneVoteEach, FindCommitment, Commit, CalledIn, HonestVote;
    CarriedFinds(prevVotes, authority);
    if authority in Authorities(prevVotes) {
      var u :| u in prevVotes && u.authorityPub == authority;
      HonestVoteSays(hash, hist, period - 1, u);
      assert WrapSucc(period - 1) == period;
    }
  }

  /** An honest reveal counts exactly if its authority also took part in the period before. */
  lemma RevealCounts(hash: Hash, hist: History, prevVotes: seq<Vote>, prev: Consensus, period: u64, v: Vote)
    requires period > 0 && HonestVotes(hash, hist, period - 1, prevVotes) && prev.srvCommitments == Carried(prevVotes)
    requires HonestVote(hash, hist, period, v)
    ensures v.authorityPub in hist
    ensures RevealIn(hash, prev, period, v) ==
      if v.authorityPub in Authorities(prevVotes) then [Reveal(v.authorityPub, DrawnIn(hist[v.authorityPub], period - 1))] else []
  {
    hide DrawnIn, HexEncode, HexDecodeExactly, Carried, FindCommitment, Commit, CalledIn, HonestVote, HonestVotes, Authorities;
    HonestVoteSays(hash, hist, period, v);
    CommitmentFound(hash, hist, prevVotes, period, v.authorityPub);
    DecodesBack(DrawnIn(hist[v.authorityPub], period - 1));
  }

  function RevealAuthorities(rs: seq<Reveal>): set<bytes> {
    set r | r in rs :: r.authority
  }

  lemma {:induction false} CountAuthorities(rs: seq<Reveal>)
    requires DistinctAuthorities(rs)
    ensures |RevealAuthorities(rs)| == |rs|
  {
    if rs != [] {
      assert rs == [rs[0]] + rs[1..];
      CountAuthorities(rs[1..]);
      assert RevealAuthorities(rs) == {rs[0].authority} + RevealAuthorities(rs[1..]);
    }
  }

  /** Those who took part in both periods, and only they, contribute, each the number it drew first in the
      period before. */
  lemma Contributors(hash: Hash, hist: History, votes: seq<Vote>, prevVotes: seq<Vote>, prev: Consensus, period: u64)
    requires period > 0 && HonestVotes(hash, hist, period, votes) && HonestVotes(hash, hist, period - 1, prevVotes)
    requires prev.srvCommitments == Carried(prevVotes)
    ensures var rs := RevealsIn(hash, votes, Some(prev), period);
            && DistinctAuthorities(rs)
            && RevealAuthorities(rs) == Authorities(votes) * Authorities(prevVotes)
            && |rs| == |Authorities(votes) * Authorities(prevVotes)|
            && forall r :: r in rs ==> r.authority in hist && r.value == DrawnIn(hist[r.authority], period - 1)
  {
    hide DrawnIn, Flat, Carried, OneVoteEach, RevealIn, HonestVote;
    var f := (v: Vote) => RevealIn(hash, prev, period, v);
    var rs := Flat(votes, f);
    RevealsDistinct(hash, votes, Some(prev), period);
    forall v | v in votes
      ensures v.authorityPub in hist
      ensures f(v) == if v.authorityPub in Authorities(prevVotes)
                      then [Reveal(v.authorityPub, DrawnIn(hist[v.authorityPub], period - 1))] else []
    {
      RevealCounts(hash, hist, prevVotes, prev, period, v);
    }
    forall r
      ensures r in rs <==> exists i :: 0 <= i < |votes| && r in f(votes[i])
    {
      FlatMember(votes, f, r);
    }
    forall a | a in Authorities(votes) * Authorities(prevVotes)
      ensures a in RevealAuthorities(rs)
    {
      var v :| v in votes && v.authorityPub == a;
      var i :| 0 <= i < |votes| && votes[i] == v;
      assert Reveal(a, DrawnIn(hist[a], period - 1)) in f(votes[i]);
    }
    assert RevealAuthorities(rs) == Authorities(votes) * Authorities(prevVotes);
    CountAuthorities(rs);
  }

  /** The shared value over runs. Authorities call `srv_contribution` any number of times a period and vote
      with the result of any of these calls; the consensus of each period is merged with the previous
      document at hand, which by then may carry any signatures. Then this period's shared value is there
      exactly if the previous document is last period's and at least two authorities took part in both. */
  lemma SharedValueAgreed(
    hash: Hash, hist: History, networkId: bytes, votes: seq<Vote>, prevVotes: seq<Vote>, prev: Option<Consensus>,
    earlier: Option<Consensus>, period: u64, doc: Consensus)
    requires HonestVotes(hash, hist, period, votes)
    requires IsConsensus(hash, networkId, votes, UsablePrev(prev, period), period, doc)
    requires period > 0 && UsablePrev(prev, period).Some? ==>
      && HonestVotes(hash, hist, period - 1, prevVotes)
      && IsConsensus(hash, networkId, prevVotes, earlier, period - 1, prev.value.(signatures := []))
    ensures doc.sharedRandom != [] <==>
      && period > 0 && prev.Some? && (period - 1) * EPOCH_SECS <= prev.value.validAfter < period * EPOCH_SECS
      && |Authorities(votes) * Authorities(prevVotes)| >= 2
  {
    hide IsMerged, Carried, MaxOf, MinOf, Flat, DrawnIn, OneVoteEach, HonestVote, Entries;
    UsableMeans(prev, period);
    var usable := UsablePrev(prev, period);
    var rs := RevealsIn(hash, votes, usable, period);
    RevealsDistinct(hash, votes, usable, period) by {
      assert OneVoteEach(votes);
    }
    SrvOrderIndependent(hash, rs, rs, period, 2);
    if usable.Some? && period > 0 {
      Contributors(hash, hist, votes, prevVotes, prev.value, period);
    } else if usable.Some? {
      NothingAtFirst(hash, hist, votes, usable.value);
    }
    if |rs| >= 2 {
      SrvNotEmpty(hash, Entries(rs), period);
    }
  }

  lemma SrvNotEmpty(hash: Hash, es: seq<Reveal>, period: u64)
    requires SrvOf(hash, es, period, 2).Some?
    ensures SrvOf(hash, es, period, 2).value != []
  {
    DecodesBack(hash(Ascii("phinet-srv-v1") + Be64(period) + EntriesBytes(es)));
  }

  /** In the very first period nobody has anything to reveal. */
  lemma NothingAtFirst(hash: Hash, hist: History, votes: seq<Vote>, prev: Consensus)
    requires HonestVotes(hash, hist, 0, votes)
    ensures RevealsIn(hash, votes, Some(prev), 0) == []
  {
    hide Flat, DrawnIn, HonestVote, OneVoteEach;
    var f := (v: Vote) => RevealIn(hash, prev, 0, v);
    forall i | 0 <= i < |votes|
      ensures f(votes[i]) == []
    {
      HonestVoteSays(hash, hist, 0, votes[i]);
      NeverBefore(hist[votes[i].authorityPub]);
    }
    FlatEmpty(votes, f);
  }
}
