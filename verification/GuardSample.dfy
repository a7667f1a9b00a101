/** The sampled guard set (`phinet-core/src/guard_sample.rs`, after Tor proposal 271). The clock and the
    shuffle are parameters. */
module GuardSample {
  import opened Wrappers
  import opened Bytes

  const SAMPLE_SIZE: nat := 20
  const MIN_FILTERED: nat := 5
  const SAMPLE_LIFETIME_SECS: nat := 120 * 24 * 3600
  const PRIMARY_COUNT: nat := 3

  datatype NodeId = NodeId(hex: bytes)

  datatype Guard = Guard(nodeId: NodeId, added: u64, confirmedAt: Option<u64>)

  predicate IsExpired(g: Guard, now: u64) {
    now > g.added && now - g.added > SAMPLE_LIFETIME_SECS
  }

  // ── What each operation does ────────────────────────────────────────

  function Unexpired(gs: seq<Guard>, now: u64): (r: seq<Guard>)
    ensures |r| <= |gs| && forall g :: g in r ==> g in gs && !IsExpired(g, now)
    decreases |gs|
  {
    if gs == [] then []
    else
      var init, last := Unexpired(gs[..|gs| - 1], now), gs[|gs| - 1];
      if IsExpired(last, now) then init else init + [last]
  }

  function Filtered(gs: seq<Guard>, live: seq<NodeId>): (r: seq<Guard>)
    ensures |r| <= |gs| && forall g :: g in r <==> g in gs && g.nodeId in live
    decreases |gs|
  {
    if gs == [] then []
    else
      var init, last := Filtered(gs[..|gs| - 1], live), gs[|gs| - 1];
      assert gs == gs[..|gs| - 1] + [last];
      if last.nodeId in live then init + [last] else init
  }

  predicate Contains(gs: seq<Guard>, id: NodeId) {
    exists i :: 0 <= i < |gs| && gs[i].nodeId == id
  }

  /** The candidates not sampled yet. */
  function Pool(gs: seq<Guard>, candidates: seq<NodeId>): seq<NodeId>
    decreases |candidates|
  {
    if candidates == [] then []
    else
      var init, last := Pool(gs, candidates[..|candidates| - 1]), candidates[|candidates| - 1];
      if Contains(gs, last) then init else init + [last]
  }

  function Drawn(ids: seq<NodeId>, now: u64): (r: seq<Guard>)
    ensures |r| == |ids| && forall i :: 0 <= i < |ids| ==> r[i] == Guard(ids[i], now, None)
  {
    seq(|ids|, i requires 0 <= i < |ids| => Guard(ids[i], now, None))
  }

  type Shuffle = seq<NodeId> -> seq<NodeId>

  ghost predicate Permutes(shuffle: Shuffle) {
    forall ids :: multiset(shuffle(ids)) == multiset(ids)
  }

  /** Who is drawn by `maybe_extend`, once the expired are gone. */
  function NewGuards(gs: seq<Guard>, candidates: seq<NodeId>, live: seq<NodeId>, now: u64, shuffle: Shuffle): seq<Guard> {
    if |Filtered(gs, live)| >= MIN_FILTERED && gs != [] then []
    else
      var pool := shuffle(Pool(gs, candidates));
      var want := if |gs| >= SAMPLE_SIZE then 0 else SAMPLE_SIZE - |gs|;
      Drawn(if |pool| <= want then pool else pool[..want], now)
  }

  /** Where the guard is found first, or the length. */
  function Find(gs: seq<Guard>, id: NodeId): (i: nat)
    ensures i <= |gs| && (i < |gs| ==> gs[i].nodeId == id) && forall k :: 0 <= k < i ==> gs[k].nodeId != id
  {
    if gs == [] || gs[0].nodeId == id then 0 else 1 + Find(gs[1..], id)
  }

  /** Only the first success is recorded. */
  function Confirmed(gs: seq<Guard>, id: NodeId, now: u64): (r: seq<Guard>)
    ensures |r| == |gs|
  {
    var i := Find(gs, id);
    if i < |gs| && gs[i].confirmedAt.None? then gs[i := gs[i].(confirmedAt := Some(now))] else gs
  }

  // ── What they come to ───────────────────────────────────────────────

  /** Only age removes a guard: a hundred and twenty days. */
  lemma {:induction false} UnexpiredMeaning(gs: seq<Guard>, now: u64, g: Guard)
    ensures g in Unexpired(gs, now) <==> g in gs && now <= g.added + 120 * 24 * 3600
    decreases |gs|
  {
    if gs != [] {
      var init, last := gs[..|gs| - 1], gs[|gs| - 1];
      assert gs == init + [last];
      UnexpiredMeaning(init, now, g);
    }
  }

  /** The pool has every candidate not sampled, as often as it is named. */
  lemma {:induction false} PoolMeaning(gs: seq<Guard>, candidates: seq<NodeId>, id: NodeId)
    ensures multiset(Pool(gs, candidates))[id] == if Contains(gs, id) then 0 else multiset(candidates)[id]
    decreases |candidates|
  {
    hide Contains;
    if candidates != [] {
      var init, last := candidates[..|candidates| - 1], candidates[|candidates| - 1];
      assert candidates == init + [last];
      PoolMeaning(gs, init, id);
    }
  }

  /** Extending. While five kept guards are live nobody is drawn. Otherwise the sample is filled up to twenty, or
      with all there are, by candidates that are not in it. */
  lemma ExtendExactly(kept: seq<Guard>, candidates: seq<NodeId>, live: seq<NodeId>, now: u64, shuffle: Shuffle)
    requires Permutes(shuffle) && |kept| <= 20
    ensures var drawn, pool := NewGuards(kept, candidates, live, now, shuffle), Pool(kept, candidates);
            && (|Filtered(kept, live)| >= 5 ==> drawn == [])
            && (|Filtered(kept, live)| < 5 ==>
                 |kept + drawn| == if |kept| + |pool| <= 20 then |kept| + |pool| else 20)
            && forall g :: g in drawn ==>
                 g == Guard(g.nodeId, now, None) && g.nodeId in candidates && forall k :: k in kept ==> k.nodeId != g.nodeId
  {
    hide Filtered, Pool;
    var drawn, pool := NewGuards(kept, candidates, live, now, shuffle), Pool(kept, candidates);
    assert |multiset(shuffle(pool))| == |shuffle(pool)| == |multiset(pool)| == |pool|;
    NoneUsable(live);
    forall g | g in drawn
      ensures g.nodeId in candidates && forall k :: k in kept ==> k.nodeId != g.nodeId
    {
      assert g.nodeId in shuffle(pool);
      assert g.nodeId in multiset(shuffle(pool));
      assert g.nodeId in multiset(pool);
      PoolMeaning(kept, candidates, g.nodeId);
      assert g.nodeId in multiset(candidates);
    }
  }

  lemma NoneUsable(live: seq<NodeId>)
    ensures Filtered([], live) == []
  {
  }

  // ── The set ─────────────────────────────────────────────────────────

  class SampledSet {
    var guards: seq<Guard>

    constructor ()
      ensures guards == []
    {
      guards := [];
    }

    method Expire(now: u64)
      modifies this
      ensures guards == Unexpired(old(guards), now)
    {
      var kept: seq<Guard> := [];
      for i := 0 to |guards|
        invariant guards == old(guards) && kept == Unexpired(guards[..i], now)
      {
        assert guards[..i + 1][..i] == guards[..i];
        if !IsExpired(guards[i], now) {
          kept := kept + [guards[i]];
        }
      }
      assert guards[..|guards|] == guards;
      guards := kept;
    }

    method MaybeExtend(candidates: seq<NodeId>, live: seq<NodeId>, now: u64, shuffle: Shuffle) returns (added: nat)
      requires Permutes(shuffle)
      modifies this
      ensures var kept := Unexpired(old(guards), now);
              guards == kept + NewGuards(kept, candidates, live, now, shuffle) && added == |guards| - |kept|
    {
      hide Filtered, Pool, Unexpired;
      Expire(now);
      if |Filtered(guards, live)| >= MIN_FILTERED && guards != [] {
        return 0;
      }
      var pool := Pool(guards, candidates);
      if pool == [] {
        assert |shuffle(pool)| == |multiset(shuffle(pool))| == |multiset(pool)| == 0;
        return 0;
      }
      pool := shuffle(pool);
      var want := if |guards| >= SAMPLE_SIZE then 0 else SAMPLE_SIZE - |guards|;
      ghost var kept := guards;
      var take := if |pool| <= want then |pool| else want;
      added := 0;
      for k := 0 to take
        invariant added == k && guards == kept + Drawn(pool[..k], now)
      {
        assert Drawn(pool[..k], now) + [Guard(pool[k], now, None)] == Drawn(pool[..k + 1], now);
        guards := guards + [Guard(pool[k], now, None)];
        added := added + 1;
      }
      assert pool[..take] == if |pool| <= want then pool else pool[..want];
    }

    method Confirm(id: NodeId, now: u64)
      modifies this
      ensures guards == Confirmed(old(guards), id, now)
    {
      var i := 0;
      while i < |guards| && guards[i].nodeId != id
        invariant i <= |guards| && forall k :: 0 <= k < i ==> guards[k].nodeId != id
      {
        i := i + 1;
      }
      assert i == Find(guards, id);
      if i < |guards| && guards[i].confirmedAt.None? {
        guards := guards[i := guards[i].(confirmedAt := Some(now))];
      }
    }
  }

  // ── Runs ────────────────────────────────────────────────────────────

  datatype Event =
    | Expire(now: u64)
    | Extend(now: u64, candidates: seq<NodeId>, live: seq<NodeId>, shuffle: Shuffle)
    | Confirm(now: u64, id: NodeId)

  /** The sample, and everybody ever drawn into it. */
  datatype World = World(guards: seq<Guard>, history: seq<Guard>)

  function Step(w: World, e: Event): World {
    match e
    case Expire(now) => w.(guards := Unexpired(w.guards, now))
    case Extend(now, candidates, live, shuffle) =>
      var kept := Unexpired(w.guards, now);
      var drawn := NewGuards(kept, candidates, live, now, shuffle);
      World(kept + drawn, w.history + drawn)
    case Confirm(now, id) => w.(guards := Confirmed(w.guards, id, now))
  }

  function Run(events: seq<Event>): World
    decreases |events|
  {
    if events == [] then World([], []) else Step(Run(events[..|events| - 1]), events[|events| - 1])
  }

  /** The clock never goes back. Nothing else is asked of the adversary. */
  predicate Clocked(events: seq<Event>) {
    forall i, j :: 0 <= i < j < |events| ==> events[i].now <= events[j].now
  }

  // ── Nobody leaves but by age ────────────────────────────────────────

  /** A guard without its confirmation. */
  function Bare(gs: seq<Guard>): (r: seq<Guard>)
    ensures |r| == |gs| && forall i :: 0 <= i < |gs| ==> r[i] == gs[i].(confirmedAt := None)
  {
    seq(|gs|, i requires 0 <= i < |gs| => gs[i].(confirmedAt := None))
  }

  lemma UnexpiredSnoc(gs: seq<Guard>, g: Guard, now: u64)
    ensures Unexpired(gs + [g], now) == Unexpired(gs, now) + (if IsExpired(g, now) then [] else [g])
  {
    assert (gs + [g])[..|gs|] == gs;
  }

  lemma {:induction false} UnexpiredConcat(a: seq<Guard>, b: seq<Guard>, now: u64)
    ensures Unexpired(a + b, now) == Unexpired(a, now) + Unexpired(b, now)
    decreases |b|
  {
    if b == [] {
      assert a + b == a;
    } else {
      var init, last := b[..|b| - 1], b[|b| - 1];
      assert b == init + [last] && a + b == (a + init) + [last];
      UnexpiredConcat(a, init, now);
      UnexpiredSnoc(a + init, last, now);
      UnexpiredSnoc(init, last, now);
    }
  }

  /** Whoever is too old now was so or will be: looking later keeps no more. */
  lemma {:induction false} UnexpiredLater(gs: seq<Guard>, now: u64, later: u64)
    requires now <= later
    ensures Unexpired(Unexpired(gs, now), later) == Unexpired(gs, later)
    decreases |gs|
  {
    if gs != [] {
      var init, last := gs[..|gs| - 1], gs[|gs| - 1];
      UnexpiredLater(init, now, later);
      UnexpiredSnoc(Unexpired(init, now), last, later);
      if IsExpired(last, now) {
        assert IsExpired(last, later);
      }
    }
  }

  lemma {:induction false} BareUnexpired(gs: seq<Guard>, now: u64)
    ensures Bare(Unexpired(gs, now)) == Unexpired(Bare(gs), now)
    decreases |gs|
  {
    if gs == [] {
      assert Bare([]) == [];
    } else {
      var init, last := gs[..|gs| - 1], gs[|gs| - 1];
      BareUnexpired(init, now);
      assert Bare(gs) == Bare(init) + [last.(confirmedAt := None)];
      UnexpiredSnoc(Bare(init), last.(confirmedAt := None), now);
      assert Bare(Unexpired(init, now) + [last]) == Bare(Unexpired(init, now)) + [last.(confirmedAt := None)];
    }
  }

  lemma BareConfirmed(gs: seq<Guard>, id: NodeId, now: u64)
    ensures Bare(Confirmed(gs, id, now)) == Bare(gs)
  {
  }

  /** The sample holds exactly those ever drawn who have not aged out, as of any later time. */
  ghost predicate Faithful(w: World, now: u64) {
    && |w.guards| <= SAMPLE_SIZE
    && Bare(w.history) == w.history
    && SameLater(Bare(w.guards), w.history, now)
  }

  ghost predicate SameLater(a: seq<Guard>, b: seq<Guard>, now: u64) {
    forall t: u64 :: now <= t ==> Unexpired(a, t) == Unexpired(b, t)
  }

  lemma ExpireSameLater(gs: seq<Guard>, history: seq<Guard>, before: u64, now: u64)
    requires SameLater(Bare(gs), history, before) && before <= now
    ensures SameLater(Bare(Unexpired(gs, now)), history, now)
  {
    hide Bare, Unexpired;
    BareUnexpired(gs, now);
    forall t: u64 | now <= t
      ensures Unexpired(Bare(Unexpired(gs, now)), t) == Unexpired(history, t)
    {
      UnexpiredLater(Bare(gs), now, t);
    }
  }

  lemma DrawSameLater(kept: seq<Guard>, history: seq<Guard>, drawn: seq<Guard>, now: u64)
    requires SameLater(kept, history, now)
    ensures SameLater(kept + drawn, history + drawn, now)
  {
    hide Unexpired;
    forall t: u64 | now <= t
      ensures Unexpired(kept + drawn, t) == Unexpired(history + drawn, t)
    {
      UnexpiredConcat(kept, drawn, t);
      UnexpiredConcat(history, drawn, t);
    }
  }

  lemma BareConcat(a: seq<Guard>, b: seq<Guard>)
    ensures Bare(a + b) == Bare(a) + Bare(b)
  {
  }

  lemma NewGuardsFit(gs: seq<Guard>, candidates: seq<NodeId>, live: seq<NodeId>, now: u64, shuffle: Shuffle)
    requires |gs| <= SAMPLE_SIZE
    ensures var drawn := NewGuards(gs, candidates, live, now, shuffle);
            |gs + drawn| <= SAMPLE_SIZE && Bare(drawn) == drawn && forall g :: g in drawn ==> g.added == now
  {
    hide Filtered, Pool;
  }

  lemma StepFaithful(w: World, now: u64, e: Event)
    requires Faithful(w, now) && now <= e.now
    ensures Faithful(Step(w, e), e.now)
  {
    hide Bare, Unexpired, NewGuards, Confirmed, SameLater;
    match e
    case Confirm(_, id) =>
      BareConfirmed(w.guards, id, e.now);
      SameEvenLater(Bare(w.guards), w.history, now, e.now);
    case Expire(_) =>
      ExpireSameLater(w.guards, w.history, now, e.now);
    case Extend(_, candidates, live, shuffle) =>
      var kept := Unexpired(w.guards, e.now);
      var drawn := NewGuards(kept, candidates, live, e.now, shuffle);
      ExpireSameLater(w.guards, w.history, now, e.now);
      NewGuardsFit(kept, candidates, live, e.now, shuffle);
      BareConcat(kept, drawn);
      BareConcat(w.history, drawn);
      DrawSameLater(Bare(kept), w.history, drawn, e.now);
  }

  lemma SameEvenLater(a: seq<Guard>, b: seq<Guard>, now: u64, later: u64)
    requires SameLater(a, b, now) && now <= later
    ensures SameLater(a, b, later)
  {
  }

  function Clock(events: seq<Event>): u64 {
    if events == [] then 0 else events[|events| - 1].now
  }

  lemma {:induction false} RunFaithful(events: seq<Event>)
    requires Clocked(events)
    ensures Faithful(Run(events), Clock(events))
    decreases |events|
  {
    if events == [] {
      assert Bare([]) == [];
    } else {
      var init := events[..|events| - 1];
      assert forall i :: 0 <= i < |init| ==> init[i] == events[i];
      RunFaithful(init);
      StepFaithful(Run(init), Clock(init), events[|events| - 1]);
    }
  }

  // ── The bound on draws ──────────────────────────────────────────────

  /** Those drawn in the window. */
  function DrawnIn(history: seq<Guard>, from: u64, to: nat): (r: seq<Guard>)
    decreases |history|
  {
    if history == [] then []
    else
      var init, last := DrawnIn(history[..|history| - 1], from, to), history[|history| - 1];
      if from <= last.added <= to then init + [last] else init
  }

  lemma {:induction false} DrawnInConcat(a: seq<Guard>, b: seq<Guard>, from: u64, to: nat)
    ensures DrawnIn(a + b, from, to) == DrawnIn(a, from, to) + DrawnIn(b, from, to)
    decreases |b|
  {
    if b == [] {
      assert a + b == a;
    } else {
      var init := b[..|b| - 1];
      assert (a + b)[..|a + b| - 1] == a + init;
      DrawnInConcat(a, init, from, to);
    }
  }

  /** As long as the window is not over, nobody drawn in it has aged out. */
  lemma {:induction false} WindowUnexpired(history: seq<Guard>, from: u64, to: nat, now: u64)
    requires to == from + SAMPLE_LIFETIME_SECS && now <= to
    ensures |DrawnIn(history, from, to)| <= |Unexpired(history, now)|
    decreases |history|
  {
    if history != [] {
      WindowUnexpired(history[..|history| - 1], from, to, now);
    }
  }

  lemma {:induction false} NoneInWindow(history: seq<Guard>, from: u64, to: nat)
    requires forall i :: 0 <= i < |history| ==> history[i].added > to
    ensures DrawnIn(history, from, to) == []
    decreases |history|
  {
    if history != [] {
      NoneInWindow(history[..|history| - 1], from, to);
    }
  }

  /** The guard draw bound. Whatever candidates and live relays an adversary shows, and whatever is
      confirmed or expired when, the sample never exceeds twenty, and in no window of the sample lifetime
      are more than twenty guards drawn. */
  lemma {:induction false} DrawBound(events: seq<Event>, from: u64)
    requires Clocked(events)
    ensures |Run(events).guards| <= SAMPLE_SIZE
    ensures |DrawnIn(Run(events).history, from, from + SAMPLE_LIFETIME_SECS)| <= SAMPLE_SIZE
    decreases |events|
  {
    RunFaithful(events);
    if events != [] {
      var init, e := events[..|events| - 1], events[|events| - 1];
      assert forall i :: 0 <= i < |init| ==> init[i] == events[i];
      DrawBound(init, from);
      var w, to := Run(events), from + SAMPLE_LIFETIME_SECS;
      if e.now <= to {
        WindowUnexpired(w.history, from, to, e.now);
        assert Unexpired(Bare(w.guards), e.now) == Unexpired(w.history, e.now);
      } else if e.Extend? {
        var kept := Unexpired(Run(init).guards, e.now);
        var drawn := NewGuards(kept, e.candidates, e.live, e.now, e.shuffle);
        DrawnInConcat(Run(init).history, drawn, from, to);
        NewGuardsFit(kept, e.candidates, e.live, e.now, e.shuffle) by {
          assert |kept| <= |Run(init).guards|;
        }
        NoneInWindow(drawn, from, to);
        assert DrawnIn(Run(init).history, from, to) + [] == DrawnIn(Run(init).history, from, to);
      }
    }
  }

  /** Nobody is drawn while five sampled guards are usable. */
  lemma NoDrawWhileUsable(w: World, e: Event)
    requires e.Extend? && |Filtered(Unexpired(w.guards, e.now), e.live)| >= MIN_FILTERED
    ensures Step(w, e).history == w.history
  {
    assert w.history + [] == w.history;
  }
}
