/** Which sampled guards are used (`primary` in `phinet-core/src/guard_sample.rs`), and that a guard once
    confirmed keeps its place. */
module PrimaryGuards {
  import opened Wrappers
  import opened Bytes
  import opened Sorting
  import opened GuardSample

  // ── The ranking ─────────────────────────────────────────────────────

  function Keep(gs: seq<Guard>, p: Guard -> bool): (r: seq<Guard>)
    ensures forall g :: g in r <==> g in gs && p(g)
  {
    if gs == [] then [] else (if p(gs[0]) then [gs[0]] else []) + Keep(gs[1..], p)
  }

  function Time(g: Guard): nat {
    match g.confirmedAt
    case Some(at) => at as nat
    case None => 0xffff_ffff_ffff_ffff
  }

  function ByTime(): (Guard, Guard) -> bool {
    (a: Guard, b: Guard) => Time(a) <= Time(b)
  }

  function IsConfirmed(): Guard -> bool {
    (g: Guard) => g.confirmedAt.Some?
  }

  function IsUnconfirmed(): Guard -> bool {
    (g: Guard) => g.confirmedAt.None?
  }

  /** The usable guards, best first. The library's sort is stable, and so is this one. */
  function Ranked(gs: seq<Guard>, live: seq<NodeId>): seq<Guard> {
    Sort(Keep(Filtered(gs, live), IsConfirmed()), ByTime()) + Keep(Filtered(gs, live), IsUnconfirmed())
  }

  function Ids(gs: seq<Guard>): (r: seq<NodeId>)
    ensures |r| == |gs| && forall i :: 0 <= i < |gs| ==> r[i] == gs[i].nodeId
  {
    seq(|gs|, i requires 0 <= i < |gs| => gs[i].nodeId)
  }

  function Primary(gs: seq<Guard>, live: seq<NodeId>): (r: seq<NodeId>) {
    var ids := Ids(Ranked(gs, live));
    if |ids| <= PRIMARY_COUNT then ids else ids[..PRIMARY_COUNT]
  }

  // ── Keeping and sorting ─────────────────────────────────────────────

  lemma {:induction false} KeepConcat(a: seq<Guard>, b: seq<Guard>, p: Guard -> bool)
    ensures Keep(a + b, p) == Keep(a, p) + Keep(b, p)
  {
    if a == [] {
      assert a + b == b;
    } else {
      assert (a + b)[1..] == a[1..] + b;
      KeepConcat(a[1..], b, p);
    }
  }

  lemma {:induction false} KeepTwice(gs: seq<Guard>, p: Guard -> bool, q: Guard -> bool, both: Guard -> bool)
    requires forall g :: both(g) <==> p(g) && q(g)
    ensures Keep(Keep(gs, p), q) == Keep(gs, both)
  {
    if gs != [] {
      KeepTwice(gs[1..], p, q, both);
      KeepConcat(if p(gs[0]) then [gs[0]] else [], Keep(gs[1..], p), q);
    }
  }

  /** Two lists that differ only where neither element is kept. */
  lemma {:induction false} KeepSame(a: seq<Guard>, b: seq<Guard>, p: Guard -> bool)
    requires |a| == |b| && forall i :: 0 <= i < |a| ==> a[i] == b[i] || (!p(a[i]) && !p(b[i]))
    ensures Keep(a, p) == Keep(b, p)
  {
    if a != [] {
      KeepSame(a[1..], b[1..], p);
    }
  }

  lemma {:induction false} KeepAll(gs: seq<Guard>, p: Guard -> bool)
    requires forall g :: g in gs ==> p(g)
    ensures Keep(gs, p) == gs
  {
    if gs != [] {
      KeepAll(gs[1..], p);
    }
  }

  lemma {:induction false} KeepNone(gs: seq<Guard>, p: Guard -> bool)
    requires forall g :: g in gs ==> !p(g)
    ensures Keep(gs, p) == []
  {
    if gs != [] {
      KeepNone(gs[1..], p);
    }
  }

  lemma TimesOrdered()
    ensures Preorder(ByTime())
  {
  }

  lemma KeepCons(x: Guard, gs: seq<Guard>, p: Guard -> bool)
    ensures Keep([x] + gs, p) == if p(x) then [x] + Keep(gs, p) else Keep(gs, p)
  {
    assert ([x] + gs)[1..] == gs;
    assert [] + Keep(gs, p) == Keep(gs, p);
  }

  lemma InsertCons(x: Guard, y: Guard, gs: seq<Guard>)
    ensures Insert(x, [y] + gs, ByTime()) == if ByTime()(x, y) then [x] + ([y] + gs) else [y] + Insert(x, gs, ByTime())
  {
    assert ([y] + gs)[1..] == gs;
  }

  lemma InsertFirst(x: Guard, gs: seq<Guard>)
    requires gs == [] || ByTime()(x, gs[0])
    ensures Insert(x, gs, ByTime()) == [x] + gs
  {
  }

  lemma {:induction false} KeepInsert(x: Guard, gs: seq<Guard>, p: Guard -> bool)
    requires Sorted(gs, ByTime())
    ensures Keep(Insert(x, gs, ByTime()), p) == if p(x) then Insert(x, Keep(gs, p), ByTime()) else Keep(gs, p)
  {
    if gs == [] {
      KeepCons(x, gs, p);
    } else if ByTime()(x, gs[0]) {
      var kept := Keep(gs, p);
      assert kept != [] ==> kept[0] in gs && ByTime()(x, kept[0]);
      hide Keep, Insert;
      InsertFirst(x, gs);
      InsertFirst(x, kept);
      KeepCons(x, gs, p);
    } else {
      var y, rest := gs[0], gs[1..];
      assert gs == [y] + rest;
      KeepInsert(x, rest, p);
      hide *;
      InsertCons(x, y, rest);
      KeepCons(y, rest, p);
      KeepCons(y, Insert(x, rest, ByTime()), p);
      InsertCons(x, y, Keep(rest, p));
    }
  }

  lemma SortCons(x: Guard, gs: seq<Guard>)
    ensures Sort([x] + gs, ByTime()) == Insert(x, Sort(gs, ByTime()), ByTime())
  {
    assert ([x] + gs)[1..] == gs;
  }

  /** Sorting is stable: what it does to part of the list does not depend on the rest. */
  lemma {:induction false} KeepSort(gs: seq<Guard>, p: Guard -> bool)
    ensures Keep(Sort(gs, ByTime()), p) == Sort(Keep(gs, p), ByTime())
  {
    if gs != [] {
      var x, rest := gs[0], gs[1..];
      assert gs == [x] + rest;
      KeepSort(rest, p);
      hide *;
      TimesOrdered();
      SortSorted(rest, ByTime());
      SortCons(x, rest);
      KeepInsert(x, Sort(rest, ByTime()), p);
      KeepCons(x, rest, p);
      SortCons(x, Keep(rest, p));
    }
  }

  // ── Established guards ──────────────────────────────────────────────

  function ConfirmedBy(t: u64): Guard -> bool {
    (g: Guard) => g.confirmedAt.Some? && g.confirmedAt.value <= t
  }

  /** The ranking of the usable guards confirmed by time `t`. */
  function Established(gs: seq<Guard>, live: seq<NodeId>, t: u64): seq<Guard> {
    Sort(Keep(Filtered(gs, live), ConfirmedBy(t)), ByTime())
  }

  /** In a sorted list the early come first. */
  lemma {:induction false} EarlyFirst(gs: seq<Guard>, t: u64)
    requires Sorted(gs, ByTime())
    requires forall g :: g in gs ==> g.confirmedAt.Some?
    ensures Keep(gs, ConfirmedBy(t)) <= gs
    ensures forall i :: |Keep(gs, ConfirmedBy(t))| <= i < |gs| ==> !ConfirmedBy(t)(gs[i])
  {
    if gs == [] {
    } else if ConfirmedBy(t)(gs[0]) {
      var x, rest := gs[0], gs[1..];
      EarlyFirst(rest, t);
      hide Sorted, Keep;
      assert gs == [x] + rest;
      KeepCons(x, rest, ConfirmedBy(t));
    } else {
      forall g | g in gs
        ensures !ConfirmedBy(t)(g)
      {
        assert ByTime()(gs[0], g);
      }
      KeepNone(gs, ConfirmedBy(t));
    }
  }

  lemma RankedConfirmed(usable: seq<Guard>)
    ensures forall g :: g in Sort(Keep(usable, IsConfirmed()), ByTime()) ==> g.confirmedAt.Some?
  {
    var confirmed := Keep(usable, IsConfirmed());
    var ranked := Sort(confirmed, ByTime());
    SortKeeps(confirmed, ByTime());
    forall g | g in ranked
      ensures g.confirmedAt.Some?
    {
      assert g in multiset(ranked) && g in multiset(confirmed) && g in confirmed;
    }
  }

  lemma ByConfirmed(usable: seq<Guard>, t: u64)
    ensures Keep(Keep(usable, IsConfirmed()), ConfirmedBy(t)) == Keep(usable, ConfirmedBy(t))
  {
    KeepTwice(usable, IsConfirmed(), ConfirmedBy(t), ConfirmedBy(t));
  }

  /** Those confirmed by any time head the ranking. */
  lemma EstablishedFirst(gs: seq<Guard>, live: seq<NodeId>, t: u64)
    ensures var n := |Established(gs, live, t)|;
            && Established(gs, live, t) <= Ranked(gs, live)
            && forall i :: n <= i < |Ranked(gs, live)| ==> !ConfirmedBy(t)(Ranked(gs, live)[i])
  {
    hide Keep, Sort, Sorted, Filtered;
    var usable := Filtered(gs, live);
    var confirmed := Keep(usable, IsConfirmed());
    var ranked := Sort(confirmed, ByTime());
    TimesOrdered();
    SortSorted(confirmed, ByTime());
    RankedConfirmed(usable);
    KeepSort(confirmed, ConfirmedBy(t));
    ByConfirmed(usable, t);
    EarlyFirst(ranked, t);
    var others := Keep(usable, IsUnconfirmed());
    assert Ranked(gs, live) == ranked + others;
    forall i | |ranked| <= i < |ranked + others|
      ensures !ConfirmedBy(t)((ranked + others)[i])
    {
      assert others[i - |ranked|] in others;
    }
  }

  // ── Runs ────────────────────────────────────────────────────────────

  function InTime(now: u64): Guard -> bool {
    (g: Guard) => !IsExpired(g, now)
  }

  function Usable(live: seq<NodeId>): Guard -> bool {
    (g: Guard) => g.nodeId in live
  }

  function UsableBy(live: seq<NodeId>, t: u64): Guard -> bool {
    (g: Guard) => g.nodeId in live && g.confirmedAt.Some? && g.confirmedAt.value <= t
  }

  lemma {:induction false} UnexpiredIsKeep(gs: seq<Guard>, now: u64)
    ensures Unexpired(gs, now) == Keep(gs, InTime(now))
    decreases |gs|
  {
    if gs != [] {
      var init, last := gs[..|gs| - 1], gs[|gs| - 1];
      assert gs == init + [last];
      UnexpiredIsKeep(init, now);
      KeepConcat(init, [last], InTime(now));
    }
  }

  lemma {:induction false} FilteredIsKeep(gs: seq<Guard>, live: seq<NodeId>)
    ensures Filtered(gs, live) == Keep(gs, Usable(live))
    decreases |gs|
  {
    if gs != [] {
      var init, last := gs[..|gs| - 1], gs[|gs| - 1];
      assert gs == init + [last];
      FilteredIsKeep(init, live);
      KeepConcat(init, [last], Usable(live));
    }
  }

  lemma EstablishedIsKeep(gs: seq<Guard>, live: seq<NodeId>, t: u64)
    ensures Established(gs, live, t) == Sort(Keep(gs, UsableBy(live, t)), ByTime())
  {
    FilteredIsKeep(gs, live);
    KeepTwice(gs, Usable(live), ConfirmedBy(t), UsableBy(live, t));
  }

  /** Ageing leaves the order of the others. */
  lemma EstablishedUnexpired(gs: seq<Guard>, live: seq<NodeId>, t: u64, now: u64)
    ensures Established(Unexpired(gs, now), live, t) == Unexpired(Established(gs, live, t), now)
  {
    hide Keep, Sort, Unexpired, Established;
    var both := (g: Guard) => InTime(now)(g) && UsableBy(live, t)(g);
    EstablishedIsKeep(gs, live, t);
    EstablishedIsKeep(Unexpired(gs, now), live, t);
    UnexpiredIsKeep(gs, now);
    UnexpiredIsKeep(Established(gs, live, t), now);
    KeepSort(Keep(gs, UsableBy(live, t)), InTime(now));
    KeepTwice(gs, UsableBy(live, t), InTime(now), both);
    KeepTwice(gs, InTime(now), UsableBy(live, t), both);
  }

  lemma DrawnNotEstablished(kept: seq<Guard>, drawn: seq<Guard>, live: seq<NodeId>, t: u64)
    requires Bare(drawn) == drawn
    ensures Established(kept + drawn, live, t) == Established(kept, live, t)
  {
    assert forall g :: g in drawn ==> g.confirmedAt == None;
    hide Keep, Sort, Established;
    EstablishedIsKeep(kept, live, t);
    EstablishedIsKeep(kept + drawn, live, t);
    KeepConcat(kept, drawn, UsableBy(live, t));
    KeepNone(drawn, UsableBy(live, t));
    assert Keep(kept, UsableBy(live, t)) + [] == Keep(kept, UsableBy(live, t));
  }

  lemma ConfirmedNotEstablished(gs: seq<Guard>, id: NodeId, now: u64, live: seq<NodeId>, t: u64)
    requires t < now
    ensures Established(Confirmed(gs, id, now), live, t) == Established(gs, live, t)
  {
    hide Keep, Sort, Established;
    EstablishedIsKeep(gs, live, t);
    EstablishedIsKeep(Confirmed(gs, id, now), live, t);
    KeepSame(gs, Confirmed(gs, id, now), UsableBy(live, t));
  }

  /** When the sample was last cleared of expired guards. */
  function LastSweep(events: seq<Event>): u64
    decreases |events|
  {
    if events == [] then 0
    else
      var last := events[|events| - 1];
      if last.Confirm? then LastSweep(events[..|events| - 1]) else last.now
  }

  lemma StepEstablished(w: World, e: Event, live: seq<NodeId>, t: u64)
    requires |w.guards| <= SAMPLE_SIZE && t < e.now
    ensures Established(Step(w, e).guards, live, t)
         == if e.Confirm? then Established(w.guards, live, t) else Unexpired(Established(w.guards, live, t), e.now)
  {
    hide Established, Unexpired, NewGuards, Bare;
    match e
    case Confirm(_, id) => ConfirmedNotEstablished(w.guards, id, e.now, live, t);
    case Expire(_) => EstablishedUnexpired(w.guards, live, t, e.now);
    case Extend(_, candidates, usable, shuffle) =>
      var kept := Unexpired(w.guards, e.now);
      EstablishedUnexpired(w.guards, live, t, e.now);
      NewGuardsFit(kept, candidates, usable, e.now, shuffle);
      DrawnNotEstablished(kept, NewGuards(kept, candidates, usable, e.now, shuffle), live, t);
  }

  lemma {:induction false} NeverSwept(gs: seq<Guard>)
    ensures Unexpired(gs, 0) == gs
    decreases |gs|
  {
    if gs != [] {
      NeverSwept(gs[..|gs| - 1]);
      assert gs == gs[..|gs| - 1] + [gs[|gs| - 1]];
    }
  }

  lemma {:induction false} SweepClocked(events: seq<Event>)
    requires Clocked(events)
    ensures LastSweep(events) <= Clock(events)
    decreases |events|
  {
    if events != [] {
      var init := events[..|events| - 1];
      assert forall i :: 0 <= i < |init| ==> init[i] == events[i];
      SweepClocked(init);
    }
  }

  /** A confirmed guard keeps its place. Whatever happens after time `t`, the guards confirmed by `t` are
      ranked among themselves as they were, but for those that aged out; by `EstablishedFirst` they are ahead
      of everybody else. */
  lemma {:induction false} PlacesKept(before: seq<Event>, after: seq<Event>, live: seq<NodeId>, t: u64)
    requires Clocked(before + after) && forall i :: 0 <= i < |after| ==> t < after[i].now
    ensures var was := Established(Run(before).guards, live, t);
            Established(Run(before + after).guards, live, t) == Unexpired(was, LastSweep(after))
    decreases |after|
  {
    var was := Established(Run(before).guards, live, t);
    if after == [] {
      assert before + after == before;
      NeverSwept(was);
    } else {
      var init, last := after[..|after| - 1], after[|after| - 1];
      var all := before + init;
      assert before + after == all + [last] && (all + [last])[..|all|] == all;
      assert forall i :: 0 <= i < |all| ==> all[i] == (before + after)[i];
      PlacesKept(before, init, live, t);
      RunFaithful(all);
      StepEstablished(Run(all), last, live, t);
      SweepBefore(before, after);
      UnexpiredLater(was, LastSweep(init), last.now);
    }
  }

  lemma SweepBefore(before: seq<Event>, after: seq<Event>)
    requires Clocked(before + after) && after != []
    ensures LastSweep(after[..|after| - 1]) <= after[|after| - 1].now
  {
    var init := after[..|after| - 1];
    assert forall i :: 0 <= i < |after| ==> (before + after)[|before| + i] == after[i];
    SweepClocked(init);
  }

  lemma {:induction false} MovesUp(gs: seq<Guard>, i: nat, now: u64) returns (j: nat)
    requires i < |gs| && !IsExpired(gs[i], now)
    ensures j <= i && j < |Unexpired(gs, now)| && Unexpired(gs, now)[j] == gs[i]
    decreases |gs|
  {
    var init := gs[..|gs| - 1];
    if i < |init| {
      j := MovesUp(init, i, now);
    } else {
      j := |Unexpired(init, now)|;
    }
  }

  /** A guard in use that was confirmed by time `t` stays in use for as long as it is live and not swept out
      by age, whoever is drawn, confirmed or unreachable in between. */
  lemma PrimaryKept(before: seq<Event>, after: seq<Event>, live: seq<NodeId>, t: u64, i: nat)
    requires Clocked(before + after) && forall i :: 0 <= i < |after| ==> t < after[i].now
    requires var ranked := Ranked(Run(before).guards, live);
             i < |ranked| && i < PRIMARY_COUNT && ConfirmedBy(t)(ranked[i]) && !IsExpired(ranked[i], LastSweep(after))
    ensures var id := Primary(Run(before).guards, live)[i];
            id in Primary(Run(before + after).guards, live)
  {
    var was, now := Run(before).guards, Run(before + after).guards;
    hide Established, Ranked, Unexpired, Run, Clocked, LastSweep;
    PlacesKept(before, after, live, t);
    EstablishedFirst(was, live, t);
    EstablishedFirst(now, live, t);
    var j := MovesUp(Established(was, live, t), i, LastSweep(after));
    assert Ranked(now, live)[j] == Ranked(was, live)[i];
    assert Primary(now, live)[j] == Primary(was, live)[i];
  }

  predicate ByConfirmation(gs: seq<Guard>) {
    forall i, j :: 0 <= i < j < |gs| && gs[j].confirmedAt.Some? ==>
      gs[i].confirmedAt.Some? && gs[i].confirmedAt.value <= gs[j].confirmedAt.value
  }

  lemma RankedOrder(ranked: seq<Guard>, others: seq<Guard>)
    requires Sorted(ranked, ByTime())
    requires (forall g :: g in ranked ==> g.confirmedAt.Some?) && forall g :: g in others ==> g.confirmedAt.None?
    ensures ByConfirmation(ranked + others)
  {
  }

  /** The ranking holds the usable guards, the confirmed before the others and in order of confirmation;
      those confirmed at one time stay in the order in which they were sampled. */
  lemma RankedMeaning(gs: seq<Guard>, live: seq<NodeId>)
    ensures multiset(Ranked(gs, live)) == multiset(Filtered(gs, live))
    ensures ByConfirmation(Ranked(gs, live))
    ensures forall at :: Keep(Ranked(gs, live), ConfirmedAt(at)) == Keep(Filtered(gs, live), ConfirmedAt(at))
  {
    var usable := Filtered(gs, live);
    var confirmed, others := Keep(usable, IsConfirmed()), Keep(usable, IsUnconfirmed());
    hide Keep, Sort, Filtered, Sorted, ByConfirmation;
    TimesOrdered();
    SortSorted(confirmed, ByTime());
    SortKeeps(confirmed, ByTime());
    RankedConfirmed(usable);
    RankedOrder(Sort(confirmed, ByTime()), others);
    KeepParts(usable);
    forall at
      ensures Keep(Ranked(gs, live), ConfirmedAt(at)) == Keep(usable, ConfirmedAt(at))
    {
      RankedStable(usable, at);
    }
  }

  function ConfirmedAt(at: Option<u64>): Guard -> bool {
    (g: Guard) => g.confirmedAt == at
  }

  lemma {:induction false} KeepParts(gs: seq<Guard>)
    ensures multiset(Keep(gs, IsConfirmed())) + multiset(Keep(gs, IsUnconfirmed())) == multiset(gs)
  {
    if gs != [] {
      KeepParts(gs[1..]);
      assert gs == [gs[0]] + gs[1..];
    }
  }

  lemma {:induction false} SortAlike(gs: seq<Guard>, at: Option<u64>)
    requires forall g :: g in gs ==> g.confirmedAt == at
    ensures Sort(gs, ByTime()) == gs
  {
    if gs != [] {
      SortAlike(gs[1..], at);
      assert gs == [gs[0]] + gs[1..];
    }
  }

  lemma RankedStable(usable: seq<Guard>, at: Option<u64>)
    ensures Keep(Sort(Keep(usable, IsConfirmed()), ByTime()) + Keep(usable, IsUnconfirmed()), ConfirmedAt(at))
         == Keep(usable, ConfirmedAt(at))
  {
    var confirmed, others := Keep(usable, IsConfirmed()), Keep(usable, IsUnconfirmed());
    var ranked, p := Sort(confirmed, ByTime()), ConfirmedAt(at);
    RankedConfirmed(usable);
    hide Sort;
    KeepConcat(ranked, others, p);
    if at.Some? {
      KeepNone(others, p);
      KeepSort(confirmed, p);
      KeepTwice(usable, IsConfirmed(), p, p);
      SortAlike(Keep(usable, p), at);
    } else {
      KeepNone(ranked, p);
      KeepAll(others, p);
      NoneIsUnconfirmed(usable);
    }
  }

  lemma {:induction false} NoneIsUnconfirmed(gs: seq<Guard>)
    ensures Keep(gs, ConfirmedAt(None)) == Keep(gs, IsUnconfirmed())
  {
    if gs != [] {
      NoneIsUnconfirmed(gs[1..]);
    }
  }

  // ── Ties ────────────────────────────────────────────────────────────

  /** Two kept elements stand in the kept list in the order in which they stood. */
  lemma {:induction false} KeptInOrder(gs: seq<Guard>, p: Guard -> bool, i: nat, j: nat) returns (k: nat, l: nat)
    requires i < j < |gs| && p(gs[i]) && p(gs[j])
    ensures k < l < |Keep(gs, p)| && Keep(gs, p)[k] == gs[i] && Keep(gs, p)[l] == gs[j]
  {
    if i == 0 {
      l := KeptAt(gs[1..], p, j - 1);
      k, l := 0, l + 1;
    } else {
      k, l := KeptInOrder(gs[1..], p, i - 1, j - 1);
      if p(gs[0]) {
        k, l := k + 1, l + 1;
      }
    }
  }

  lemma {:induction false} KeptAt(gs: seq<Guard>, p: Guard -> bool, j: nat) returns (l: nat)
    requires j < |gs| && p(gs[j])
    ensures l < |Keep(gs, p)| && Keep(gs, p)[l] == gs[j]
  {
    if j == 0 {
      l := 0;
    } else {
      l := KeptAt(gs[1..], p, j - 1);
      if p(gs[0]) {
        l := l + 1;
      }
    }
  }

  /** And the other way round. */
  lemma {:induction false} WereInOrder(gs: seq<Guard>, p: Guard -> bool, k: nat, l: nat) returns (i: nat, j: nat)
    requires k < l < |Keep(gs, p)|
    ensures i < j < |gs| && gs[i] == Keep(gs, p)[k] && gs[j] == Keep(gs, p)[l]
  {
    if !p(gs[0]) {
      i, j := WereInOrder(gs[1..], p, k, l);
      i, j := i + 1, j + 1;
    } else if k == 0 {
      j := WasAt(gs[1..], p, l - 1);
      i, j := 0, j + 1;
    } else {
      i, j := WereInOrder(gs[1..], p, k - 1, l - 1);
      i, j := i + 1, j + 1;
    }
  }

  lemma {:induction false} WasAt(gs: seq<Guard>, p: Guard -> bool, l: nat) returns (j: nat)
    requires l < |Keep(gs, p)|
    ensures j < |gs| && gs[j] == Keep(gs, p)[l]
  {
    if !p(gs[0]) {
      j := WasAt(gs[1..], p, l);
      j := j + 1;
    } else if l == 0 {
      j := 0;
    } else {
      j := WasAt(gs[1..], p, l - 1);
      j := j + 1;
    }
  }

  /** Some place of `a` is ahead of some place of `b`. */
  ghost predicate Ahead(ranked: seq<Guard>, a: Guard, b: Guard) {
    exists k, l :: 0 <= k < l < |ranked| && ranked[k] == a && ranked[l] == b
  }

  /** Confirmed at one time, the guard sampled first is ranked first. */
  lemma TiesBySample(gs: seq<Guard>, live: seq<NodeId>, i: nat, j: nat)
    requires i < j < |gs| && gs[i].confirmedAt.Some? && gs[i].confirmedAt == gs[j].confirmedAt
    requires gs[i].nodeId in live && gs[j].nodeId in live
    ensures Ahead(Ranked(gs, live), gs[i], gs[j])
  {
    var at := gs[i].confirmedAt;
    RankedMeaning(gs, live);
    FilteredIsKeep(gs, live);
    hide Keep, Ranked, Filtered;
    var usable := Filtered(gs, live);
    var m, n := KeptInOrder(gs, Usable(live), i, j);
    var k, l := KeptInOrder(usable, ConfirmedAt(at), m, n);
    var p, q := WereInOrder(Ranked(gs, live), ConfirmedAt(at), k, l);
  }

  /** Confirmations keep their order exactly from one second to the next: in any sample, confirming at `now` a
      usable guard that stands before one confirmed at `t`, not later, ranks it ahead of that one exactly if
      the two times are the same. */
  lemma SameSecondOvertakes(gs: seq<Guard>, live: seq<NodeId>, i: nat, j: nat, t: u64, now: u64)
    requires i < j < |gs| && t <= now && gs[i].confirmedAt.None? && gs[j].confirmedAt == Some(t)
    requires Find(gs, gs[i].nodeId) == i && gs[i].nodeId in live && gs[j].nodeId in live
    ensures var gs' := Confirmed(gs, gs[i].nodeId, now);
            Ahead(Ranked(gs', live), gs'[i], gs'[j]) <==> now == t
  {
    var gs' := Confirmed(gs, gs[i].nodeId, now);
    assert gs' == gs[i := gs[i].(confirmedAt := Some(now))];
    if now == t {
      TiesBySample(gs', live, i, j);
    } else {
      RankedMeaning(gs', live);
      hide Ranked, Filtered, Keep, Confirmed;
      var ranked := Ranked(gs', live);
      forall k, l | 0 <= k < l < |ranked| && ranked[l] == gs'[j]
        ensures ranked[k] != gs'[i]
      {
        assert ranked[l].confirmedAt.Some?;
      }
    }
  }
}
