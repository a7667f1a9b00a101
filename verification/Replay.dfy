/** The persistent replay cache (`phinet-core/src/replay.rs`). The log file is its sequence of records; the
    clock is a parameter. Hash maps are walked in an order nobody chooses. */
module Replay {
  import opened Wrappers
  import opened Bytes
  import opened Sets

  const REPLAY_MAX_ENTRIES: nat := 100_000
  const REPLAY_COMPACT_LINES: nat := 50_000

  datatype Id = Id(text: bytes)

  datatype Record = Record(id: Id, exp: u64)

  type Table = map<Id, u64>

  /** The value of a `ReplayCache` with its file. */
  datatype Cache = Cache(entries: Table, log: seq<Record>, lines: nat)

  // ── What each operation does ────────────────────────────────────────

  function SatAdd(a: u64, b: u64): u64 {
    if a + b >= U64_LIMIT then U64_LIMIT - 1 else a + b
  }

  function Live(entries: Table, now: u64): Table {
    map id | id in entries && entries[id] > now :: entries[id]
  }

  /** A tenth of the cache, none of it to expire later than what stays. */
  predicate Soonest(entries: Table, drop: set<Id>) {
    && drop <= entries.Keys && |drop| == REPLAY_MAX_ENTRIES / 10
    && forall a, b :: a in drop && b in entries && b !in drop ==> entries[a] <= entries[b]
  }

  /** `drop` is what goes if the cache is full of live entries. */
  function MakeRoom(entries: Table, now: u64, drop: set<Id>): Table {
    if |entries| < REPLAY_MAX_ENTRIES then entries
    else
      var live := Live(entries, now);
      if |live| < REPLAY_MAX_ENTRIES then live else live - drop
  }

  function Mark(c: Cache, id: Id, ttl: u64, now: u64, drop: set<Id>): (Cache, bool) {
    var room := MakeRoom(c.entries, now, drop);
    if id in room && room[id] > now then (c.(entries := room), false)
    else
      var exp := SatAdd(now, ttl);
      (Cache(room[id := exp], c.log + [Record(id, exp)], c.lines + 1), true)
  }

  /** One line for each entry, in some order. */
  ghost predicate Lists(listing: seq<Record>, entries: Table) {
    && (forall i :: 0 <= i < |listing| ==> listing[i].id in entries && listing[i].exp == entries[listing[i].id])
    && (forall i, j :: 0 <= i < j < |listing| ==> listing[i].id != listing[j].id)
    && (forall id :: id in entries ==> exists i :: 0 <= i < |listing| && listing[i].id == id)
  }

  function Compacted(c: Cache, listing: seq<Record>): Cache {
    Cache(c.entries, listing, |listing|)
  }

  /** Later lines override earlier ones; expired ones are skipped. */
  function Load(log: seq<Record>, now: u64): Table
    decreases |log|
  {
    if log == [] then map[]
    else
      var before, last := Load(log[..|log| - 1], now), log[|log| - 1];
      if last.exp <= now then before else before[last.id := last.exp]
  }

  function Opened(log: seq<Record>, now: u64): Cache {
    Cache(Load(log, now), log, |log|)
  }

  // ── The cache ───────────────────────────────────────────────────────

  lemma SoonestExists(entries: Table)
    requires entries != map[]
    ensures exists k :: k in entries && forall j :: j in entries ==> entries[k] <= entries[j]
    decreases |entries|
  {
    var k :| k in entries;
    var rest := entries - {k};
    if rest != map[] {
      assert rest.Keys == entries.Keys - {k};
      SoonestExists(rest);
      var m :| m in rest && forall j :: j in rest ==> rest[m] <= rest[j];
      var least := if entries[k] <= entries[m] then k else m;
      assert forall j :: j in entries ==> j == k || j in rest;
      assert forall j :: j in entries ==> entries[least] <= entries[j];
    } else {
      assert forall j :: j in entries ==> j == k by {
        assert forall j :: j in entries && j != k ==> j in rest;
      }
    }
  }

  class ReplayCache {
    var defaultTtl: u64
    var entries: Table
    var log: seq<Record>
    var logLines: nat

    ghost function View(): Cache
      reads this
    {
      Cache(entries, log, logLines)
    }

    /** `open` on a file with these records. */
    constructor (file: seq<Record>, ttl: u64, now: u64)
      ensures defaultTtl == ttl
      ensures if |file| > REPLAY_COMPACT_LINES
              then exists listing :: Lists(listing, Load(file, now)) && View() == Compacted(Opened(file, now), listing)
              else View() == Opened(file, now)
    {
      defaultTtl, entries, log, logLines := ttl, map[], file, 0;
      new;
      LoadFromDisk(now);
      if logLines > REPLAY_COMPACT_LINES {
        ghost var listed := Compact();
        assert Lists(listed, Load(file, now));
      }
    }

    method LoadFromDisk(now: u64)
      requires entries == map[]
      modifies this`entries, this`logLines
      ensures entries == Load(log, now) && logLines == |log|
    {
      for i := 0 to |log|
        invariant entries == Load(log[..i], now)
      {
        assert log[..i + 1][..i] == log[..i];
        var e := log[i];
        if e.exp > now {
          entries := entries[e.id := e.exp];
        }
      }
      assert log[..|log|] == log;
      logLines := |log|;
    }

    method Seen(id: Id, now: u64) returns (r: bool)
      ensures r <==> id in Live(entries, now)
    {
      return id in entries && entries[id] > now;
    }

    method MarkWithTtl(id: Id, ttl: u64, now: u64) returns (wasNew: bool, ghost drop: set<Id>)
      modifies this`entries, this`log, this`logLines
      ensures |Live(old(entries), now)| >= REPLAY_MAX_ENTRIES ==> Soonest(Live(old(entries), now), drop)
      ensures (View(), wasNew) == Mark(old(View()), id, ttl, now, drop)
    {
      var exp := SatAdd(now, ttl);
      drop := {};
      if |entries| >= REPLAY_MAX_ENTRIES {
        entries := Live(entries, now);
        if |entries| >= REPLAY_MAX_ENTRIES {
          drop := DropSoonest();
        }
      } else {
        LiveFits(entries, now);
      }
      if id in entries && entries[id] > now {
        return false, drop;
      }
      entries := entries[id := exp];
      log := log + [Record(id, exp)];
      logLines := logLines + 1;
      return true, drop;
    }

    /** Still full: the soonest to expire go, among equals whichever the sort put first. */
    method DropSoonest() returns (ghost drop: set<Id>)
      requires |entries| >= REPLAY_MAX_ENTRIES
      modifies this`entries
      ensures Soonest(old(entries), drop) && entries == old(entries) - drop
    {
      var toDrop := REPLAY_MAX_ENTRIES / 10;
      drop := {};
      ghost var all := entries;
      for n := 0 to toDrop
        invariant drop <= all.Keys && |drop| == n && entries == all - drop
        invariant forall a, b :: a in drop && b in all && b !in drop ==> all[a] <= all[b]
      {
        Remaining(all, drop);
        SoonestExists(entries);
        var k :| k in entries && forall j :: j in entries ==> entries[k] <= entries[j];
        assert forall b :: b in all && b !in drop ==> b in entries && all[k] <= all[b];
        drop := drop + {k};
        entries := entries - {k};
        assert entries == all - drop;
      }
    }

    method EvictExpired(now: u64) returns (evicted: nat)
      modifies this`entries
      ensures entries == Live(old(entries), now) && evicted == |old(entries)| - |entries|
    {
      LiveFits(entries, now);
      var before := |entries|;
      entries := Live(entries, now);
      return before - |entries|;
    }

    method Compact() returns (ghost listed: seq<Record>)
      modifies this`log, this`logLines
      ensures Lists(listed, entries) && View() == Compacted(old(View()), listed)
    {
      var listing: seq<Record> := [];
      var left := entries.Keys;
      while left != {}
        invariant left <= entries.Keys
        invariant forall i :: 0 <= i < |listing| ==>
          listing[i].id in entries && listing[i].id !in left && listing[i].exp == entries[listing[i].id]
        invariant forall i, j :: 0 <= i < j < |listing| ==> listing[i].id != listing[j].id
        invariant forall id :: id in entries && id !in left ==> exists i :: 0 <= i < |listing| && listing[i].id == id
      {
        var id :| id in left;
        left := left - {id};
        ghost var before := listing;
        listing := listing + [Record(id, entries[id])];
        assert listing[|before|].id == id;
        forall other | other in entries && other !in left
          ensures exists i :: 0 <= i < |listing| && listing[i].id == other
        {
          if other != id {
            var i :| 0 <= i < |before| && before[i].id == other;
            assert listing[i].id == other;
          }
        }
      }
      assert Lists(listing, entries);
      listed := listing;
      log := listing;
      logLines := |listing|;
    }
  }

  lemma LiveFits(entries: Table, now: u64)
    ensures |Live(entries, now)| <= |entries|
  {
    SubsetSize(Live(entries, now).Keys, entries.Keys);
  }

  lemma Remaining(all: Table, drop: set<Id>)
    requires drop <= all.Keys && |drop| < |all|
    ensures all - drop != map[]
  {
    if all - drop == map[] {
      forall x | x in all.Keys
        ensures x in drop
      {
        assert x !in drop ==> x in all - drop;
      }
      SubsetSize(all.Keys, drop);
    }
  }

  // ── Reloading gives what was live ───────────────────────────────────

  /** The expiry an id has from its last record. */
  function Latest(log: seq<Record>): Table
    decreases |log|
  {
    if log == [] then map[] else Latest(log[..|log| - 1])[log[|log| - 1].id := log[|log| - 1].exp]
  }

  /** No record of an id says less than an earlier one. */
  predicate Rising(log: seq<Record>) {
    forall i, j :: 0 <= i < j < |log| && log[i].id == log[j].id ==> log[i].exp <= log[j].exp
  }

  lemma LatestSnoc(log: seq<Record>, r: Record)
    ensures Latest(log + [r]) == Latest(log)[r.id := r.exp]
  {
    assert (log + [r])[..|log|] == log;
  }

  lemma {:induction false} LatestMeaning(log: seq<Record>, i: nat)
    requires Rising(log) && i < |log|
    ensures log[i].id in Latest(log) && log[i].exp <= Latest(log)[log[i].id]
    decreases |log|
  {
    var last := |log| - 1;
    var init := log[..last];
    assert forall k :: 0 <= k < last ==> init[k] == log[k];
    if i < last {
      LatestMeaning(init, i);
      assert log[i].id == log[last].id ==> log[i].exp <= log[last].exp;
    }
  }

  lemma {:induction false} LatestRecorded(log: seq<Record>, id: Id)
    requires id in Latest(log)
    ensures exists i :: 0 <= i < |log| && log[i] == Record(id, Latest(log)[id])
    decreases |log|
  {
    var last := |log| - 1;
    if log[last].id != id {
      LatestRecorded(log[..last], id);
      var i :| 0 <= i < last && log[..last][i] == Record(id, Latest(log[..last])[id]);
      assert log[i] == Record(id, Latest(log)[id]);
    }
  }

  /** Skipping expired lines loses nothing but what has expired. */
  lemma {:induction false} LoadIsLive(log: seq<Record>, now: u64)
    requires Rising(log)
    ensures Load(log, now) == Live(Latest(log), now)
    decreases |log|
  {
    if log != [] {
      var last := |log| - 1;
      var init, r := log[..last], log[last];
      assert forall k :: 0 <= k < last ==> init[k] == log[k];
      LoadIsLive(init, now);
      if r.exp <= now && r.id in Latest(init) {
        LatestRecorded(init, r.id);
        var i :| 0 <= i < last && init[i] == Record(r.id, Latest(init)[r.id]);
        assert log[i].id == log[last].id;
      }
    }
  }

  /** The file knows what memory knows, now and later. */
  ghost predicate Tracks(c: Cache, now: u64) {
    && Rising(c.log)
    && forall t: u64 :: now <= t ==> Live(c.entries, t) == Live(Latest(c.log), t)
  }

  lemma LiveLater(a: Table, now: u64, later: u64)
    requires now <= later
    ensures Live(Live(a, now), later) == Live(a, later)
  {
  }

  /** The cache is not full of live entries. */
  predicate Roomy(c: Cache, now: u64) {
    |Live(c.entries, now)| < REPLAY_MAX_ENTRIES
  }

  /** Making room costs live entries exactly when the cache is full of them. */
  lemma RoomKeepsLive(entries: Table, now: u64, drop: set<Id>)
    requires |Live(entries, now)| >= REPLAY_MAX_ENTRIES ==> Soonest(Live(entries, now), drop)
    ensures Live(MakeRoom(entries, now, drop), now) == Live(entries, now) <==> |Live(entries, now)| < REPLAY_MAX_ENTRIES
  {
    var live := Live(entries, now);
    LiveFits(entries, now);
    LiveLater(entries, now, now);
    if |live| >= REPLAY_MAX_ENTRIES {
      assert drop != {};
      var k :| k in drop;
      assert k in live && k !in live - drop;
    }
  }

  /** The cost is concrete: an id dropped that way is accepted again at once. */
  lemma FullCacheForgets(c: Cache, id: Id, ttl: u64, now: u64, drop: set<Id>, victim: Id, drop': set<Id>)
    requires |Live(c.entries, now)| >= REPLAY_MAX_ENTRIES && Soonest(Live(c.entries, now), drop)
    requires victim in drop && victim != id
    ensures victim in c.entries && c.entries[victim] > now
    ensures Mark(Mark(c, id, ttl, now, drop).0, victim, ttl, now, drop').1
  {
    var live := Live(c.entries, now);
    LiveFits(c.entries, now);
    assert victim in live;
    var c' := Mark(c, id, ttl, now, drop).0;
    assert victim !in c'.entries;
    assert forall x :: x in MakeRoom(c'.entries, now, drop') ==> x in c'.entries;
  }

  lemma RisingSnoc(log: seq<Record>, r: Record)
    requires Rising(log) && (r.id in Latest(log) ==> Latest(log)[r.id] <= r.exp)
    ensures Rising(log + [r])
  {
    var all := log + [r];
    forall i, j | 0 <= i < j < |all| && all[i].id == all[j].id
      ensures all[i].exp <= all[j].exp
    {
      if j == |log| {
        LatestMeaning(log, i);
      }
    }
  }

  lemma MarkTracks(c: Cache, before: u64, id: Id, ttl: u64, now: u64, drop: set<Id>)
    requires Tracks(c, before) && before <= now && Roomy(c, now)
    ensures Tracks(Mark(c, id, ttl, now, drop).0, now)
    ensures Mark(c, id, ttl, now, drop).1 <==> id !in Live(c.entries, now)
  {
    hide Rising;
    var room := MakeRoom(c.entries, now, drop);
    LiveFits(c.entries, now);
    forall t: u64 | now <= t
      ensures Live(room, t) == Live(c.entries, t)
    {
      LiveLater(c.entries, now, t);
    }
    assert Live(room, now) == Live(c.entries, now);
    assert id in room && room[id] > now <==> id in Live(room, now);
    var (c', ok) := Mark(c, id, ttl, now, drop);
    if ok {
      var r := Record(id, SatAdd(now, ttl));
      assert id !in Live(Latest(c.log), now);
      RisingSnoc(c.log, r);
      LatestSnoc(c.log, r);
      forall t: u64 | now <= t
        ensures Live(c'.entries, t) == Live(Latest(c'.log), t)
      {
        LiveUpdated(room, Latest(c.log), id, r.exp, t);
      }
    }
  }

  lemma LiveUpdated(a: Table, b: Table, id: Id, exp: u64, t: u64)
    requires Live(a, t) == Live(b, t)
    ensures Live(a[id := exp], t) == Live(b[id := exp], t)
  {
    var x, y := Live(a[id := exp], t), Live(b[id := exp], t);
    forall k
      ensures k in x <==> k in y
      ensures k in x ==> x[k] == y[k]
    {
      assert k in Live(a, t) <==> k in Live(b, t);
      assert k in Live(a, t) ==> Live(a, t)[k] == Live(b, t)[k];
    }
  }

  lemma {:induction false} ListingLatest(listing: seq<Record>)
    requires forall i, j :: 0 <= i < j < |listing| ==> listing[i].id != listing[j].id
    ensures forall id :: id in Latest(listing) <==> exists i :: 0 <= i < |listing| && listing[i].id == id
    ensures forall i :: 0 <= i < |listing| ==> Latest(listing)[listing[i].id] == listing[i].exp
    decreases |listing|
  {
    if listing != [] {
      var last := |listing| - 1;
      var init := listing[..last];
      assert forall i :: 0 <= i < last ==> init[i] == listing[i];
      ListingLatest(init);
      forall id
        ensures id in Latest(listing) <==> exists i :: 0 <= i < |listing| && listing[i].id == id
      {
        if id in Latest(init) {
          var i :| 0 <= i < last && init[i].id == id;
          assert listing[i].id == id;
        }
      }
    }
  }

  /** A compacted file says exactly what is in memory. */
  lemma CompactedLatest(entries: Table, listing: seq<Record>)
    requires Lists(listing, entries)
    ensures Latest(listing) == entries && Rising(listing)
  {
    ListingLatest(listing);
    forall id
      ensures id in Latest(listing) <==> id in entries
      ensures id in entries ==> Latest(listing)[id] == entries[id]
    {
      if id in entries {
        var i :| 0 <= i < |listing| && listing[i].id == id;
      }
    }
  }

  lemma OpenTracks(log: seq<Record>, now: u64)
    requires Rising(log)
    ensures Tracks(Opened(log, now), now)
  {
    forall t: u64 | now <= t
      ensures Live(Load(log, now), t) == Live(Latest(log), t)
    {
      LoadIsLive(log, now);
      LiveLater(Latest(log), now, t);
    }
  }

  // ── Runs ────────────────────────────────────────────────────────────

  datatype Event =
    | Marking(now: u64, id: Id, ttl: u64, drop: set<Id>)
    | Evicting(now: u64)
    | Compacting(now: u64, listing: seq<Record>)
    | Reopening(now: u64, listing: seq<Record>)

  function Step(c: Cache, e: Event): Cache {
    match e
    case Marking(now, id, ttl, drop) => Mark(c, id, ttl, now, drop).0
    case Evicting(now) => c.(entries := Live(c.entries, now))
    case Compacting(_, listing) => Compacted(c, listing)
    case Reopening(now, listing) =>
      var o := Opened(c.log, now);
      if o.lines > REPLAY_COMPACT_LINES then Compacted(o, listing) else o
  }

  function Run(c: Cache, events: seq<Event>): Cache
    decreases |events|
  {
    if events == [] then c else Step(Run(c, events[..|events| - 1]), events[|events| - 1])
  }

  /** What the hash order and the clock allow, and the one condition: no mark meets a cache full of live
      entries. */
  ghost predicate Fine(c: Cache, clock: u64, e: Event) {
    && clock <= e.now
    && match e
       case Marking(now, _, _, _) => Roomy(c, now)
       case Evicting(_) => true
       case Compacting(_, listing) => Lists(listing, c.entries)
       case Reopening(now, listing) => Lists(listing, Load(c.log, now))
  }

  function Clock(start: u64, events: seq<Event>): u64 {
    if events == [] then start else events[|events| - 1].now
  }

  ghost predicate FineRun(c: Cache, start: u64, events: seq<Event>) {
    forall k :: 0 <= k < |events| ==> Fine(Run(c, events[..k]), Clock(start, events[..k]), events[k])
  }

  lemma StepTracks(c: Cache, clock: u64, e: Event)
    requires Tracks(c, clock) && Fine(c, clock, e)
    ensures Tracks(Step(c, e), e.now)
  {
    hide Lists, Rising, Mark;
    match e
    case Marking(now, id, ttl, drop) => MarkTracks(c, clock, id, ttl, now, drop);
    case Evicting(now) =>
      forall t: u64 | now <= t
        ensures Live(Live(c.entries, now), t) == Live(Latest(c.log), t)
      {
        LiveLater(c.entries, now, t);
      }
    case Compacting(_, listing) => CompactedLatest(c.entries, listing);
    case Reopening(now, listing) =>
      OpenTracks(c.log, now);
      CompactedLatest(Load(c.log, now), listing);
  }

  lemma FinePrefix(c: Cache, start: u64, events: seq<Event>)
    requires FineRun(c, start, events) && events != []
    ensures var last := |events| - 1;
            FineRun(c, start, events[..last]) && Fine(Run(c, events[..last]), Clock(start, events[..last]), events[last])
  {
    var init := events[..|events| - 1];
    forall k | 0 <= k < |init|
      ensures Fine(Run(c, init[..k]), Clock(start, init[..k]), init[k])
    {
      assert init[..k] == events[..k] && init[k] == events[k];
    }
  }

  lemma {:induction false} RunTracks(c: Cache, start: u64, events: seq<Event>)
    requires Tracks(c, start) && FineRun(c, start, events)
    ensures Tracks(Run(c, events), Clock(start, events))
    decreases |events|
  {
    hide Tracks, Fine, Step;
    if events != [] {
      FinePrefix(c, start, events);
      var init := events[..|events| - 1];
      RunTracks(c, start, init);
      StepTracks(Run(c, init), Clock(start, init), events[|events| - 1]);
    }
  }

  /** Restarts are not observable. After any run of marks, evictions, compactions and reopenings from a new
      file, under a clock that does not go back and without marks on a full cache, reloading the file gives
      exactly the live entries in memory. */
  lemma ReloadIsExact(start: u64, events: seq<Event>, later: u64)
    requires FineRun(Opened([], start), start, events) && Clock(start, events) <= later
    ensures var c := Run(Opened([], start), events);
            Load(c.log, later) == Live(c.entries, later)
  {
    OpenTracks([], start);
    RunTracks(Opened([], start), start, events);
    LoadIsLive(Run(Opened([], start), events).log, later);
  }

  /** Until it expires, an accepted id stays known, over any restarts. */
  lemma StepRemembers(c: Cache, clock: u64, e: Event, id: Id, exp: u64)
    requires Tracks(c, clock) && Fine(c, clock, e) && id in c.entries && c.entries[id] == exp && exp > e.now
    ensures id in Step(c, e).entries && Step(c, e).entries[id] == exp
    ensures e.Marking? && e.id == id ==> !Mark(c, id, e.ttl, e.now, e.drop).1
  {
    hide Lists, Rising;
    assert id in Live(c.entries, e.now) && Live(c.entries, e.now)[id] == exp;
    match e
    case Marking(now, _, _, _) => LiveFits(c.entries, now);
    case Evicting(_) =>
    case Compacting(_, _) =>
    case Reopening(now, _) =>
      LoadIsLive(c.log, now);
      assert Live(c.entries, now) == Live(Latest(c.log), now);
  }

  lemma {:induction false} RunRemembers(c: Cache, start: u64, events: seq<Event>, id: Id, exp: u64)
    requires Tracks(c, start) && FineRun(c, start, events)
    requires id in c.entries && c.entries[id] == exp && exp > Clock(start, events)
    ensures id in Run(c, events).entries && Run(c, events).entries[id] == exp
    decreases |events|
  {
    hide Tracks, Fine, Step;
    if events != [] {
      FinePrefix(c, start, events);
      var init, e := events[..|events| - 1], events[|events| - 1];
      RunTracks(c, start, init);
      assert Clock(start, init) <= e.now by {
        ClockForward(Run(c, init), Clock(start, init), e);
      }
      RunRemembers(c, start, init, id, exp);
      StepRemembers(Run(c, init), Clock(start, init), e, id, exp);
    }
  }

  lemma ClockForward(c: Cache, clock: u64, e: Event)
    requires Fine(c, clock, e)
    ensures clock <= e.now
  {
  }

  /** Replay protection. Two marks of one id that are both accepted are at least the first one's time to live
      apart, whatever is marked, evicted, compacted and restarted in between. */
  lemma AcceptedApart(start: u64, before: seq<Event>, first: Event, between: seq<Event>, second: Event)
    requires first.Marking? && second.Marking? && first.id == second.id
    requires var c := Run(Opened([], start), before);
             && FineRun(Opened([], start), start, before) && Fine(c, Clock(start, before), first)
             && FineRun(Step(c, first), first.now, between)
             && Fine(Run(Step(c, first), between), Clock(first.now, between), second)
    requires var c := Run(Opened([], start), before);
             && Mark(c, first.id, first.ttl, first.now, first.drop).1
             && Mark(Run(Step(c, first), between), second.id, second.ttl, second.now, second.drop).1
    ensures second.now >= SatAdd(first.now, first.ttl)
  {
    hide Tracks, Fine, FineRun, Roomy;
    var c := Run(Opened([], start), before);
    OpenTracks([], start);
    RunTracks(Opened([], start), start, before);
    StepTracks(c, Clock(start, before), first);
    var c1, exp := Step(c, first), SatAdd(first.now, first.ttl);
    if second.now < exp {
      RunTracks(c1, first.now, between);
      ClockForward(Run(c1, between), Clock(first.now, between), second);
      RunRemembers(c1, first.now, between, first.id, exp);
      StepRemembers(Run(c1, between), Clock(first.now, between), second, first.id, exp);
    }
  }
}
