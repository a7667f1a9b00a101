/** Per-address limits on circuits and connections (`phinet-core/src/dos.rs`). Time is nanoseconds, and tokens
    are counted in billionths: sixty per minute is one billionth per nanosecond, so the arithmetic is
    exact. */
module Dos {
  import opened Wrappers
  import opened Bytes
  import opened Sets

  const TOKEN: nat := 1_000_000_000
  const CEILING: nat := 80 * TOKEN
  const MAX_CONNS_PER_IP: nat := 12
  const STALE_AFTER: nat := 600 * TOKEN

  type Instant = nat

  datatype Ip = Ip(octets: seq<byte>) {
    predicate IsLoopback() {
      (|octets| == 4 && octets[0] == 127) || octets == Zeros(15) + [1]
    }
  }

  datatype Stats = Stats(tokens: nat, lastRefill: Instant, conns: nat, lastSeen: Instant, refused: nat)

  datatype State = State(clients: map<Ip, Stats>, exempt: set<Ip>, enabled: bool)

  const NEW_STATE: State := State(map[], {}, false)

  // ── What each operation does ────────────────────────────────────────

  function NewStats(now: Instant): Stats {
    Stats(CEILING, now, 0, now, 0)
  }

  function Elapsed(now: Instant, since: Instant): nat {
    if now >= since then now - since else 0
  }

  function Refill(s: Stats, now: Instant): Stats {
    s.(tokens := Least(s.tokens + Elapsed(now, s.lastRefill), CEILING), lastRefill := now)
  }

  function Entry(s: State, ip: Ip, now: Instant): Stats {
    if ip in s.clients then s.clients[ip] else NewStats(now)
  }

  predicate IsExempt(s: State, ip: Ip) {
    ip.IsLoopback() || ip in s.exempt
  }

  predicate Limited(s: State, ip: Ip) {
    s.enabled && !IsExempt(s, ip)
  }

  function Circuit(s: State, ip: Ip, now: Instant): (State, bool) {
    if !Limited(s, ip) then (s, true)
    else
      var e := Refill(Entry(s, ip, now).(lastSeen := now), now);
      if e.tokens >= TOKEN then (s.(clients := s.clients[ip := e.(tokens := e.tokens - TOKEN)]), true)
      else (s.(clients := s.clients[ip := e.(refused := e.refused + 1)]), false)
  }

  function Connect(s: State, ip: Ip, now: Instant): (State, bool) {
    if !Limited(s, ip) then (s, true)
    else
      var e := Entry(s, ip, now).(lastSeen := now);
      if e.conns >= MAX_CONNS_PER_IP then (s.(clients := s.clients[ip := e.(refused := e.refused + 1)]), false)
      else (s.(clients := s.clients[ip := e.(conns := e.conns + 1)]), true)
  }

  function Release(s: State, ip: Ip, now: Instant): State {
    if ip in s.clients then
      var e := s.clients[ip];
      s.(clients := s.clients[ip := e.(conns := if e.conns > 0 then e.conns - 1 else 0, lastSeen := now)])
    else s
  }

  predicate Stays(e: Stats, now: Instant) {
    e.conns > 0 || Elapsed(now, e.lastSeen) < STALE_AFTER
  }

  function Cleanup(s: State, now: Instant): State {
    s.(clients := map ip | ip in s.clients && Stays(s.clients[ip], now) :: s.clients[ip])
  }

  // ── The guard ───────────────────────────────────────────────────────

  class DosGuard {
    var clients: map<Ip, Stats>
    var exempt: set<Ip>
    var enabled: bool

    ghost function View(): State
      reads this
    {
      State(clients, exempt, enabled)
    }

    constructor ()
      ensures View() == NEW_STATE
    {
      clients, exempt, enabled := map[], {}, false;
    }

    method SetEnabled(on: bool)
      modifies this`enabled
      ensures enabled == on
    {
      enabled := on;
    }

    method SetExempt(addrs: set<Ip>)
      modifies this`exempt
      ensures exempt == addrs
    {
      exempt := addrs;
    }

    method AllowCircuit(ip: Ip, now: Instant) returns (ok: bool)
      modifies this`clients
      ensures (View(), ok) == Circuit(old(View()), ip, now)
    {
      if !enabled || ip.IsLoopback() || ip in exempt {
        return true;
      }
      var st := if ip in clients then clients[ip] else NewStats(now);
      st := st.(lastSeen := now);
      st := st.(tokens := Least(st.tokens + Elapsed(now, st.lastRefill), CEILING), lastRefill := now);
      if st.tokens >= TOKEN {
        st := st.(tokens := st.tokens - TOKEN);
        ok := true;
      } else {
        st := st.(refused := st.refused + 1);
        ok := false;
      }
      clients := clients[ip := st];
    }

    method AllowConnection(ip: Ip, now: Instant) returns (ok: bool)
      modifies this`clients
      ensures (View(), ok) == Connect(old(View()), ip, now)
    {
      if !enabled || ip.IsLoopback() || ip in exempt {
        return true;
      }
      var st := if ip in clients then clients[ip] else NewStats(now);
      st := st.(lastSeen := now);
      if st.conns >= MAX_CONNS_PER_IP {
        clients := clients[ip := st.(refused := st.refused + 1)];
        return false;
      }
      clients := clients[ip := st.(conns := st.conns + 1)];
      return true;
    }

    method ReleaseConnection(ip: Ip, now: Instant)
      modifies this`clients
      ensures View() == Release(old(View()), ip, now)
    {
      if ip in clients {
        var st := clients[ip];
        clients := clients[ip := st.(conns := if st.conns > 0 then st.conns - 1 else 0, lastSeen := now)];
      }
    }

    method CleanUp(now: Instant)
      modifies this`clients
      ensures View() == Cleanup(old(View()), now)
    {
      clients := map ip | ip in clients && Stays(clients[ip], now) :: clients[ip];
    }
  }

  // ── Runs ────────────────────────────────────────────────────────────

  datatype Event =
    | AskCircuit(now: Instant, ip: Ip)
    | AskConnection(now: Instant, ip: Ip)
    | Closed(now: Instant, ip: Ip)
    | CleanUp(now: Instant)
    | Exempting(now: Instant, addrs: set<Ip>)
    | Enabling(now: Instant, on: bool)

  function Step(s: State, e: Event): (State, seq<bool>) {
    match e
    case AskCircuit(now, ip) => var (s', ok) := Circuit(s, ip, now); (s', [ok])
    case AskConnection(now, ip) => var (s', ok) := Connect(s, ip, now); (s', [ok])
    case Closed(now, ip) => (Release(s, ip, now), [])
    case CleanUp(now) => (Cleanup(s, now), [])
    case Exempting(_, addrs) => (s.(exempt := addrs), [])
    case Enabling(_, on) => (s.(enabled := on), [])
  }

  /** The state after a run, and the decisions made in it. */
  function Run(s: State, events: seq<Event>): (State, seq<bool>)
    decreases |events|
  {
    if events == [] then (s, [])
    else
      var (s1, said) := Run(s, events[..|events| - 1]);
      var (s2, more) := Step(s1, events[|events| - 1]);
      (s2, said + more)
  }

  predicate Clocked(events: seq<Event>) {
    forall i, j :: 0 <= i < j < |events| ==> events[i].now <= events[j].now
  }

  function Clock(events: seq<Event>): Instant {
    if events == [] then 0 else events[|events| - 1].now
  }

  // ── What a caller can tell ──────────────────────────────────────────

  /** The tokens an address would have at a time. */
  function Tokens(s: State, ip: Ip, at: Instant): nat {
    if ip in s.clients then Refill(s.clients[ip], at).tokens else CEILING
  }

  function Conns(s: State, ip: Ip): nat {
    if ip in s.clients then s.clients[ip].conns else 0
  }

  /** No entry is from the future, or was refilled after it was last seen. */
  ghost predicate Sane(s: State, now: Instant) {
    forall ip :: ip in s.clients ==>
      && s.clients[ip].lastRefill <= s.clients[ip].lastSeen <= now
      && s.clients[ip].tokens <= CEILING
  }

  /** The two make the same decisions from now on. */
  ghost predicate Alike(s: State, u: State, now: Instant) {
    && s.enabled == u.enabled && s.exempt == u.exempt
    && (forall ip :: Conns(s, ip) == Conns(u, ip))
    && (forall ip, at: Instant :: now <= at ==> Tokens(s, ip, at) == Tokens(u, ip, at))
  }

  lemma SaneStep(s: State, now: Instant, e: Event)
    requires Sane(s, now) && now <= e.now
    ensures Sane(Step(s, e).0, e.now)
  {
  }

  /** A forgotten address is one whose tokens are full and whose connections are closed. */
  lemma CleanupUnseen(s: State, now: Instant, later: Instant, ip: Ip)
    requires Sane(s, now) && now <= later
    ensures Conns(Cleanup(s, now), ip) == Conns(s, ip) && Tokens(Cleanup(s, now), ip, later) == Tokens(s, ip, later)
  {
  }

  /** What asking for a circuit leaves of the tokens, in terms of what a caller can tell. */
  lemma CircuitTokens(s: State, now: Instant, ip: Ip, t: Instant, other: Ip, at: Instant)
    requires Sane(s, now) && now <= t <= at
    ensures var (s', ok) := Circuit(s, ip, t);
            && (Limited(s, ip) ==> ok == (Tokens(s, ip, t) >= TOKEN))
            && Conns(s', other) == Conns(s, other)
            && Tokens(s', other, at) ==
               if other == ip && Limited(s, ip)
               then Least((if ok then Tokens(s, ip, t) - TOKEN else Tokens(s, ip, t)) + (at - t), CEILING)
               else Tokens(s, other, at)
  {
  }

  lemma ConnectTokens(s: State, now: Instant, ip: Ip, t: Instant, other: Ip, at: Instant)
    requires Sane(s, now) && now <= t <= at
    ensures var (s', ok) := Connect(s, ip, t);
            && (Limited(s, ip) ==> ok == (Conns(s, ip) < MAX_CONNS_PER_IP))
            && Conns(s', other) == Conns(s, other) + (if other == ip && Limited(s, ip) && ok then 1 else 0)
            && Tokens(s', other, at) == Tokens(s, other, at)
  {
  }

  lemma ReleaseTokens(s: State, ip: Ip, t: Instant, other: Ip, at: Instant)
    ensures var s' := Release(s, ip, t);
            && Conns(s', other) == (if other == ip && Conns(s, ip) > 0 then Conns(s, ip) - 1 else Conns(s, other))
            && Tokens(s', other, at) == Tokens(s, other, at)
  {
  }

  /** Guards alike decide alike and stay alike. */
  lemma AlikeStep(s: State, u: State, now: Instant, e: Event)
    requires Sane(s, now) && Sane(u, now) && Alike(s, u, now) && now <= e.now && !e.CleanUp?
    ensures Alike(Step(s, e).0, Step(u, e).0, e.now) && Step(s, e).1 == Step(u, e).1
  {
    hide Circuit, Connect, Release, Tokens, Conns, Sane;
    var s', u' := Step(s, e).0, Step(u, e).0;
    match e
    case AskCircuit(t, ip) =>
      CircuitFrame(s, ip, t);
      CircuitFrame(u, ip, t);
      assert Tokens(s, ip, t) == Tokens(u, ip, t);
      CircuitTokens(s, now, ip, t, ip, t);
      CircuitTokens(u, now, ip, t, ip, t);
      forall other
        ensures Conns(s', other) == Conns(u', other)
      {
        CircuitTokens(s, now, ip, t, other, t);
        CircuitTokens(u, now, ip, t, other, t);
      }
      forall other, at: Instant | t <= at
        ensures Tokens(s', other, at) == Tokens(u', other, at)
      {
        CircuitTokens(s, now, ip, t, other, at);
        CircuitTokens(u, now, ip, t, other, at);
      }
    case AskConnection(t, ip) =>
      CircuitFrame(s, ip, t);
      CircuitFrame(u, ip, t);
      ConnectTokens(s, now, ip, t, ip, t);
      ConnectTokens(u, now, ip, t, ip, t);
      forall other
        ensures Conns(s', other) == Conns(u', other)
      {
        ConnectTokens(s, now, ip, t, other, t);
        ConnectTokens(u, now, ip, t, other, t);
      }
      forall other, at: Instant | t <= at
        ensures Tokens(s', other, at) == Tokens(u', other, at)
      {
        ConnectTokens(s, now, ip, t, other, at);
        ConnectTokens(u, now, ip, t, other, at);
      }
    case Closed(t, ip) =>
      CircuitFrame(s, ip, t);
      CircuitFrame(u, ip, t);
      forall other
        ensures Conns(s', other) == Conns(u', other)
      {
        ReleaseTokens(s, ip, t, other, t);
        ReleaseTokens(u, ip, t, other, t);
      }
      forall other, at: Instant | t <= at
        ensures Tokens(s', other, at) == Tokens(u', other, at)
      {
        ReleaseTokens(s, ip, t, other, at);
        ReleaseTokens(u, ip, t, other, at);
      }
    case Exempting(_, _) =>
      OnlyClients(s, s');
      OnlyClients(u, u');
    case Enabling(_, _) =>
      OnlyClients(s, s');
      OnlyClients(u, u');
  }

  lemma CircuitFrame(s: State, ip: Ip, t: Instant)
    ensures Circuit(s, ip, t).0.enabled == s.enabled && Circuit(s, ip, t).0.exempt == s.exempt
    ensures Connect(s, ip, t).0.enabled == s.enabled && Connect(s, ip, t).0.exempt == s.exempt
    ensures Release(s, ip, t).enabled == s.enabled && Release(s, ip, t).exempt == s.exempt
    ensures !Limited(s, ip) ==> Circuit(s, ip, t) == (s, true) && Connect(s, ip, t) == (s, true)
  {
  }

  lemma OnlyClients(s: State, s': State)
    requires s'.clients == s.clients
    ensures forall ip :: Conns(s', ip) == Conns(s, ip)
    ensures forall ip, at: Instant :: Tokens(s', ip, at) == Tokens(s, ip, at)
  {
  }

  function WithoutCleanup(events: seq<Event>): seq<Event>
    decreases |events|
  {
    if events == [] then []
    else
      var init, last := WithoutCleanup(events[..|events| - 1]), events[|events| - 1];
      if last.CleanUp? then init else init + [last]
  }

  lemma RunSnoc(s: State, events: seq<Event>, e: Event)
    ensures Run(s, events + [e]) == (Step(Run(s, events).0, e).0, Run(s, events).1 + Step(Run(s, events).0, e).1)
  {
    assert (events + [e])[..|events|] == events;
  }

  lemma {:induction false} RunAlike(s: State, events: seq<Event>)
    requires Sane(s, 0) && Clocked(events)
    ensures var a, b := Run(s, events), Run(s, WithoutCleanup(events));
            && Sane(a.0, Clock(events)) && Sane(b.0, Clock(events))
            && Alike(a.0, b.0, Clock(events)) && a.1 == b.1
    decreases |events|
  {
    hide Step, Sane, Alike;
    if events == [] {
      AlikeSelf(s, 0);
    } else {
      var init, e := events[..|events| - 1], events[|events| - 1];
      assert forall i :: 0 <= i < |init| ==> init[i] == events[i];
      RunAlike(s, init);
      var a, b := Run(s, init).0, Run(s, WithoutCleanup(init)).0;
      SaneStep(a, Clock(init), e);
      if e.CleanUp? {
        CleanupAlike(a, b, Clock(init), e.now);
        SaneLater(b, Clock(init), e.now);
        NothingSaid(a, e);
      } else {
        SaneStep(b, Clock(init), e);
        AlikeStep(a, b, Clock(init), e);
        RunSnoc(s, WithoutCleanup(init), e);
      }
    }
  }

  lemma NothingSaid(s: State, e: Event)
    requires e.CleanUp?
    ensures Step(s, e) == (Cleanup(s, e.now), [])
  {
  }

  lemma AlikeSelf(s: State, now: Instant)
    ensures Alike(s, s, now)
  {
  }

  lemma SaneLater(s: State, now: Instant, later: Instant)
    requires Sane(s, now) && now <= later
    ensures Sane(s, later)
  {
  }

  lemma CleanupAlike(s: State, u: State, before: Instant, now: Instant)
    requires Sane(s, before) && Alike(s, u, before) && before <= now
    ensures Alike(Cleanup(s, now), u, now)
  {
    hide Tokens, Conns;
    SaneLater(s, before, now);
    forall ip, at: Instant | now <= at
      ensures Conns(Cleanup(s, now), ip) == Conns(u, ip) && Tokens(Cleanup(s, now), ip, at) == Tokens(u, ip, at)
    {
      CleanupUnseen(s, now, at, ip);
    }
    forall ip
      ensures Conns(Cleanup(s, now), ip) == Conns(u, ip)
    {
      CleanupUnseen(s, now, now, ip);
    }
  }

  /** Transparent clean-up. A guard that cleans up at any times makes the same circuit and connection
      decisions as one that never does. */
  lemma CleanupTransparent(events: seq<Event>)
    requires Clocked(events)
    ensures Run(NEW_STATE, events).1 == Run(NEW_STATE, WithoutCleanup(events)).1
  {
    RunAlike(NEW_STATE, events);
  }

  // ── The bound on circuits ───────────────────────────────────────────

  /** How many circuits the address was allowed in the window. */
  function AllowedIn(s: State, events: seq<Event>, ip: Ip, from: Instant, to: Instant): nat
    decreases |events|
  {
    if events == [] then 0
    else
      var init, e := events[..|events| - 1], events[|events| - 1];
      AllowedIn(s, init, ip, from, to)
      + (if e.AskCircuit? && e.ip == ip && from <= e.now <= to && Step(Run(s, init).0, e).1 == [true] then 1 else 0)
  }

  /** The limiter is on for the address whenever it asks for a circuit. */
  ghost predicate AlwaysLimited(s: State, events: seq<Event>, ip: Ip) {
    forall k :: 0 <= k < |events| && events[k].AskCircuit? && events[k].ip == ip ==> Limited(Run(s, events[..k]).0, ip)
  }

  lemma {:induction false} RunSane(s: State, events: seq<Event>)
    requires Sane(s, 0) && Clocked(events)
    ensures Sane(Run(s, events).0, Clock(events))
    decreases |events|
  {
    hide Step, Sane;
    if events != [] {
      var init := events[..|events| - 1];
      assert forall i :: 0 <= i < |init| ==> init[i] == events[i];
      RunSane(s, init);
      SaneStep(Run(s, init).0, Clock(init), events[|events| - 1]);
    }
  }

  /** An allowed circuit takes a token; nothing else does, and they come back at the agreed rate. */
  lemma StepTokens(s: State, now: Instant, e: Event, ip: Ip)
    requires Sane(s, now) && now <= e.now
    requires e.AskCircuit? && e.ip == ip ==> Limited(s, ip)
    ensures var spent := if e.AskCircuit? && e.ip == ip && Step(s, e).1 == [true] then TOKEN else 0;
            Tokens(Step(s, e).0, ip, e.now) + spent <= Tokens(s, ip, now) + (e.now - now)
    ensures Tokens(Step(s, e).0, ip, e.now) + (if e.AskCircuit? && e.ip == ip && Step(s, e).1 == [true] then TOKEN else 0) <= CEILING
  {
    hide Circuit, Connect, Release, Cleanup, Sane;
    TokensLater(s, now, ip, e.now);
    match e
    case AskCircuit(t, who) => CircuitTokens(s, now, who, t, ip, t);
    case AskConnection(t, who) => ConnectTokens(s, now, who, t, ip, t);
    case Closed(t, who) => ReleaseTokens(s, who, t, ip, t);
    case CleanUp(t) =>
      SaneLater(s, now, t);
      CleanupUnseen(s, t, t, ip);
    case Exempting(_, _) =>
    case Enabling(_, _) =>
  }

  lemma TokensLater(s: State, now: Instant, ip: Ip, at: Instant)
    requires Sane(s, now) && now <= at
    ensures Tokens(s, ip, at) <= Tokens(s, ip, now) + (at - now) && Tokens(s, ip, at) <= CEILING
  {
  }

  lemma {:induction false} WindowPotential(s: State, events: seq<Event>, ip: Ip, from: Instant, to: Instant)
    requires Sane(s, 0) && Clocked(events) && AlwaysLimited(s, events, ip)
    ensures var now, u, c := Clock(events), Run(s, events).0, AllowedIn(s, events, ip, from, to);
            && (now < from ==> c == 0)
            && (from <= now <= to ==> TOKEN * c + Tokens(u, ip, now) <= CEILING + (now - from))
            && (from <= to ==> TOKEN * c <= CEILING + (to - from))
    decreases |events|
  {
    hide Step, Sane, Tokens;
    if events == [] {
      TokensLater(s, 0, ip, 0);
    } else {
      var init, e := events[..|events| - 1], events[|events| - 1];
      assert forall i :: 0 <= i < |init| ==> init[i] == events[i];
      forall k | 0 <= k < |init| && init[k].AskCircuit? && init[k].ip == ip
        ensures Limited(Run(s, init[..k]).0, ip)
      {
        assert init[..k] == events[..k];
      }
      RunSane(s, init);
      WindowPotential(s, init, ip, from, to);
      StepTokens(Run(s, init).0, Clock(init), e, ip);
    }
  }

  /** The limiter bound. In any window of `T` nanoseconds a limited address is allowed at most eighty
      circuits and one more for each second, whatever else goes on and whenever the guard cleans up. */
  lemma LimiterBound(events: seq<Event>, ip: Ip, from: Instant, to: Instant)
    requires Clocked(events) && AlwaysLimited(NEW_STATE, events, ip) && from <= to
    ensures AllowedIn(NEW_STATE, events, ip, from, to) <= 80 + (to - from) / TOKEN
  {
    WindowPotential(NEW_STATE, events, ip, from, to);
  }

  // ── What goes, and how many connections there are ───────────────────

  /** Clean-up takes out exactly the addresses without connections that were last seen ten minutes ago or more. */
  lemma CleanupExact(s: State, now: Instant, ip: Ip)
    ensures ip in Cleanup(s, now).clients <==>
      ip in s.clients && (s.clients[ip].conns > 0 || now < s.clients[ip].lastSeen + 600 * 1_000_000_000)
    ensures ip in Cleanup(s, now).clients ==> Cleanup(s, now).clients[ip] == s.clients[ip]
    ensures Cleanup(s, now).exempt == s.exempt && Cleanup(s, now).enabled == s.enabled
  {
  }

  /** Who is limited: everybody but the exempt and the loopback addresses, 127.x.y.z and ::1, while the guard is on. */
  lemma LimitedMeaning(s: State, octets: seq<byte>)
    ensures |octets| == 4 ==> (Limited(s, Ip(octets)) <==> s.enabled && Ip(octets) !in s.exempt && octets[0] != 127)
    ensures |octets| == 16 ==> (Limited(s, Ip(octets)) <==>
      s.enabled && Ip(octets) !in s.exempt && !(octets[15] == 1 && forall i :: 0 <= i < 15 ==> octets[i] == 0))
  {
    if |octets| == 16 {
      assert octets == Zeros(15) + [1] <==> octets[15] == 1 && forall i :: 0 <= i < 15 ==> octets[i] == 0;
    }
  }

  /** What a circuit costs a limited address: tokens come back at one a second, up to eighty, none if the clock went
      back; one is taken if there is one, and a refusal is counted if there is not. */
  lemma CircuitCounted(s: State, ip: Ip, now: Instant)
    requires Limited(s, ip) && ip in s.clients
    ensures var (s', ok) := Circuit(s, ip, now);
            var e := s.clients[ip];
            var back := if now >= e.lastRefill then now - e.lastRefill else 0;
            var tokens := if e.tokens + back > 80_000_000_000 then 80_000_000_000 else e.tokens + back;
            && (ok <==> tokens >= 1_000_000_000)
            && s' == s.(clients := s.clients[ip := e.(
                 tokens := if ok then tokens - 1_000_000_000 else tokens, lastRefill := now, lastSeen := now,
                 refused := if ok then e.refused else e.refused + 1)])
  {
  }

  /** No address ever has more than twelve connections on the books. */
  predicate FewConnections(s: State) {
    forall ip :: ip in s.clients ==> s.clients[ip].conns <= 12
  }

  lemma FewConnectionsKept(s: State, ip: Ip, now: Instant)
    requires FewConnections(s)
    ensures FewConnections(Circuit(s, ip, now).0) && FewConnections(Connect(s, ip, now).0)
    ensures FewConnections(Release(s, ip, now)) && FewConnections(Cleanup(s, now))
  {
  }

  /** A limited address gets a connection exactly while it has fewer than twelve. */
  lemma ConnectionsCounted(s: State, ip: Ip, now: Instant)
    requires FewConnections(s) && Limited(s, ip)
    ensures var (s', ok) := Connect(s, ip, now);
            var had := if ip in s.clients then s.clients[ip].conns else 0;
            && (ok <==> had < 12)
            && ip in s'.clients && s'.clients[ip].conns == had + (if ok then 1 else 0)
  {
  }
}
