/** The order in which the code joins two circuits. The service sends RENDEZVOUS1 before it installs its layer
    (`phinet-core/src/node.rs:3091-3113`); the node that gets it bridges the legs and sends RENDEZVOUS2 on
    (`node.rs:2244-2262`), and the client that gets that puts its layer on (`node.rs:3315-3335`), both before
    they read the next cell of the same connection. Nothing of this keeps the service from being late. */
module RendezvousOrder {
  import opened Wrappers
  import opened Bytes
  import opened Circuit
  import opened Flow
  import opened CircuitState
  import opened Splice
  import R = CircuitRun
  import F = ForwardPipe
  import B = BackwardPipe

  // ── Led by a command ────────────────────────────────────────────────

  /** A cell with this command, addressed to hop `n - 1`. */
  predicate Is(f: Flight, c: RelayCommand, n: nat) {
    f.span == n && Picks(Commanding(c), f)
  }

  ghost predicate Has(fs: seq<Flight>, c: RelayCommand, n: nat) {
    exists m :: 0 <= m < |fs| && Is(fs[m], c, n)
  }

  /** Before every end-to-end cell there is one with this command. */
  ghost predicate Led(fs: seq<Flight>, c: RelayCommand, n: nat) {
    forall k :: 0 <= k < |fs| && !fs[k].addressed ==> Has(fs[..k], c, n)
  }

  lemma LedSnoc(fs: seq<Flight>, f: Flight, c: RelayCommand, n: nat)
    requires Led(fs, c, n) && (!f.addressed ==> Has(fs, c, n))
    ensures Led(fs + [f], c, n)
  {
    hide Is;
    var gs := fs + [f];
    forall k | 0 <= k < |gs| && !gs[k].addressed
      ensures Has(gs[..k], c, n)
    {
      assert gs[..k] == fs[..k];
      if k == |fs| {
        assert gs[..k] == fs;
      }
    }
  }

  lemma HasMore(fs: seq<Flight>, f: Flight, c: RelayCommand, n: nat)
    ensures Has(fs + [f], c, n) <==> Has(fs, c, n) || Is(f, c, n)
  {
    hide Is;
    if Has(fs, c, n) {
      var m :| 0 <= m < |fs| && Is(fs[m], c, n);
      assert (fs + [f])[m] == fs[m];
    }
    assert (fs + [f])[|fs|] == f;
  }

  lemma HasMember(fs: seq<Flight>, c: RelayCommand, n: nat, f: Flight)
    requires f in fs && Is(f, c, n)
    ensures Has(fs, c, n)
  {
  }

  /** Filtering keeps what is led, and the command with it. */
  lemma {:induction false} LedFilter(fs: seq<Flight>, c: RelayCommand, n: nat, i: nat)
    requires Led(fs, c, n) && i < n
    ensures Led(Filter(fs, Past(i)), c, n) && (Has(fs, c, n) <==> Has(Filter(fs, Past(i)), c, n))
    decreases |fs|
  {
    hide Is, Filter;
    if fs == [] {
      FilterNone(fs, Past(i));
    } else {
      var before, f := fs[..|fs| - 1], fs[|fs| - 1];
      assert fs == before + [f];
      assert Led(before, c, n) by {
        forall k | 0 <= k < |before| && !before[k].addressed
          ensures Has(before[..k], c, n)
        {
          assert before[..k] == fs[..k];
        }
      }
      LedFilter(before, c, n, i);
      B.FilterSnoc(before, f, Past(i));
      HasMore(before, f, c, n);
      var kept := Filter(before, Past(i));
      if Picks(Past(i), f) {
        HasMore(kept, f, c, n);
        assert !f.addressed ==> Has(before, c, n) by {
          assert fs[..|fs| - 1] == before;
        }
        LedSnoc(kept, f, c, n);
      } else {
        assert kept + [] == kept;
        assert !Is(f, c, n) by {
          IsPast(f, c, n, i);
        }
      }
    }
  }

  lemma IsPast(f: Flight, c: RelayCommand, n: nat, i: nat)
    requires i < n
    ensures Is(f, c, n) ==> Picks(Past(i), f) && f.addressed
  {
  }

  /** What comes right after `done` is led by something in `done`. */
  lemma LedNext(done: seq<Flight>, rest: seq<Flight>, c: RelayCommand, n: nat)
    requires Led(done + rest, c, n) && rest != [] && !rest[0].addressed
    ensures Has(done, c, n)
  {
    hide Is;
    var all := done + rest;
    assert all[|done|] == rest[0];
    assert all[..|done|] == done;
  }

  // ── In the code's order ─────────────────────────────────────────────

  /** Everything the last relay ever put on the circuit toward its client, in order. */
  function Over(l: Line): seq<Flight> {
    if l.relays == [] then [] else Filter(B.Front(l.log.recv, l.log.bbook, |l.log.bbook|), Past(|l.relays| - 1))
  }

  /** A node goes on to the next cell of a connection once it is done with the one before: when the rendezvous
      point takes another cell of the service's circuit after RENDEZVOUS1, the bridge is made and RENDEZVOUS2
      sent, and when the client takes another after RENDEZVOUS2, its layer is on. */
  ghost predicate Orderly(j: Joined, step: Step)
    requires Enabled(j, step)
  {
    var c, h := j.lines[0], j.lines[1];
    match step
    case Installs(x, _) =>
      if x == 1 then Has(h.log.sent, Rendezvous1, |h.relays|) else Has(c.log.recv, Rendezvous2, |c.relays|)
    case RelayTakes(x, i, _) =>
      x == 1 && i + 1 == |h.relays| == |h.log.gone| && Has(h.log.gone[i], Rendezvous1, |h.relays|) ==>
        j.bridged && Has(Over(c), Rendezvous2, |c.relays|)
    case RelaySends(x, i, rc) => x == 0 && i + 1 == |c.relays| && rc.command == Rendezvous2 ==> j.bridged
    case EndReceives(x, _) => x == 0 && Has(c.log.recv, Rendezvous2, |c.relays|) ==> c.origin.e2e.Some?
    case _ => true
  }

  /** What the order keeps. */
  ghost predicate Ordered(j: Joined) {
    && Sound(j)
    && var c, h := j.lines[0], j.lines[1];
    && Led(h.log.sent, Rendezvous1, |h.relays|)
    && (h.origin.e2e.Some? ==> Has(h.log.sent, Rendezvous1, |h.relays|))
    && Led(Over(c), Rendezvous2, |c.relays|)
    && (!j.bridged ==>
         c.origin.e2e.None? && (forall f :: f in c.log.sent ==> f.addressed) && !Has(Over(c), Rendezvous2, |c.relays|))
    && !j.lost[1]
  }

  // ── What the steps do to the logs ───────────────────────────────────

  lemma CarriesLog(s: Suite, l: Line, q: Payload, now: Instant)
    requires Whole(l)
    ensures var l', o := LineCarries(s, l, q, now), |l.relays| - 1;
            && o < |l.log.bbook| && |l'.relays| == |l.relays| && l'.log.recv == l.log.recv
            && l'.log.bbook == l.log.bbook[o := l.log.bbook[o] + [Flight(o + 1, false, [], q)]]
            && l'.log.sent == l.log.sent && l'.origin == l.origin
  {
    WholeShapes(l);
    hide Whole, Layer, RelayBackward;
  }

  lemma RelaySendsLog(s: Suite, l: Line, i: nat, rc: RelayCell)
    requires Whole(l) && i < |l.relays|
    ensures var l' := LineRelaySends(s, l, i, rc);
            var plain := ToPayload(StampDigest(s, rc, l.relays[i].hop.backward.digest).0);
            && i < |l.log.bbook| && |l'.relays| == |l.relays| && l'.log.recv == l.log.recv
            && l'.log.bbook == l.log.bbook[i := l.log.bbook[i] + [Flight(i + 1, true, [], plain)]]
            && l'.log.sent == l.log.sent && l'.origin == l.origin
  {
    WholeShapes(l);
    hide Whole, Layer, OnionBackward, StampDigest, ToPayload;
  }

  lemma PassesLog(s: Suite, l: Line, i: nat)
    requires Whole(l) && i + 1 < |l.up| && l.up[i + 1] != []
    ensures |l.up| == |l.log.bbook| && l.log.bbook[i + 1] != []
    ensures var l', book := LinePassesBack(s, l, i), l.log.bbook;
            && |l'.relays| == |l.relays| && l'.log.recv == l.log.recv
            && l'.log.bbook == book[i + 1 := book[i + 1][1..]][i := book[i] + [book[i + 1][0]]]
            && l'.log.sent == l.log.sent && l'.origin == l.origin
  {
    WholeShapes(l);
    hide Whole, Layer, RelayBackward;
  }

  lemma ReceivesLog(s: Suite, l: Line, now: Instant)
    requires Whole(l) && l.up[0] != []
    ensures |l.up| == |l.log.bbook| > 0 && l.log.bbook[0] != []
    ensures var l' := LineReceives(s, l, now).0;
            && |l'.relays| == |l.relays| && l'.log.recv == l.log.recv + [l.log.bbook[0][0]]
            && l'.log.bbook == l.log.bbook[0 := l.log.bbook[0][1..]]
            && l'.log.sent == l.log.sent && l'.origin.e2e.Some? == l.origin.e2e.Some?
  {
    WholeShapes(l);
    hide Whole, DecryptInbound, Peel;
    DecryptKeepsLayer(s, l.origin, l.up[0][0], now);
  }

  lemma DecryptKeepsLayer(s: Suite, o: Origin, p: Payload, now: Instant)
    ensures DecryptInbound(s, o, p, now).0.e2e.Some? == o.e2e.Some?
  {
    hide Peel, RecognizedPayload, FromPayload, Layer, Blank;
  }

  /** A cell the last relay puts in comes last; one put in nearer the client is not the last relay's. */
  lemma OverEmits(l: Line, l': Line, o: nat, f: Flight)
    requires |l.relays| == |l'.relays| == |l.log.bbook| && o < |l.relays| && f.span == o + 1
    requires l'.log.recv == l.log.recv && l'.log.bbook == l.log.bbook[o := l.log.bbook[o] + [f]]
    ensures Over(l') == Over(l) + (if o + 1 == |l.relays| then [f] else [])
  {
    hide Filter, B.Front;
    var last := |l.relays| - 1;
    B.FrontAppend(l.log.recv, l.log.bbook, o, f, |l.log.bbook|, Past(last));
    if o == last {
      B.FilterSnoc(B.Front(l.log.recv, l.log.bbook, |l.log.bbook|), f, Past(last));
    } else {
      assert !Picks(Past(last), f);
      assert Over(l) + [] == Over(l);
    }
  }

  lemma OverPasses(l: Line, l': Line, i: nat)
    requires |l.relays| == |l'.relays| == |l.log.bbook| && i + 1 < |l.relays| && l.log.bbook[i + 1] != []
    requires l'.log.recv == l.log.recv
    requires var book := l.log.bbook; l'.log.bbook == book[i + 1 := book[i + 1][1..]][i := book[i] + [book[i + 1][0]]]
    ensures Over(l') == Over(l)
  {
    hide Filter, B.Front;
    B.FrontMove(l.log.recv, l.log.bbook, i, |l.log.bbook|);
    var front := B.Front(l.log.recv, l.log.bbook, |l.log.bbook|);
    assert front + [] == front;
  }

  lemma OverReceives(l: Line, l': Line)
    requires |l.relays| == |l'.relays| == |l.log.bbook| > 0 && l.log.bbook[0] != []
    requires l'.log.recv == l.log.recv + [l.log.bbook[0][0]] && l'.log.bbook == l.log.bbook[0 := l.log.bbook[0][1..]]
    ensures Over(l') == Over(l)
  {
    hide Filter, B.Front;
    B.FrontReceive(l.log.recv, l.log.bbook, |l.log.bbook|);
    var front := B.Front(l.log.recv, l.log.bbook, |l.log.bbook|);
    assert front + [] == front;
  }

  /** What has arrived at the client came over from the last relay. */
  lemma RecvIsOver(l: Line, c: RelayCommand)
    requires |l.relays| == |l.log.bbook| > 0 && Has(l.log.recv, c, |l.relays|)
    ensures Has(Over(l), c, |l.relays|)
  {
    hide Is, Picks, Filter;
    var m :| 0 <= m < |l.log.recv| && Is(l.log.recv[m], c, |l.relays|);
    var f, front := l.log.recv[m], B.Front(l.log.recv, l.log.bbook, |l.log.bbook|);
    R.FrontSplit(l.log.recv, l.log.bbook, |l.log.bbook|);
    assert front[m] == f;
    IsPast(f, c, |l.relays|, |l.relays| - 1);
    FilterMember(front, Past(|l.relays| - 1), f);
    HasMember(Over(l), c, |l.relays|, f);
  }

  /** An end-to-end cell about to arrive has RENDEZVOUS2 before it. */
  lemma ArrivesLed(s: Suite, l: Line)
    requires Healthy(s, l) && l.up[0] != [] && Led(Over(l), Rendezvous2, |l.relays|)
    ensures |l.log.bbook| > 0 && l.log.bbook[0] != []
    ensures !l.log.bbook[0][0].addressed ==> Has(l.log.recv, Rendezvous2, |l.relays|)
  {
    WholeShapes(l);
    var b, n := Bwd(l), |l.relays|;
    var f, front := l.log.bbook[0][0], B.Front(l.log.recv, l.log.bbook, |l.log.bbook|);
    if !f.addressed {
      assert B.CellInv(s, b, 0, B.Ahead(b, 0, 0), f, l.up[0][0]);
      hide B.CellInv, B.Inv, F.Inv, Whole, Is, Filter, Led, Has;
      B.FrontPrefix(l.log.recv, l.log.bbook, |l.log.bbook|);
      var rest := front[|l.log.recv|..];
      assert front == l.log.recv + rest;
      assert rest[0] == front[..|l.log.recv| + 1][|l.log.recv|];
      FilterConcat(l.log.recv, rest, Past(n - 1));
      FilterHead(rest, Past(n - 1));
      LedNext(Filter(l.log.recv, Past(n - 1)), Filter(rest, Past(n - 1)), Rendezvous2, n);
      HasFiltered(l.log.recv, Past(n - 1), Rendezvous2, n);
    }
  }

  lemma FilterHead(fs: seq<Flight>, sel: Selector)
    requires fs != [] && Picks(sel, fs[0])
    ensures Filter(fs, sel) != [] && Filter(fs, sel)[0] == fs[0]
  {
  }

  lemma HasFiltered(fs: seq<Flight>, sel: Selector, c: RelayCommand, n: nat)
    requires Has(Filter(fs, sel), c, n)
    ensures Has(fs, c, n)
  {
    hide Is, Picks, Filter;
    var m :| 0 <= m < |Filter(fs, sel)| && Is(Filter(fs, sel)[m], c, n);
    FilterMember(fs, sel, Filter(fs, sel)[m]);
    HasMember(fs, c, n, Filter(fs, sel)[m]);
  }

  /** An end-to-end cell about to leave the service's circuit has RENDEZVOUS1 before it. */
  lemma LeavesLed(s: Suite, l: Line, i: nat, now: Instant)
    requires Healthy(s, l) && i < |l.down| && l.down[i] != [] && F.NotMistaken(s, Fwd(l), i)
    requires Led(l.log.sent, Rendezvous1, |l.relays|) && LineTakes(s, l, i, now).1.Some?
    ensures i + 1 == |l.relays| == |l.log.gone| && Has(l.log.gone[i], Rendezvous1, |l.relays|)
  {
    WholeShapes(l);
    LineTakesIsStep(s, l, i, now);
    ExitIsFar(s, Fwd(l), i);
    var p, n := Fwd(l), |l.relays|;
    assert F.HopInv(s, p, i);
    hide F.Inv, F.CellInv, F.DigestInv, B.Inv, Whole, LineTakes, F.NotMistaken, Is, Led, Has, Filter, RecognizedPayload, Layer, FromPayload;
    ExitIsLast(s, p, i);
    F.WirePop(p.book, i, i);
    FilterHead(F.Wire(p.book, i), Past(i));
    LedFilter(l.log.sent, Rendezvous1, n, i);
    LedNext(p.gone[i], F.InFlight(p, i), Rendezvous1, n);
  }

  lemma ExitIsLast(s: Suite, p: F.Pipe, i: nat)
    requires F.Shape(p) && i < |p.wires| && p.wires[i] != [] && F.RelayStep(s, p, i).1.Exited?
    ensures i + 1 == |p.relays|
  {
    hide RecognizedPayload, Layer, FromPayload, Blank;
  }

  // ── Every step ──────────────────────────────────────────────────────

  lemma OrderedSends(s: Suite, j: Joined, x: nat, target: nat, rc: RelayCell, now: Instant)
    requires Good(s, j) && Ordered(j) && Enabled(j, EndSends(x, target, rc, now))
    ensures Ordered(Next(s, j, EndSends(x, target, rc, now)))
  {
    hide Channel, LineSends, Whole, F.Inv, B.Inv, RecognizedPayload, Blank, Layer, R.Word, Is, Led, Has, Over, Stamped;
    GoodParts(s, j, x);
    var l := j.lines[x];
    var l' := LineSends(s, l, target, rc, now);
    WholeShapes(l);
    var cell := if l.origin.e2e.None? then OwnFlight(s, l, target, rc)
                else Flight(|l.relays|, false, Nonces(Fwd(l).sender), Inside(s, l, rc));
    SendsLog(s, l, target, rc, now);
    SameOver(l, l');
    LedIfSent(l.log.sent, cell, |l.relays|, x == 1);
  }

  lemma LedIfSent(sent: seq<Flight>, cell: Flight, n: nat, led: bool)
    requires led ==> Led(sent, Rendezvous1, n) && (!cell.addressed ==> Has(sent, Rendezvous1, n))
    ensures led ==> Led(sent + [cell], Rendezvous1, n)
    ensures Has(sent, Rendezvous1, n) ==> Has(sent + [cell], Rendezvous1, n)
  {
    hide Is;
    if led {
      LedSnoc(sent, cell, Rendezvous1, n);
    }
    HasMore(sent, cell, Rendezvous1, n);
  }

  lemma SendsLog(s: Suite, l: Line, target: nat, rc: RelayCell, now: Instant)
    requires Healthy(s, l) && Sendable(l, target) && rc.recognized == 0 && rc.digest == 0
    ensures var l' := LineSends(s, l, target, rc, now);
            var cell := if l.origin.e2e.None? then OwnFlight(s, l, target, rc)
                        else Flight(|l.relays|, false, Nonces(Fwd(l).sender), Inside(s, l, rc));
            && l'.log.sent == l.log.sent + [cell] && l'.log.recv == l.log.recv && l'.log.bbook == l.log.bbook
            && |l'.relays| == |l.relays| && l'.origin.e2e.Some? == l.origin.e2e.Some?
  {
    if l.origin.e2e.None? {
      LineSendsOwnMeaning(s, l, target, rc, now);
    } else {
      LineSendsMeaning(s, l, target, rc, now);
    }
    hide F.Inv, B.Inv, LineSends, OwnFlight, Inside, F.SendTo, Whole;
    var l' := LineSends(s, l, target, rc, now);
    assert Fwd(l').sent == l'.log.sent && Bwd(l').recv == l'.log.recv && Bwd(l').book == l'.log.bbook;
  }

  lemma TakesLog(s: Suite, l: Line, i: nat, now: Instant)
    requires Healthy(s, l) && i < |l.down| && l.down[i] != [] && F.NotMistaken(s, Fwd(l), i)
    ensures var l' := LineTakes(s, l, i, now).0;
            && l'.log.sent == l.log.sent && l'.log.recv == l.log.recv && l'.log.bbook == l.log.bbook
            && |l'.relays| == |l.relays| && l'.origin == l.origin
  {
    LineTakesMeaning(s, l, i, now);
    hide F.Inv, B.Inv, LineTakes, Whole, F.Left;
    var l' := LineTakes(s, l, i, now).0;
    assert Fwd(l').sent == l'.log.sent && Bwd(l').recv == l'.log.recv && Bwd(l').book == l'.log.bbook;
  }

  lemma SameOver(l: Line, l': Line)
    requires l'.log.recv == l.log.recv && l'.log.bbook == l.log.bbook && |l'.relays| == |l.relays|
    ensures Over(l') == Over(l)
  {
  }

  lemma OrderedTakes(s: Suite, j: Joined, x: nat, i: nat, now: Instant)
    requires Good(s, j) && Ordered(j) && Enabled(j, RelayTakes(x, i, now)) && NoMistake(s, j, RelayTakes(x, i, now))
    requires Orderly(j, RelayTakes(x, i, now))
    ensures LineTakes(s, j.lines[x], i, now).1.Some? ==> j.bridged
    ensures Ordered(Next(s, j, RelayTakes(x, i, now)))
  {
    hide Channel, LineTakes, LineCarries, Whole, F.Inv, B.Inv, Is, Led, Has, Over, F.NotMistaken;
    GoodParts(s, j, x);
    var l, other := j.lines[x], j.lines[1 - x];
    var (l', got) := LineTakes(s, l, i, now);
    TakesLog(s, l, i, now);
    SameOver(l, l');
    if got.Some? {
      if x == 1 {
        LeavesLed(s, l, i, now);
      } else {
        LeftWasSent(s, l, i, now);
      }
      WholeShapes(other);
      CarriesLog(s, other, got.value, now);
      var o := |other.relays| - 1;
      var f := Flight(o + 1, false, [], got.value);
      OverEmits(other, LineCarries(s, other, got.value, now), o, f);
      if x == 1 {
        LedSnoc(Over(other), f, Rendezvous2, |other.relays|);
      }
    }
  }

  lemma OrderedRelaySends(s: Suite, j: Joined, x: nat, i: nat, rc: RelayCell)
    requires Good(s, j) && Ordered(j) && Enabled(j, RelaySends(x, i, rc)) && Orderly(j, RelaySends(x, i, rc))
    ensures Ordered(Next(s, j, RelaySends(x, i, rc)))
  {
    hide Channel, LineRelaySends, Whole, F.Inv, B.Inv, Led, Has, Over, ToPayload, FromPayload, StampDigest;
    GoodParts(s, j, x);
    var l := j.lines[x];
    WholeShapes(l);
    RelaySendsLog(s, l, i, rc);
    var digest := l.relays[i].hop.backward.digest;
    StampedIsRecognized(s, rc, digest);
    var f := Flight(i + 1, true, [], ToPayload(StampDigest(s, rc, digest).0));
    var l' := LineRelaySends(s, l, i, rc);
    OverEmits(l, l', i, f);
    assert Is(f, Rendezvous2, |l.relays|) ==> i + 1 == |l.relays| && rc.command == Rendezvous2;
    if x == 0 {
      if i + 1 == |l.relays| {
        LedSnoc(Over(l), f, Rendezvous2, |l.relays|);
        HasMore(Over(l), f, Rendezvous2, |l.relays|);
      } else {
        assert Over(l) + [] == Over(l);
      }
    }
  }

  lemma OrderedReceives(s: Suite, j: Joined, x: nat, now: Instant)
    requires Good(s, j) && Ordered(j) && Enabled(j, EndReceives(x, now)) && NoMistake(s, j, EndReceives(x, now))
    requires Orderly(j, EndReceives(x, now))
    ensures x == 0 && Unclaimed(s, j.lines[0], now) ==> j.lines[0].origin.e2e.Some?
    ensures Ordered(Next(s, j, EndReceives(x, now)))
  {
    hide Channel, LineReceives, Whole, F.Inv, B.Inv, Is, Led, Has, Over, B.NotMistaken, Unclaimed;
    GoodParts(s, j, x);
    var l := j.lines[x];
    WholeShapes(l);
    ReceivesLog(s, l, now);
    OverReceives(l, LineReceives(s, l, now).0);
    if x == 0 {
      ArrivesLed(s, l);
      LineReceivesMeaning(s, l, now);
      if l.origin.e2e.Some? {
        ClaimedExactly(s, j, 0, now);
      }
    }
  }

  lemma OrderedStep(s: Suite, j: Joined, step: Step)
    requires Good(s, j) && Ordered(j) && Enabled(j, step) && NoMistake(s, j, step) && Orderly(j, step)
    ensures Ordered(Next(s, j, step)) && !Loses(s, j, step, 1)
    ensures Loses(s, j, step, 0) ==> step.EndReceives? && step.x == 1 && j.lines[1].origin.e2e.None?
  {
    hide Good, LineTakes, LineCarries, LineSends, LineReceives, LineRelaySends, LinePassesBack, Whole, F.NotMistaken,
         B.NotMistaken, Is, Led, Has, Over, Unclaimed;
    assert Whole(j.lines[step.x]);
    match step
    case EndSends(x, target, rc, now) => OrderedSends(s, j, x, target, rc, now);
    case RelayTakes(x, i, now) => OrderedTakes(s, j, x, i, now);
    case RelaySends(x, i, rc) => OrderedRelaySends(s, j, x, i, rc);
    case RelayPassesBack(x, i) =>
      WholeShapes(j.lines[x]);
      PassesLog(s, j.lines[x], i);
      OverPasses(j.lines[x], LinePassesBack(s, j.lines[x], i), i);
    case EndReceives(x, now) => OrderedReceives(s, j, x, now);
    case Installs(x, layer) =>
      var l := j.lines[x];
      WholeShapes(l);
      SameOver(l, LineInstalls(l, layer));
      if x == 0 {
        RecvIsOver(l, Rendezvous2);
      }
    case Bridges(x) =>
  }

  /** Every step of the run is taken in the code's order. */
  ghost predicate OrderlyRun(s: Suite, j: Joined, steps: seq<Step>)
    decreases steps
  {
    steps == [] || (Enabled(j, steps[0]) && Orderly(j, steps[0]) && OrderlyRun(s, Next(s, j, steps[0]), steps[1..]))
  }

  /** The service reads a cell of the far end before it has installed its layer. */
  ghost predicate LateInstall(s: Suite, j: Joined, steps: seq<Step>)
    decreases steps
  {
    && steps != [] && Enabled(j, steps[0])
    && ((steps[0].EndReceives? && steps[0].x == 1 && j.lines[1].origin.e2e.None? && Unclaimed(s, j.lines[1], steps[0].now))
        || LateInstall(s, Next(s, j, steps[0]), steps[1..]))
  }

  lemma {:induction false} OrderedRun(s: Suite, j: Joined, steps: seq<Step>, j': Joined)
    requires Good(s, j) && Ordered(j) && Run(s, j, steps, j') && OrderlyRun(s, j, steps)
    ensures Ordered(j') && (j'.lost[0] <==> j.lost[0] || LateInstall(s, j, steps))
    decreases steps
  {
    hide Good, NoMistake, Next, Enabled, Orderly, Loses, Unclaimed;
    if steps != [] {
      StepGood(s, j, steps[0]);
      OrderedStep(s, j, steps[0]);
      LosesExactly(s, j, steps[0], 0);
      LateIsLoss(s, j, steps[0]);
      OrderedRun(s, Next(s, j, steps[0]), steps[1..], j');
    }
  }

  lemma LateIsLoss(s: Suite, j: Joined, step: Step)
    requires Enabled(j, step)
    ensures step.EndReceives? && step.x == 1 && j.lines[1].origin.e2e.None? && Unclaimed(s, j.lines[1], step.now) ==>
              Loses(s, j, step, 0)
    ensures Loses(s, j, step, 0) && step.EndReceives? ==>
              step.x == 1 && j.lines[1].origin.e2e.None? && Unclaimed(s, j.lines[1], step.now)
  {
    hide Unclaimed, LineTakes, Whole;
  }

  /** No RENDEZVOUS2 is on the client's circuit before it is to be joined. */
  ghost predicate NotYetMet(c: R.Net) {
    forall f :: f in c.log.recv || (exists i :: 0 <= i < |c.log.bbook| && f in c.log.bbook[i]) ==>
      !Picks(Commanding(Rendezvous2), f)
  }

  lemma {:induction false} FrontMember(recv: seq<Flight>, book: seq<seq<Flight>>, j: nat, f: Flight)
    requires j <= |book| && f in B.Front(recv, book, j)
    ensures f in recv || exists i :: 0 <= i < j && f in book[i]
  {
    if j > 0 && f !in book[j - 1] {
      FrontMember(recv, book, j - 1, f);
    }
  }

  lemma StartsOver(w: R.World, n: R.Net, f: Flight)
    requires Built(w, n) && NotYetMet(n) && f in Over(LineOf(n))
    ensures f.addressed && !Is(f, Rendezvous2, |n.relays|)
  {
    FrontAddressedAll(w, n);
    hide Built, Filter, B.Front;
    FilterMember(B.Front(n.log.recv, n.log.bbook, |n.log.bbook|), Past(|n.relays| - 1), f);
    FrontMember(n.log.recv, n.log.bbook, |n.log.bbook|, f);
  }

  lemma StartsOrdered(wc: R.World, c: R.Net, wh: R.World, h: R.Net, layers: seq<HopState>)
    requires Built(wc, c) && Built(wh, h) && |layers| == 2 && NotYetMet(c)
    ensures Ordered(Apart(c, h, layers))
  {
    hide Built, Healthy, Filter, B.Front, F.Left, B.Entered, Over, Is, NotYetMet;
    BuiltLine(wc, c);
    BuiltLine(wh, h);
    forall f | f in Over(LineOf(c))
      ensures f.addressed && !Is(f, Rendezvous2, |c.relays|)
    {
      StartsOver(wc, c, f);
    }
  }

  lemma FrontAddressedAll(w: R.World, n: R.Net)
    requires Built(w, n)
    ensures forall f :: f in B.Front(n.log.recv, n.log.bbook, |n.log.bbook|) ==> f.addressed
  {
    hide F.HopInv, F.CellInv, B.CellInv, B.CountInv, B.DigestInv, R.ExtendsInFlight, R.ExtendedsInFlight, Filter, B.Front, R.TalkAt;
    FrontAddressed(n.log.recv, n.log.bbook, |n.log.bbook|);
  }

  /** In the code's order, whatever happens in between, nothing the service says is ever lost: it has arrived, in
      order, but for what is in flight. What the client says is lost exactly if its first cell is there before
      the service, which sends RENDEZVOUS1 first and installs its layer when it comes to it, has installed it. */
  lemma InCodeOrder(
    wc: R.World, c: R.Net, wh: R.World, h: R.Net, layers: seq<HopState>, steps: seq<Step>, j: Joined)
    requires wc.s == wh.s && Built(wc, c) && Built(wh, h) && Agreed(layers) && NotYetMet(c)
    requires Run(wc.s, Apart(c, h, layers), steps, j) && OrderlyRun(wc.s, Apart(c, h, layers), steps)
    ensures Delivered(j) && |j.lost| == 2 && !j.lost[1]
    ensures j.lost[0] <==> LateInstall(wc.s, Apart(c, h, layers), steps)
  {
    hide Built, Run, Good, Delivered, OrderlyRun, LateInstall, Led, Has, Over;
    var j0 := Apart(c, h, layers);
    ApartGood(wc.s, wc, c, wh, h, layers);
    StartsOrdered(wc, c, wh, h, layers);
    RunGood(wc.s, j0, steps, j);
    GoodDelivered(wc.s, j);
    OrderedRun(wc.s, j0, steps, j);
  }

  // ── Too late ────────────────────────────────────────────────────────

  lemma FirstSent(s: Suite, l: Line, rc: RelayCell, now: Instant)
    requires Healthy(s, l) && |l.relays| == 1 && l.down[0] == [] && l.origin.e2e.Some? && rc.recognized == 0 && rc.digest == 0
    ensures Sendable(l, 0)
    ensures var l' := LineSends(s, l, 0, rc, now);
            && Healthy(s, l') && |l'.relays| == 1 && |l'.down[0]| == 1 && !l'.log.fbook[0][0].addressed
  {
    WholeShapes(l);
    assert |l.origin.hops| == 1;
    LineSendsMeaning(s, l, 0, rc, now);
    hide F.Inv, B.Inv, EncryptOutbound, Inside, Stamped;
    FirstBook(s, l, rc, now);
    WholeShapes(LineSends(s, l, 0, rc, now));
  }

  lemma FirstBook(s: Suite, l: Line, rc: RelayCell, now: Instant)
    requires Whole(l) && |l.relays| == 1 && l.down[0] == [] && Sendable(l, 0) && l.origin.e2e.Some?
    ensures var l' := LineSends(s, l, 0, rc, now);
            && |l'.relays| == 1 && |l'.log.fbook| == 1 && |l'.log.fbook[0]| == 1 && !l'.log.fbook[0][0].addressed
            && |l'.down| == 1 && |l'.down[0]| == 1
  {
    WholeShapes(l);
    hide WrapAll, StampDigest, ToPayload, Layer, Inside, Whole;
  }

  lemma FirstTaken(s: Suite, l: Line, now: Instant)
    requires Healthy(s, l) && |l.relays| == 1 && l.down[0] != [] && !l.log.fbook[0][0].addressed && F.NotMistaken(s, Fwd(l), 0)
    ensures LineTakes(s, l, 0, now).1.Some?
  {
    LineTakesIsStep(s, l, 0, now);
    F.StepOutcome(s, Fwd(l), 0);
    hide F.Inv, B.Inv, LineTakes, F.NotMistaken, RecognizedPayload, Layer, FromPayload, Blank;
  }

  lemma FirstCarried(s: Suite, l: Line, q: Payload, now: Instant)
    requires Whole(l) && |l.relays| == 1 && l.up[0] == []
    ensures var l' := LineCarries(s, l, q, now);
            && |l'.up| == 1 && |l'.up[0]| == 1 && |l'.log.bbook| == 1 && |l'.log.bbook[0]| == 1 && !l'.log.bbook[0][0].addressed
  {
    CarriesLog(s, l, q, now);
    WholeShapes(l);
    hide Layer, RelayBackward, B.Emit;
    CarriesUp(s, l, q, now);
  }

  lemma CarriesUp(s: Suite, l: Line, q: Payload, now: Instant)
    requires Whole(l)
    ensures var l', o := LineCarries(s, l, q, now), |l.relays| - 1;
            o < |l.up| == |l'.up| && |l'.up[o]| == |l.up[o]| + 1
  {
    WholeShapes(l);
    hide Layer, RelayBackward, B.Emit, Whole;
  }

  /** One hop each, nothing under way from client to service, and the service late. */
  predicate Late(j: Joined) {
    && Sound(j) && Whole(j.lines[0]) && Whole(j.lines[1])
    && j.bridged && j.lines[0].origin.e2e.Some? && j.lines[1].origin.e2e.None?
    && |j.lines[0].relays| == 1 == |j.lines[1].relays| && j.lines[1].up[0] == []
  }

  lemma LateSends(s: Suite, j: Joined, rc: RelayCell, now: Instant)
    requires Good(s, j) && Late(j) && j.lines[0].down[0] == [] && Enabled(j, EndSends(0, 0, rc, now))
    ensures var j' := Next(s, j, EndSends(0, 0, rc, now));
            && Good(s, j') && Late(j') && j'.said[0] == j.said[0] + [rc]
            && j'.lines[0].down[0] != [] && |j'.lines[0].log.fbook| > 0 && j'.lines[0].log.fbook[0] != []
            && !j'.lines[0].log.fbook[0][0].addressed
  {
    hide LineSends, Whole, Good, Stamped, Healthy;
    GoodParts(s, j, 0);
    StepGood(s, j, EndSends(0, 0, rc, now));
    GoodParts(s, Next(s, j, EndSends(0, 0, rc, now)), 0);
    FirstSent(s, j.lines[0], rc, now);
    SendsLog(s, j.lines[0], 0, rc, now);
    WholeShapes(LineSends(s, j.lines[0], 0, rc, now));
  }

  lemma LateCrosses(s: Suite, j: Joined, now: Instant)
    requires Good(s, j) && Late(j) && Enabled(j, RelayTakes(0, 0, now)) && NoMistake(s, j, RelayTakes(0, 0, now))
    requires |j.lines[0].log.fbook| > 0 && j.lines[0].log.fbook[0] != [] && !j.lines[0].log.fbook[0][0].addressed
    ensures var j' := Next(s, j, RelayTakes(0, 0, now));
            && Good(s, j') && Sound(j') && j'.said == j.said && j'.lines[1].origin == j.lines[1].origin
            && |j'.lines[1].log.bbook| > 0 && j'.lines[1].log.bbook[0] != [] && !j'.lines[1].log.bbook[0][0].addressed
  {
    hide LineTakes, LineCarries, Whole, F.NotMistaken, Good, Healthy;
    GoodParts(s, j, 0);
    StepGood(s, j, RelayTakes(0, 0, now));
    FirstTaken(s, j.lines[0], now);
    var q := LineTakes(s, j.lines[0], 0, now).1.value;
    FirstCarried(s, j.lines[1], q, now);
    CarriesLog(s, j.lines[1], q, now);
    GoodParts(s, Next(s, j, RelayTakes(0, 0, now)), 0);
  }

  /** It can be. The client's first cell goes over to the late service, all in the code's order, and is lost
      there, as is whatever the client says after it. */
  lemma LateInstallLoses(s: Suite, j: Joined, rc: RelayCell, a: Instant, b: Instant, c: Instant, j': Joined)
    requires Good(s, j) && Late(j) && j.lines[0].down[0] == []
    requires Run(s, j, [EndSends(0, 0, rc, a), RelayTakes(0, 0, b), EndReceives(1, c)], j')
    ensures Sound(j') && Sound(j) && j'.lost[0] && j'.said[0] == j.said[0] + [rc] && j'.heard[1] == []
    ensures OrderlyRun(s, j, [EndSends(0, 0, rc, a), RelayTakes(0, 0, b), EndReceives(1, c)])
  {
    hide Good, Next, NoMistake, Enabled, Late, Has, Over;
    var s1, s2, s3 := EndSends(0, 0, rc, a), RelayTakes(0, 0, b), EndReceives(1, c);
    var steps := [s1, s2, s3];
    assert steps[1..] == [s2, s3] && [s2, s3][1..] == [s3] && [s3][1..] == [];
    var j1 := Next(s, j, s1);
    var j2 := Next(s, j1, s2);
    assert Run(s, j1, [s2, s3], j') && Run(s, j2, [s3], j') && Run(s, Next(s, j2, s3), [], j');
    LateSends(s, j, rc, a);
    LateCrosses(s, j1, b);
    LateService(j1);
    MissedThere(s, j2, c);
    NoneHeard(s, j');
    GoodParts(s, j, 0);
    LateOrderly(s, j, s1, s2, s3);
  }

  lemma LateService(j: Joined)
    requires Late(j)
    ensures Sound(j) && j.lines[1].origin.e2e.None?
  {
  }

  lemma NoneHeard(s: Suite, j: Joined)
    requires Good(s, j) && |j.lost| > 0 && j.lost[0]
    ensures Sound(j) && j.heard[1] == []
  {
    hide Healthy, Channel;
  }

  lemma LateOrderly(s: Suite, j: Joined, s1: Step, s2: Step, s3: Step)
    requires Enabled(j, s1) && Enabled(Next(s, j, s1), s2) && Enabled(Next(s, Next(s, j, s1), s2), s3)
    requires s1.EndSends? && s2.RelayTakes? && s2.x == 0 && s3.EndReceives? && s3.x == 1
    ensures OrderlyRun(s, j, [s1, s2, s3])
  {
    hide Next, Enabled, Has, Over;
    assert [s1, s2, s3][1..] == [s2, s3] && [s2, s3][1..] == [s3] && [s3][1..] == [];
    assert OrderlyRun(s, Next(s, Next(s, Next(s, j, s1), s2), s3), []);
    assert OrderlyRun(s, Next(s, Next(s, j, s1), s2), [s3]);
    assert OrderlyRun(s, Next(s, j, s1), [s2, s3]);
  }

  lemma MissedThere(s: Suite, j: Joined, now: Instant)
    requires Good(s, j) && Enabled(j, EndReceives(1, now)) && NoMistake(s, j, EndReceives(1, now))
    requires j.lines[1].origin.e2e.None?
    requires |j.lines[1].log.bbook| > 0 && j.lines[1].log.bbook[0] != [] && !j.lines[1].log.bbook[0][0].addressed
    ensures var j' := Next(s, j, EndReceives(1, now)); Good(s, j') && |j'.lost| > 0 && j'.lost[0] && j'.said == j.said
  {
    hide Good, LineReceives, Whole, B.NotMistaken, Unclaimed, Received;
    GoodParts(s, j, 1);
    StepGood(s, j, EndReceives(1, now));
    LineReceivesMeaning(s, j.lines[1], now);
  }
}
