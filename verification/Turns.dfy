/** Undisturbed turns of the two poll loops are plays of the whole demo, so that what holds of
    every play holds of any alternation of them. */
module Turns {
  import opened Common
  import opened Routines
  import opened Protocol
  import opened Invariant
  import opened Runs
  import opened RunTheorems
  import opened Calls
  import opened Echo
  import opened Vring

  lemma {:induction false} PlayAppend(txc: Config, rxc: Config, y: System, a: seq<Move>, b: seq<Move>)
    requires Play(txc, rxc, y, a).Some?
    ensures Play(txc, rxc, y, a + b) == Play(txc, rxc, Play(txc, rxc, y, a).value, b)
    decreases |a|
  {
    hide May, Make;
    if a == [] {
      assert a + b == b;
    } else {
      assert (a + b)[1..] == a[1..] + b;
      PlayAppend(txc, rxc, Make(txc, rxc, y, a[0]), a[1..], b);
    }
  }

  lemma PlayCons(txc: Config, rxc: Config, y: System, m: Move, rest: seq<Move>)
    requires May(txc, rxc, y, m)
    ensures Play(txc, rxc, y, [m] + rest) == Play(txc, rxc, Make(txc, rxc, y, m), rest)
  {
    hide May, Make;
    assert ([m] + rest)[1..] == rest;
  }

  // ---- runs of one side, inside the demo ----

  predicate AllProducer(run: seq<Action>) {
    forall k :: 0 <= k < |run| ==> ByProducer(run[k])
  }

  predicate AllConsumer(run: seq<Action>) {
    forall k :: 0 <= k < |run| ==> ByConsumer(run[k])
  }

  function AsClientPuts(run: seq<Action>): seq<Move> {
    if run == [] then [] else [ClientPuts(run[0])] + AsClientPuts(run[1..])
  }

  function AsServerTakes(run: seq<Action>): seq<Move> {
    if run == [] then [] else [ServerTakes(run[0])] + AsServerTakes(run[1..])
  }

  lemma {:induction false} ClientRuns(txc: Config, rxc: Config, y: System, run: seq<Action>)
    requires AllProducer(run) && Exec(txc, y.tx, run).Some?
    ensures Play(txc, rxc, y, AsClientPuts(run)) == Some(y.(tx := Exec(txc, y.tx, run).value))
    ensures ClientSent(AsClientPuts(run)) == Accepted(run)
    decreases |run|
  {
    hide Enabled, Do;
    if run == [] {
      assert y.(tx := y.tx) == y;
    } else {
      var z := y.(tx := Do(txc, y.tx, run[0]));
      assert Make(txc, rxc, y, ClientPuts(run[0])) == z;
      ClientRuns(txc, rxc, z, run[1..]);
      PlayCons(txc, rxc, y, ClientPuts(run[0]), AsClientPuts(run[1..]));
      assert AsClientPuts(run)[1..] == AsClientPuts(run[1..]);
    }
  }

  /** While the server consumes TX its private packet follows what it consumes. */
  lemma {:induction false} ServerRuns(txc: Config, rxc: Config, y: System, run: seq<Action>)
    requires AllConsumer(run) && Exec(txc, y.tx, run).Some? && y.rx.ppc.PIdle?
    ensures var t := Exec(txc, y.tx, run).value;
            && y.tx.delivered <= t.delivered
            && Play(txc, rxc, y, AsServerTakes(run))
               == Some(y.(tx := t, buffer := LastOr(y.buffer, y.tx.delivered, t.delivered)))
    decreases |run|
  {
    hide Enabled, Do;
    if run == [] {
      assert y.(tx := y.tx, buffer := y.buffer) == y;
    } else {
      ConsumerStepLeaves(txc, y.tx, run[0]);
      var u := Do(txc, y.tx, run[0]);
      var z := y.(tx := u, buffer := LastOr(y.buffer, y.tx.delivered, u.delivered));
      assert Make(txc, rxc, y, ServerTakes(run[0])) == z;
      ServerRuns(txc, rxc, z, run[1..]);
      PlayCons(txc, rxc, y, ServerTakes(run[0]), AsServerTakes(run[1..]));
      var t := Exec(txc, y.tx, run).value;
      assert u.delivered <= t.delivered;
      assert LastOr(z.buffer, u.delivered, t.delivered) == LastOr(y.buffer, y.tx.delivered, t.delivered);
    }
  }

  // ---- poll_client ----

  lemma {:induction false} TurnsByProducer(n: nat)
    ensures AllProducer(ReclaimTurns(n))
    decreases n
  {
    if n > 0 {
      TurnsByProducer(n - 1);
    }
  }

  /** Something is free after a reclaim when something was or there was something to reclaim. */
  lemma ReclaimLeavesFree(cfg: Config, s: State, t: State)
    requires Inv(cfg, s) && s.ppc.PIdle? && Inv(cfg, t) && t.ppc.PIdle? && !cfg.repaired && s.ring.usedIdx < cfg.num
    requires t.reclaimed == s.published && t.posted == s.posted
    ensures t.prod.lastAvail != VRING_IDX_NONE <==>
              s.prod.lastAvail != VRING_IDX_NONE || s.ring.usedIdx != s.prod.lastUsed
  {
    hide AvailHolds, UsedHolds, AllCarried, AllFit, Addressed, FreeList, Permutes, ValidNum, Slot, Wrap16;
    FreeCount(cfg, s);
    FreeCount(cfg, t);
    OwnedBelow(s, cfg.num);
    SourceCounters(cfg, s);
    SmallCounter(s.reclaimed, cfg.num);
  }

  function PutRun(payload: seq<byte>): seq<Action> {
    [PutPop(payload), PutFill, PutStore, PutBump]
  }

  /** An undisturbed turn of the client, from any reachable state of the demo in which the reclaim
      ends and something is free or to be reclaimed: the calls it makes meet what they need, and
      what it leaves is a play, in which the client sends the message. */
  lemma PollClientPlays(txc: Config, rxc: Config, y0: System, moves: seq<Move>, y: System, message: seq<byte>)
    returns (more: seq<Move>, z: System)
    requires EchoFresh(txc, rxc, y0) && Play(txc, rxc, y0, moves) == Some(y)
    requires y.tx.ppc.PIdle? && !txc.repaired && y.tx.ring.usedIdx < txc.num
    requires y.tx.prod.lastAvail != VRING_IDX_NONE || y.tx.ring.usedIdx != y.tx.prod.lastUsed
    requires HDR_LEN + |message| < ETH_PACKET_SIZE
    ensures Play(txc, rxc, y0, moves + more) == Some(z)
    ensures ReclaimSafe(y.tx.ring, txc.num, y.tx.prod)
    ensures var (ring, cur) := Reclaim(y.tx.ring, txc.num, y.tx.prod);
            && PutSafe(ring, txc.num, txc.producer, cur, message)
            && Put(ring, txc.num, txc.producer, cur, message) == (0, z.tx.ring, z.tx.prod)
    ensures z.tx.ppc.PIdle? && z.tx.cpc == y.tx.cpc && ConsumerSide(z.tx) == ConsumerSide(y.tx)
    ensures z.rx == y.rx && z.buffer == y.buffer && z.forwarded == y.forwarded
    ensures ClientSent(more) == [message] && Payloads(z.tx.posted) == Payloads(y.tx.posted) + [message]
  {
    hide Inv, Play, Exec, Reclaim, ReclaimSafe, Put, PutSafe, Enabled, ReclaimTurns;
    EchoReached(txc, rxc, y0, moves, y);
    ReclaimIsRun(txc, y.tx);
    var n := y.tx.published - y.tx.reclaimed;
    var u := Exec(txc, y.tx, ReclaimRun(n)).value;
    ReclaimLeavesFree(txc, y.tx, u);
    NextStep(txc, u, message);
    PutIsRun(txc, u, message);
    z := y.(tx := Exec(txc, u, PutRun(message)).value);
    TurnsByProducer(n);
    var a, b := AsClientPuts(ReclaimRun(n)), AsClientPuts(PutRun(message));
    ClientRuns(txc, rxc, y, ReclaimRun(n));
    ClientRuns(txc, rxc, y.(tx := u), PutRun(message));
    PlayAppend(txc, rxc, y, a, b);
    more := a + b;
    PlayAppend(txc, rxc, y0, moves, more);
    TurnsAccept(n);
    AcceptedPut(message, []);
    AcceptedNone();
    assert PutRun(message) + [] == PutRun(message);
    ClientSentAppend(a, b);
    NoComplaints(txc, y.tx);
    NoComplaints(txc, u);
    assert Payloads(z.tx.posted) == Payloads(y.tx.posted) + [message];
  }

  lemma NoComplaints(cfg: Config, s: State)
    requires Inv(cfg, s)
    ensures s.complaints == 0
  {
  }

  lemma {:induction false} ClientSentAppend(a: seq<Move>, b: seq<Move>)
    ensures ClientSent(a + b) == ClientSent(a) + ClientSent(b)
    decreases |a|
  {
    if a == [] {
      assert a + b == b;
    } else {
      assert (a + b)[1..] == a[1..] + b;
      ClientSentAppend(a[1..], b);
    }
  }

  lemma EchoReached(txc: Config, rxc: Config, y0: System, moves: seq<Move>, y: System)
    requires EchoFresh(txc, rxc, y0) && Play(txc, rxc, y0, moves) == Some(y)
    ensures Inv(txc, y.tx) && Inv(rxc, y.rx)
    ensures y.buffer != [] ==> HDR_LEN + |y.buffer| < ETH_PACKET_SIZE
  {
    hide Inv, Fresh, Play, Picks;
    EchoStarts(txc, rxc, y0);
    PlayKeeps(txc, rxc, y0, moves);
  }

  // ---- poll_server ----

  lemma {:induction false} TurnsByConsumer(n: nat)
    ensures AllConsumer(BatchTurns(n))
    decreases n
  {
    if n > 0 {
      TurnsByConsumer(n - 1);
    }
  }

  /** The batch of a polling server. */
  lemma TakePlays(txc: Config, rxc: Config, y0: System, moves: seq<Move>, y: System)
    returns (take: seq<Move>, n: nat, m: System)
    requires EchoFresh(txc, rxc, y0) && Play(txc, rxc, y0, moves) == Some(y)
    requires y.tx.cpc.CIdle? && y.rx.ppc.PIdle?
    ensures Play(txc, rxc, y0, moves + take) == Some(m)
    ensures BatchYields(y.tx.ring, txc.num, txc.consumer, ConsumerSide(y.tx), m.tx.ring, ConsumerSide(m.tx), n)
    ensures m.buffer == LastOr(y.buffer, y.tx.delivered, m.tx.delivered)
    ensures m.tx.cpc.CIdle? && m.tx.prod == y.tx.prod && m.tx.ppc == y.tx.ppc
    ensures m.tx.posted == y.tx.posted && m.tx.delivered == Payloads(y.tx.posted)
    ensures m.rx == y.rx && m.forwarded == y.forwarded
  {
    hide Inv, Play, Exec, BatchYields, Fresh, BatchTurns;
    EchoReached(txc, rxc, y0, moves, y);
    ShapeOf(txc, y.tx);
    n := |y.tx.posted| - y.tx.consumed;
    var t := BatchIsRun(txc, y.tx, n);
    TurnsByConsumer(n);
    ServerRuns(txc, rxc, y, BatchRun(n));
    take := AsServerTakes(BatchRun(n));
    PlayAppend(txc, rxc, y0, moves, take);
    m := y.(tx := t, buffer := LastOr(y.buffer, y.tx.delivered, t.delivered));
  }

  /** The four moves of a forward. */
  function AsForwards(payload: seq<byte>): seq<Move> {
    [ServerForwards(PutPop(payload)), ServerForwards(PutFill), ServerForwards(PutStore), ServerForwards(PutBump)]
  }

  lemma ForwardPlays(txc: Config, rxc: Config, y: System)
    requires y.buffer != [] && y.tx.cpc.CIdle?
    requires Inv(rxc, y.rx) && Enabled(rxc, y.rx, PutPop(y.buffer))
    ensures Exec(rxc, y.rx, PutRun(y.buffer)).Some?
    ensures Play(txc, rxc, y, AsForwards(y.buffer))
            == Some(System(y.tx, Exec(rxc, y.rx, PutRun(y.buffer)).value, [],
                           y.forwarded + [LastIndex(y.tx.delivered)]))
  {
    hide Inv, Do, Enabled, Play, Exec;
    var p := y.buffer;
    PutIsRun(rxc, y.rx, p);
    FourSteps(rxc, y.rx, PutPop(p), PutFill, PutStore, PutBump);
    var s1 := Do(rxc, y.rx, PutPop(p));
    var s2 := Do(rxc, s1, PutFill);
    var s3 := Do(rxc, s2, PutStore);
    var y1 := Make(txc, rxc, y, ServerForwards(PutPop(p)));
    var y2 := Make(txc, rxc, y1, ServerForwards(PutFill));
    var y3 := Make(txc, rxc, y2, ServerForwards(PutStore));
    PlayFour(txc, rxc, y, ServerForwards(PutPop(p)), ServerForwards(PutFill), ServerForwards(PutStore),
             ServerForwards(PutBump));
  }

  lemma FourSteps(cfg: Config, s: State, a: Action, b: Action, c: Action, d: Action)
    requires Exec(cfg, s, [a, b, c, d]).Some?
    ensures Enabled(cfg, s, a)
    ensures var s1 := Do(cfg, s, a);
            && Enabled(cfg, s1, b)
            && var s2 := Do(cfg, s1, b);
               && Enabled(cfg, s2, c)
               && var s3 := Do(cfg, s2, c);
                  Enabled(cfg, s3, d) && Exec(cfg, s, [a, b, c, d]) == Some(Do(cfg, s3, d))
  {
    hide Enabled, Do;
    assert [a, b, c, d][1..] == [b, c, d] && [b, c, d][1..] == [c, d] && [c, d][1..] == [d] && [d][1..] == [];
    assert Exec(cfg, Do(cfg, s, a), [b, c, d]).Some?;
    assert Exec(cfg, Do(cfg, Do(cfg, s, a), b), [c, d]).Some?;
    assert Exec(cfg, Do(cfg, Do(cfg, Do(cfg, s, a), b), c), [d]).Some?;
  }

  lemma PlayFour(txc: Config, rxc: Config, y: System, a: Move, b: Move, c: Move, d: Move)
    requires May(txc, rxc, y, a)
    requires var y1 := Make(txc, rxc, y, a);
             && May(txc, rxc, y1, b)
             && var y2 := Make(txc, rxc, y1, b);
                && May(txc, rxc, y2, c)
                && May(txc, rxc, Make(txc, rxc, y2, c), d)
    ensures var y3 := Make(txc, rxc, Make(txc, rxc, Make(txc, rxc, y, a), b), c);
            Play(txc, rxc, y, [a, b, c, d]) == Some(Make(txc, rxc, y3, d))
  {
    hide May, Make;
    var y1 := Make(txc, rxc, y, a);
    var y2 := Make(txc, rxc, y1, b);
    var y3 := Make(txc, rxc, y2, c);
    PlayCons(txc, rxc, y, a, [b, c, d]);
    PlayCons(txc, rxc, y1, b, [c, d]);
    PlayCons(txc, rxc, y2, c, [d]);
    PlayCons(txc, rxc, y3, d, []);
    assert [a] + [b, c, d] == [a, b, c, d] && [b] + [c, d] == [b, c, d] && [c] + [d] == [c, d] && [d] + [] == [d];
  }

  /** From `m` to `z` the packet kept is put on RX, and none is kept any more. */
  ghost predicate Forwarded(rxc: Config, m: System, z: System) {
    && PutSafe(m.rx.ring, rxc.num, rxc.producer, m.rx.prod, m.buffer)
    && Put(m.rx.ring, rxc.num, rxc.producer, m.rx.prod, m.buffer) == (0, z.rx.ring, z.rx.prod)
    && ConsumerSide(z.rx) == ConsumerSide(m.rx) && z.rx.cpc == m.rx.cpc && z.rx.ppc.PIdle?
    && z.tx == m.tx && z.buffer == []
    && z.forwarded == m.forwarded + [LastIndex(z.tx.delivered)]
    && Payloads(z.rx.posted) == Payloads(m.rx.posted) + [m.buffer]
  }

  /** An undisturbed turn of the server, from any reachable state of the demo: first, when polling,
      the batch on TX, which is a play to `m`; then, if a packet is kept, its put on RX, which can
      be made exactly if RX has a free descriptor, and then is a play to `z`. */
  lemma PollServerPlays(txc: Config, rxc: Config, y0: System, moves: seq<Move>, y: System, isPolling: bool)
    returns (take: seq<Move>, n: nat, m: System, forward: seq<Move>, z: System)
    requires EchoFresh(txc, rxc, y0) && Play(txc, rxc, y0, moves) == Some(y)
    requires y.tx.cpc.CIdle? && y.rx.ppc.PIdle?
    ensures Play(txc, rxc, y0, moves + take) == Some(m)
    ensures if isPolling
            then && BatchYields(y.tx.ring, txc.num, txc.consumer, ConsumerSide(y.tx), m.tx.ring, ConsumerSide(m.tx), n)
                 && m.buffer == LastOr(y.buffer, y.tx.delivered, m.tx.delivered)
                 && m.tx.delivered == Payloads(y.tx.posted)
            else take == [] && n == 0 && m == y
    ensures m.rx == y.rx && m.tx.prod == y.tx.prod && m.tx.cpc.CIdle? && m.tx.ppc == y.tx.ppc
    ensures m.tx.posted == y.tx.posted
    ensures m.buffer != [] ==>
              (PutSafe(y.rx.ring, rxc.num, rxc.producer, y.rx.prod, m.buffer) <==>
               y.rx.prod.lastAvail != VRING_IDX_NONE)
    ensures if m.buffer != [] && y.rx.prod.lastAvail != VRING_IDX_NONE
            then Play(txc, rxc, y0, moves + take + forward) == Some(z) && Forwarded(rxc, m, z)
            else forward == [] && z == m
  {
    hide Inv, Play, Exec, BatchYields, Put, Enabled, Fresh;
    take, n, m, forward := [], 0, y, [];
    assert moves + take == moves;
    if isPolling {
      take, n, m := TakePlays(txc, rxc, y0, moves, y);
    }
    z := m;
    if m.buffer != [] {
      EchoReached(txc, rxc, y0, moves + take, m);
      NextStep(rxc, m.rx, m.buffer);
      if m.rx.prod.lastAvail != VRING_IDX_NONE {
        PutIsRun(rxc, m.rx, m.buffer);
        ForwardPlays(txc, rxc, m);
        forward := AsForwards(m.buffer);
        PlayAppend(txc, rxc, y0, moves + take, forward);
        z := Play(txc, rxc, m, forward).value;
        assert Payloads(z.rx.posted) == Payloads(y.rx.posted) + [m.buffer];
      }
    }
  }

  // ---- a packet's way to the server and back ----

  function AsClientTakes(run: seq<Action>): seq<Move> {
    if run == [] then [] else [ClientTakes(run[0])] + AsClientTakes(run[1..])
  }

  lemma {:induction false} ClientTakesRuns(txc: Config, rxc: Config, y: System, run: seq<Action>)
    requires AllConsumer(run) && Exec(rxc, y.rx, run).Some?
    ensures Play(txc, rxc, y, AsClientTakes(run)) == Some(y.(rx := Exec(rxc, y.rx, run).value))
    decreases |run|
  {
    hide Enabled, Do;
    if run == [] {
      assert y.(rx := y.rx) == y;
    } else {
      var z := y.(rx := Do(rxc, y.rx, run[0]));
      assert Make(txc, rxc, y, ClientTakes(run[0])) == z;
      ClientTakesRuns(txc, rxc, z, run[1..]);
      PlayCons(txc, rxc, y, ClientTakes(run[0]), AsClientTakes(run[1..]));
    }
  }

  /** The client's undisturbed batch on RX, when it is kicked. */
  lemma KickClientPlays(txc: Config, rxc: Config, y0: System, moves: seq<Move>, y: System)
    returns (more: seq<Move>, n: nat, z: System)
    requires EchoFresh(txc, rxc, y0) && Play(txc, rxc, y0, moves) == Some(y) && y.rx.cpc.CIdle?
    ensures Play(txc, rxc, y0, moves + more) == Some(z)
    ensures BatchYields(y.rx.ring, rxc.num, rxc.consumer, ConsumerSide(y.rx), z.rx.ring, ConsumerSide(z.rx), n)
    ensures z.rx.posted == y.rx.posted && z.rx.delivered == Payloads(y.rx.posted)
    ensures z.rx.cpc.CIdle? && z.rx.ppc == y.rx.ppc && z.rx.prod == y.rx.prod
    ensures z.tx == y.tx && z.buffer == y.buffer && z.forwarded == y.forwarded
  {
    hide Inv, Play, Exec, BatchYields, Fresh, BatchTurns;
    EchoReached(txc, rxc, y0, moves, y);
    ShapeOf(rxc, y.rx);
    n := |y.rx.posted| - y.rx.consumed;
    var t := BatchIsRun(rxc, y.rx, n);
    TurnsByConsumer(n);
    ClientTakesRuns(txc, rxc, y, BatchRun(n));
    more := AsClientTakes(BatchRun(n));
    PlayAppend(txc, rxc, y0, moves, more);
    z := y.(rx := t);
  }

  predicate AllIdle(y: System) {
    y.tx.ppc.PIdle? && y.tx.cpc.CIdle? && y.rx.ppc.PIdle? && y.rx.cpc.CIdle?
  }

  /** The server's turn when it is driven by kicks: the kick makes it take the batch, and the next turn
      of its loop, in which it does not poll, forwards. */
  lemma KickThenPoll(txc: Config, rxc: Config, y0: System, moves: seq<Move>, y: System)
    returns (take: seq<Move>, n: nat, m: System, forward: seq<Move>, z: System)
    requires EchoFresh(txc, rxc, y0) && Play(txc, rxc, y0, moves) == Some(y)
    requires y.tx.cpc.CIdle? && y.rx.ppc.PIdle?
    ensures Play(txc, rxc, y0, moves + take) == Some(m)
    ensures BatchYields(y.tx.ring, txc.num, txc.consumer, ConsumerSide(y.tx), m.tx.ring, ConsumerSide(m.tx), n)
    ensures m.buffer == LastOr(y.buffer, y.tx.delivered, m.tx.delivered) && m.tx.delivered == Payloads(y.tx.posted)
    ensures m.rx == y.rx && m.tx.cpc.CIdle? && m.tx.ppc == y.tx.ppc && m.tx.posted == y.tx.posted
    ensures if m.buffer != [] && y.rx.prod.lastAvail != VRING_IDX_NONE
            then Play(txc, rxc, y0, moves + take + forward) == Some(z) && Forwarded(rxc, m, z)
            else forward == [] && z == m
  {
    hide Play, EchoFresh, BatchYields, Put, PutSafe, Forwarded;
    take, n, m := TakePlays(txc, rxc, y0, moves, y);
    var none, zero, same;
    none, zero, same, forward, z := PollServerPlays(txc, rxc, y0, moves + take, m, false);
    assert moves + take + none == moves + take;
  }

  /** From any reachable state between turns, with both rings drained and something free on each, a
      turn of the client, of the server, kicked or polling, and a kick of the client bring the
      message back: it is the next thing the client receives, and both rings are drained again. */
  lemma MessageComesBack(txc: Config, rxc: Config, y0: System, moves: seq<Move>, y: System, message: seq<byte>,
                         isPolling: bool)
    returns (more: seq<Move>, z: System)
    requires EchoFresh(txc, rxc, y0) && Play(txc, rxc, y0, moves) == Some(y) && AllIdle(y)
    requires y.tx.delivered == Payloads(y.tx.posted) && y.rx.delivered == Payloads(y.rx.posted)
    requires !txc.repaired && y.tx.ring.usedIdx < txc.num
    requires y.tx.prod.lastAvail != VRING_IDX_NONE || y.tx.ring.usedIdx != y.tx.prod.lastUsed
    requires y.rx.prod.lastAvail != VRING_IDX_NONE
    requires message != [] && HDR_LEN + |message| < ETH_PACKET_SIZE
    ensures Play(txc, rxc, y0, moves + more) == Some(z) && AllIdle(z)
    ensures z.tx.delivered == Payloads(z.tx.posted) == y.tx.delivered + [message]
    ensures z.rx.delivered == Payloads(z.rx.posted) == y.rx.delivered + [message]
    ensures z.buffer == []
  {
    hide Inv, Play, EchoFresh, Reclaim, ReclaimSafe, Routines.Put, PutSafe, BatchYields;
    var a, y1 := PollClientPlays(txc, rxc, y0, moves, y, message);
    var b, n, y2, c, y3;
    if isPolling {
      b, n, y2, c, y3 := PollServerPlays(txc, rxc, y0, moves + a, y1, true);
    } else {
      b, n, y2, c, y3 := KickThenPoll(txc, rxc, y0, moves + a, y1);
    }
    assert y2.buffer == message;
    var d, _, y4 := KickClientPlays(txc, rxc, y0, moves + a + b + c, y3);
    more, z := a + b + c + d, y4;
    assert moves + more == moves + a + b + c + d;
  }
}
