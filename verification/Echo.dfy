/** The demo as a whole: the client sends on TX, the server keeps the last packet it has consumed
    and forwards it on RX, the client consumes RX. */
module Echo {
  import opened Common
  import opened Ring
  import opened Protocol
  import opened Invariant
  import opened Runs
  import opened RunTheorems

  /** `buffer` is the server's private packet, empty when there is none to forward; `forwarded` is
      history: which of the packets consumed from TX each put on RX was. */
  datatype System = System(tx: State, rx: State, buffer: seq<byte>, forwarded: seq<nat>)

  datatype Move =
    | ClientPuts(a: Action)      // put_vring and process_used_vring on TX
    | ClientTakes(a: Action)     // process_avail_vring on RX
    | ServerTakes(a: Action)     // process_avail_vring on TX
    | ServerForwards(a: Action)  // put_vring on RX, from poll_server

  predicate ByProducer(a: Action) {
    a.PutPop? || a.PutFill? || a.PutStore? || a.PutBump? || a.ReclaimBegin? || a.ReclaimCheck? || a.ReclaimOne?
  }

  predicate ByConsumer(a: Action) {
    !ByProducer(a)
  }

  /** The server is one thread: it consumes TX only between puts, and starts a put, of what its
      buffer holds, only between batches; it never reclaims on RX. */
  ghost predicate May(txc: Config, rxc: Config, y: System, m: Move) {
    match m
    case ClientPuts(a) => ByProducer(a) && Enabled(txc, y.tx, a)
    case ClientTakes(a) => ByConsumer(a) && Enabled(rxc, y.rx, a)
    case ServerTakes(a) => ByConsumer(a) && y.rx.ppc.PIdle? && Enabled(txc, y.tx, a)
    case ServerForwards(a) =>
      && (a.PutPop? || a.PutFill? || a.PutStore? || a.PutBump?)
      && (a.PutPop? ==> y.tx.cpc.CIdle? && y.buffer != [] && a.payload == y.buffer)
      && Enabled(rxc, y.rx, a)
  }

  function LastIndex(xs: seq<seq<byte>>): nat {
    if xs == [] then 0 else |xs| - 1
  }

  ghost function Make(txc: Config, rxc: Config, y: System, m: Move): System
    requires May(txc, rxc, y, m)
  {
    match m
    case ClientPuts(a) => y.(tx := Do(txc, y.tx, a))
    case ClientTakes(a) => y.(rx := Do(rxc, y.rx, a))
    case ServerTakes(a) =>
      var t := Do(txc, y.tx, a);
      y.(tx := t,
         buffer := if |t.delivered| > |y.tx.delivered| then t.delivered[|t.delivered| - 1] else y.buffer)
    case ServerForwards(a) =>
      y.(rx := Do(rxc, y.rx, a),
         buffer := if a.PutBump? then [] else y.buffer,
         forwarded := if a.PutPop? then y.forwarded + [LastIndex(y.tx.delivered)] else y.forwarded)
  }

  ghost function Play(txc: Config, rxc: Config, y: System, moves: seq<Move>): Option<System>
    decreases |moves|
  {
    if moves == [] then Some(y)
    else if May(txc, rxc, y, moves[0]) then Play(txc, rxc, Make(txc, rxc, y, moves[0]), moves[1..])
    else None
  }

  /** All payloads a side has given to put_vring, the one under way included. */
  function Sent(s: State): seq<seq<byte>> {
    Payloads(s.posted) + InFlight(s)
  }

  ghost predicate Increasing(xs: seq<nat>, below: nat) {
    && (forall i :: 0 <= i < |xs| ==> xs[i] < below)
    && (forall i, j :: 0 <= i < j < |xs| ==> xs[i] < xs[j])
  }

  /** `part` is what `whole` has at the positions `at`. */
  ghost predicate Picks(part: seq<seq<byte>>, whole: seq<seq<byte>>, at: seq<nat>) {
    && |part| == |at|
    && Increasing(at, |whole|)
    && forall k :: 0 <= k < |at| ==> part[k] == whole[at[k]]
  }

  /** Nothing is waiting, or the packet consumed last is, and has not been forwarded yet. */
  ghost predicate Waiting(y: System) {
    y.buffer != [] ==>
      && HDR_LEN + |y.buffer| < ETH_PACKET_SIZE
      && y.tx.delivered != []
      && y.buffer == y.tx.delivered[|y.tx.delivered| - 1]
      && (y.rx.ppc.PIdle? ==> Increasing(y.forwarded, |y.tx.delivered| - 1))
  }

  ghost predicate EchoInv(txc: Config, rxc: Config, y: System) {
    && Inv(txc, y.tx) && Inv(rxc, y.rx)
    && !y.rx.ppc.ReclaimTest? && !y.rx.ppc.ReclaimFree?
    && Picks(Sent(y.rx), y.tx.delivered, y.forwarded)
    && Waiting(y)
    && (InFlight(y.rx) != [] ==> y.tx.cpc.CIdle?)
    && y.rx.reclaimed == 0
    && (forall k :: 0 <= k < |y.rx.posted| ==> y.rx.posted[k].id == k)
    && (forall k :: 0 <= k < |y.rx.free| ==> y.rx.free[k] == |y.rx.posted| + |InHand(y.rx)| + k)
    && (InHand(y.rx) == [] || InHand(y.rx)[0] == |y.rx.posted|)
  }

  /** What a step of one side leaves alone. */
  lemma ConsumerStepLeaves(cfg: Config, s: State, a: Action)
    requires Enabled(cfg, s, a) && ByConsumer(a)
    ensures var t := Do(cfg, s, a);
            && t.posted == s.posted && t.ppc == s.ppc && t.free == s.free && t.reclaimed == s.reclaimed
            && s.delivered <= t.delivered && |t.delivered| <= |s.delivered| + 1
  {
    hide Packet, Processable;
  }

  lemma ProducerStepLeaves(cfg: Config, s: State, a: Action)
    requires Enabled(cfg, s, a) && ByProducer(a)
    ensures Do(cfg, s, a).delivered == s.delivered && Do(cfg, s, a).cpc == s.cpc
  {
  }

  /** What is delivered is small enough to be forwarded. */
  lemma DeliveredFits(cfg: Config, s: State, k: nat)
    requires Inv(cfg, s) && k < |s.delivered|
    ensures HDR_LEN + |s.delivered[k]| < ETH_PACKET_SIZE
  {
    hide AvailHolds, UsedHolds, AllCarried, Addressed, FreeList, Permutes, WellConfigured, Slot, Wrap16;
    assert s.delivered[k] == s.posted[k].payload;
  }

  lemma PicksMore(part: seq<seq<byte>>, whole: seq<seq<byte>>, more: seq<seq<byte>>, at: seq<nat>)
    requires Picks(part, whole, at) && whole <= more
    ensures Picks(part, more, at)
  {
  }

  lemma PicksLast(part: seq<seq<byte>>, whole: seq<seq<byte>>, at: seq<nat>)
    requires Picks(part, whole, at) && whole != [] && Increasing(at, |whole| - 1)
    ensures Picks(part + [whole[|whole| - 1]], whole, at + [|whole| - 1])
  {
  }

  lemma ClientPutsKeeps(txc: Config, rxc: Config, y: System, a: Action)
    requires EchoInv(txc, rxc, y) && May(txc, rxc, y, ClientPuts(a))
    ensures EchoInv(txc, rxc, Make(txc, rxc, y, ClientPuts(a)))
  {
    hide Inv, Enabled, Do, Increasing, Picks;
    StepKeeps(txc, y.tx, a);
    ProducerStepLeaves(txc, y.tx, a);
  }

  lemma ClientTakesKeeps(txc: Config, rxc: Config, y: System, a: Action)
    requires EchoInv(txc, rxc, y) && May(txc, rxc, y, ClientTakes(a))
    ensures EchoInv(txc, rxc, Make(txc, rxc, y, ClientTakes(a)))
  {
    hide Inv, Enabled, Do, Increasing, Picks;
    StepKeeps(rxc, y.rx, a);
    ConsumerStepLeaves(rxc, y.rx, a);
  }

  lemma ServerTakesKeeps(txc: Config, rxc: Config, y: System, a: Action)
    requires EchoInv(txc, rxc, y) && May(txc, rxc, y, ServerTakes(a))
    ensures EchoInv(txc, rxc, Make(txc, rxc, y, ServerTakes(a)))
  {
    hide Inv, Enabled, Do, Increasing, Picks;
    var t := Do(txc, y.tx, a);
    StepKeeps(txc, y.tx, a);
    ConsumerStepLeaves(txc, y.tx, a);
    PicksMore(Sent(y.rx), y.tx.delivered, t.delivered, y.forwarded);
    if |t.delivered| > |y.tx.delivered| {
      DeliveredFits(txc, t, |t.delivered| - 1);
      assert Increasing(y.forwarded, |y.tx.delivered|) by {
        PicksIncrease(Sent(y.rx), y.tx.delivered, y.forwarded);
      }
    }
  }

  lemma PicksIncrease(part: seq<seq<byte>>, whole: seq<seq<byte>>, at: seq<nat>)
    requires Picks(part, whole, at)
    ensures Increasing(at, |whole|)
  {
  }

  lemma ForwardPopKeeps(txc: Config, rxc: Config, y: System)
    requires EchoInv(txc, rxc, y) && May(txc, rxc, y, ServerForwards(PutPop(y.buffer)))
    ensures EchoInv(txc, rxc, Make(txc, rxc, y, ServerForwards(PutPop(y.buffer))))
  {
    hide Inv, Increasing, Picks, Payloads;
    var a := PutPop(y.buffer);
    StepKeeps(rxc, y.rx, a);
    NextStep(rxc, y.rx, y.buffer);
    PutPopTakesHead(rxc, y.rx);
    PicksLast(Sent(y.rx), y.tx.delivered, y.forwarded);
    assert Sent(Do(rxc, y.rx, a)) == Sent(y.rx) + [y.buffer];
  }

  lemma PutPopTakesHead(cfg: Config, s: State)
    requires Inv(cfg, s) && s.prod.lastAvail < cfg.num
    ensures s.free != [] && s.prod.lastAvail == s.free[0]
  {
    hide AvailHolds, UsedHolds, AllCarried, AllFit, Addressed, Permutes, WellConfigured, Slot, Wrap16;
  }

  lemma ForwardRestKeeps(txc: Config, rxc: Config, y: System, a: Action)
    requires EchoInv(txc, rxc, y) && May(txc, rxc, y, ServerForwards(a)) && !a.PutPop?
    ensures EchoInv(txc, rxc, Make(txc, rxc, y, ServerForwards(a)))
  {
    hide Inv, Increasing, Picks, Payloads;
    StepKeeps(rxc, y.rx, a);
    StepAccepts(rxc, y.rx, a);
    assert Accepted([a]) == [] + Accepted([]);
    var z := Do(rxc, y.rx, a);
    assert Sent(z) == Sent(y.rx);
    assert a.PutBump? ==> z.posted == y.rx.posted + [Post(y.rx.ppc.a, y.rx.ppc.payload)];
    assert y.rx.ppc.Stored? ==> InHand(y.rx)[0] == y.rx.ppc.a;
  }

  lemma MoveKeeps(txc: Config, rxc: Config, y: System, m: Move)
    requires EchoInv(txc, rxc, y) && May(txc, rxc, y, m)
    ensures EchoInv(txc, rxc, Make(txc, rxc, y, m))
  {
    hide EchoInv, Make;
    match m
    case ClientPuts(a) => ClientPutsKeeps(txc, rxc, y, a);
    case ClientTakes(a) => ClientTakesKeeps(txc, rxc, y, a);
    case ServerTakes(a) => ServerTakesKeeps(txc, rxc, y, a);
    case ServerForwards(a) =>
      if a.PutPop? {
        ForwardPopKeeps(txc, rxc, y);
      } else {
        ForwardRestKeeps(txc, rxc, y, a);
      }
  }

  lemma {:induction false} PlayKeeps(txc: Config, rxc: Config, y: System, moves: seq<Move>)
    requires EchoInv(txc, rxc, y) && Play(txc, rxc, y, moves).Some?
    ensures EchoInv(txc, rxc, Play(txc, rxc, y, moves).value)
    decreases |moves|
  {
    hide EchoInv, Make, May;
    if moves != [] {
      MoveKeeps(txc, rxc, y, moves[0]);
      PlayKeeps(txc, rxc, Make(txc, rxc, y, moves[0]), moves[1..]);
    }
  }

  // ---- the whole run ----

  ghost predicate EchoFresh(txc: Config, rxc: Config, y: System) {
    Fresh(txc, y.tx) && Fresh(rxc, y.rx) && y.buffer == [] && y.forwarded == []
  }

  /** What the client asked put_vring to send on TX, in order. */
  function ClientSent(moves: seq<Move>): seq<seq<byte>> {
    if moves == [] then []
    else (if moves[0].ClientPuts? && moves[0].a.PutPop? then [moves[0].a.payload] else []) + ClientSent(moves[1..])
  }

  lemma MoveSends(txc: Config, rxc: Config, y: System, m: Move)
    requires EchoInv(txc, rxc, y) && May(txc, rxc, y, m)
    ensures Sent(Make(txc, rxc, y, m).tx) == Sent(y.tx) + ClientSent([m])
  {
    hide EchoInv, Enabled, Do, InFlight;
    assert ClientSent([m]) == (if m.ClientPuts? && m.a.PutPop? then [m.a.payload] else []) + ClientSent([]);
    if m.ClientPuts? || m.ServerTakes? {
      StepAccepts(txc, y.tx, m.a);
      assert Accepted([m.a]) == (if m.a.PutPop? then [m.a.payload] else []) + Accepted([]);
    }
  }

  lemma {:induction false} PlaySends(txc: Config, rxc: Config, y: System, moves: seq<Move>)
    requires EchoInv(txc, rxc, y) && Play(txc, rxc, y, moves).Some?
    ensures Sent(Play(txc, rxc, y, moves).value.tx) == Sent(y.tx) + ClientSent(moves)
    decreases |moves|
  {
    hide EchoInv, Make, May, Sent;
    if moves != [] {
      MoveKeeps(txc, rxc, y, moves[0]);
      MoveSends(txc, rxc, y, moves[0]);
      PlaySends(txc, rxc, Make(txc, rxc, y, moves[0]), moves[1..]);
      assert [moves[0]][1..] == [];
      assert ClientSent(moves) == ClientSent([moves[0]]) + ClientSent(moves[1..]);
    }
  }

  /** Whatever the interleaving, the client gets on RX an order-preserving selection of what it sent
      on TX, no packet twice: what it has received is a prefix of what the server forwarded, the
      server forwarded only packets it had consumed, in order and each once, and it had consumed
      a prefix of what the client sent. The k-th put on RX uses descriptor k. */
  lemma EchoSafety(txc: Config, rxc: Config, y0: System, moves: seq<Move>, y: System)
    requires EchoFresh(txc, rxc, y0) && Play(txc, rxc, y0, moves) == Some(y)
    ensures y.rx.delivered <= Sent(y.rx)
    ensures Picks(Sent(y.rx), y.tx.delivered, y.forwarded)
    ensures y.tx.delivered <= ClientSent(moves)
    ensures |y.rx.delivered| <= |y.forwarded|
    ensures Picks(y.rx.delivered, ClientSent(moves), y.forwarded[..|y.rx.delivered|])
    ensures forall k :: 0 <= k < |y.rx.posted| ==> y.rx.posted[k].id == k
  {
    hide Inv, Play, Picks, FreshRing, Addressed, WellConfigured, Waiting, ClientSent;
    EchoStarts(txc, rxc, y0);
    PlayKeeps(txc, rxc, y0, moves);
    PlaySends(txc, rxc, y0, moves);
    assert Sent(y0.tx) == [] && Sent(y.tx) == ClientSent(moves);
    DeliveredOfSent(txc, y.tx);
    DeliveredOfSent(rxc, y.rx);
    PicksFirst(Sent(y.rx), y.tx.delivered, y.forwarded, y.rx.delivered);
    PicksMore(y.rx.delivered, y.tx.delivered, Sent(y.tx), y.forwarded[..|y.rx.delivered|]);
  }

  lemma EchoStarts(txc: Config, rxc: Config, y0: System)
    requires EchoFresh(txc, rxc, y0)
    ensures EchoInv(txc, rxc, y0)
  {
    hide Inv, FreshRing, Addressed;
    FreshHolds(txc, y0.tx);
    FreshHolds(rxc, y0.rx);
    assert Sent(y0.rx) == [];
  }

  lemma DeliveredOfSent(cfg: Config, s: State)
    requires Inv(cfg, s)
    ensures s.delivered <= Sent(s)
  {
    hide AvailHolds, UsedHolds, AllCarried, AllFit, Addressed, FreeList, Permutes, WellConfigured, Slot, Wrap16;
    assert Payloads(s.posted)[..s.consumed] == Payloads(s.posted[..s.consumed]);
  }

  lemma PicksFirst(part: seq<seq<byte>>, whole: seq<seq<byte>>, at: seq<nat>, first: seq<seq<byte>>)
    requires Picks(part, whole, at) && first <= part
    ensures |first| <= |at| && Picks(first, whole, at[..|first|])
  {
  }

  /** When a forward starts, it is the packet consumed last that is forwarded, for the first time. */
  lemma ForwardsLast(txc: Config, rxc: Config, y0: System, moves: seq<Move>, y: System, payload: seq<byte>)
    requires EchoFresh(txc, rxc, y0) && Play(txc, rxc, y0, moves) == Some(y)
    requires May(txc, rxc, y, ServerForwards(PutPop(payload)))
    ensures y.tx.delivered != [] && payload == y.tx.delivered[|y.tx.delivered| - 1]
    ensures |y.tx.delivered| - 1 !in y.forwarded
    ensures y.rx.prod.lastAvail == |y.rx.posted|
  {
    hide Inv, Play, Picks, Fresh, Sent;
    EchoStarts(txc, rxc, y0);
    PlayKeeps(txc, rxc, y0, moves);
    PutPopTakesHead(rxc, y.rx);
  }

  /** A forward is never refused for its size: short of descriptors is all the server can be. */
  lemma ForwardAccepted(txc: Config, rxc: Config, y0: System, moves: seq<Move>, y: System)
    requires EchoFresh(txc, rxc, y0) && Play(txc, rxc, y0, moves) == Some(y)
    requires y.buffer != [] && y.tx.cpc.CIdle? && y.rx.ppc.PIdle?
    ensures May(txc, rxc, y, ServerForwards(PutPop(y.buffer))) <==> |y.rx.posted| < rxc.num
  {
    hide Inv, Play, Picks, Fresh, Sent;
    EchoStarts(txc, rxc, y0);
    PlayKeeps(txc, rxc, y0, moves);
    NextStep(rxc, y.rx, y.buffer);
    FreeCount(rxc, y.rx);
  }
}
