/** From the set-up to the demo: what the handshake leaves is where the theorems about the demo and
    about its rings begin. */
module Setup {
  import opened Common
  import opened AddressSpace
  import opened Coherence
  import opened Ring
  import opened Layout
  import opened Server
  import opened Handshake
  import opened Protocol
  import opened Invariant
  import opened Runs
  import opened RunTheorems
  import opened Oversize
  import Echo
  import Session

  /** Ring `i` as new_vring left it in the client's region. */
  ghost predicate NewRing(c: ClientSide, env: Env, r: Shared, i: nat)
    requires Handshake.Ready(c, env) && i < VHOST_CLIENT_VRING_NUM
  {
    && LaidOut(r.desc, c.views[i].base) && |r.avail| == |r.used| == VHOST_VRING_SIZE
    && r.availIdx == 0 && r.usedIdx == 0 && env.usedIdx[c.views[i].shm + USED_OFFSET] == r.usedIdx
    && c.views[i].shm + VHOST_CLIENT_PAGE_SIZE <= |r.mem|
  }

  /** After the handshake the demo is at its beginning, on both rings. */
  lemma DemoBegins(c: ClientSide, env: Env, s: ServerState, tx: Shared, rx: Shared, repaired: bool)
    returns (y0: Echo.System)
    requires Handshake.Ready(c, env) && Mapped(c, env, s) && Agrees(c, env, s, TX) && Agrees(c, env, s, RX)
    requires NewRing(c, env, tx, TX) && NewRing(c, env, rx, RX)
    ensures Echo.EchoFresh(ConfigOf(c, s, TX, repaired), ConfigOf(c, s, RX, repaired), y0)
    ensures y0.tx.ring == tx && y0.rx.ring == rx
  {
    hide Mirrors, Agrees, Handshake.Ready, Fresh, LaidOut, ConfigOf;
    var t := HandshakeEstablishes(c, env, s, tx, TX, repaired);
    var r := HandshakeEstablishes(c, env, s, rx, RX, repaired);
    y0 := Echo.System(t, r, [], []);
  }

  /** Whatever happens after the set-up, the client receives an order-preserving selection of what it
      has sent. */
  ghost predicate EchoesOnly(txc: Config, rxc: Config, y0: Echo.System) {
    forall moves, y :: Echo.Play(txc, rxc, y0, moves) == Some(y) ==>
      && |y.rx.delivered| <= |y.forwarded|
      && Echo.Picks(y.rx.delivered, Echo.ClientSent(moves), y.forwarded[..|y.rx.delivered|])
  }

  lemma FreshEchoes(txc: Config, rxc: Config, y0: Echo.System)
    requires Echo.EchoFresh(txc, rxc, y0)
    ensures EchoesOnly(txc, rxc, y0)
  {
    hide Echo.EchoFresh, Echo.Play, Echo.Picks;
    forall moves, y | Echo.Play(txc, rxc, y0, moves) == Some(y)
      ensures |y.rx.delivered| <= |y.forwarded|
      ensures Echo.Picks(y.rx.delivered, Echo.ClientSent(moves), y.forwarded[..|y.rx.delivered|])
    {
      Echo.EchoSafety(txc, rxc, y0, moves, y);
    }
  }

  /** The whole set-up as bytes on a socket, and what follows from it for every later play. */
  method Start(c: ClientSide, env: Env, sock: int, ghost tx: Shared, ghost rx: Shared, ghost repaired: bool)
    returns (server: VhostServer, ghost y0: Echo.System)
    requires Handshake.Ready(c, env) && LandsApart(c, env) && NewRing(c, env, tx, TX) && NewRing(c, env, rx, RX)
    requires forall i :: 0 <= i < VHOST_CLIENT_VRING_NUM ==> c.kickfds[i] > 0 && c.callfds[i] > 0
    ensures server.Valid() && Mapped(c, env, server.Val())
    ensures !server.isPolling && server.kicks == [c.kickfds[1]]
    ensures var txc, rxc := ConfigOf(c, server.Val(), TX, repaired), ConfigOf(c, server.Val(), RX, repaired);
            Echo.EchoFresh(txc, rxc, y0) && EchoesOnly(txc, rxc, y0)
    ensures y0.tx.ring == tx && y0.rx.ring == rx
  {
    hide Agrees, Addressable, ViewsApart, Mirrors, NewRing, Echo.EchoFresh, EchoesOnly, LandsApart;
    var features;
    server, features := Session.Connect(c, env, sock);
    y0 := DemoBegins(c, env, server.Val(), tx, rx, repaired);
    FreshEchoes(ConfigOf(c, server.Val(), TX, repaired), ConfigOf(c, server.Val(), RX, repaired), y0);
  }

  // ---- the largest packets, on the rings the handshake sets up ----

  /** Whatever put_vring accepts stays in the ring's page, whichever descriptor it goes to and however
      long the session has run; and of the pending packets it can harm only the header of the one in
      the next descriptor, by bytes that are not zero. */
  lemma OverrunInPage(c: ClientSide, env: Env, s: ServerState, i: nat, repaired: bool, s0: State, run: seq<Action>,
                      t: State, payload: seq<byte>)
    requires Handshake.Ready(c, env) && Mapped(c, env, s) && i < VHOST_CLIENT_VRING_NUM
    requires ReachedBy(ConfigOf(c, s, i, repaired), s0, run, t)
    requires LaidOut(s0.ring.desc, c.views[i].base) && c.views[i].shm + VHOST_CLIENT_PAGE_SIZE <= |s0.ring.mem|
    requires t.ppc.PIdle? && t.prod.lastAvail != VRING_IDX_NONE && |payload| <= BUFFER_SIZE
    ensures var cfg, a := ConfigOf(c, s, i, repaired), t.prod.lastAvail;
            && Shaped(t.ring, VHOST_VRING_SIZE) && a < |cfg.buf| && Roomy(cfg, t.ring, a, payload)
            && (AllSpared(cfg, t, a, payload) <==> OverrunZero(payload) || a + 1 !in Unconsumed(cfg, t))
  {
    hide Inv, Exec, Fresh, Mirrors, Addressable, ViewsApart, BufferAt, AllSpared, OverrunZero, Unconsumed, FreeList;
    hide Permutes, Offsets;
    var cfg, a, from := ConfigOf(c, s, i, repaired), t.prod.lastAvail, c.views[i].shm + VRING_BYTES;
    ReachedInv(cfg, s0, run, t);
    AddressesStay(cfg, s0, run);
    IdleOwned(cfg, t);
    PendingOthers(cfg, t);
    assert t.ring.desc[a].addr == s0.ring.desc[a].addr == BufferAddr(c.views[i].base, a);
    BufferReached(c, env, s, i, a, HDR_LEN + |payload|);
    assert cfg.buf[a] == from + BUFFER_SIZE * a;
    assert Roomy(cfg, t.ring, a, payload);
    AllSparedIff(cfg, t, a, payload, from);
    NextPending(cfg, t, a + 1);
  }

  /** What is pending, as the ring tells it. */
  lemma NextPending(cfg: Config, s: State, d: nat)
    requires Inv(cfg, s)
    ensures Shaped(s.ring, cfg.num) && s.consumed <= |s.posted|
    ensures d !in Unconsumed(cfg, s) <==> forall k :: s.consumed <= k < |s.posted| ==> s.posted[k].id != d
  {
    hide AvailHolds, UsedHolds, AllCarried, AllFit, Addressed, FreeList, ValidNum, Slot, Wrap16, Permutes, Unconsumed;
    UnconsumedIs(cfg, s);
    var ids := Ids(s.posted[s.consumed..]);
    forall k | s.consumed <= k < |s.posted| ensures s.posted[k].id in ids {
      assert ids[k - s.consumed] == s.posted[k].id;
    }
    if d in ids {
      var j :| 0 <= j < |ids| && ids[j] == d;
      assert s.posted[s.consumed + j].id == d;
    }
  }

  lemma PendingOthers(cfg: Config, s: State)
    requires Inv(cfg, s) && s.ppc.PIdle? && s.prod.lastAvail < cfg.num
    ensures s.consumed <= |s.posted| && |cfg.buf| == cfg.num
    ensures forall k :: s.consumed <= k < |s.posted| ==> s.posted[k].id < cfg.num && s.posted[k].id != s.prod.lastAvail
  {
    hide AvailHolds, UsedHolds, AllCarried, AllFit, Addressed, ValidNum, Slot, Wrap16, Permutes, ProducerAt, ConsumerAt;
    OwnedBelow(s, cfg.num);
    IdleOwned(cfg, s);
    OwnedApart(s, cfg.num);
  }
}
