/** A server takes over from another in the middle of a session: the base is fetched from one and
    given to the other, and the ring goes on. */
module Resume {
  import opened Common
  import opened AddressSpace
  import opened Coherence
  import opened Ring
  import opened Layout
  import opened Server
  import opened Handshake
  import opened Protocol
  import opened Invariant
  import opened Runs
  import opened RunTheorems

  /** The invariant does not care which processes take part, if they find the same buffers. */
  lemma OtherProcesses(cfg: Config, s: State, p: Process, q: Process)
    requires Inv(cfg, s) && Addressed(cfg.(producer := p, consumer := q), s.ring.desc, |s.ring.mem|)
    ensures Inv(cfg.(producer := p, consumer := q), s)
  {
    hide Addressed, AvailHolds, UsedHolds, AllCarried, AllFit, FreeList, Permutes, Slot, Wrap16;
  }

  /** Any server that maps the client's memory finds the buffers of a ring in use. */
  lemma FindsBuffers(c: ClientSide, env: Env, former: ServerState, latter: ServerState, i: nat, repaired: bool,
                     s0: State, run: seq<Action>, s: State)
    requires Handshake.Ready(c, env) && Mapped(c, env, former) && Mapped(c, env, latter) && i < VHOST_CLIENT_VRING_NUM
    requires ReachedBy(ConfigOf(c, former, i, repaired), s0, run, s) && LaidOut(s0.ring.desc, c.views[i].base)
    ensures Inv(ConfigOf(c, latter, i, repaired), s)
  {
    hide Inv, Exec, Fresh, Mirrors, Addressable, ViewsApart, BufferAt, Offsets;
    var cfg, cfg2 := ConfigOf(c, former, i, repaired), ConfigOf(c, latter, i, repaired);
    ReachedInv(cfg, s0, run, s);
    AddressesStay(cfg, s0, run);
    KnownBuffers(cfg, s);
    forall k | 0 <= k < VHOST_VRING_SIZE
      ensures BufferAt(cfg2.producer, s.ring.desc[k].addr, cfg2.buf[k], BUFFER_SIZE)
      ensures BufferAt(cfg2.consumer, s.ring.desc[k].addr, cfg2.buf[k], BUFFER_SIZE)
    {
      BufferReached(c, env, latter, i, k, BUFFER_SIZE);
      assert s0.ring.desc[k].addr == BufferAddr(c.views[i].base, k);
    }
    OtherProcesses(cfg, s, cfg2.producer, cfg2.consumer);
  }

  lemma KnownBuffers(cfg: Config, s: State)
    requires Inv(cfg, s)
    ensures |s.ring.desc| == |cfg.buf| == cfg.num
    ensures forall i :: 0 <= i < cfg.num ==> cfg.buf[i] + BUFFER_SIZE <= |s.ring.mem|
  {
    hide AvailHolds, UsedHolds, AllCarried, AllFit, FreeList, Permutes, Slot, Wrap16, BufferAt, Counted;
  }

  /** The ring as a server finds it that takes over TX, of which it is the consumer. */
  function TakenOver(s: State, u: ServerState): State
    requires WellFormed(u)
  {
    s.(cons := Cursors(u.vrings[TX].lastAvail, u.vrings[TX].lastUsed), cpc := CIdle)
  }

  /** A session that was run with one server is taken over by another, which maps the same memory
      elsewhere, is given the base that the first one answers and finds used->idx in the shared
      ring. The descriptors of TX are conserved exactly when nothing completed was unpublished;
      between batches the ring is as it was, and every later run with the other server keeps
      delivering what the client sends, in order, as if there had been one session. */
  lemma ServerTakesOver(c: ClientSide, env: Env, former: ServerState, latter: ServerState, repaired: bool,
                        s0: State, run: seq<Action>, s: State) returns (u: ServerState)
    requires Handshake.Ready(c, env) && Mapped(c, env, former) && Mapped(c, env, latter)
    requires ReachedBy(ConfigOf(c, former, TX, repaired), s0, run, s) && LaidOut(s0.ring.desc, c.views[TX].base)
    requires s.cons == Cursors(former.vrings[TX].lastAvail, former.vrings[TX].lastUsed)
    requires env.usedIdx[c.views[TX].shm + USED_OFFSET] == s.ring.usedIdx
    ensures Handle(env, former, GetVringBase(TX), []).1.Some?
    ensures var base := Handle(env, former, GetVringBase(TX), []).1.value;
            HandleAll(env, latter, ResumeVring(c, env, TX, base)) == Some(u)
    ensures WellFormed(u) && Shaped(s.ring, VHOST_VRING_SIZE)
    ensures Permutes(Parts(ConfigOf(c, u, TX, repaired), TakenOver(s, u)), VHOST_VRING_SIZE)
            <==> Unpublished(ConfigOf(c, former, TX, repaired), s) == []
    ensures s.cpc.CIdle? ==> TakenOver(s, u) == s && GoesOn(ConfigOf(c, u, TX, repaired), TakenOver(s, u), run)
  {
    hide Inv, Exec, Fresh, Mirrors, Addressable, ViewsApart, HandleAll, Handle, LaidOut, ResumeVring, Permutes, Parts;
    hide Unpublished, Offsets, GoesOn;
    u := BaseHandsOver(c, env, former, latter, TX);
    var cfg, cfg2 := ConfigOf(c, former, TX, repaired), ConfigOf(c, u, TX, repaired);
    StopResume(cfg, s0, run, s);
    assert TakenOver(s, u) == Restart(s);
    SamePlaces(c, former, u, TX, repaired, s, TakenOver(s, u));
    if s.cpc.CIdle? {
      FindsBuffers(c, env, former, u, TX, repaired, s0, run, s);
      RunGoesOn(cfg, cfg2, s0, run, s);
    }
  }

  lemma SamePlaces(c: ClientSide, former: ServerState, u: ServerState, i: nat, repaired: bool, s: State, v: State)
    requires WellFormed(former) && WellFormed(u) && i < |c.views| && Shaped(s.ring, VHOST_VRING_SIZE)
    requires v.ring == s.ring
    ensures ConfigOf(c, former, i, repaired).num == ConfigOf(c, u, i, repaired).num == VHOST_VRING_SIZE
    ensures Parts(ConfigOf(c, former, i, repaired), v) == Parts(ConfigOf(c, u, i, repaired), v)
  {
    hide UsedIds, AvailIds, Walk, Gap, Offsets;
  }

  /** Every run from `s` on delivers, in order, what is accepted in it and was before in `run`. */
  ghost predicate GoesOn(cfg: Config, s: State, run: seq<Action>) {
    forall later, t :: Exec(cfg, s, later) == Some(t) ==>
      && t.delivered <= Accepted(run + later)
      && (t.cons.lastAvail == t.ring.availIdx && InFlight(t) == [] ==> t.delivered == Accepted(run + later))
  }

  lemma RunGoesOn(cfg: Config, cfg2: Config, s0: State, run: seq<Action>, s: State)
    requires ReachedBy(cfg, s0, run, s) && Inv(cfg2, s)
    ensures GoesOn(cfg2, s, run)
  {
    hide Exec, Inv, ReachedBy, InFlight;
    forall later, t | Exec(cfg2, s, later) == Some(t)
      ensures t.delivered <= Accepted(run + later)
      ensures t.cons.lastAvail == t.ring.availIdx && InFlight(t) == [] ==> t.delivered == Accepted(run + later)
    {
      SentSoFar(cfg, s0, run, s);
      RunAccepts(cfg2, s, later);
      AcceptedAppend(run, later);
      RunKeeps(cfg2, s, later);
      DeliveredSoFar(cfg2, t, Accepted(run + later));
    }
  }

  // ---- RX, of which the server is the producer ----

  /** The ring as a server finds it that takes over RX: base and used->idx become the cursors of a
      producer. */
  function TakenOverRx(s: State, u: ServerState): State
    requires WellFormed(u)
  {
    s.(prod := Cursors(u.vrings[RX].lastAvail, u.vrings[RX].lastUsed), ppc := PIdle)
  }

  /** Taking over RX conserves the descriptors exactly when the former server had no put under way and
      had reclaimed everything published, since what it had not is passed over. Then the ring is as it
      was, and every later run goes on. */
  lemma ServerTakesOverRx(c: ClientSide, env: Env, former: ServerState, latter: ServerState, repaired: bool,
                          s0: State, run: seq<Action>, s: State) returns (u: ServerState)
    requires Handshake.Ready(c, env) && Mapped(c, env, former) && Mapped(c, env, latter)
    requires ReachedBy(ConfigOf(c, former, RX, repaired), s0, run, s) && LaidOut(s0.ring.desc, c.views[RX].base)
    requires s.prod.lastAvail == former.vrings[RX].lastAvail
    requires env.usedIdx[c.views[RX].shm + USED_OFFSET] == s.ring.usedIdx
    ensures Handle(env, former, GetVringBase(RX), []).1.Some?
    ensures var base := Handle(env, former, GetVringBase(RX), []).1.value;
            HandleAll(env, latter, ResumeVring(c, env, RX, base)) == Some(u)
    ensures WellFormed(u) && Shaped(s.ring, VHOST_VRING_SIZE)
    ensures Permutes(Parts(ConfigOf(c, u, RX, repaired), TakenOverRx(s, u)), VHOST_VRING_SIZE)
            <==> Unreclaimed(ConfigOf(c, former, RX, repaired), s) == [] && InHand(s) == []
    ensures Unreclaimed(ConfigOf(c, former, RX, repaired), s) == [] && s.ppc.PIdle? ==>
              TakenOverRx(s, u) == s && GoesOn(ConfigOf(c, u, RX, repaired), TakenOverRx(s, u), run)
  {
    hide Inv, Exec, Fresh, Mirrors, Addressable, ViewsApart, HandleAll, Handle, LaidOut, ResumeVring, Permutes, Parts;
    hide Unreclaimed, Offsets, GoesOn, InHand;
    u := BaseHandsOver(c, env, former, latter, RX);
    var cfg, cfg2, v := ConfigOf(c, former, RX, repaired), ConfigOf(c, u, RX, repaired), TakenOverRx(s, u);
    Conservation(cfg, s0, run, s);
    ReachedInv(cfg, s0, run, s);
    PassedOver(cfg, s, v);
    SamePlaces(c, former, u, RX, repaired, s, v);
    if Unreclaimed(cfg, s) == [] && s.ppc.PIdle? {
      NothingPassedOver(cfg, s);
      FindsBuffers(c, env, former, u, RX, repaired, s0, run, s);
      RunGoesOn(cfg, cfg2, s0, run, s);
    }
  }

  /** With the reclaim cursor on used->idx and nothing in hand those parts are gone, the others stay. */
  lemma PassedOver(cfg: Config, s: State, v: State)
    requires Shaped(s.ring, cfg.num) && Permutes(Parts(cfg, s), cfg.num)
    requires v == s.(prod := Cursors(s.prod.lastAvail, s.ring.usedIdx), ppc := PIdle)
    ensures Permutes(Parts(cfg, v), cfg.num) <==> Unreclaimed(cfg, s) == [] && InHand(s) == []
  {
    hide UsedIds, AvailIds, Walk, Gap, Distinct, Below;
    GapNone(s.ring.usedIdx);
    assert UsedIds(v.ring, cfg.num, s.ring.usedIdx, 0) == [];
    assert Unreclaimed(cfg, v) == [] && InHand(v) == [];
    assert Unpublished(cfg, v) == Unpublished(cfg, s) && Unconsumed(cfg, v) == Unconsumed(cfg, s);
    assert |Parts(cfg, v)| + |Unreclaimed(cfg, s)| + |InHand(s)| == |Parts(cfg, s)|;
    if Unreclaimed(cfg, s) == [] && InHand(s) == [] {
      assert Parts(cfg, v) == Parts(cfg, s);
    }
  }

  lemma NothingPassedOver(cfg: Config, s: State)
    requires Inv(cfg, s) && s.ppc.PIdle? && Unreclaimed(cfg, s) == []
    ensures s.prod.lastUsed == s.ring.usedIdx
  {
    hide AvailHolds, UsedHolds, AllCarried, AllFit, Addressed, FreeList, Permutes, ValidNum, Slot, Wrap16, Unreclaimed;
    UnreclaimedIs(cfg, s);
    ReclaimCursorIs(cfg, s, 0);
    assert |Ids(s.posted[s.reclaimed..s.published])| == 0;
  }
}
