/** Delivery, loop bounds, slot safety, progress and lifetime over whole runs. */
module RunTheorems {
  import opened Common
  import opened AddressSpace
  import opened Ring
  import opened Protocol
  import opened Invariant
  import opened Runs

  function Count(run: seq<Action>, a: Action): nat {
    if run == [] then 0 else (if run[0] == a then 1 else 0) + Count(run[1..], a)
  }

  // ---- delivery in order, exactly once ----

  /** What the run asked put_vring to send, in order. */
  function Accepted(run: seq<Action>): seq<seq<byte>> {
    if run == [] then []
    else (if run[0].PutPop? then [run[0].payload] else []) + Accepted(run[1..])
  }

  /** The payload of a put that has started and not yet published. */
  function InFlight(s: State): seq<seq<byte>> {
    match s.ppc
    case Popped(_, payload) => [payload]
    case Filled(_, payload) => [payload]
    case Stored(_, payload) => [payload]
    case _ => []
  }

  lemma {:induction false} AcceptedAppend(a: seq<Action>, b: seq<Action>)
    ensures Accepted(a + b) == Accepted(a) + Accepted(b)
    decreases |a|
  {
    if a == [] {
      assert a + b == b;
    } else {
      assert (a + b)[1..] == a[1..] + b;
      AcceptedAppend(a[1..], b);
    }
  }

  lemma AcceptedCons(a: Action, rest: seq<Action>)
    ensures Accepted([a] + rest) == (if a.PutPop? then [a.payload] else []) + Accepted(rest)
  {
    assert ([a] + rest)[1..] == rest;
  }

  lemma AcceptedNone()
    ensures Accepted([]) == []
  {
  }

  lemma StepAccepts(cfg: Config, s: State, a: Action)
    requires Enabled(cfg, s, a)
    ensures var t := Do(cfg, s, a);
            Payloads(t.posted) + InFlight(t) == Payloads(s.posted) + InFlight(s) + Accepted([a])
  {
    var t := Do(cfg, s, a);
    assert Accepted([a]) == (if a.PutPop? then [a.payload] else []) + Accepted([]);
    if a == PutBump {
      assert Payloads(t.posted) == Payloads(s.posted) + [s.ppc.payload];
    }
  }

  lemma {:induction false} RunAccepts(cfg: Config, s: State, run: seq<Action>)
    requires Exec(cfg, s, run).Some?
    ensures var t := Exec(cfg, s, run).value;
            Payloads(t.posted) + InFlight(t) == Payloads(s.posted) + InFlight(s) + Accepted(run)
    decreases |run|
  {
    hide Enabled, Do, InFlight;
    if run != [] {
      StepAccepts(cfg, s, run[0]);
      RunAccepts(cfg, Do(cfg, s, run[0]), run[1..]);
      assert Accepted([run[0]]) == (if run[0].PutPop? then [run[0].payload] else []) + Accepted([]);
      assert Accepted(run) == Accepted([run[0]]) + Accepted(run[1..]);
    }
  }

  /** At every moment of every interleaving what avail_handler has been given is a prefix of what
      was accepted by put_vring; it is all of it once nothing is in flight and the consumer's
      empty test succeeds. No header was ever complained about. */
  lemma FifoExactlyOnce(cfg: Config, s0: State, run: seq<Action>, s: State)
    requires ReachedBy(cfg, s0, run, s)
    ensures s.delivered <= Accepted(run)
    ensures s.cons.lastAvail == s.ring.availIdx && InFlight(s) == [] ==> s.delivered == Accepted(run)
    ensures s.complaints == 0
  {
    hide Exec, AvailHolds, UsedHolds, AllCarried, Addressed, WellConfigured, FreeList, Permutes, Slot, Wrap16;
    ReachedInv(cfg, s0, run, s);
    SentSoFar(cfg, s0, run, s);
    DeliveredSoFar(cfg, s, Accepted(run));
  }

  lemma SentSoFar(cfg: Config, s0: State, run: seq<Action>, s: State)
    requires ReachedBy(cfg, s0, run, s)
    ensures Accepted(run) == Payloads(s.posted) + InFlight(s)
  {
    hide Exec, FreshRing, Addressed, WellConfigured;
    RunAccepts(cfg, s0, run);
    assert Payloads(s0.posted) == [] && InFlight(s0) == [];
  }

  lemma DeliveredSoFar(cfg: Config, s: State, sent: seq<seq<byte>>)
    requires Inv(cfg, s) && sent == Payloads(s.posted) + InFlight(s)
    ensures s.delivered <= sent
    ensures s.cons.lastAvail == s.ring.availIdx && InFlight(s) == [] ==> s.delivered == sent
  {
    hide AvailHolds, UsedHolds, AllCarried, Addressed, WellConfigured, FreeList, Permutes, Slot, Wrap16;
    BatchTestExact(cfg, s);
    assert Payloads(s.posted)[..s.consumed] == Payloads(s.posted[..s.consumed]);
  }

  // ---- every loop ends although the other side goes on ----

  /** How many turns each loop has made, as seen in the counters. */
  lemma StepCounts(cfg: Config, s: State, a: Action)
    requires Enabled(cfg, s, a)
    ensures var t := Do(cfg, s, a);
            && t.consumed == s.consumed + Count([a], BatchOne)
            && t.reclaimed == s.reclaimed + Count([a], ReclaimOne)
            && (a != BatchPublish ==> t.published == s.published)
            && |t.posted| + |InHand(t)| == |s.posted| + |InHand(s)| + |Accepted([a])|
            && (a != BatchPublish ==> Count([a], BatchCheck) + Compared(s) == Count([a], BatchOne) + Compared(t))
  {
    hide Fill, StoreSlot, BumpAvail, FreeDesc, Turn, Packet, Processable, Slot, Wrap16, Count, Accepted;
    CountOne(a, BatchOne);
    CountOne(a, ReclaimOne);
    CountOne(a, BatchCheck);
    AcceptedCons(a, []);
    AcceptedNone();
    assert [a] + [] == [a];
  }

  lemma CountOne(a: Action, b: Action)
    ensures Count([a], b) == if a == b then 1 else 0
  {
  }

  function Compared(s: State): nat {
    if s.cpc.BatchWork? || s.cpc.BatchExit? then 1 else 0
  }

  lemma {:induction false} RunCounts(cfg: Config, s: State, run: seq<Action>)
    requires Exec(cfg, s, run).Some?
    ensures var t := Exec(cfg, s, run).value;
            && t.consumed == s.consumed + Count(run, BatchOne)
            && t.reclaimed == s.reclaimed + Count(run, ReclaimOne)
            && (BatchPublish !in run ==> t.published == s.published)
            && |t.posted| + |InHand(t)| == |s.posted| + |InHand(s)| + |Accepted(run)|
            && (BatchPublish !in run ==>
                  Count(run, BatchCheck) + Compared(s) == Count(run, BatchOne) + Compared(t))
    decreases |run|
  {
    hide Enabled, Do, InHand, Compared;
    if run != [] {
      StepCounts(cfg, s, run[0]);
      RunCounts(cfg, Do(cfg, s, run[0]), run[1..]);
      CountSplit(run, BatchOne);
      CountSplit(run, ReclaimOne);
      CountSplit(run, BatchCheck);
      assert Accepted([run[0]]) == (if run[0].PutPop? then [run[0].payload] else []) + Accepted([]);
    }
  }

  lemma CountSplit(run: seq<Action>, a: Action)
    requires run != []
    ensures Count(run, a) == Count([run[0]], a) + Count(run[1..], a)
  {
  }

  /** One call of process_avail_vring handles at most `num` descriptors and tests at most
      num + 1 times, whatever the producer puts and reclaims meanwhile: the published part of
      the used ring stands still until the loop is left. */
  lemma BatchTerminates(cfg: Config, s0: State, run: seq<Action>, s: State, during: seq<Action>)
    requires ReachedBy(cfg, s0, run, s) && s.cpc.BatchTest? && s.cpc.count == 0
    requires Exec(cfg, s, during).Some? && BatchPublish !in during
    ensures Count(during, BatchOne) <= cfg.num
    ensures Count(during, BatchCheck) <= cfg.num + 1
  {
    hide Exec, AvailHolds, UsedHolds, AllCarried, AllFit, Addressed, WellConfigured, FreeList, Permutes, Slot, Wrap16;
    var t := Exec(cfg, s, during).value;
    ReachedInv(cfg, s0, run, s);
    RunKeeps(cfg, s, during);
    RunCounts(cfg, s, during);
    OwnedBelow(t, cfg.num);
  }

  /** One call of process_used_vring frees at most `num` descriptors, whatever the consumer
      completes meanwhile. */
  lemma ReclaimBounded(cfg: Config, s0: State, run: seq<Action>, s: State, during: seq<Action>)
    requires ReachedBy(cfg, s0, run, s) && s.ppc.ReclaimTest?
    requires Exec(cfg, s, during).Some? && Accepted(during) == []
    ensures Count(during, ReclaimOne) <= cfg.num
  {
    hide Exec, AvailHolds, UsedHolds, AllCarried, AllFit, Addressed, WellConfigured, FreeList, Permutes, Slot, Wrap16;
    var t := Exec(cfg, s, during).value;
    ReachedInv(cfg, s0, run, s);
    RunKeeps(cfg, s, during);
    RunCounts(cfg, s, during);
    OwnedBelow(s, cfg.num);
    OwnedBelow(t, cfg.num);
  }

  // ---- no live slot is overwritten ----

  /** The avail slot a put is about to write is none of those holding an unconsumed entry. */
  lemma AvailSlotFree(cfg: Config, s0: State, run: seq<Action>, s: State)
    requires ReachedBy(cfg, s0, run, s) && s.ppc.Filled?
    ensures Slot(s.ring.availIdx, cfg.num)
            !in SlotsFrom(s.cons.lastAvail, Gap(s.ring.availIdx, s.cons.lastAvail), cfg.num)
  {
    hide Exec, AvailHolds, UsedHolds, AllCarried, AllFit, Addressed, FreeList, Permutes, ValidNum, Slot, Wrap16, Gap;
    ReachedInv(cfg, s0, run, s);
    OwnedBelow(s, cfg.num);
    GapOfCounters(s.consumed, |s.posted|);
    SlotsApart(cfg.num, s.consumed, |s.posted|);
    ModOfCounter(|s.posted|, cfg.num);
    var slots := SlotsFrom(s.cons.lastAvail, Gap(s.ring.availIdx, s.cons.lastAvail), cfg.num);
    forall j | 0 <= j < |slots| ensures slots[j] != Slot(s.ring.availIdx, cfg.num) {
      SlotOfCounter(s.consumed, j, cfg.num);
      assert Slot(s.consumed + j, cfg.num) != Slot(|s.posted|, cfg.num);
    }
  }

  /** The used slot the consumer is about to write is none of those the producer still has to free. */
  lemma UsedSlotFree(cfg: Config, s0: State, run: seq<Action>, s: State)
    requires ReachedBy(cfg, s0, run, s) && s.cpc.BatchWork?
    ensures Slot(s.cons.lastUsed, cfg.num)
            !in SlotsFrom(ReclaimCursor(s), Gap(s.cons.lastUsed, ReclaimCursor(s)), cfg.num)
  {
    hide Exec, AvailHolds, UsedHolds, AllCarried, AllFit, Addressed, FreeList, Permutes, ValidNum, Slot, Wrap16, Gap;
    hide ReclaimCursor;
    ReachedInv(cfg, s0, run, s);
    OwnedBelow(s, cfg.num);
    ReclaimCursorIs(cfg, s, 0);
    GapOfCounters(s.reclaimed, s.consumed);
    SlotsApart(cfg.num, s.reclaimed, s.consumed);
    ModOfCounter(s.consumed, cfg.num);
    var slots := SlotsFrom(ReclaimCursor(s), Gap(s.cons.lastUsed, ReclaimCursor(s)), cfg.num);
    forall j | 0 <= j < |slots| ensures slots[j] != Slot(s.cons.lastUsed, cfg.num) {
      ReclaimCursorIs(cfg, s, j);
      assert Slot(s.reclaimed + j, cfg.num) != Slot(s.consumed, cfg.num);
    }
  }

  // ---- nothing else is assumed ----

  lemma NextStep(cfg: Config, s: State, payload: seq<byte>)
    requires Inv(cfg, s)
    ensures s.ppc.PIdle? ==> Enabled(cfg, s, ReclaimBegin)
    ensures s.ppc.PIdle? ==>
              (Enabled(cfg, s, PutPop(payload)) <==>
               s.prod.lastAvail != VRING_IDX_NONE && HDR_LEN + |payload| < ETH_PACKET_SIZE)
    ensures s.ppc.Popped? ==> Enabled(cfg, s, PutFill)
    ensures s.ppc.Filled? ==> Enabled(cfg, s, PutStore)
    ensures s.ppc.Stored? ==> Enabled(cfg, s, PutBump)
    ensures s.ppc.ReclaimTest? ==> (Enabled(cfg, s, ReclaimCheck) <==> ReclaimMeaningful(cfg, s))
    ensures s.ppc.ReclaimFree? ==> Enabled(cfg, s, ReclaimOne)
    ensures s.cpc.CIdle? ==> Enabled(cfg, s, BatchBegin)
    ensures s.cpc.BatchTest? ==> Enabled(cfg, s, BatchCheck)
    ensures s.cpc.BatchWork? ==> Enabled(cfg, s, BatchOne)
    ensures s.cpc.BatchExit? ==> Enabled(cfg, s, BatchPublish)
  {
    hide AvailHolds, UsedHolds, AllCarried, AllFit, Addressed, FreeList, Permutes, WellConfigured, Slot, Wrap16;
    hide Processable, Packet;
    PutProgress(cfg, s);
    if s.ppc.ReclaimFree? {
      ReclaimSlot(cfg, s);
    }
    if s.cpc.BatchWork? {
      PacketFound(cfg, s);
    }
  }

  /** In every reachable state each side can do its next step, with every array access in range,
      except for the conditions a caller can see: a put needs a free descriptor and a packet
      below ETH_PACKET_SIZE, and the source's reclaim test needs used->idx below `num`. */
  lemma Progress(cfg: Config, s0: State, run: seq<Action>, s: State, payload: seq<byte>)
    requires ReachedBy(cfg, s0, run, s)
    ensures s.ppc.PIdle? ==> Enabled(cfg, s, ReclaimBegin)
    ensures s.ppc.PIdle? ==>
              (Enabled(cfg, s, PutPop(payload)) <==>
               s.prod.lastAvail != VRING_IDX_NONE && HDR_LEN + |payload| < ETH_PACKET_SIZE)
    ensures s.ppc.Popped? ==> Enabled(cfg, s, PutFill)
    ensures s.ppc.Filled? ==> Enabled(cfg, s, PutStore)
    ensures s.ppc.Stored? ==> Enabled(cfg, s, PutBump)
    ensures s.ppc.ReclaimTest? ==> (Enabled(cfg, s, ReclaimCheck) <==> ReclaimMeaningful(cfg, s))
    ensures s.ppc.ReclaimFree? ==> Enabled(cfg, s, ReclaimOne)
    ensures s.cpc.CIdle? ==> Enabled(cfg, s, BatchBegin)
    ensures s.cpc.BatchTest? ==> Enabled(cfg, s, BatchCheck)
    ensures s.cpc.BatchWork? ==> Enabled(cfg, s, BatchOne)
    ensures s.cpc.BatchExit? ==> Enabled(cfg, s, BatchPublish)
  {
    hide Inv, ReachedBy, Enabled;
    ReachedInv(cfg, s0, run, s);
    NextStep(cfg, s, payload);
  }

  lemma PutProgress(cfg: Config, s: State)
    requires Inv(cfg, s)
    ensures s.prod.lastAvail != VRING_IDX_NONE ==>
              s.prod.lastAvail < cfg.num && s.ring.desc[s.prod.lastAvail].len == BUFFER_SIZE
    ensures s.ppc.Popped? ==>
              s.ppc.a < cfg.num && BufferOf(s.ring, cfg.producer, s.ppc.a) + BUFFER_SIZE <= |s.ring.mem|
  {
    hide AvailHolds, UsedHolds, AllCarried, AllFit, Permutes, ValidNum, Slot, Wrap16, BufferAt;
    OwnedBelow(s, cfg.num);
    if s.ppc.Popped? {
      var a := s.ppc.a;
      assert a in InHand(s);
      assert BufferAt(cfg.producer, s.ring.desc[a].addr, cfg.buf[a], BUFFER_SIZE);
      BufferBase(cfg.producer, s.ring.desc[a].addr, cfg.buf[a], BUFFER_SIZE);
    }
    if s.free != [] {
      assert s.ring.desc[s.free[0]].len == BUFFER_SIZE;
    }
  }

  // ---- how long the source's session lasts ----

  lemma SourceCounters(cfg: Config, s: State)
    requires Inv(cfg, s) && !cfg.repaired
    ensures |s.posted| + |InHand(s)| <= 2 * cfg.num - 1
    ensures s.ring.availIdx == |s.posted| && s.ring.usedIdx == s.published
  {
    hide AvailHolds, UsedHolds, AllCarried, AllFit, Addressed, FreeList, Permutes, WellConfigured, Slot, Wrap16, InHand;
    OwnedBelow(s, cfg.num);
    SmallWrap(|s.posted|);
    SmallWrap(s.published);
  }

  /** With the source's reclaim cursor a session accepts at most 2*num - 1 packets, so that
      neither 16-bit ring index ever wraps; the repaired cursor has no such bound. */
  lemma Lifetime(cfg: Config, s0: State, run: seq<Action>, s: State)
    requires ReachedBy(cfg, s0, run, s) && !cfg.repaired
    ensures |Accepted(run)| <= 2 * cfg.num - 1
    ensures s.ring.availIdx + |InFlight(s)| == |Accepted(run)|
  {
    hide Exec, Inv, Addressed;
    ReachedInv(cfg, s0, run, s);
    RunCounts(cfg, s0, run);
    SourceCounters(cfg, s);
  }

  lemma {:induction false} PublishedGrows(cfg: Config, s: State, run: seq<Action>)
    requires Inv(cfg, s) && Exec(cfg, s, run).Some?
    ensures s.published <= Exec(cfg, s, run).value.published
    decreases |run|
  {
    hide Inv, Enabled, Do;
    if run != [] {
      StepKeeps(cfg, s, run[0]);
      StepPublishes(cfg, s, run[0]);
      PublishedGrows(cfg, Do(cfg, s, run[0]), run[1..]);
    }
  }

  lemma StepPublishes(cfg: Config, s: State, a: Action)
    requires Inv(cfg, s) && Enabled(cfg, s, a)
    ensures s.published <= Do(cfg, s, a).published
  {
    hide AvailHolds, UsedHolds, AllCarried, AllFit, Addressed, FreeList, Permutes, WellConfigured, Slot, Wrap16;
  }

  /** Once the source's loop test has become meaningless it stays so: no later call of
      process_used_vring returns. */
  lemma ReclaimLostForever(cfg: Config, s0: State, run: seq<Action>, s: State, later: seq<Action>, t: State)
    requires ReachedBy(cfg, s0, run, s) && Exec(cfg, s, later) == Some(t)
    requires !ReclaimMeaningful(cfg, s)
    ensures !ReclaimMeaningful(cfg, t)
  {
    hide Exec, Inv, ReachedBy;
    ReachedInv(cfg, s0, run, s);
    RunKeeps(cfg, s, later);
    PublishedGrows(cfg, s, later);
    SourceCounters(cfg, s);
    SourceCounters(cfg, t);
  }

  // ---- stop and resume ----

  /** The consumer is stopped, its base is fetched, and it starts again idle with that base
      and with the used index it finds in shared memory. */
  function Restart(s: State): State {
    s.(cons := Cursors(s.cons.lastAvail, s.ring.usedIdx), cpc := CIdle)
  }

  /** A restart conserves the descriptors, and keeps the protocol sound, exactly when no completed
      descriptor is unpublished, which is so between batches; then it changes no cursor, so that
      every later run goes on as if there had been none. */
  lemma StopResume(cfg: Config, s0: State, run: seq<Action>, s: State)
    requires ReachedBy(cfg, s0, run, s)
    ensures Shaped(s.ring, cfg.num)
    ensures Permutes(Parts(cfg, Restart(s)), cfg.num) <==> Unpublished(cfg, s) == []
    ensures Inv(cfg, Restart(s)) <==> Unpublished(cfg, s) == []
    ensures s.cpc.CIdle? ==> Restart(s) == s
  {
    hide Exec, AvailHolds, UsedHolds, AllCarried, AllFit, Addressed, FreeList, WellConfigured, Slot, Wrap16, Gap;
    hide Unpublished, Unreclaimed, Unconsumed, Walk, Below, Distinct;
    ReachedInv(cfg, s0, run, s);
    PartsAre(cfg, s);
    UnpublishedIs(cfg, s);
    RestartForgets(cfg, s);
    assert Owned(Restart(s)) == Owned(s);
    if Unpublished(cfg, s) == [] {
      assert Unreclaimed(cfg, s) + [] == Unreclaimed(cfg, s);
      assert Parts(cfg, Restart(s)) == Parts(cfg, s);
    } else {
      assert |Parts(cfg, Restart(s))| < |Parts(cfg, s)|;
    }
  }

  /** A restart drops the unpublished entries from sight and leaves the other parts. */
  lemma RestartForgets(cfg: Config, s: State)
    requires Shaped(s.ring, cfg.num)
    ensures Unpublished(cfg, Restart(s)) == []
    ensures Unreclaimed(cfg, Restart(s)) == Unreclaimed(cfg, s)
    ensures Unconsumed(cfg, Restart(s)) == Unconsumed(cfg, s)
    ensures InHand(Restart(s)) == InHand(s)
  {
    hide UsedIds, AvailIds, Wrap16, Slot;
    GapNone(s.ring.usedIdx);
    assert UsedIds(s.ring, cfg.num, s.ring.usedIdx, 0) == [];
  }

  lemma GapNone(k: u16)
    ensures Gap(k, k) == 0
  {
  }

  // ---- what no run changes ----

  /** The addresses in the descriptor table stay, and so does the size of the memory. */
  lemma {:induction false} AddressesStay(cfg: Config, s: State, run: seq<Action>)
    requires Exec(cfg, s, run).Some?
    ensures SamePlace(s.ring, Exec(cfg, s, run).value.ring)
    decreases |run|
  {
    hide Enabled, Do;
    if run != [] {
      AddressesStayOne(cfg, s, run[0]);
      AddressesStay(cfg, Do(cfg, s, run[0]), run[1..]);
    }
  }

  predicate SamePlace(r: Shared, t: Shared) {
    && |t.desc| == |r.desc| && |t.mem| == |r.mem|
    && forall i :: 0 <= i < |r.desc| ==> t.desc[i].addr == r.desc[i].addr
  }

  lemma AddressesStayOne(cfg: Config, s: State, a: Action)
    requires Enabled(cfg, s, a)
    ensures SamePlace(s.ring, Do(cfg, s, a).ring)
  {
    hide Packet, Processable, Slot, Wrap16, Wrap32;
  }
}
