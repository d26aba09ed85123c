/** Undisturbed calls are runs of the state machine, so all that holds of runs holds of them. */
module Calls {
  import opened Common
  import opened AddressSpace
  import opened Ring
  import opened Routines
  import opened Protocol
  import opened Invariant
  import opened Runs
  import opened RunTheorems

  lemma {:induction false} ExecAppend(cfg: Config, s: State, a: seq<Action>, b: seq<Action>)
    requires Exec(cfg, s, a).Some?
    ensures Exec(cfg, s, a + b) == Exec(cfg, Exec(cfg, s, a).value, b)
    decreases |a|
  {
    hide Enabled, Do;
    if a == [] {
      assert a + b == b;
    } else {
      assert (a + b)[1..] == a[1..] + b;
      ExecAppend(cfg, Do(cfg, s, a[0]), a[1..], b);
    }
  }

  lemma ExecTwo(cfg: Config, s: State, a: Action, b: Action)
    requires Enabled(cfg, s, a) && Enabled(cfg, Do(cfg, s, a), b)
    ensures Exec(cfg, s, [a, b]) == Some(Do(cfg, Do(cfg, s, a), b))
  {
    hide Enabled, Do;
    assert [a, b][1..] == [b] && [b][1..] == [];
    assert Exec(cfg, Do(cfg, s, a), [b]) == Exec(cfg, Do(cfg, Do(cfg, s, a), b), []);
  }

  // ---- put_vring ----

  lemma PutIsRun(cfg: Config, s: State, payload: seq<byte>)
    requires Inv(cfg, s) && Enabled(cfg, s, PutPop(payload))
    ensures PutSafe(s.ring, cfg.num, cfg.producer, s.prod, payload)
    ensures var t := Exec(cfg, s, [PutPop(payload), PutFill, PutStore, PutBump]);
            && t.Some? && Inv(cfg, t.value)
            && Put(s.ring, cfg.num, cfg.producer, s.prod, payload) == (0, t.value.ring, t.value.prod)
            && t.value.posted == s.posted + [Post(s.prod.lastAvail, payload)]
            && t.value.ppc.PIdle? && t.value.cpc == s.cpc && ConsumerSide(t.value) == ConsumerSide(s)
            && t.value.consumed == s.consumed && t.value.published == s.published && t.value.reclaimed == s.reclaimed
  {
    hide Inv, BufferAt, Write, Wrap16, Wrap32, Slot, Exec;
    var s1 := Do(cfg, s, PutPop(payload));
    PutPopKeeps(cfg, s, payload);
    NextStep(cfg, s1, payload);
    var s2 := Do(cfg, s1, PutFill);
    PutFillKeeps(cfg, s1);
    NextStep(cfg, s2, payload);
    var s3 := Do(cfg, s2, PutStore);
    PutStoreKeeps(cfg, s2);
    NextStep(cfg, s3, payload);
    PutBumpKeeps(cfg, s3);
    ExecTwo(cfg, s, PutPop(payload), PutFill);
    ExecTwo(cfg, s2, PutStore, PutBump);
    ExecAppend(cfg, s, [PutPop(payload), PutFill], [PutStore, PutBump]);
    assert [PutPop(payload), PutFill] + [PutStore, PutBump] == [PutPop(payload), PutFill, PutStore, PutBump];
    PutMapped(cfg, s, payload);
  }

  lemma PutMapped(cfg: Config, s: State, payload: seq<byte>)
    requires Inv(cfg, s) && Enabled(cfg, s, PutPop(payload))
    ensures PutSafe(s.ring, cfg.num, cfg.producer, s.prod, payload)
  {
    hide AvailHolds, UsedHolds, AllCarried, AllFit, Permutes, ValidNum, Slot, Wrap16;
    var a := s.prod.lastAvail;
    assert BufferAt(cfg.producer, s.ring.desc[a].addr, cfg.buf[a], BUFFER_SIZE);
    BufferBase(cfg.producer, s.ring.desc[a].addr, cfg.buf[a], BUFFER_SIZE);
  }

  // ---- process_avail_vring ----

  /** The packet behind an unconsumed entry is the zero header and the payload that was put. */
  lemma CarriedPacket(cfg: Config, s: State, k: nat)
    requires Inv(cfg, s) && s.consumed <= k < |s.posted|
    ensures Processable(s.ring.desc, s.ring.mem, cfg.consumer, s.posted[k].id)
    ensures Packet(s.ring.desc, s.ring.mem, cfg.consumer, s.posted[k].id) == ZeroHeader() + s.posted[k].payload
  {
    hide UsedHolds, AvailHolds, AllFit, FreeList, WellConfigured, Permutes, Slot, Wrap16, BufferAt, Halts, Gathered;
    var d, post := s.posted[k].id, s.posted[k];
    assert Carries(cfg.buf, s.ring.desc, s.ring.mem, d, post.payload);
    assert BufferAt(cfg.consumer, s.ring.desc[d].addr, cfg.buf[d], BUFFER_SIZE);
    SinglePacket(s.ring.desc, s.ring.mem, cfg.consumer, d, cfg.buf[d]);
  }

  /** The pending heads and their packets are the unconsumed entries, in order. */
  lemma PendingIs(cfg: Config, s: State)
    requires Inv(cfg, s)
    ensures BatchSafe(s.ring, cfg.num, cfg.consumer, s.cons)
    ensures var heads := Pending(s.ring, cfg.num, s.cons);
            var packets := Packets(s.ring.desc, s.ring.mem, cfg.consumer, heads);
            && |heads| == |s.posted| - s.consumed
            && forall k :: 0 <= k < |heads| ==>
                 && heads[k] == s.posted[s.consumed + k].id
                 && packets[k] == ZeroHeader() + s.posted[s.consumed + k].payload
  {
    hide AvailHolds, UsedHolds, AllCarried, AllFit, Addressed, FreeList, Permutes, WellConfigured, Slot, Wrap16, Gap;
    hide Processable, Packet;
    UnconsumedIs(cfg, s);
    var heads := Pending(s.ring, cfg.num, s.cons);
    forall k | 0 <= k < |heads|
      ensures heads[k] == s.posted[s.consumed + k].id
      ensures Processable(s.ring.desc, s.ring.mem, cfg.consumer, heads[k])
      ensures Packet(s.ring.desc, s.ring.mem, cfg.consumer, heads[k]) == ZeroHeader() + s.posted[s.consumed + k].payload
    {
      assert Unconsumed(cfg, s)[k] == s.posted[s.consumed + k].id;
      CarriedPacket(cfg, s, s.consumed + k);
    }
  }

  function BatchTurns(n: nat): seq<Action> {
    if n == 0 then [] else BatchTurns(n - 1) + [BatchCheck, BatchOne]
  }

  /** One turn of the loop in the middle of a batch is two steps of the machine. */
  lemma TurnIsTwoSteps(cfg: Config, s: State)
    requires Inv(cfg, s) && s.cpc.BatchTest? && s.consumed < |s.posted|
    ensures var t := Exec(cfg, s, [BatchCheck, BatchOne]);
            && t.Some? && Inv(cfg, t.value)
            && t.value.cpc.BatchTest? && t.value.cpc.count == s.cpc.count + 1
            && t.value.consumed == s.consumed + 1
            && t.value.posted == s.posted && t.value.ppc == s.ppc && t.value.prod == s.prod
            && s.posted[s.consumed].id < 0x1_0000
            && (t.value.ring, ConsumerSide(t.value))
               == Turn(s.ring, cfg.num, ConsumerSide(s), s.posted[s.consumed].id,
                       ZeroHeader() + s.posted[s.consumed].payload)
  {
    hide Inv, Packet, Processable, Exec, Turn;
    NextStep(cfg, s, []);
    BatchTestExact(cfg, s);
    BatchCheckKeeps(cfg, s);
    var s1 := Do(cfg, s, BatchCheck);
    NextStep(cfg, s1, []);
    PacketFound(cfg, s1);
    BatchOneKeeps(cfg, s1);
    ExecTwo(cfg, s, BatchCheck, BatchOne);
  }

  lemma {:induction false} TurnsAreSteps(cfg: Config, s: State, heads: seq<u16>, packets: seq<seq<byte>>, n: nat)
    requires Inv(cfg, s) && s.cpc.BatchTest?
    requires n <= |heads| == |packets| == |s.posted| - s.consumed && HeadersFit(packets)
    requires forall k :: 0 <= k < |heads| ==> heads[k] == s.posted[s.consumed + k].id
    requires forall k :: 0 <= k < |heads| ==> packets[k] == ZeroHeader() + s.posted[s.consumed + k].payload
    ensures var t := Exec(cfg, s, BatchTurns(n));
            && t.Some? && Inv(cfg, t.value)
            && t.value.cpc.BatchTest? && t.value.cpc.count == s.cpc.count + n
            && t.value.consumed == s.consumed + n
            && t.value.posted == s.posted && t.value.ppc == s.ppc && t.value.prod == s.prod
            && (t.value.ring, ConsumerSide(t.value))
               == ProcessAll(s.ring, cfg.num, ConsumerSide(s), heads, packets, n)
    decreases n
  {
    hide Inv, Turn, Enabled, Do, ConsumerSide, HeaderFits;
    if n > 0 {
      TurnsAreSteps(cfg, s, heads, packets, n - 1);
      var u := Exec(cfg, s, BatchTurns(n - 1)).value;
      TurnIsTwoSteps(cfg, u);
      ExecAppend(cfg, s, BatchTurns(n - 1), [BatchCheck, BatchOne]);
    }
  }

  lemma CaughtUp(cfg: Config, s: State)
    requires Inv(cfg, s) && s.consumed == |s.posted|
    ensures s.delivered == Payloads(s.posted)
  {
    hide AvailHolds, UsedHolds, AllCarried, AllFit, Addressed, FreeList, Permutes, WellConfigured, Slot, Wrap16;
    assert s.posted[..s.consumed] == s.posted;
  }

  /** The end of a batch: the empty test succeeds and used->idx is published. */
  lemma LeaveIsTwoSteps(cfg: Config, s: State)
    requires Inv(cfg, s) && s.cpc.BatchTest? && s.consumed == |s.posted|
    ensures var t := Exec(cfg, s, [BatchCheck, BatchPublish]);
            && t.Some? && Inv(cfg, t.value)
            && t.value == s.(ring := s.ring.(usedIdx := s.cons.lastUsed), cpc := CIdle, published := s.consumed)
  {
    hide Inv, Exec;
    NextStep(cfg, s, []);
    BatchTestExact(cfg, s);
    BatchCheckKeeps(cfg, s);
    var s1 := Do(cfg, s, BatchCheck);
    NextStep(cfg, s1, []);
    BatchPublishKeeps(cfg, s1);
    ExecTwo(cfg, s, BatchCheck, BatchPublish);
  }

  function BatchRun(n: nat): seq<Action> {
    [BatchBegin] + (BatchTurns(n) + [BatchCheck, BatchPublish])
  }

  /** An undisturbed call of process_avail_vring is a run, in which the consumer catches up:
      everything published so far has been handed over. */
  lemma BatchIsRun(cfg: Config, s: State, n: nat) returns (t: State)
    requires Inv(cfg, s) && s.cpc.CIdle? && s.consumed + n == |s.posted|
    ensures Exec(cfg, s, BatchRun(n)) == Some(t)
    ensures Inv(cfg, t) && t.cpc.CIdle?
    ensures BatchYields(s.ring, cfg.num, cfg.consumer, ConsumerSide(s), t.ring, ConsumerSide(t), n)
    ensures t.posted == s.posted && t.ppc == s.ppc && t.prod == s.prod
    ensures t.delivered == Payloads(s.posted)
  {
    hide Inv, Exec, BatchSafe, BatchYields, ProcessAll, HeaderFits, Packet, Packets, BatchTurns;
    PendingIs(cfg, s);
    ShapeOf(cfg, s);
    var heads := Pending(s.ring, cfg.num, s.cons);
    var packets := Packets(s.ring.desc, s.ring.mem, cfg.consumer, heads);
    BatchYieldsIs(s.ring, cfg.num, cfg.consumer, ConsumerSide(s), heads, packets);
    NextStep(cfg, s, []);
    BatchBeginKeeps(cfg, s);
    ExecOne(cfg, s, BatchBegin);
    var s1 := Do(cfg, s, BatchBegin);
    TurnsAreSteps(cfg, s1, heads, packets, n);
    var s2 := Exec(cfg, s1, BatchTurns(n)).value;
    LeaveIsTwoSteps(cfg, s2);
    ExecAppend(cfg, s1, BatchTurns(n), [BatchCheck, BatchPublish]);
    ExecAppend(cfg, s, [BatchBegin], BatchTurns(n) + [BatchCheck, BatchPublish]);
    t := Exec(cfg, s, BatchRun(n)).value;
    CaughtUp(cfg, t);
  }

  lemma ExecOne(cfg: Config, s: State, a: Action)
    requires Enabled(cfg, s, a)
    ensures Exec(cfg, s, [a]) == Some(Do(cfg, s, a))
  {
    hide Enabled, Do;
    assert [a][1..] == [];
    assert Exec(cfg, Do(cfg, s, a), []) == Some(Do(cfg, s, a));
  }

  // ---- process_used_vring ----

  /** Freeing `ids` one after the other puts them, reversed, in front of the free list, each
      with its whole buffer again. */
  lemma {:induction false} FreeAllList(r: Shared, head: u16, free: seq<nat>, ids: seq<nat>)
    requires |r.desc| <= VHOST_VRING_SIZE && FreeList(r.desc, head, free)
    requires Below(ids, |r.desc|) && Distinct(ids) && forall x :: x in ids ==> x !in free
    ensures var (r', head') := FreeAll(r, head, ids);
            FreeList(r'.desc, head', Reversed(ids) + free)
    decreases |ids|
  {
    hide FreeList, Below;
    if ids == [] {
      assert Reversed(ids) + free == free;
    } else {
      var d := ids[0];
      BelowTail(ids, |r.desc|);
      FreeListPush(r.desc, head, free, d, r.desc[d].flags | VIRTIO_DESC_F_WRITE);
      assert forall x :: x in ids[1..] ==> x in ids && x != d;
      FreeAllList(FreeDesc(r, head, d), d, [d] + free, ids[1..]);
      assert Reversed(ids) + free == Reversed(ids[1..]) + ([d] + free);
    }
  }

  lemma BelowTail(ids: seq<nat>, n: nat)
    requires ids != [] && Below(ids, n)
    ensures ids[0] < n && Below(ids[1..], n)
  {
  }

  /** A reclaim that ends frees (used->idx - last_used_idx) mod num descriptors and leaves the free
      list the reverse of the reclaimed ids followed by what it was. */
  lemma ReclaimRestores(r: Shared, num: nat, c: Cursors, free: seq<nat>)
    requires ReclaimSafe(r, num, c) && FreeList(r.desc, c.lastAvail, free)
    requires var ids := UsedIds(r, num, c.lastUsed, Ahead(c.lastUsed, r.usedIdx, num));
             Distinct(ids) && forall x :: x in ids ==> x !in free
    ensures var ids := UsedIds(r, num, c.lastUsed, Ahead(c.lastUsed, r.usedIdx, num));
            var (r', c') := Reclaim(r, num, c);
            && |ids| == (r.usedIdx + num - c.lastUsed) % num
            && FreeList(r'.desc, c'.lastAvail, Reversed(ids) + free)
            && c'.lastUsed == r.usedIdx
  {
    hide FreeAll, FreeList, UsedIds, Reversed;
    var n := Ahead(c.lastUsed, r.usedIdx, num);
    FreeAllList(r, c.lastAvail, free, UsedIds(r, num, c.lastUsed, n));
    if r.usedIdx >= c.lastUsed {
      ModUnique(r.usedIdx + num - c.lastUsed, 1, n, num);
    } else {
      ModUnique(r.usedIdx + num - c.lastUsed, 0, n, num);
    }
  }

  function ReclaimTurns(n: nat): seq<Action> {
    if n == 0 then [] else [ReclaimCheck, ReclaimOne] + ReclaimTurns(n - 1)
  }

  lemma ReclaimTurnIsTwoSteps(cfg: Config, s: State)
    requires Inv(cfg, s) && s.ppc.ReclaimTest? && ReclaimMeaningful(cfg, s) && s.reclaimed < s.published
    requires s.published <= |s.posted|
    ensures var t := Exec(cfg, s, [ReclaimCheck, ReclaimOne]);
            && t.Some? && Inv(cfg, t.value)
            && t.value.ppc.ReclaimTest?
            && t.value.reclaimed == s.reclaimed + 1 && t.value.published == s.published
            && t.value.posted == s.posted && t.value.ring.usedIdx == s.ring.usedIdx
            && Shaped(s.ring, cfg.num) && s.posted[s.reclaimed].id < cfg.num
            && t.value.ring == FreeDesc(s.ring, s.prod.lastAvail, s.posted[s.reclaimed].id)
            && t.value.prod.lastAvail == s.posted[s.reclaimed].id
            && t.value.cons == s.cons && t.value.cpc == s.cpc && t.value.delivered == s.delivered
  {
    hide Inv, Exec;
    NextStep(cfg, s, []);
    ReclaimTestExact(cfg, s);
    ReclaimCheckKeeps(cfg, s);
    var s1 := Do(cfg, s, ReclaimCheck);
    NextStep(cfg, s1, []);
    ReclaimSlot(cfg, s1);
    ReclaimOneKeeps(cfg, s1);
    ExecTwo(cfg, s, ReclaimCheck, ReclaimOne);
  }

  lemma {:induction false} ReclaimTurnsAreSteps(cfg: Config, s: State, n: nat)
    requires Inv(cfg, s) && s.ppc.ReclaimTest? && ReclaimMeaningful(cfg, s)
    requires s.reclaimed + n == s.published <= |s.posted|
    ensures var t := Exec(cfg, s, ReclaimTurns(n));
            var ids := Ids(s.posted[s.reclaimed..s.published]);
            && t.Some? && Inv(cfg, t.value)
            && t.value.ppc.ReclaimTest?
            && t.value.reclaimed == t.value.published == s.published
            && t.value.posted == s.posted && t.value.ring.usedIdx == s.ring.usedIdx
            && |s.ring.desc| <= VHOST_VRING_SIZE && Below(ids, |s.ring.desc|)
            && (t.value.ring, t.value.prod.lastAvail) == FreeAll(s.ring, s.prod.lastAvail, ids)
            && t.value.cons == s.cons && t.value.cpc == s.cpc && t.value.delivered == s.delivered
    decreases n
  {
    hide Inv, Enabled, Do, Ids, FreeAll, FreeDesc;
    ShapeOf(cfg, s);
    if n == 0 {
      NoIds(s.ring, s.prod.lastAvail, s.posted, s.reclaimed);
    } else {
      ReclaimTurnIsTwoSteps(cfg, s);
      var u := Exec(cfg, s, [ReclaimCheck, ReclaimOne]).value;
      ShapeOf(cfg, u);
      ReclaimTurnsAreSteps(cfg, u, n - 1);
      ExecAppend(cfg, s, [ReclaimCheck, ReclaimOne], ReclaimTurns(n - 1));
      MoreIds(s.ring, s.prod.lastAvail, s.posted, s.reclaimed, s.published);
    }
  }

  lemma NoIds(r: Shared, head: u16, ps: seq<Post>, k: nat)
    requires k <= |ps| && |r.desc| <= VHOST_VRING_SIZE
    ensures Below(Ids(ps[k..k]), |r.desc|) && FreeAll(r, head, Ids(ps[k..k])) == (r, head)
  {
  }

  lemma MoreIds(r: Shared, head: u16, ps: seq<Post>, lo: nat, hi: nat)
    requires lo < hi <= |ps| && |r.desc| <= VHOST_VRING_SIZE
    requires ps[lo].id < |r.desc| && Below(Ids(ps[lo + 1..hi]), |r.desc|)
    ensures Below(Ids(ps[lo..hi]), |r.desc|)
    ensures FreeAll(r, head, Ids(ps[lo..hi])) == FreeAll(FreeDesc(r, head, ps[lo].id), ps[lo].id, Ids(ps[lo + 1..hi]))
  {
    var ids := Ids(ps[lo..hi]);
    assert ps[lo..hi][1..] == ps[lo + 1..hi];
    IdsCons(ps[lo..hi]);
    assert ids[0] == ps[lo].id && ids[1..] == Ids(ps[lo + 1..hi]);
    assert forall k :: 0 < k < |ids| ==> ids[k] == Ids(ps[lo + 1..hi])[k - 1];
  }

  lemma ShapeOf(cfg: Config, s: State)
    requires Inv(cfg, s)
    ensures Shaped(s.ring, cfg.num)
    ensures s.reclaimed <= s.published <= s.consumed <= |s.posted|
  {
  }

  function ReclaimRun(n: nat): seq<Action> {
    [ReclaimBegin] + (ReclaimTurns(n) + [ReclaimCheck])
  }

  /** An undisturbed call of process_used_vring in the source is a run, which gives back every
      descriptor the consumer has published. */
  lemma ReclaimIsRun(cfg: Config, s: State)
    requires Inv(cfg, s) && s.ppc.PIdle? && !cfg.repaired && s.ring.usedIdx < cfg.num
    ensures ReclaimSafe(s.ring, cfg.num, s.prod)
    ensures s.reclaimed <= s.published
    ensures var t := Exec(cfg, s, ReclaimRun(s.published - s.reclaimed));
            && t.Some? && Inv(cfg, t.value) && t.value.ppc.PIdle?
            && (t.value.ring, t.value.prod) == Reclaim(s.ring, cfg.num, s.prod)
            && t.value.reclaimed == t.value.published == s.published
            && t.value.posted == s.posted
            && t.value.cons == s.cons && t.value.cpc == s.cpc && t.value.delivered == s.delivered
  {
    hide Inv, Exec, FreeAll, ReclaimTurns;
    ReclaimedIds(cfg, s);
    ShapeOf(cfg, s);
    var n := s.published - s.reclaimed;
    NextStep(cfg, s, []);
    ReclaimBeginKeeps(cfg, s);
    ExecOne(cfg, s, ReclaimBegin);
    var s1 := Do(cfg, s, ReclaimBegin);
    ReclaimTurnsAreSteps(cfg, s1, n);
    var s2 := Exec(cfg, s1, ReclaimTurns(n)).value;
    NextStep(cfg, s2, []);
    ReclaimTestExact(cfg, s2);
    ReclaimCheckKeeps(cfg, s2);
    ExecOne(cfg, s2, ReclaimCheck);
    ExecAppend(cfg, s1, ReclaimTurns(n), [ReclaimCheck]);
    ExecAppend(cfg, s, [ReclaimBegin], ReclaimTurns(n) + [ReclaimCheck]);
  }

  lemma ReclaimedIds(cfg: Config, s: State)
    requires Inv(cfg, s) && s.ppc.PIdle? && !cfg.repaired && s.ring.usedIdx < cfg.num
    ensures ReclaimSafe(s.ring, cfg.num, s.prod)
    ensures s.reclaimed <= s.published <= |s.posted|
    ensures UsedIds(s.ring, cfg.num, s.prod.lastUsed, Ahead(s.prod.lastUsed, s.ring.usedIdx, cfg.num))
            == Ids(s.posted[s.reclaimed..s.published])
  {
    hide AvailHolds, UsedHolds, AllCarried, AllFit, Addressed, FreeList, Permutes, ValidNum, Slot, Wrap16, Gap;
    UnreclaimedIs(cfg, s);
    OwnedBelow(s, cfg.num);
    SourceCounters(cfg, s);
    SmallCounter(s.reclaimed, cfg.num);
    GapOfCounters(s.reclaimed, s.published);
    SmallWrap(s.published);
  }

  // ---- calls from reachable states ----

  lemma ReachFurther(cfg: Config, s0: State, run: seq<Action>, s: State, more: seq<Action>, t: State)
    requires ReachedBy(cfg, s0, run, s) && Exec(cfg, s, more) == Some(t)
    ensures ReachedBy(cfg, s0, run + more, t)
  {
    hide Fresh, Exec;
    ExecAppend(cfg, s0, run, more);
  }

  /** In any reachable state of an idle producer that has a free descriptor a call of put_vring with
      a packet that fits is a run of four steps, to a reachable state. */
  lemma PutReaches(cfg: Config, s0: State, run: seq<Action>, s: State, payload: seq<byte>) returns (t: State)
    requires ReachedBy(cfg, s0, run, s) && s.ppc.PIdle?
    requires s.prod.lastAvail != VRING_IDX_NONE && HDR_LEN + |payload| < ETH_PACKET_SIZE
    ensures ReachedBy(cfg, s0, run + [PutPop(payload), PutFill, PutStore, PutBump], t)
    ensures PutSafe(s.ring, cfg.num, cfg.producer, s.prod, payload)
    ensures Put(s.ring, cfg.num, cfg.producer, s.prod, payload) == (0, t.ring, t.prod)
    ensures t.ppc.PIdle? && t.cpc == s.cpc && ConsumerSide(t) == ConsumerSide(s)
  {
    hide ReachedBy, Inv, Exec, PutSafe, Put, Enabled;
    ReachedInv(cfg, s0, run, s);
    NextStep(cfg, s, payload);
    PutIsRun(cfg, s, payload);
    var more := [PutPop(payload), PutFill, PutStore, PutBump];
    t := Exec(cfg, s, more).value;
    ReachFurther(cfg, s0, run, s, more, t);
  }

  /** In any reachable state of an idle consumer a call of process_avail_vring is a run, after which
      it has handed over everything published when it began. */
  lemma BatchReaches(cfg: Config, s0: State, run: seq<Action>, s: State) returns (n: nat, t: State)
    requires ReachedBy(cfg, s0, run, s) && s.cpc.CIdle?
    ensures ReachedBy(cfg, s0, run + BatchRun(n), t) && t.cpc.CIdle?
    ensures BatchYields(s.ring, cfg.num, cfg.consumer, ConsumerSide(s), t.ring, ConsumerSide(t), n)
    ensures t.delivered + InFlight(s) == Accepted(run)
    ensures t.ppc == s.ppc && t.prod == s.prod && t.cons.lastAvail == t.ring.availIdx
  {
    hide Inv, Exec, FreshRing, BatchYields, Addressed, WellConfigured;
    ReachedInv(cfg, s0, run, s);
    ShapeOf(cfg, s);
    n := |s.posted| - s.consumed;
    t := BatchIsRun(cfg, s, n);
    ReachFurther(cfg, s0, run, s, BatchRun(n), t);
    RunAccepts(cfg, s0, run);
    assert Payloads(s0.posted) == [] && InFlight(s0) == [];
    YieldsCaughtUp(s.ring, cfg.num, cfg.consumer, ConsumerSide(s), t.ring, ConsumerSide(t), n);
  }

  lemma YieldsCaughtUp(r: Shared, num: nat, p: Process, c: Consumer, r': Shared, c': Consumer, n: nat)
    requires BatchYields(r, num, p, c, r', c', n)
    ensures n == Gap(r.availIdx, c.cursors.lastAvail)
    ensures c'.cursors.lastAvail == r'.availIdx == r.availIdx
    ensures c'.cursors.lastUsed == Wrap16(c.cursors.lastUsed + n)
  {
    hide BatchSafe, Gap, Wrap16, Batch, Handed, Packets, Pending;
    BatchArithmetic(r, num, p, c);
  }

  /** In any reachable state of an idle producer a call of the source's process_used_vring with
      used->idx below `num` is a run, after which nothing published is left to reclaim. */
  lemma ReclaimReaches(cfg: Config, s0: State, run: seq<Action>, s: State) returns (n: nat, t: State)
    requires ReachedBy(cfg, s0, run, s) && s.ppc.PIdle? && !cfg.repaired && s.ring.usedIdx < cfg.num
    ensures ReachedBy(cfg, s0, run + ReclaimRun(n), t) && t.ppc.PIdle?
    ensures ReclaimSafe(s.ring, cfg.num, s.prod)
    ensures Reclaim(s.ring, cfg.num, s.prod) == (t.ring, t.prod)
    ensures Shaped(t.ring, cfg.num) && Unreclaimed(cfg, t) == []
  {
    hide Inv, Exec, ReachedBy, ReclaimSafe, Reclaim, Unreclaimed;
    ReachedInv(cfg, s0, run, s);
    ReclaimIsRun(cfg, s);
    n := s.published - s.reclaimed;
    t := Exec(cfg, s, ReclaimRun(n)).value;
    ReachFurther(cfg, s0, run, s, ReclaimRun(n), t);
    ShapeOf(cfg, t);
    UnreclaimedIs(cfg, t);
  }

  // ---- what calls accept: only a put accepts anything ----

  lemma {:induction false} AcceptedTurns(n: nat, rest: seq<Action>)
    ensures Accepted(BatchTurns(n) + rest) == Accepted(rest)
    decreases n
  {
    if n == 0 {
      assert BatchTurns(0) + rest == rest;
    } else {
      assert BatchTurns(n) + rest == BatchTurns(n - 1) + ([BatchCheck] + ([BatchOne] + rest));
      AcceptedTurns(n - 1, [BatchCheck] + ([BatchOne] + rest));
      AcceptedCons(BatchCheck, [BatchOne] + rest);
      AcceptedCons(BatchOne, rest);
    }
  }

  lemma {:induction false} ReclaimAccepts(n: nat)
    ensures Accepted(ReclaimTurns(n) + [ReclaimCheck]) == []
    decreases n
  {
    if n == 0 {
      assert [] + [ReclaimCheck] == [ReclaimCheck];
    } else {
      var rest := ReclaimTurns(n - 1) + [ReclaimCheck];
      ReclaimAccepts(n - 1);
      assert ReclaimTurns(n) + [ReclaimCheck] == [ReclaimCheck] + ([ReclaimOne] + rest);
      assert ([ReclaimCheck] + ([ReclaimOne] + rest))[1..] == [ReclaimOne] + rest && ([ReclaimOne] + rest)[1..] == rest;
    }
  }

  lemma TurnsAccept(n: nat)
    ensures Accepted(BatchRun(n)) == [] && Accepted(ReclaimRun(n)) == []
  {
    hide Accepted, BatchTurns, ReclaimTurns;
    var b, r := BatchTurns(n), ReclaimTurns(n);
    AcceptedCons(BatchBegin, b + [BatchCheck, BatchPublish]);
    AcceptedTurns(n, [BatchCheck, BatchPublish]);
    assert [BatchCheck, BatchPublish] == [BatchCheck] + ([BatchPublish] + []);
    AcceptedCons(BatchCheck, [BatchPublish] + []);
    AcceptedCons(BatchPublish, []);
    AcceptedCons(ReclaimBegin, r + [ReclaimCheck]);
    ReclaimAccepts(n);
    AcceptedNone();
  }

  lemma AcceptedPut(payload: seq<byte>, rest: seq<Action>)
    ensures Accepted([PutPop(payload), PutFill, PutStore, PutBump] + rest) == [payload] + Accepted(rest)
  {
    hide Accepted;
    assert [PutPop(payload), PutFill, PutStore, PutBump] + rest
        == [PutPop(payload)] + ([PutFill] + ([PutStore] + ([PutBump] + rest)));
    AcceptedCons(PutPop(payload), [PutFill] + ([PutStore] + ([PutBump] + rest)));
    AcceptedCons(PutFill, [PutStore] + ([PutBump] + rest));
    AcceptedCons(PutStore, [PutBump] + rest);
    AcceptedCons(PutBump, rest);
  }
}
