/** Every step of either side keeps the protocol invariant. */
module Invariant {
  import opened Common
  import opened AddressSpace
  import opened Ring
  import opened Protocol

  // ---- who has which descriptor ----

  lemma IdsSnoc(ps: seq<Post>, p: Post)
    ensures Ids(ps + [p]) == Ids(ps) + [p.id]
  {
  }

  lemma IdsCons(ps: seq<Post>)
    requires ps != []
    ensures Ids(ps) == [ps[0].id] + Ids(ps[1..])
  {
  }

  /** The descriptors in flight, in hand and free are within the table. */
  lemma OwnedBelow(s: State, n: nat)
    requires s.reclaimed <= |s.posted| && Permutes(Owned(s), n)
    ensures |s.posted| - s.reclaimed + |InHand(s)| + |s.free| == n
    ensures Below(s.free, n)
    ensures forall a :: a in InHand(s) ==> a < n
    ensures forall k :: s.reclaimed <= k < |s.posted| ==> s.posted[k].id < n
  {
    var o, m, h := Owned(s), |s.posted| - s.reclaimed, |InHand(s)|;
    assert forall k :: s.reclaimed <= k < |s.posted| ==> o[k - s.reclaimed] == s.posted[k].id;
    assert forall k :: 0 <= k < h ==> o[m + k] == InHand(s)[k];
    assert forall k :: 0 <= k < |s.free| ==> o[m + h + k] == s.free[k];
  }

  /** No two of them are the same. */
  lemma OwnedApart(s: State, n: nat)
    requires s.reclaimed <= |s.posted| && Permutes(Owned(s), n)
    ensures forall j, k :: s.reclaimed <= j < k < |s.posted| ==> s.posted[j].id != s.posted[k].id
    ensures forall k :: s.reclaimed <= k < |s.posted| ==> s.posted[k].id !in s.free
    ensures forall k, a :: s.reclaimed <= k < |s.posted| && a in InHand(s) ==> s.posted[k].id != a
    ensures forall a :: a in InHand(s) ==> a !in s.free
  {
    var o, m, h := Owned(s), |s.posted| - s.reclaimed, |InHand(s)|;
    assert forall k :: s.reclaimed <= k < |s.posted| ==> o[k - s.reclaimed] == s.posted[k].id;
    assert forall k :: 0 <= k < h ==> o[m + k] == InHand(s)[k];
    assert forall k :: 0 <= k < |s.free| ==> o[m + h + k] == s.free[k];
  }

  lemma OwnedAfterPop(s: State, t: State)
    requires t.posted == s.posted && t.reclaimed == s.reclaimed <= |s.posted|
    requires s.free != [] && InHand(s) == [] && InHand(t) == [s.free[0]] && t.free == s.free[1..]
    ensures Owned(t) == Owned(s)
  {
    assert [s.free[0]] + s.free[1..] == s.free;
  }

  lemma OwnedAfterBump(s: State, t: State, p: Post)
    requires s.reclaimed <= |s.posted| && t.posted == s.posted + [p] && t.reclaimed == s.reclaimed
    requires InHand(s) == [p.id] && InHand(t) == [] && t.free == s.free
    ensures Owned(t) == Owned(s)
  {
    assert t.posted[t.reclaimed..] == s.posted[s.reclaimed..] + [p];
    IdsSnoc(s.posted[s.reclaimed..], p);
  }

  lemma OwnedAfterFree(s: State, t: State, n: nat)
    requires s.reclaimed < |s.posted| && t.posted == s.posted && t.reclaimed == s.reclaimed + 1
    requires InHand(s) == [] && InHand(t) == [] && t.free == [s.posted[s.reclaimed].id] + s.free
    requires Permutes(Owned(s), n)
    ensures Permutes(Owned(t), n)
  {
    var d, later := s.posted[s.reclaimed].id, Ids(t.posted[t.reclaimed..]);
    IdsCons(s.posted[s.reclaimed..]);
    assert s.posted[s.reclaimed..][1..] == t.posted[t.reclaimed..];
    assert Owned(s) == [d] + later + s.free && Owned(t) == later + ([d] + s.free);
    FirstBehind(d, later, s.free, n);
  }

  lemma FirstBehind(d: nat, left: seq<nat>, right: seq<nat>, n: nat)
    requires Permutes([d] + left + right, n)
    ensures Permutes(left + ([d] + right), n)
  {
    var o, p := [d] + left + right, left + ([d] + right);
    assert forall k :: 0 <= k < |left| ==> p[k] == o[k + 1];
    assert p[|left|] == o[0];
    assert forall k :: |left| < k < |p| ==> p[k] == o[k];
  }

  // ---- the free list ----

  lemma FreeListTail(desc: seq<Desc>, head: u16, free: seq<nat>)
    requires FreeList(desc, head, free) && free != []
    ensures head < |desc| && FreeList(desc, desc[head].next, free[1..])
  {
    var rest := free[1..];
    assert head == free[0];
    assert forall k :: 0 <= k < |rest| ==> rest[k] == free[k + 1];
    if rest != [] {
      assert desc[free[0]].next == free[1];
    }
  }

  lemma FreeListPush(desc: seq<Desc>, head: u16, free: seq<nat>, d: nat, flags: bv16)
    requires FreeList(desc, head, free) && d < |desc| && d < VRING_IDX_NONE && d !in free
    ensures FreeList(desc[d := Desc(desc[d].addr, BUFFER_SIZE, flags, head)], d, [d] + free)
  {
    var desc', free' := desc[d := Desc(desc[d].addr, BUFFER_SIZE, flags, head)], [d] + free;
    assert forall k :: 0 < k < |free'| ==> free'[k] == free[k - 1] && desc'[free'[k]] == desc[free[k - 1]];
  }

  lemma FreeListApart(desc: seq<Desc>, head: u16, free: seq<nat>, a: nat, x: Desc)
    requires FreeList(desc, head, free) && a < |desc| && a !in free
    ensures FreeList(desc[a := x], head, free)
  {
    assert forall k :: 0 <= k < |free| ==> desc[a := x][free[k]] == desc[free[k]];
  }

  // ---- the rings ----

  lemma AvailStored(num: nat, avail: seq<u16>, posted: seq<Post>, lo: nat, a: u16)
    requires 0 < num == |avail| && lo <= |posted| < lo + num
    requires AvailHolds(num, avail, posted, lo)
    ensures AvailHolds(num, avail[Slot(|posted|, num) := a], posted, lo)
  {
    hide Slot;
    SlotsApart(num, lo, |posted|);
  }

  lemma AvailSnoc(num: nat, avail: seq<u16>, posted: seq<Post>, lo: nat, p: Post)
    requires 0 < num == |avail|
    requires AvailHolds(num, avail, posted, lo) && avail[Slot(|posted|, num)] == p.id
    ensures AvailHolds(num, avail, posted + [p], lo)
  {
    hide Slot;
  }

  lemma UsedStored(num: nat, used: seq<UsedElem>, posted: seq<Post>, lo: nat, hi: nat, e: UsedElem)
    requires 0 < num == |used| && lo <= hi < |posted| && hi < lo + num
    requires UsedHolds(num, used, posted, lo, hi)
    requires e.id == posted[hi].id && e.len == HDR_LEN + |posted[hi].payload|
    ensures UsedHolds(num, used[Slot(hi, num) := e], posted, lo, hi + 1)
  {
    hide Slot;
    SlotsApart(num, lo, hi);
  }

  lemma UsedSnoc(num: nat, used: seq<UsedElem>, posted: seq<Post>, lo: nat, hi: nat, p: Post)
    requires 0 < num == |used| && hi <= |posted|
    requires UsedHolds(num, used, posted, lo, hi)
    ensures UsedHolds(num, used, posted + [p], lo, hi)
  {
    hide Slot;
  }

  lemma CarriedSnoc(buf: seq<nat>, desc: seq<Desc>, mem: seq<byte>, posted: seq<Post>, lo: nat, p: Post)
    requires AllCarried(buf, desc, mem, posted, lo) && Carries(buf, desc, mem, p.id, p.payload)
    requires AllFit(posted)
    ensures AllCarried(buf, desc, mem, posted + [p], lo) && AllFit(posted + [p])
  {
  }

  /** Writing one descriptor leaves what the others carry. */
  lemma CarriedDescApart(buf: seq<nat>, desc: seq<Desc>, mem: seq<byte>, posted: seq<Post>, lo: nat, a: nat, x: Desc)
    requires AllCarried(buf, desc, mem, posted, lo) && a < |desc|
    requires forall k :: lo <= k < |posted| ==> posted[k].id != a
    ensures AllCarried(buf, desc[a := x], mem, posted, lo)
  {
    forall k | lo <= k < |posted|
      ensures Carries(buf, desc[a := x], mem, posted[k].id, posted[k].payload)
    {
      assert Carries(buf, desc, mem, posted[k].id, posted[k].payload);
    }
  }

  /** Writing one buffer leaves what the others carry. */
  lemma CarriedMemApart(buf: seq<nat>, desc: seq<Desc>, mem: seq<byte>, posted: seq<Post>, lo: nat, a: nat,
                        data: seq<byte>)
    requires AllCarried(buf, desc, mem, posted, lo) && a < |buf| && |data| <= BUFFER_SIZE
    requires forall i :: 0 <= i < |buf| ==> buf[i] + BUFFER_SIZE <= |mem|
    requires forall i, j :: 0 <= i < |buf| && 0 <= j < |buf| && i != j ==>
               buf[i] + BUFFER_SIZE <= buf[j] || buf[j] + BUFFER_SIZE <= buf[i]
    requires forall k :: lo <= k < |posted| ==> posted[k].id != a
    ensures AllCarried(buf, desc, Write(mem, buf[a], data), posted, lo)
  {
    forall k | lo <= k < |posted|
      ensures Carries(buf, desc, Write(mem, buf[a], data), posted[k].id, posted[k].payload)
    {
      var i := posted[k].id;
      assert Carries(buf, desc, mem, i, posted[k].payload);
      assert buf[i] + BUFFER_SIZE <= buf[a] || buf[a] + BUFFER_SIZE <= buf[i];
      ReadElsewhere(mem, buf[a], data, buf[i], HDR_LEN + |posted[k].payload|);
    }
  }

  lemma AddressedKept(cfg: Config, desc: seq<Desc>, size: nat, a: nat, x: Desc)
    requires Addressed(cfg, desc, size) && a < |desc| && x.addr == desc[a].addr
    ensures Addressed(cfg, desc[a := x], size)
  {
    hide BufferAt;
  }

  lemma PayloadsSnoc(posted: seq<Post>, n: nat)
    requires n < |posted|
    ensures Payloads(posted[..n + 1]) == Payloads(posted[..n]) + [posted[n].payload]
  {
  }

  // ---- the producer's put ----

  lemma PutPopKeeps(cfg: Config, s: State, payload: seq<byte>)
    requires Inv(cfg, s) && Enabled(cfg, s, PutPop(payload))
    ensures Inv(cfg, Do(cfg, s, PutPop(payload)))
  {
    hide AvailHolds, UsedHolds, AllFit, AllCarried, Addressed, WellConfigured, Distinct, Wrap16, Slot, Owned;
    assert s.free != [];
    FreeListTail(s.ring.desc, s.prod.lastAvail, s.free);
    OwnedAfterPop(s, Do(cfg, s, PutPop(payload)));
  }

  lemma PutFillKeeps(cfg: Config, s: State)
    requires Inv(cfg, s) && Enabled(cfg, s, PutFill)
    ensures Inv(cfg, Do(cfg, s, PutFill))
  {
    hide AvailHolds, UsedHolds, AllFit, AllCarried, FreeList, Permutes, Wrap16, Slot, BufferAt;
    var a, payload := s.ppc.a as nat, s.ppc.payload;
    var data := ZeroHeader() + payload;
    OwnedApart(s, cfg.num);
    assert a in InHand(s);
    assert BufferAt(cfg.producer, s.ring.desc[a].addr, cfg.buf[a], BUFFER_SIZE);
    BufferBase(cfg.producer, s.ring.desc[a].addr, cfg.buf[a], BUFFER_SIZE);
    ReadBack(s.ring.mem, cfg.buf[a], data);
    var x := Desc(s.ring.desc[a].addr, HDR_LEN + |payload|, 0, VRING_IDX_NONE);
    FreeListApart(s.ring.desc, s.prod.lastAvail, s.free, a, x);
    AddressedKept(cfg, s.ring.desc, |s.ring.mem|, a, x);
    CarriedMemApart(cfg.buf, s.ring.desc, s.ring.mem, s.posted, s.consumed, a, data);
    CarriedDescApart(cfg.buf, s.ring.desc, Write(s.ring.mem, cfg.buf[a], data), s.posted, s.consumed, a, x);
    assert Owned(Do(cfg, s, PutFill)) == Owned(s);
  }

  lemma PutStoreKeeps(cfg: Config, s: State)
    requires Inv(cfg, s) && Enabled(cfg, s, PutStore)
    ensures Inv(cfg, Do(cfg, s, PutStore))
  {
    hide AvailHolds, UsedHolds, AllFit, AllCarried, FreeList, Addressed, Permutes, ValidNum, Wrap16, Slot;
    OwnedBelow(s, cfg.num);
    ModOfCounter(|s.posted|, cfg.num);
    AvailStored(cfg.num, s.ring.avail, s.posted, s.reclaimed, s.ppc.a);
    assert Owned(Do(cfg, s, PutStore)) == Owned(s);
  }

  lemma PutBumpKeeps(cfg: Config, s: State)
    requires Inv(cfg, s) && Enabled(cfg, s, PutBump)
    ensures Inv(cfg, Do(cfg, s, PutBump))
  {
    hide AvailHolds, UsedHolds, AllFit, AllCarried, FreeList, Addressed, Permutes, Wrap16, Slot, Owned, WellConfigured;
    var t, p := Do(cfg, s, PutBump), Post(s.ppc.a, s.ppc.payload);
    WrapSucc(|s.posted|);
    OwnedAfterBump(s, t, p);
    AvailSnoc(cfg.num, s.ring.avail, s.posted, s.reclaimed, p);
    UsedSnoc(cfg.num, s.ring.used, s.posted, s.reclaimed, s.consumed, p);
    CarriedSnoc(cfg.buf, s.ring.desc, s.ring.mem, s.posted, s.consumed, p);
    assert t.posted[..t.consumed] == s.posted[..s.consumed];
  }

  // ---- the producer's reclaim ----

  lemma ReclaimBeginKeeps(cfg: Config, s: State)
    requires Inv(cfg, s) && Enabled(cfg, s, ReclaimBegin)
    ensures Inv(cfg, Do(cfg, s, ReclaimBegin))
  {
    hide AvailHolds, UsedHolds, AllFit, AllCarried, FreeList, Addressed, WellConfigured, Permutes, Wrap16, Slot;
    assert Owned(Do(cfg, s, ReclaimBegin)) == Owned(s);
  }

  /** The loop test of process_used_vring, where it is meaningful, asks whether
      something published is still to be reclaimed. */
  lemma ReclaimTestExact(cfg: Config, s: State)
    requires Inv(cfg, s) && s.ppc.ReclaimTest? && ReclaimMeaningful(cfg, s)
    ensures s.ppc.u == s.ring.usedIdx <==> s.reclaimed == s.published
    ensures !cfg.repaired ==> s.published < cfg.num
  {
    hide AvailHolds, UsedHolds, AllFit, AllCarried, FreeList, Addressed, WellConfigured, Permutes;
    OwnedBelow(s, cfg.num);
    if cfg.repaired {
      if s.reclaimed < s.published {
        ModDistinct(s.reclaimed, s.published, 0x1_0000);
      }
    } else {
      ModUnique(s.reclaimed, 0, s.reclaimed, cfg.num);
      ModUnique(s.published, 0, s.published, 0x1_0000);
    }
  }

  lemma ReclaimCheckKeeps(cfg: Config, s: State)
    requires Inv(cfg, s) && Enabled(cfg, s, ReclaimCheck)
    ensures Inv(cfg, Do(cfg, s, ReclaimCheck))
  {
    hide AvailHolds, UsedHolds, AllFit, AllCarried, FreeList, Addressed, WellConfigured, Permutes, Wrap16, Slot;
    ReclaimTestExact(cfg, s);
    assert Owned(Do(cfg, s, ReclaimCheck)) == Owned(s);
  }

  /** The used slot the reclaim cursor points at names the oldest unreclaimed descriptor. */
  lemma ReclaimSlot(cfg: Config, s: State)
    requires Inv(cfg, s) && s.ppc.ReclaimFree?
    ensures Slot(s.ppc.u, cfg.num) == Slot(s.reclaimed, cfg.num)
    ensures s.ring.used[Slot(s.ppc.u, cfg.num)].id == s.posted[s.reclaimed].id < cfg.num
    ensures CursorAt(cfg, s.ppc.u + 1) == CursorAt(cfg, s.reclaimed + 1)
  {
    hide AvailHolds, AllFit, AllCarried, FreeList, Addressed, Permutes, ValidNum;
    OwnedBelow(s, cfg.num);
    if cfg.repaired {
      ModOfCounter(s.reclaimed, cfg.num);
      WrapSucc(s.reclaimed);
    } else {
      ModUnique(s.reclaimed, 0, s.reclaimed, cfg.num);
    }
  }

  /** The oldest unreclaimed descriptor is neither free nor waiting to be consumed. */
  lemma OldestApart(s: State, n: nat)
    requires s.reclaimed < s.consumed <= |s.posted| && Permutes(Owned(s), n)
    ensures s.posted[s.reclaimed].id !in s.free
    ensures forall k :: s.consumed <= k < |s.posted| ==> s.posted[k].id != s.posted[s.reclaimed].id
  {
    hide Permutes, Owned;
    OwnedApart(s, n);
  }

  /** What one turn of the reclaim loop does to the state. */
  lemma ReclaimOneIs(cfg: Config, s: State)
    requires Inv(cfg, s) && Enabled(cfg, s, ReclaimOne)
    ensures s.reclaimed < s.published <= s.consumed <= |s.posted| && s.posted[s.reclaimed].id < cfg.num
    ensures !cfg.repaired ==> s.reclaimed + 1 < cfg.num
    ensures s.ppc.ReclaimFree?
    ensures var d := s.posted[s.reclaimed].id;
            Do(cfg, s, ReclaimOne)
            == s.(ring := FreeDesc(s.ring, s.prod.lastAvail, d), prod := s.prod.(lastAvail := d),
                  ppc := ReclaimTest(CursorAt(cfg, s.reclaimed + 1)),
                  free := [d] + s.free, reclaimed := s.reclaimed + 1)
  {
    hide AvailHolds, UsedHolds, AllFit, AllCarried, FreeList, Addressed, WellConfigured, Permutes, Wrap16, Slot;
    hide Owned, CursorAt, FreeDesc;
    ReclaimSlot(cfg, s);
  }

  lemma ReclaimOneKeeps(cfg: Config, s: State)
    requires Inv(cfg, s) && Enabled(cfg, s, ReclaimOne)
    ensures Inv(cfg, Do(cfg, s, ReclaimOne))
  {
    hide AvailHolds, UsedHolds, AllFit, AllCarried, FreeList, Addressed, WellConfigured, Permutes, Wrap16, Slot;
    hide Owned, CursorAt, Enabled, Do;
    ReclaimOneIs(cfg, s);
    var t, d := Do(cfg, s, ReclaimOne), s.posted[s.reclaimed].id;
    assert InHand(s) == [];
    OldestApart(s, cfg.num);
    var x := Desc(s.ring.desc[d].addr, BUFFER_SIZE, s.ring.desc[d].flags | VIRTIO_DESC_F_WRITE, s.prod.lastAvail);
    OwnedAfterFree(s, t, cfg.num);
    FreeListPush(s.ring.desc, s.prod.lastAvail, s.free, d, x.flags);
    AddressedKept(cfg, s.ring.desc, |s.ring.mem|, d, x);
    CarriedDescApart(cfg.buf, s.ring.desc, s.ring.mem, s.posted, s.consumed, d, x);
    AvailLater(cfg.num, s.ring.avail, s.posted, s.reclaimed);
    UsedLater(cfg.num, s.ring.used, s.posted, s.reclaimed, s.consumed);
  }

  lemma AvailLater(num: nat, avail: seq<u16>, posted: seq<Post>, lo: nat)
    requires 0 < num == |avail| && AvailHolds(num, avail, posted, lo)
    ensures AvailHolds(num, avail, posted, lo + 1)
  {
    hide Slot;
  }

  lemma UsedLater(num: nat, used: seq<UsedElem>, posted: seq<Post>, lo: nat, hi: nat)
    requires 0 < num == |used| && hi <= |posted| && UsedHolds(num, used, posted, lo, hi)
    ensures UsedHolds(num, used, posted, lo + 1, hi)
  {
    hide Slot;
  }

  // ---- the consumer's batch ----

  lemma BatchBeginKeeps(cfg: Config, s: State)
    requires Inv(cfg, s) && Enabled(cfg, s, BatchBegin)
    ensures Inv(cfg, Do(cfg, s, BatchBegin))
  {
    hide AvailHolds, UsedHolds, AllFit, AllCarried, FreeList, Addressed, ValidNum, Permutes, Wrap16, Slot;
    ModOfCounter(s.consumed, cfg.num);
    assert Owned(Do(cfg, s, BatchBegin)) == Owned(s);
  }

  /** The empty test of process_avail_vring is never fooled by the 16-bit wrap. */
  lemma BatchTestExact(cfg: Config, s: State)
    requires Inv(cfg, s)
    ensures s.cons.lastAvail == s.ring.availIdx <==> s.consumed == |s.posted|
  {
    hide AvailHolds, UsedHolds, AllFit, AllCarried, FreeList, Addressed, WellConfigured, Permutes, Slot;
    OwnedBelow(s, cfg.num);
    if s.consumed < |s.posted| {
      ModDistinct(s.consumed, |s.posted|, 0x1_0000);
    }
  }

  lemma BatchCheckKeeps(cfg: Config, s: State)
    requires Inv(cfg, s) && Enabled(cfg, s, BatchCheck)
    ensures Inv(cfg, Do(cfg, s, BatchCheck))
  {
    hide AvailHolds, UsedHolds, AllFit, AllCarried, FreeList, Addressed, WellConfigured, Permutes, Slot, Wrap16;
    BatchTestExact(cfg, s);
    assert Owned(Do(cfg, s, BatchCheck)) == Owned(s);
  }

  /** What `_process_desc` finds at the head of the unconsumed entries. */
  lemma PacketFound(cfg: Config, s: State)
    requires Inv(cfg, s) && s.cpc.BatchWork?
    ensures s.cpc.slot < cfg.num
    ensures s.ring.avail[s.cpc.slot] == s.posted[s.consumed].id < cfg.num
    ensures Processable(s.ring.desc, s.ring.mem, cfg.consumer, s.ring.avail[s.cpc.slot])
    ensures Packet(s.ring.desc, s.ring.mem, cfg.consumer, s.ring.avail[s.cpc.slot])
            == ZeroHeader() + s.posted[s.consumed].payload
  {
    hide UsedHolds, AllFit, FreeList, WellConfigured, Permutes, Slot, Wrap16, BufferAt, Halts, Gathered;
    var d, post := s.ring.avail[s.cpc.slot] as nat, s.posted[s.consumed];
    assert Carries(cfg.buf, s.ring.desc, s.ring.mem, d, post.payload);
    assert BufferAt(cfg.consumer, s.ring.desc[d].addr, cfg.buf[d], BUFFER_SIZE);
    SinglePacket(s.ring.desc, s.ring.mem, cfg.consumer, d, cfg.buf[d]);
  }

  lemma SinglePacket(desc: seq<Desc>, mem: seq<byte>, p: Process, d: nat, b: nat)
    requires d < |desc| && HDR_LEN <= desc[d].len < ETH_PACKET_SIZE && desc[d].flags == 0
    requires BufferAt(p, desc[d].addr, b, BUFFER_SIZE) && b + BUFFER_SIZE <= |mem|
    ensures Processable(desc, mem, p, d) && Packet(desc, mem, p, d) == Read(mem, b, desc[d].len)
  {
    GatherSingle(desc, d);
    BufferBase(p, desc[d].addr, b, BUFFER_SIZE);
    JoinedSingle(desc, mem, p, d);
  }

  lemma BatchOneKeeps(cfg: Config, s: State)
    requires Inv(cfg, s) && Enabled(cfg, s, BatchOne)
    ensures Inv(cfg, Do(cfg, s, BatchOne))
  {
    hide AvailHolds, UsedHolds, AllCarried, FreeList, Addressed, ValidNum, Permutes, Slot, Wrap16, Processable, Packet;
    var t, post := Do(cfg, s, BatchOne), s.posted[s.consumed];
    var packet := ZeroHeader() + post.payload;
    PacketFound(cfg, s);
    OwnedBelow(s, cfg.num);
    BatchCounters(s.consumed, cfg.num);
    UsedStored(cfg.num, s.ring.used, s.posted, s.reclaimed, s.consumed, UsedElem(post.id, |packet|));
    CarriedLater(cfg.buf, s.ring.desc, s.ring.mem, s.posted, s.consumed);
    PayloadsSnoc(s.posted, s.consumed);
    assert packet[HDR_LEN..] == post.payload && HeaderIsZero(packet);
    assert Owned(t) == Owned(s);
  }

  lemma BatchCounters(k: nat, num: nat)
    requires ValidNum(num)
    ensures Wrap16(Wrap16(k) + 1) == Wrap16(k + 1)
    ensures Slot(Wrap16(k), num) == Slot(k, num)
    ensures Slot(Slot(k, num) + 1, num) == Slot(k + 1, num)
  {
    WrapSucc(k);
    ModOfCounter(k, num);
    ModSucc(k, num);
  }

  lemma CarriedLater(buf: seq<nat>, desc: seq<Desc>, mem: seq<byte>, posted: seq<Post>, lo: nat)
    requires AllCarried(buf, desc, mem, posted, lo)
    ensures AllCarried(buf, desc, mem, posted, lo + 1)
  {
  }

  lemma BatchPublishKeeps(cfg: Config, s: State)
    requires Inv(cfg, s) && Enabled(cfg, s, BatchPublish)
    ensures Inv(cfg, Do(cfg, s, BatchPublish))
  {
    hide AvailHolds, UsedHolds, AllFit, AllCarried, FreeList, Addressed, WellConfigured, Permutes, Slot, Wrap16;
    assert Owned(Do(cfg, s, BatchPublish)) == Owned(s);
  }

  // ---- all steps, all runs ----

  lemma StepKeeps(cfg: Config, s: State, a: Action)
    requires Inv(cfg, s) && Enabled(cfg, s, a)
    ensures Inv(cfg, Do(cfg, s, a))
  {
    hide Inv, Enabled, Do;
    match a
    case PutPop(payload) => PutPopKeeps(cfg, s, payload);
    case PutFill => PutFillKeeps(cfg, s);
    case PutStore => PutStoreKeeps(cfg, s);
    case PutBump => PutBumpKeeps(cfg, s);
    case ReclaimBegin => ReclaimBeginKeeps(cfg, s);
    case ReclaimCheck => ReclaimCheckKeeps(cfg, s);
    case ReclaimOne => ReclaimOneKeeps(cfg, s);
    case BatchBegin => BatchBeginKeeps(cfg, s);
    case BatchCheck => BatchCheckKeeps(cfg, s);
    case BatchOne => BatchOneKeeps(cfg, s);
    case BatchPublish => BatchPublishKeeps(cfg, s);
  }

  lemma {:induction false} RunKeeps(cfg: Config, s: State, run: seq<Action>)
    requires Inv(cfg, s) && Exec(cfg, s, run).Some?
    ensures Inv(cfg, Exec(cfg, s, run).value)
    decreases |run|
  {
    hide Inv, Enabled, Do;
    if run != [] {
      StepKeeps(cfg, s, run[0]);
      RunKeeps(cfg, Do(cfg, s, run[0]), run[1..]);
    }
  }

  /** An idle producer has a free descriptor exactly while fewer than `num` are out. */
  lemma FreeCount(cfg: Config, s: State)
    requires Inv(cfg, s) && s.ppc.PIdle?
    ensures s.prod.lastAvail != VRING_IDX_NONE <==> |s.posted| - s.reclaimed < cfg.num
  {
    hide AvailHolds, UsedHolds, AllCarried, AllFit, Addressed, Permutes, WellConfigured, Slot, Wrap16;
    OwnedBelow(s, cfg.num);
  }
}
