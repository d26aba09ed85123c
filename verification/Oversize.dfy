/** Packets that put_vring accepts and _process_desc drops: with their header they have
    ETH_PACKET_SIZE bytes or more, and the largest run over the end of their buffer. */
module Oversize {
  import opened Common
  import opened AddressSpace
  import opened Ring
  import opened Routines
  import opened Gather
  import opened Protocol
  import opened Invariant
  import opened Runs
  import opened RunTheorems
  import opened Calls

  // ---- what such a put does to the other buffers ----

  /** The bytes a put of `payload` into descriptor `a` writes are shared memory that follows on from
      the start of its buffer. */
  ghost predicate Roomy(cfg: Config, r: Shared, a: nat, payload: seq<byte>) {
    && a < |r.desc| && a < |cfg.buf|
    && BufferAt(cfg.producer, r.desc[a].addr, cfg.buf[a], HDR_LEN + |payload|)
    && cfg.buf[a] + HDR_LEN + |payload| <= |r.mem|
  }

  /** The memory after that put. */
  function Overrun(mem: seq<byte>, at: nat, payload: seq<byte>): (r: seq<byte>)
    requires at + HDR_LEN + |payload| <= |mem|
    ensures |r| == |mem|
  {
    Write(mem, at, ZeroHeader() + payload)
  }

  /** The bytes of `payload` that fall on the header of the buffer at `next` are zero. */
  predicate SparesHeader(at: nat, next: nat, payload: seq<byte>) {
    forall k :: 0 <= k < |payload| && next <= at + HDR_LEN + k < next + HDR_LEN ==> payload[k] == 0
  }

  /** Two whole buffers that do not meet. */
  predicate BuffersDisjoint(at: nat, other: nat) {
    at + BUFFER_SIZE <= other || other + BUFFER_SIZE <= at
  }

  /** Whatever put_vring accepts, no byte behind the header of another buffer changes. */
  lemma PayloadSpared(mem: seq<byte>, at: nat, other: nat, payload: seq<byte>, n: nat)
    requires at + HDR_LEN + |payload| <= |mem| && other + HDR_LEN + n <= |mem|
    requires |payload| <= BUFFER_SIZE && BuffersDisjoint(at, other) && n <= ETH_PACKET_SIZE
    ensures Read(Overrun(mem, at, payload), other + HDR_LEN, n) == Read(mem, other + HDR_LEN, n)
  {
    ReadElsewhere(mem, at, ZeroHeader() + payload, other + HDR_LEN, n);
  }

  /** A zero header of another buffer stays zero exactly when what falls on it is zero. */
  lemma HeaderSparedIff(mem: seq<byte>, at: nat, other: nat, payload: seq<byte>)
    requires at + HDR_LEN + |payload| <= |mem| && other + BUFFER_SIZE <= |mem|
    requires |payload| <= BUFFER_SIZE && BuffersDisjoint(at, other)
    requires Read(mem, other, HDR_LEN) == ZeroHeader()
    ensures Read(Overrun(mem, at, payload), other, HDR_LEN) == ZeroHeader() <==> SparesHeader(at, other, payload)
  {
    var mem' := Overrun(mem, at, payload);
    var h, h' := Read(mem, other, HDR_LEN), Read(mem', other, HDR_LEN);
    forall j | 0 <= j < HDR_LEN
      ensures h'[j] == if at + HDR_LEN <= other + j < at + HDR_LEN + |payload|
                       then payload[other + j - at - HDR_LEN] else 0
    {
      assert h'[j] == mem'[other + j];
      assert h[j] == mem[other + j] == 0;
    }
    if SparesHeader(at, other, payload) {
      assert h' == ZeroHeader();
    } else {
      var k :| 0 <= k < |payload| && other <= at + HDR_LEN + k < other + HDR_LEN && payload[k] != 0;
      assert h'[at + HDR_LEN + k - other] == payload[k];
    }
  }

  /** No byte of the payload from ETH_PACKET_SIZE on, where its buffer ends, is other than zero. */
  predicate OverrunZero(payload: seq<byte>) {
    forall k :: ETH_PACKET_SIZE <= k < |payload| ==> payload[k] == 0
  }

  /** On the buffer right behind fall just those bytes; buffers elsewhere are spared. */
  lemma SparesHeaderIff(at: nat, other: nat, payload: seq<byte>)
    requires |payload| <= BUFFER_SIZE
    ensures other == at + BUFFER_SIZE ==> (SparesHeader(at, other, payload) <==> OverrunZero(payload))
    ensures other + BUFFER_SIZE <= at || at + HDR_LEN + |payload| <= other ==> SparesHeader(at, other, payload)
  {
  }

  /** At most one of several buffers can be reached. */
  lemma OneReached(at: nat, x: nat, y: nat, payload: seq<byte>)
    requires |payload| <= BUFFER_SIZE && BuffersDisjoint(at, x) && BuffersDisjoint(at, y) && BuffersDisjoint(x, y)
    ensures SparesHeader(at, x, payload) || SparesHeader(at, y, payload)
  {
    if !SparesHeader(at, x, payload) {
      SparesHeaderIff(at, x, payload);
      SparesHeaderIff(at, y, payload);
    }
  }

  // ---- the complaints of a batch ----

  /** How many packets are handed over with a header that is not zero. */
  function Complaints(packets: seq<seq<byte>>): nat {
    if packets == [] then 0
    else
      var last := packets[|packets| - 1];
      Complaints(packets[..|packets| - 1]) + if last == [] || HeaderIsZero(last) then 0 else 1
  }

  lemma {:induction false} ProcessAllComplains(r: Shared, num: nat, c: Consumer, heads: seq<u16>,
                                               packets: seq<seq<byte>>,
                                               n: nat)
    requires Shaped(r, num) && n <= |heads| == |packets| && HeadersFit(packets)
    ensures ProcessAll(r, num, c, heads, packets, n).1.complaints == c.complaints + Complaints(packets[..n])
    decreases n
  {
    hide Wrap16, Slot, HeaderIsZero;
    if n > 0 {
      ProcessAllComplains(r, num, c, heads, packets, n - 1);
      assert packets[..n][..n - 1] == packets[..n - 1];
    }
  }

  predicate Fine(packet: seq<byte>) {
    packet == [] || HeaderIsZero(packet)
  }

  lemma {:induction false} ComplaintsNone(packets: seq<seq<byte>>)
    ensures Complaints(packets) == 0 <==> forall k :: 0 <= k < |packets| ==> Fine(packets[k])
    decreases |packets|
  {
    hide HeaderIsZero;
    if packets != [] {
      var front := packets[..|packets| - 1];
      ComplaintsNone(front);
      assert forall k :: 0 <= k < |front| ==> packets[k] == front[k];
    }
  }

  lemma {:induction false} ComplaintsOne(packets: seq<seq<byte>>)
    requires forall j, k :: 0 <= j < k < |packets| ==> Fine(packets[j]) || Fine(packets[k])
    ensures Complaints(packets) <= 1
    decreases |packets|
  {
    hide HeaderIsZero;
    if packets != [] {
      var front := packets[..|packets| - 1];
      assert forall k :: 0 <= k < |front| ==> packets[k] == front[k];
      ComplaintsOne(front);
      ComplaintsNone(front);
    }
  }

  // ---- the packets the consumer finds after such a put ----

  /** An entry still to be consumed keeps its payload; what becomes of its header is up to the bytes
      that fall on it. */
  lemma PendingSpared(cfg: Config, s: State, a: nat, payload: seq<byte>, x: Desc, k: nat) returns (packet: seq<byte>)
    requires Inv(cfg, s) && s.consumed <= k < |s.posted| && Roomy(cfg, s.ring, a, payload)
    requires |payload| <= BUFFER_SIZE && s.posted[k].id != a
    ensures cfg.buf[a] + HDR_LEN + |payload| <= |s.ring.mem| && s.posted[k].id < |cfg.buf|
    ensures var desc, mem := s.ring.desc[a := x], Overrun(s.ring.mem, cfg.buf[a], payload);
            && Processable(desc, mem, cfg.consumer, s.posted[k].id)
            && packet == Packet(desc, mem, cfg.consumer, s.posted[k].id)
    ensures HDR_LEN <= |packet| && packet[HDR_LEN..] == s.posted[k].payload
    ensures Fine(packet) <==> SparesHeader(cfg.buf[a], cfg.buf[s.posted[k].id], payload)
  {
    hide AvailHolds, UsedHolds, AllFit, FreeList, Permutes, Slot, Wrap16, BufferAt, Packet, Processable, Counted;
    hide Overrun;
    hide SparesHeader, ValidNum;
    var d, post, mem := s.posted[k].id, s.posted[k], s.ring.mem;
    assert Carries(cfg.buf, s.ring.desc, mem, d, post.payload);
    assert BufferAt(cfg.consumer, s.ring.desc[d].addr, cfg.buf[d], BUFFER_SIZE);
    var desc, mem' := s.ring.desc[a := x], Overrun(mem, cfg.buf[a], payload);
    SinglePacket(desc, mem', cfg.consumer, d, cfg.buf[d]);
    packet := Read(mem', cfg.buf[d], HDR_LEN + |post.payload|);
    assert BuffersDisjoint(cfg.buf[a], cfg.buf[d]);
    Halves(mem, cfg.buf[d], ZeroHeader(), post.payload);
    PayloadSpared(mem, cfg.buf[a], cfg.buf[d], payload, |post.payload|);
    HeaderSparedIff(mem, cfg.buf[a], cfg.buf[d], payload);
    ReadHalves(mem', cfg.buf[d], |post.payload|);
  }

  lemma Halves(mem: seq<byte>, b: nat, h: seq<byte>, payload: seq<byte>)
    requires b + HDR_LEN + |payload| <= |mem| && |h| == HDR_LEN
    requires Read(mem, b, HDR_LEN + |payload|) == h + payload
    ensures Read(mem, b, HDR_LEN) == h && Read(mem, b + HDR_LEN, |payload|) == payload
  {
    ReadHalves(mem, b, |payload|);
    assert (h + payload)[..HDR_LEN] == h && (h + payload)[HDR_LEN..] == payload;
  }

  lemma ReadHalves(mem: seq<byte>, b: nat, n: nat)
    requires b + HDR_LEN + n <= |mem|
    ensures var packet := Read(mem, b, HDR_LEN + n);
            && |packet| == HDR_LEN + n
            && packet[..HDR_LEN] == Read(mem, b, HDR_LEN) && packet[HDR_LEN..] == Read(mem, b + HDR_LEN, n)
  {
  }

  // ---- the put and the next batch ----

  /** Replacing one entry of a listing of 0..n-1 leaves such a listing only by the same entry. */
  lemma SwapOne(left: seq<nat>, a: nat, x: nat, right: seq<nat>, n: nat)
    requires Permutes(left + ([a] + right), n)
    ensures Permutes(left + [x] + right, n) <==> x == a
  {
    var o, p := left + ([a] + right), left + [x] + right;
    assert |p| == |o| && p[|left|] == x && forall k :: 0 <= k < n && k != |left| ==> p[k] == o[k];
    if x == a {
      assert p == o;
    } else if x < n {
      PermutesCovers(o, n);
      assert x in Elems(o);
      var k :| 0 <= k < n && o[k] == x;
      assert k != |left| && p[k] == p[|left|];
    }
  }

  /** What put_vring does with such a packet. */
  lemma OversizePut(cfg: Config, s: State, payload: seq<byte>) returns (r': Shared, x: Desc)
    requires Inv(cfg, s) && s.ppc.PIdle? && s.prod.lastAvail < cfg.num
    requires ETH_PACKET_SIZE <= HDR_LEN + |payload| && |payload| <= BUFFER_SIZE
    requires Roomy(cfg, s.ring, s.prod.lastAvail, payload)
    ensures PutSafe(s.ring, cfg.num, cfg.producer, s.prod, payload)
    ensures Put(s.ring, cfg.num, cfg.producer, s.prod, payload)
            == (0, r', s.prod.(lastAvail := s.ring.desc[s.prod.lastAvail].next))
    ensures Shaped(r', cfg.num) && r'.used == s.ring.used && r'.usedIdx == s.ring.usedIdx
    ensures r'.availIdx == Wrap16(s.ring.availIdx + 1)
    ensures r'.avail == s.ring.avail[Slot(s.ring.availIdx, cfg.num) := s.prod.lastAvail]
    ensures r'.desc == s.ring.desc[s.prod.lastAvail := x]
    ensures r'.mem == Overrun(s.ring.mem, cfg.buf[s.prod.lastAvail], payload)
    ensures Processable(r'.desc, r'.mem, cfg.consumer, s.prod.lastAvail)
    ensures Packet(r'.desc, r'.mem, cfg.consumer, s.prod.lastAvail) == []
  {
    hide BufferAt, Processable, Packet, Base, Write, ValidNum, Wrap16, Slot, AvailHolds, UsedHolds, AllCarried, AllFit;
    hide Permutes, FreeList;
    PutProgress(cfg, s);
    var r, num, a := s.ring, cfg.num, s.prod.lastAvail;
    assert BufferAt(cfg.producer, r.desc[a].addr, cfg.buf[a], BUFFER_SIZE);
    assert BufferAt(cfg.consumer, r.desc[a].addr, cfg.buf[a], BUFFER_SIZE);
    PacketRoundTrip(r, cfg.producer, cfg.consumer, a, cfg.buf[a], payload);
    r' := Put(r, num, cfg.producer, s.prod, payload).1;
    var filled := Fill(r, cfg.producer, a, payload);
    x := filled.desc[a];
    assert r'.desc == filled.desc && r'.mem == filled.mem;
    assert |ZeroHeader() + payload| != 0;
  }

  /** Where the free list goes on once its head is taken and rewritten. */
  lemma WalkAfterTake(desc: seq<Desc>, a: u16, free: seq<nat>, x: Desc, n: nat)
    requires FreeList(desc, a, free) && free != [] && Distinct(free) && |free| <= n && |desc| <= VHOST_VRING_SIZE
    ensures a < |desc| && Walk(desc[a := x], desc[a].next, n) == free[1..]
  {
    hide FreeList, Walk;
    FreeListTail(desc, a, free);
    assert a == free[0] by {
      HeadIs(desc, a, free);
    }
    assert a as nat !in free[1..];
    FreeListApart(desc, desc[a].next, free[1..], a, x);
    WalkIs(desc[a := x], desc[a].next, free[1..], n);
  }

  lemma HeadIs(desc: seq<Desc>, a: u16, free: seq<nat>)
    requires FreeList(desc, a, free) && free != []
    ensures a == free[0]
  {
  }

  /** With a free descriptor the ring has room, and what is not free is unreclaimed. */
  lemma IdleOwned(cfg: Config, s: State)
    requires Inv(cfg, s) && s.ppc.PIdle? && s.prod.lastAvail != VRING_IDX_NONE
    ensures s.free != [] && s.prod.lastAvail == s.free[0] < cfg.num
    ensures s.reclaimed <= s.published <= s.consumed <= |s.posted| < s.reclaimed + cfg.num
    ensures Permutes(Ids(s.posted[s.reclaimed..]) + ([s.free[0]] + s.free[1..]), cfg.num)
    ensures FreeList(s.ring.desc, s.prod.lastAvail, s.free)
  {
    hide AvailHolds, UsedHolds, AllCarried, AllFit, Addressed, ValidNum, Slot, Wrap16, Permutes, ProducerAt, ConsumerAt;
    OwnedBelow(s, cfg.num);
    assert [s.free[0]] + s.free[1..] == s.free;
    assert Owned(s) == Ids(s.posted[s.reclaimed..]) + ([s.free[0]] + s.free[1..]);
  }

  lemma FreeDistinct(left: seq<nat>, free: seq<nat>, n: nat)
    requires Permutes(left + free, n)
    ensures Distinct(free) && |free| <= n
    ensures forall d :: d in left ==> d !in free
  {
    var o := left + free;
    assert forall k :: 0 <= k < |left| ==> o[k] == left[k];
    assert forall k :: 0 <= k < |free| ==> o[|left| + k] == free[k];
  }

  /** The heads the next batch takes: those pending before, and the new one. */
  lemma HeadsAfterPut(cfg: Config, s: State, r': Shared, a: u16)
    requires Inv(cfg, s) && Shaped(r', cfg.num) && |s.posted| < s.reclaimed + cfg.num
    requires r'.availIdx == Wrap16(s.ring.availIdx + 1)
    requires r'.avail == s.ring.avail[Slot(s.ring.availIdx, cfg.num) := a]
    ensures Pending(r', cfg.num, s.cons) == Pending(s.ring, cfg.num, s.cons) + [a]
    ensures |Pending(s.ring, cfg.num, s.cons)| == |s.posted| - s.consumed
  {
    hide UsedHolds, AllCarried, AllFit, Addressed, FreeList, Permutes, ValidNum, Slot, Wrap16, Gap, AvailHolds;
    hide ProducerAt, ConsumerAt, Owned;
    var n, num := |s.posted| - s.consumed, cfg.num;
    GapOfCounters(s.consumed, |s.posted|);
    GapOfCounters(s.consumed, |s.posted| + 1);
    WrapSucc(|s.posted|);
    ModOfCounter(|s.posted|, num);
    SlotsApart(num, s.consumed, |s.posted|);
    var before, after := Pending(s.ring, num, s.cons), Pending(r', num, s.cons);
    forall k | 0 <= k <= n ensures after[k] == if k == n then a else before[k] {
      SlotOfCounter(s.consumed, k, num);
    }
  }

  /** The ring right after such a put. */
  ghost predicate JustPut(cfg: Config, s: State, r': Shared, x: Desc, payload: seq<byte>) {
    && Inv(cfg, s) && s.ppc.PIdle? && s.cpc.CIdle? && s.prod.lastAvail < cfg.num
    && |payload| <= BUFFER_SIZE && Roomy(cfg, s.ring, s.prod.lastAvail, payload)
    && Shaped(r', cfg.num) && r'.used == s.ring.used && r'.usedIdx == s.ring.usedIdx
    && r'.availIdx == Wrap16(s.ring.availIdx + 1)
    && r'.avail == s.ring.avail[Slot(s.ring.availIdx, cfg.num) := s.prod.lastAvail]
    && r'.desc == s.ring.desc[s.prod.lastAvail := x]
    && r'.mem == Overrun(s.ring.mem, cfg.buf[s.prod.lastAvail], payload)
    && Processable(r'.desc, r'.mem, cfg.consumer, s.prod.lastAvail)
    && Packet(r'.desc, r'.mem, cfg.consumer, s.prod.lastAvail) == []
  }

  /** What the batch finds at the k-th pending head. */
  lemma PacketAfterPut(cfg: Config, s: State, r': Shared, x: Desc, payload: seq<byte>, k: nat)
    returns (packet: seq<byte>)
    requires JustPut(cfg, s, r', x, payload) && s.consumed <= k < |s.posted|
    ensures Processable(r'.desc, r'.mem, cfg.consumer, s.posted[k].id)
    ensures packet == Packet(r'.desc, r'.mem, cfg.consumer, s.posted[k].id)
    ensures HDR_LEN <= |packet| && packet[HDR_LEN..] == s.posted[k].payload && s.posted[k].id < |cfg.buf|
    ensures Fine(packet) <==> SparesHeader(cfg.buf[s.prod.lastAvail], cfg.buf[s.posted[k].id], payload)
  {
    hide Inv, Packet, Processable, Overrun, SparesHeader, Fine, Slot, Wrap16, Permutes, Distinct;
    IdleOwned(cfg, s);
    var a, left := s.prod.lastAvail, Ids(s.posted[s.reclaimed..]);
    assert left[k - s.reclaimed] == s.posted[k].id;
    assert [s.free[0]] + s.free[1..] == s.free;
    assert left + ([s.free[0]] + s.free[1..]) == left + s.free;
    FreeDistinct(left, s.free, cfg.num);
    assert s.posted[k].id in left && a as nat in s.free;
    packet := PendingSpared(cfg, s, a, payload, x, k);
  }

  /** What the batch finds at the k-th of its heads. */
  ghost predicate FoundAt(cfg: Config, s: State, a: nat, payload: seq<byte>, packet: seq<byte>, k: nat)
    requires s.consumed + k < |s.posted| && a < |cfg.buf|
  {
    && HDR_LEN <= |packet| && packet[HDR_LEN..] == s.posted[s.consumed + k].payload
    && s.posted[s.consumed + k].id < |cfg.buf|
    && (Fine(packet) <==> SparesHeader(cfg.buf[a], cfg.buf[s.posted[s.consumed + k].id], payload))
  }

  /** `packets` are those the batch finds: at the pending heads whole payloads, at the last nothing. */
  ghost predicate Found(cfg: Config, s: State, a: nat, payload: seq<byte>, packets: seq<seq<byte>>) {
    && s.consumed <= |s.posted| && a < |cfg.buf|
    && |packets| == |s.posted| - s.consumed + 1 && packets[|packets| - 1] == []
    && forall k :: 0 <= k < |packets| - 1 ==> FoundAt(cfg, s, a, payload, packets[k], k)
  }

  lemma HeadsFound(cfg: Config, s: State, r': Shared, x: Desc, payload: seq<byte>) returns (heads: seq<u16>)
    requires JustPut(cfg, s, r', x, payload)
    ensures Shaped(r', cfg.num) && heads == Pending(r', cfg.num, s.cons)
    ensures s.consumed <= |s.posted| < s.reclaimed + cfg.num && s.prod.lastAvail < |cfg.buf|
    ensures |heads| == |s.posted| - s.consumed + 1 && heads[|heads| - 1] == s.prod.lastAvail
    ensures forall k :: 0 <= k < |heads| - 1 ==> heads[k] == s.posted[s.consumed + k].id
  {
    hide Inv, Packet, Processable, Overrun, Slot, Wrap16, Roomy, FreeList, Permutes;
    IdleOwned(cfg, s);
    ShapeOf(cfg, s);
    BufferKnown(cfg, s.ring, s.prod.lastAvail, payload);
    HeadsAfterPut(cfg, s, r', s.prod.lastAvail);
    UnconsumedIs(cfg, s);
    var before := Pending(s.ring, cfg.num, s.cons);
    assert before == Unconsumed(cfg, s);
    heads := Pending(r', cfg.num, s.cons);
    forall k | 0 <= k < |heads| - 1 ensures heads[k] == s.posted[s.consumed + k].id {
      assert heads[k] == before[k];
    }
  }

  lemma BatchFinds(cfg: Config, s: State, r': Shared, x: Desc, payload: seq<byte>)
    requires JustPut(cfg, s, r', x, payload)
    ensures BatchSafe(r', cfg.num, cfg.consumer, s.cons)
    ensures Found(cfg, s, s.prod.lastAvail, payload,
                  Packets(r'.desc, r'.mem, cfg.consumer, Pending(r', cfg.num, s.cons)))
  {
    hide Packet, Processable, FoundAt, Fine, SparesHeader, Packets, Pending, JustPut;
    var heads := HeadsFound(cfg, s, r', x, payload);
    LastFound(cfg, s, r', x, payload);
    var n, a, packets := |heads| - 1, s.prod.lastAvail, Packets(r'.desc, r'.mem, cfg.consumer, heads);
    forall k | 0 <= k < n
      ensures Processable(r'.desc, r'.mem, cfg.consumer, heads[k]) && FoundAt(cfg, s, a, payload, packets[k], k)
    {
      var packet := PacketAfterPut(cfg, s, r', x, payload, s.consumed + k);
      assert packets[k] == packet;
      IsFoundAt(cfg, s, a, payload, packet, k);
    }
    assert packets[n] == Packet(r'.desc, r'.mem, cfg.consumer, heads[n]) == [];
    assert forall k :: 0 <= k <= n ==> heads[k] in heads;
    assert forall d :: d in heads ==> Processable(r'.desc, r'.mem, cfg.consumer, d);
  }

  lemma IsFoundAt(cfg: Config, s: State, a: nat, payload: seq<byte>, packet: seq<byte>, k: nat)
    requires s.consumed + k < |s.posted| && a < |cfg.buf|
    requires HDR_LEN <= |packet| && packet[HDR_LEN..] == s.posted[s.consumed + k].payload
    requires s.posted[s.consumed + k].id < |cfg.buf|
    requires Fine(packet) <==> SparesHeader(cfg.buf[a], cfg.buf[s.posted[s.consumed + k].id], payload)
    ensures FoundAt(cfg, s, a, payload, packet, k)
  {
    hide Fine, SparesHeader;
  }

  lemma LastFound(cfg: Config, s: State, r': Shared, x: Desc, payload: seq<byte>)
    requires JustPut(cfg, s, r', x, payload)
    ensures Processable(r'.desc, r'.mem, cfg.consumer, s.prod.lastAvail)
    ensures Packet(r'.desc, r'.mem, cfg.consumer, s.prod.lastAvail) == []
  {
    hide Inv, Packet, Processable, Overrun, Roomy;
  }

  lemma BufferKnown(cfg: Config, r: Shared, a: nat, payload: seq<byte>)
    requires Roomy(cfg, r, a, payload)
    ensures a < |cfg.buf|
  {
  }

  /** The batch hands over everything that was still to be consumed. */
  lemma HandedAfterPut(cfg: Config, s: State, a: nat, payload: seq<byte>, packets: seq<seq<byte>>)
    requires Inv(cfg, s) && Found(cfg, s, a, payload, packets)
    ensures s.delivered + Handed(packets) == Payloads(s.posted)
  {
    hide AvailHolds, UsedHolds, AllCarried, AllFit, Addressed, FreeList, Permutes, ValidNum, Slot, Wrap16, ProducerAt;
    hide ConsumerAt, SparesHeader, Fine, Handed, Counted;
    HandedIs(packets, Payloads(s.posted[s.consumed..]));
    assert s.posted == s.posted[..s.consumed] + s.posted[s.consumed..];
    assert Payloads(s.posted) == Payloads(s.posted[..s.consumed]) + Payloads(s.posted[s.consumed..]);
  }

  /** All headers still to be consumed are spared. */
  predicate AllSpared(cfg: Config, s: State, a: nat, payload: seq<byte>)
    requires a < |cfg.buf|
  {
    forall k :: s.consumed <= k < |s.posted| && s.posted[k].id < |cfg.buf| ==>
      SparesHeader(cfg.buf[a], cfg.buf[s.posted[k].id], payload)
  }

  /** With the buffers in one row, as new_vring lays them out, that is so unless the next descriptor is
      pending and the overrun is not zero. */
  lemma AllSparedIff(cfg: Config, s: State, a: nat, payload: seq<byte>, from: nat)
    requires forall i :: 0 <= i < |cfg.buf| ==> cfg.buf[i] == from + BUFFER_SIZE * i
    requires a < |cfg.buf| && |payload| <= BUFFER_SIZE
    requires forall k :: s.consumed <= k < |s.posted| ==> s.posted[k].id < |cfg.buf| && s.posted[k].id != a
    ensures AllSpared(cfg, s, a, payload) <==>
              OverrunZero(payload) || forall k :: s.consumed <= k < |s.posted| ==> s.posted[k].id != a + 1
  {
    hide SparesHeader, OverrunZero;
    forall k | s.consumed <= k < |s.posted|
      ensures SparesHeader(cfg.buf[a], cfg.buf[s.posted[k].id], payload)
              <==> OverrunZero(payload) || s.posted[k].id != a + 1
    {
      RowOfBuffers(from, a, s.posted[k].id);
      SparesHeaderIff(cfg.buf[a], cfg.buf[s.posted[k].id], payload);
    }
  }

  lemma RowOfBuffers(from: nat, a: nat, d: nat)
    requires a != d
    ensures var at, other := from + BUFFER_SIZE * a, from + BUFFER_SIZE * d;
            if d == a + 1 then other == at + BUFFER_SIZE
            else other + BUFFER_SIZE <= at || at + HDR_LEN + BUFFER_SIZE <= other
  {
  }

  /** It complains once or not at all. */
  lemma ComplaintsAfterPut(cfg: Config, s: State, a: nat, payload: seq<byte>, packets: seq<seq<byte>>)
    requires Inv(cfg, s) && Found(cfg, s, a, payload, packets) && a !in Ids(s.posted[s.consumed..]) && a < cfg.num
    requires |payload| <= BUFFER_SIZE
    ensures Complaints(packets) == if AllSpared(cfg, s, a, payload) then 0 else 1
  {
    hide Inv, SparesHeader, Fine, Complaints, BuffersDisjoint;
    EmptyIsFine();
    forall j, k | 0 <= j < k < |packets| ensures Fine(packets[j]) || Fine(packets[k]) {
      if k < |packets| - 1 {
        PendingApart(cfg, s, a, s.consumed + j, s.consumed + k);
        OneReached(cfg.buf[a], cfg.buf[s.posted[s.consumed + j].id], cfg.buf[s.posted[s.consumed + k].id], payload);
      }
    }
    ComplaintsOne(packets);
    ComplaintsNone(packets);
    SparedIff(cfg, s, a, payload, packets);
  }

  lemma SparedIff(cfg: Config, s: State, a: nat, payload: seq<byte>, packets: seq<seq<byte>>)
    requires Found(cfg, s, a, payload, packets)
    ensures AllSpared(cfg, s, a, payload) <==> forall k :: 0 <= k < |packets| ==> Fine(packets[k])
  {
    hide SparesHeader, Fine;
    EmptyIsFine();
    if forall k :: 0 <= k < |packets| ==> Fine(packets[k]) {
      forall k | s.consumed <= k < |s.posted| && s.posted[k].id < |cfg.buf|
        ensures SparesHeader(cfg.buf[a], cfg.buf[s.posted[k].id], payload)
      {
        assert Fine(packets[k - s.consumed]) && FoundAt(cfg, s, a, payload, packets[k - s.consumed], k - s.consumed);
      }
    }
    if AllSpared(cfg, s, a, payload) {
      forall k | 0 <= k < |packets| - 1 ensures Fine(packets[k]) {
        assert FoundAt(cfg, s, a, payload, packets[k], k);
      }
    }
  }

  lemma EmptyIsFine()
    ensures Fine([])
  {
  }

  lemma HandedIs(packets: seq<seq<byte>>, payloads: seq<seq<byte>>)
    requires |packets| == |payloads| + 1 && packets[|payloads|] == []
    requires forall k :: 0 <= k < |payloads| ==> HDR_LEN <= |packets[k]| && packets[k][HDR_LEN..] == payloads[k]
    ensures Handed(packets) == payloads
  {
    HandedAll(packets[..|payloads|], payloads);
  }

  lemma {:induction false} HandedAll(packets: seq<seq<byte>>, payloads: seq<seq<byte>>)
    requires |packets| == |payloads|
    requires forall k :: 0 <= k < |payloads| ==> HDR_LEN <= |packets[k]| && packets[k][HDR_LEN..] == payloads[k]
    ensures Handed(packets) == payloads
    decreases |packets|
  {
    if packets != [] {
      HandedAll(packets[..|packets| - 1], payloads[..|packets| - 1]);
      assert payloads == payloads[..|packets| - 1] + [payloads[|packets| - 1]];
    }
  }

  /** Different entries to be consumed have buffers apart. */
  lemma PendingApart(cfg: Config, s: State, a: nat, j: nat, k: nat)
    requires Inv(cfg, s) && s.consumed <= j < k < |s.posted| && a < cfg.num && a !in Ids(s.posted[s.consumed..])
    ensures s.posted[j].id < |cfg.buf| && s.posted[k].id < |cfg.buf| && a < |cfg.buf|
    ensures BuffersDisjoint(cfg.buf[a], cfg.buf[s.posted[j].id])
    ensures BuffersDisjoint(cfg.buf[a], cfg.buf[s.posted[k].id])
    ensures BuffersDisjoint(cfg.buf[s.posted[j].id], cfg.buf[s.posted[k].id])
  {
    hide AvailHolds, UsedHolds, AllCarried, AllFit, Addressed, FreeList, Permutes, ValidNum, Slot, Wrap16, ProducerAt;
    hide ConsumerAt;
    OwnedBelow(s, cfg.num);
    OwnedApart(s, cfg.num);
    var ids := Ids(s.posted[s.consumed..]);
    assert ids[j - s.consumed] == s.posted[j].id && ids[k - s.consumed] == s.posted[k].id;
  }

  /** The used ring after the batch: the pending entries have gone in, the slot passed over still has
      what it had. */
  lemma UsedAfterBatch(cfg: Config, s: State, used': seq<UsedElem>, entries: seq<UsedElem>, n: nat, k: nat)
    requires Inv(cfg, s) && s.ppc.PIdle? && |s.posted| < s.reclaimed + cfg.num
    requires n == |s.posted| - s.consumed <= |entries| && |used'| == cfg.num
    requires forall j :: 0 <= j < n ==> entries[j].id == s.posted[s.consumed + j].id
    requires Entered(s.ring.used, used', cfg.num, s.cons.lastUsed, entries, n)
    requires s.reclaimed <= k <= |s.posted|
    ensures used'[Slot(k, cfg.num)].id
            == if k < |s.posted| then s.posted[k].id else s.ring.used[Slot(k, cfg.num)].id
  {
    hide AvailHolds, AllCarried, AllFit, Addressed, FreeList, Permutes, ValidNum, Slot, Wrap16, ProducerAt, ConsumerAt;
    var num, i := cfg.num, Slot(k, cfg.num);
    if s.consumed <= k < |s.posted| {
      SlotOfCounter(s.consumed, k - s.consumed, num);
      assert used'[Slot(s.cons.lastUsed + (k - s.consumed), num)] == entries[k - s.consumed];
    } else {
      NotAmong(num, s.cons.lastUsed, s.consumed, n, k);
      assert used'[i] == s.ring.used[i];
    }
  }

  lemma NotAmong(num: nat, from: u16, lo: nat, n: nat, k: nat)
    requires ValidNum(num) && from == Wrap16(lo) && lo + n <= k + num
    requires k < lo || lo + n <= k < lo + num
    ensures Slot(k, num) !in SlotsFrom(from, n, num)
  {
    hide Slot, Wrap16, ValidNum;
    var slots := SlotsFrom(from, n, num);
    forall j | 0 <= j < n ensures slots[j] != Slot(k, num) {
      SlotOfCounter(lo, j, num);
      SlotsDiffer(num, lo + j, k);
    }
  }

  lemma SlotsDiffer(num: nat, j: nat, k: nat)
    requires num > 0 && j != k && j < k + num && k < j + num
    ensures Slot(j, num) != Slot(k, num)
  {
    if j < k {
      ModDistinct(j, k, num);
    } else {
      ModDistinct(k, j, num);
    }
  }

  /** Hence the used entries the producer is told of are all it has not reclaimed, and that one. */
  lemma ToldAfterBatch(cfg: Config, s: State, r'': Shared, entries: seq<UsedElem>, n: nat)
    requires Inv(cfg, s) && s.ppc.PIdle? && |s.posted| < s.reclaimed + cfg.num && Shaped(r'', cfg.num)
    requires n == |s.posted| - s.consumed <= |entries| && r''.usedIdx == Wrap16(|s.posted| + 1)
    requires forall j :: 0 <= j < n ==> entries[j].id == s.posted[s.consumed + j].id
    requires Entered(s.ring.used, r''.used, cfg.num, s.cons.lastUsed, entries, n)
    ensures Shaped(s.ring, cfg.num) && s.reclaimed <= |s.posted|
    ensures UsedIds(r'', cfg.num, s.prod.lastUsed, Gap(r''.usedIdx, s.prod.lastUsed))
            == Ids(s.posted[s.reclaimed..]) + [s.ring.used[Slot(|s.posted|, cfg.num)].id]
  {
    hide AvailHolds, UsedHolds, AllCarried, AllFit, Addressed, FreeList, Permutes, ValidNum, Slot, Wrap16, Gap, Entered;
    ReclaimCursorIs(cfg, s, 0);
    GapOfCounters(s.reclaimed, |s.posted| + 1);
    var m := |s.posted| - s.reclaimed;
    var told, ids := UsedIds(r'', cfg.num, s.prod.lastUsed, m + 1), Ids(s.posted[s.reclaimed..]);
    forall j | 0 <= j <= m ensures told[j] == if j < m then ids[j] else s.ring.used[Slot(|s.posted|, cfg.num)].id {
      ReclaimCursorIs(cfg, s, j);
      UsedAfterBatch(cfg, s, r''.used, entries, n, s.reclaimed + j);
    }
  }

  /** The batch itself. */
  lemma BatchAfterPut(cfg: Config, s: State, r': Shared, x: Desc, payload: seq<byte>)
    returns (r'': Shared, c': Consumer, n: nat, entries: seq<UsedElem>)
    requires JustPut(cfg, s, r', x, payload)
    ensures s.consumed <= |s.posted| < s.reclaimed + cfg.num && n == |s.posted| - s.consumed
    ensures BatchYields(r', cfg.num, cfg.consumer, ConsumerSide(s), r'', c', n + 1)
    ensures c'.delivered == Payloads(s.posted) && s.prod.lastAvail < |cfg.buf|
    ensures c'.complaints == if AllSpared(cfg, s, s.prod.lastAvail, payload) then 0 else 1
    ensures Shaped(r'', cfg.num) && r''.desc == r'.desc && r''.usedIdx == Wrap16(|s.posted| + 1)
    ensures n <= |entries| && forall j :: 0 <= j < n ==> entries[j].id == s.posted[s.consumed + j].id
    ensures Entered(s.ring.used, r''.used, cfg.num, s.cons.lastUsed, entries, n)
  {
    hide Inv, Packet, Processable, Packets, Pending, ProcessAll, Handed, Complaints, AllSpared, SparesHeader, Fine;
    hide Roomy;
    hide BatchSafe, BatchYields, Entered, Wrap16, Wrap32, Slot, HeadersFit, Overrun;
    var heads := HeadsFound(cfg, s, r', x, payload);
    BatchFinds(cfg, s, r', x, payload);
    var num, a, c, packets := cfg.num, s.prod.lastAvail, ConsumerSide(s), Packets(r'.desc, r'.mem, cfg.consumer, heads);
    n := |heads| - 1;
    BatchYieldsIs(r', num, cfg.consumer, c, heads, packets);
    var (t, d) := ProcessAll(r', num, c, heads, packets, n + 1);
    r'', c', entries := t.(usedIdx := d.cursors.lastUsed), d, UsedEntries(heads, packets);
    WholeBatch(r', num, c, heads, packets);
    NumIs(cfg, s);
    RoomLeft(cfg, s, n + 1);
    ProcessAllEnters(r', num, c, heads, packets, n);
    assert packets[..n + 1] == packets;
    HandedAfterPut(cfg, s, a, payload, packets);
    NotPending(cfg, s);
    ComplaintsAfterPut(cfg, s, a, payload, packets);
  }

  /** The counters after a batch whose last packet is empty, which leaves the used ring alone. */
  lemma WholeBatch(r: Shared, num: nat, c: Consumer, heads: seq<u16>, packets: seq<seq<byte>>)
    requires Shaped(r, num) && |heads| == |packets| > 0 && HeadersFit(packets) && packets[|packets| - 1] == []
    ensures var n := |heads| - 1;
            var (t, d) := ProcessAll(r, num, c, heads, packets, n + 1);
            && t.used == ProcessAll(r, num, c, heads, packets, n).0.used
            && d.delivered == c.delivered + Handed(packets) && d.complaints == c.complaints + Complaints(packets)
            && d.cursors.lastUsed == Wrap16(c.cursors.lastUsed + (n + 1))
  {
    hide Wrap16, Handed, Complaints, HeadersFit, ProcessAll;
    LastDropped(r, num, c, heads, packets);
    ProcessAllCounts(r, num, c, heads, packets, |heads|);
    ProcessAllComplains(r, num, c, heads, packets, |heads|);
    assert packets[..|heads|] == packets;
  }

  lemma LastDropped(r: Shared, num: nat, c: Consumer, heads: seq<u16>, packets: seq<seq<byte>>)
    requires Shaped(r, num) && |heads| == |packets| > 0 && HeadersFit(packets) && packets[|packets| - 1] == []
    ensures ProcessAll(r, num, c, heads, packets, |heads|).0 == ProcessAll(r, num, c, heads, packets, |heads| - 1).0
  {
    hide HeadersFit, Turn;
    var (r', c') := ProcessAll(r, num, c, heads, packets, |heads| - 1);
    NothingTaken(r', num, c', heads[|heads| - 1]);
  }

  lemma NothingTaken(r: Shared, num: nat, c: Consumer, d: u16)
    requires Shaped(r, num)
    ensures Turn(r, num, c, d, []).0 == r
  {
  }

  lemma RoomLeft(cfg: Config, s: State, n: nat)
    requires Inv(cfg, s) && s.cpc.CIdle?
    ensures s.complaints == 0 && s.cons.lastUsed == Wrap16(s.consumed)
    ensures |s.posted| - s.reclaimed <= cfg.num && s.reclaimed <= s.consumed
    ensures Wrap16(s.cons.lastUsed + n) == Wrap16(s.consumed + n)
  {
    hide AvailHolds, UsedHolds, AllCarried, AllFit, Addressed, FreeList, Permutes, WellConfigured, Slot, Wrap16;
    OwnedBelow(s, cfg.num);
    WrapShift(s.consumed, n);
  }

  lemma NotPending(cfg: Config, s: State)
    requires Inv(cfg, s) && s.ppc.PIdle? && s.prod.lastAvail < cfg.num
    ensures s.consumed <= |s.posted| && s.prod.lastAvail as nat !in Ids(s.posted[s.consumed..])
  {
    hide AvailHolds, UsedHolds, AllCarried, AllFit, Addressed, ValidNum, Slot, Wrap16, Permutes, ProducerAt, ConsumerAt;
    IdleOwned(cfg, s);
    OwnedApart(s, cfg.num);
    var ids := Ids(s.posted[s.consumed..]);
    assert forall k :: 0 <= k < |ids| ==> ids[k] == s.posted[s.consumed + k].id;
  }

  /** A packet that with its header has ETH_PACKET_SIZE bytes or more, accepted in any reachable state
      of two idle sides. Everything before it is still delivered unharmed, it is itself dropped while
      every cursor moves, and its overrun draws a complaint about one pending packet exactly when a
      byte that is not zero falls on a pending header. The descriptors the producer is then told to
      reclaim and its free list are all of 0..num-1, each once, exactly when the used slot passed over
      named the dropped descriptor already. */
  lemma OversizeConservedIff(cfg: Config, s0: State, run: seq<Action>, s: State, payload: seq<byte>)
    returns (next: u16, c': Consumer, r': Shared, r'': Shared, n: nat)
    requires ReachedBy(cfg, s0, run, s) && s.ppc.PIdle? && s.cpc.CIdle? && s.prod.lastAvail != VRING_IDX_NONE
    requires ETH_PACKET_SIZE <= HDR_LEN + |payload| && |payload| <= BUFFER_SIZE
    requires HDR_LEN + |payload| > BUFFER_SIZE ==> Roomy(cfg, s.ring, s.prod.lastAvail, payload)
    ensures PutSafe(s.ring, cfg.num, cfg.producer, s.prod, payload)
    ensures Put(s.ring, cfg.num, cfg.producer, s.prod, payload) == (0, r', s.prod.(lastAvail := next))
    ensures n == Gap(s.ring.availIdx, s.cons.lastAvail)
    ensures BatchYields(r', cfg.num, cfg.consumer, ConsumerSide(s), r'', c', n + 1)
    ensures c'.delivered == Accepted(run) && s.prod.lastAvail < |cfg.buf|
    ensures c'.complaints == if AllSpared(cfg, s, s.prod.lastAvail, payload) then 0 else 1
    ensures Shaped(r'', cfg.num) && Shaped(s.ring, cfg.num)
    ensures Permutes(UsedIds(r'', cfg.num, s.prod.lastUsed, Gap(r''.usedIdx, s.prod.lastUsed))
                     + Walk(r''.desc, next, cfg.num), cfg.num)
            <==> s.ring.used[Slot(s.cons.lastUsed + n, cfg.num)].id == s.prod.lastAvail
  {
    hide Inv, Exec, Fresh, BufferAt, Packet, Processable, BatchYields, Put, PutSafe, Permutes, FreeList, AllSpared;
    hide Roomy;
    hide UsedIds, Walk, Slot, Wrap16, Gap, Distinct, Entered, Overrun;
    ReachedInv(cfg, s0, run, s);
    IdleOwned(cfg, s);
    ShapeOf(cfg, s);
    RoomyAnyway(cfg, s, payload);
    var num, a, x, entries := cfg.num, s.prod.lastAvail, Desc(0, 0, 0, 0), [];
    r', x := OversizePut(cfg, s, payload);
    next := s.ring.desc[a].next;
    assert JustPut(cfg, s, r', x, payload);
    r'', c', n, entries := BatchAfterPut(cfg, s, r', x, payload);
    SentSoFar(cfg, s0, run, s);
    ToldAfterBatch(cfg, s, r'', entries, n);
    PendingCount(cfg, s);
    var ids := Ids(s.posted[s.reclaimed..]);
    assert [s.free[0]] + s.free[1..] == s.free;
    FreeDistinct(ids, s.free, num);
    WalkAfterTake(s.ring.desc, a, s.free, x, num);
    SwapOne(ids, a, s.ring.used[Slot(|s.posted|, num)].id, s.free[1..], num);
  }

  /** put_vring accepts what is not longer than the free buffer it finds, 1528 bytes in every reachable
      state; it refuses the rest with -1 and changes nothing. */
  lemma PutAcceptsIff(cfg: Config, s0: State, run: seq<Action>, s: State, payload: seq<byte>)
    requires ReachedBy(cfg, s0, run, s) && s.ppc.PIdle? && s.prod.lastAvail != VRING_IDX_NONE
    requires BUFFER_SIZE - HDR_LEN < |payload| <= BUFFER_SIZE ==> Roomy(cfg, s.ring, s.prod.lastAvail, payload)
    ensures PutSafe(s.ring, cfg.num, cfg.producer, s.prod, payload)
    ensures Put(s.ring, cfg.num, cfg.producer, s.prod, payload).0 == if |payload| <= 1528 then 0 else -1
    ensures |payload| > 1528 ==> Put(s.ring, cfg.num, cfg.producer, s.prod, payload) == (-1, s.ring, s.prod)
  {
    hide Inv, ReachedBy, Roomy, Fill, StoreSlot, BumpAvail;
    ReachedInv(cfg, s0, run, s);
    IdleOwned(cfg, s);
    PutProgress(cfg, s);
    ShapeOf(cfg, s);
    if |payload| <= BUFFER_SIZE {
      RoomyAnyway(cfg, s, payload);
      RoomySafe(cfg, s, payload);
    }
  }

  lemma RoomySafe(cfg: Config, s: State, payload: seq<byte>)
    requires Inv(cfg, s) && s.prod.lastAvail < cfg.num && Roomy(cfg, s.ring, s.prod.lastAvail, payload)
    ensures PutSafe(s.ring, cfg.num, cfg.producer, s.prod, payload)
  {
    hide Inv;
    ShapeOf(cfg, s);
    BufferBase(cfg.producer, s.ring.desc[s.prod.lastAvail].addr, cfg.buf[s.prod.lastAvail], HDR_LEN + |payload|);
  }

  /** Where the slot passed over is. */
  lemma PendingCount(cfg: Config, s: State)
    requires Inv(cfg, s)
    ensures s.consumed <= |s.posted| && Gap(s.ring.availIdx, s.cons.lastAvail) == |s.posted| - s.consumed
    ensures Slot(s.cons.lastUsed + (|s.posted| - s.consumed), cfg.num) == Slot(|s.posted|, cfg.num)
  {
    hide AvailHolds, UsedHolds, AllCarried, AllFit, Addressed, FreeList, Permutes, ValidNum, Slot, Wrap16, Gap;
    OwnedBelow(s, cfg.num);
    GapOfCounters(s.consumed, |s.posted|);
    SlotOfCounter(s.consumed, |s.posted| - s.consumed, cfg.num);
  }

  /** Inside its own buffer a put is always at home. */
  lemma RoomyAnyway(cfg: Config, s: State, payload: seq<byte>)
    requires Inv(cfg, s) && s.prod.lastAvail < cfg.num
    requires HDR_LEN + |payload| > BUFFER_SIZE ==> Roomy(cfg, s.ring, s.prod.lastAvail, payload)
    ensures Roomy(cfg, s.ring, s.prod.lastAvail, payload)
  {
    hide AvailHolds, UsedHolds, AllCarried, AllFit, FreeList, Permutes, ValidNum, Slot, Wrap16;
    if HDR_LEN + |payload| <= BUFFER_SIZE {
      assert BufferAt(cfg.producer, s.ring.desc[s.prod.lastAvail].addr, cfg.buf[s.prod.lastAvail], BUFFER_SIZE);
    }
  }

  // ---- a run that loses a descriptor ----

  /** A batch writes no used slot but those of the heads it takes. */
  lemma BatchLeavesUsed(cfg: Config, s: State, r': Shared, c': Consumer, n: nat, i: nat)
    requires Inv(cfg, s) && BatchYields(s.ring, cfg.num, cfg.consumer, ConsumerSide(s), r', c', n)
    requires n <= cfg.num && i < cfg.num && i !in SlotsFrom(s.cons.lastUsed, n, cfg.num)
    ensures Shaped(r', cfg.num) && r'.used[i] == s.ring.used[i]
  {
    hide Inv, BatchSafe, ProcessAll, SlotsFrom, Packet, HeaderFits, Packets;
    PendingIs(cfg, s);
    ShapeOf(cfg, s);
    var heads := Pending(s.ring, cfg.num, s.cons);
    var packets := Packets(s.ring.desc, s.ring.mem, cfg.consumer, heads);
    BatchIs(s.ring, cfg.num, cfg.consumer, ConsumerSide(s), heads, packets);
    NumIs(cfg, s);
    ProcessAllUsed(s.ring, cfg.num, ConsumerSide(s), heads, packets, n);
  }

  lemma NumIs(cfg: Config, s: State)
    requires Inv(cfg, s)
    ensures ValidNum(cfg.num)
  {
    hide AvailHolds, UsedHolds, AllCarried, AllFit, Addressed, FreeList, Permutes, ValidNum;
  }

  /** One packet in and out of a ring. */
  lemma OnePacket(cfg: Config, s0: State, first: seq<byte>) returns (run: seq<Action>, s: State)
    requires Fresh(cfg, s0) && cfg.num >= 2 && HDR_LEN + |first| < ETH_PACKET_SIZE
    ensures ReachedBy(cfg, s0, run, s) && s.ppc.PIdle? && s.cpc.CIdle? && Accepted(run) == [first]
    ensures s.prod.lastAvail == 1 && s.cons.lastAvail == s.ring.availIdx && s.cons.lastUsed == 1
    ensures Shaped(s.ring, cfg.num) && s.ring.used[1] == s0.ring.used[1]
  {
    hide Inv, Put, PutSafe, BatchYields, Addressed, WellConfigured, Permutes, Exec, BatchTurns, BatchRun, Accepted;
    ReachedFirst(cfg, s0);
    var s1 := PutReaches(cfg, s0, [], s0, first);
    var four := [PutPop(first), PutFill, PutStore, PutBump];
    assert [] + four == four;
    FirstPut(cfg, s0, first);
    var n, s2 := BatchReaches(cfg, s0, four, s1);
    YieldsCaughtUp(s1.ring, cfg.num, cfg.consumer, ConsumerSide(s1), s2.ring, ConsumerSide(s2), n);
    ReachedInv(cfg, s0, four, s1);
    SecondSlot(cfg.num);
    BatchLeavesUsed(cfg, s1, s2.ring, ConsumerSide(s2), n, 1);
    run, s := four + BatchRun(n), s2;
    AcceptedPut(first, BatchRun(n));
    TurnsAccept(n);
    ReachedInv(cfg, s0, run, s);
    SameCursor(cfg, s);
  }

  lemma SameCursor(cfg: Config, s: State)
    requires Inv(cfg, s)
    ensures s.cons.lastUsed == s.cons.lastAvail
  {
  }

  /** A losing run: on a ring whose used entries are zero, as in a new region, one packet is put and
      consumed, the next one is oversize. Descriptor 1 is then neither free nor reclaimable. */
  lemma OversizeLoses(cfg: Config, s0: State, first: seq<byte>, payload: seq<byte>)
    returns (run: seq<Action>, s: State, next: u16, c': Consumer, r': Shared, r'': Shared)
    requires Fresh(cfg, s0) && cfg.num >= 2 && s0.ring.used[1].id == 0
    requires HDR_LEN + |first| < ETH_PACKET_SIZE <= HDR_LEN + |payload| <= BUFFER_SIZE
    ensures ReachedBy(cfg, s0, run, s) && s.ppc.PIdle? && s.cpc.CIdle? && Accepted(run) == [first]
    ensures PutSafe(s.ring, cfg.num, cfg.producer, s.prod, payload)
    ensures Put(s.ring, cfg.num, cfg.producer, s.prod, payload) == (0, r', s.prod.(lastAvail := next))
    ensures BatchYields(r', cfg.num, cfg.consumer, ConsumerSide(s), r'', c', 1) && Shaped(r'', cfg.num)
    ensures !Permutes(UsedIds(r'', cfg.num, s.prod.lastUsed, Gap(r''.usedIdx, s.prod.lastUsed))
                      + Walk(r''.desc, next, cfg.num), cfg.num)
  {
    hide Inv, Put, PutSafe, BatchYields, UsedIds, Walk, Permutes, ReachedBy, Accepted, AllSpared, Roomy, Fresh, Wrap16;
    run, s := OnePacket(cfg, s0, first);
    var none;
    next, c', r', r'', none := OversizeConservedIff(cfg, s0, run, s, payload);
    GapNone(s.ring.availIdx);
    SecondSlot(cfg.num);
  }

  lemma ReachedFirst(cfg: Config, s0: State)
    requires Fresh(cfg, s0)
    ensures ReachedBy(cfg, s0, [], s0)
  {
    hide Fresh;
  }

  lemma FirstPut(cfg: Config, s0: State, first: seq<byte>)
    requires Fresh(cfg, s0) && cfg.num >= 2 && PutSafe(s0.ring, cfg.num, cfg.producer, s0.prod, first)
    requires |first| <= BUFFER_SIZE
    ensures var (r, t, c) := Put(s0.ring, cfg.num, cfg.producer, s0.prod, first);
            c == Cursors(1, 0) && t.used == s0.ring.used && t.availIdx == 1
  {
    hide Addressed, WellConfigured, BufferAt, Write;
  }

  lemma SecondSlot(num: nat)
    requires num >= 2
    ensures Slot(1, num) == 1 && SlotsFrom(0, 1, num) == [0]
    ensures Gap(1, 0) == 1 && Wrap16(0 + 1) == 1
  {
    assert SlotsFrom(0, 0, num) == [];
  }
}
