/** common/vring.c as it stands: routines that update the shared ring and the caller's cursors
    in place, each proved against its specification on values. */
module Vring {
  import opened Common
  import opened AddressSpace
  import opened Ring
  import opened Routines

  /** struct vhost_vring and the packet bytes behind it: what both processes map. */
  class SharedVring {
    const desc: array<Desc>
    const avail: array<u16>
    const used: array<UsedElem>
    const mem: array<byte>
    var availIdx: u16
    var usedIdx: u16

    constructor (desc: array<Desc>, avail: array<u16>, used: array<UsedElem>, mem: array<byte>)
      ensures this.desc == desc && this.avail == avail && this.used == used && this.mem == mem
      ensures availIdx == usedIdx == 0
    {
      this.desc, this.avail, this.used, this.mem := desc, avail, used, mem;
      availIdx, usedIdx := 0, 0;
    }

    ghost predicate Valid() {
      avail as object != mem as object
    }

    ghost function Val(): (r: Shared)
      reads this, desc, avail, used, mem
    {
      Shared(desc[..], availIdx, avail[..], usedIdx, used[..], mem[..])
    }
  }

  /** memcpy into shared memory. */
  method Copy(mem: array<byte>, at: nat, data: seq<byte>)
    requires at + |data| <= mem.Length
    modifies mem
    ensures mem[..] == Write(old(mem[..]), at, data)
  {
    forall k | 0 <= k < |data| {
      mem[at + k] := data[k];
    }
  }

  lemma WriteTwice(mem: seq<byte>, at: nat, x: seq<byte>, y: seq<byte>)
    requires at + |x| + |y| <= |mem|
    ensures Write(Write(mem, at, x), at + |x|, y) == Write(mem, at, x + y)
  {
  }

  /** The private packet of a server: `buffer` and `buffer_size` of VhostServer. */
  class PacketBuffer {
    const buffer: array<byte>
    var size: nat

    ghost predicate Valid()
      reads this
    {
      buffer.Length == BUFFER_SIZE && size <= BUFFER_SIZE
    }

    ghost function Contents(): seq<byte>
      requires Valid()
      reads this, buffer
    {
      buffer[..size]
    }

    constructor ()
      ensures Valid() && fresh(buffer) && size == 0
    {
      buffer := new byte[BUFFER_SIZE](_ => 0);
      size := 0;
    }

    /** avail_handler_server: the last packet replaces the one before. */
    method Accept(packet: seq<byte>)
      requires Valid() && |packet| <= BUFFER_SIZE
      modifies this`size, buffer
      ensures Valid() && Contents() == packet
    {
      forall k | 0 <= k < |packet| {
        buffer[k] := packet[k];
      }
      size := |packet|;
    }

    method Clear()
      requires Valid()
      modifies this`size
      ensures Valid() && size == 0
    {
      size := 0;
    }
  }

  /** One side of a vring: its cursors, how it translates addresses, and what its avail_handler
      fills (nothing on the client, the private packet on the server). */
  class VringEnd {
    const shm: SharedVring
    const num: nat
    const proc: Process
    const sink: PacketBuffer?
    var lastAvail: u16
    var lastUsed: u16
    var complaints: nat
    ghost var delivered: seq<seq<byte>>

    ghost predicate Valid()
      reads this, shm, sink
    {
      && shm.Valid()
      && 0 < num <= VHOST_VRING_SIZE
      && shm.desc.Length == num && shm.avail.Length == num && shm.used.Length == num
      && (sink != null ==>
            sink.Valid() && sink.buffer as object != shm.mem as object && sink.buffer as object != shm.avail as object)
    }

    ghost function Cur(): Cursors
      reads this
    {
      Cursors(lastAvail, lastUsed)
    }

    ghost function Side(): Consumer
      reads this
    {
      Consumer(Cur(), delivered, complaints)
    }

    constructor (shm: SharedVring, num: nat, proc: Process, sink: PacketBuffer?, base: u16, used: u16)
      ensures this.shm == shm && this.num == num && this.proc == proc && this.sink == sink
      ensures Side() == Consumer(Cursors(base, used), [], 0)
    {
      this.shm, this.num, this.proc, this.sink := shm, num, proc, sink;
      lastAvail, lastUsed, complaints, delivered := base, used, 0, [];
    }

    /** put_vring. */
    method Put(buf: seq<byte>) returns (r: int)
      requires Valid() && PutSafe(shm.Val(), num, proc, Cur(), buf)
      modifies this`lastAvail, shm`availIdx, shm.desc, shm.avail, shm.mem
      ensures Valid()
      ensures (r, shm.Val(), Cur()) == old(Routines.Put(shm.Val(), num, proc, Cur(), buf))
    {
      hide Write, Slot, Wrap16, Wrap32, BufferAt, Base;
      var a := lastAvail;
      if |buf| > shm.desc[a].len {
        return -1;
      }
      // the free list now starts behind `a`
      lastAvail := shm.desc[a].next;
      // a zero header, and the payload behind it
      var dest := Base(proc, shm.desc[a].addr);
      WriteTwice(shm.mem[..], dest, ZeroHeader(), buf);
      Copy(shm.mem, dest, ZeroHeader());
      Copy(shm.mem, dest + HDR_LEN, buf);
      shm.desc[a] := Desc(shm.desc[a].addr, Wrap32(HDR_LEN + |buf|), 0, VRING_IDX_NONE);
      // publish: first the slot, then the index
      shm.avail[Slot(shm.availIdx, num)] := a;
      shm.availIdx := Wrap16(shm.availIdx + 1);
      r := 0;
    }

    /** _free_vring. */
    method Free(d: nat)
      requires Valid() && d < num
      modifies this`lastAvail, shm.desc
      ensures Valid()
      ensures shm.Val() == FreeDesc(old(shm.Val()), old(lastAvail), d) && lastAvail == d
    {
      shm.desc[d] := Desc(shm.desc[d].addr, BUFFER_SIZE, shm.desc[d].flags | VIRTIO_DESC_F_WRITE, lastAvail);
      lastAvail := d;
    }

    /** process_used_vring. */
    method ProcessUsed()
      requires Valid() && ReclaimSafe(shm.Val(), num, Cur())
      modifies this`lastAvail, this`lastUsed, shm.desc
      ensures Valid()
      ensures (shm.Val(), Cur()) == Reclaim(old(shm.Val()), num, old(Cur()))
    {
      hide FreeAll, FreeDesc, Slot, UsedIds;
      ghost var r, ids := shm.Val(), UsedIds(shm.Val(), num, lastUsed, Ahead(lastUsed, shm.usedIdx, num));
      ghost var k := 0;
      var u := lastUsed;
      assert ids[0..] == ids;
      while u != shm.usedIdx
        invariant Valid() && unchanged(shm, shm.used, shm.avail, shm.mem, this`lastUsed)
        invariant k <= |ids| && u == CursorAfter(lastUsed, k, num)
        invariant FreeAll(shm.Val(), lastAvail, ids[k..]) == FreeAll(r, old(lastAvail), ids)
        decreases |ids| - k
      {
        AheadFirst(lastUsed, shm.usedIdx, num, k);
        CursorAfterIs(lastUsed, k, num);
        assert r.used[u] == shm.used[u];
        FreeAllStep(shm.Val(), lastAvail, ids, k);
        Free(shm.used[u].id);
        u := Slot(u + 1, num);
        k := k + 1;
      }
      AheadFirst(lastUsed, shm.usedIdx, num, k);
      FreeNone(shm.Val(), lastAvail, ids[k..]);
      lastUsed := u;
    }

    /** _process_desc: gather the chain named by avail slot `aIdx`, enter it in the used ring,
        check its header and hand it over. */
    method ProcessDesc(aIdx: u16) returns (r: int)
      requires Valid() && aIdx < num
      requires Processable(shm.desc[..], shm.mem[..], proc, shm.avail[aIdx])
      modifies this`delivered, this`complaints, shm.used, sink, if sink == null then {} else {sink.buffer}
      ensures Valid()
      ensures var packet := old(Packet(shm.desc[..], shm.mem[..], proc, shm.avail[aIdx]));
              && (shm.Val(), Side()) == old(Hand(shm.Val(), num, Side(), shm.avail[aIdx], packet))
              && (r == -1 <==> packet == [])
              && (sink != null ==> sink.Contents() == if packet == [] then old(sink.Contents()) else packet[HDR_LEN..])
    {
      hide Walkable, Packet, Slot;
      var d := shm.avail[aIdx];
      var buf, len := GatherChain(d);
      if len == 0 {
        return -1;
      }
      // the head and its length, for the producer to reclaim
      shm.used[Slot(lastUsed, num)] := UsedElem(d, len);
      var packet := buf[..len];
      if packet[..HDR_LEN] != ZeroHeader() {
        complaints := complaints + 1;
      }
      // avail_handler gets what is behind the header
      if sink != null {
        sink.Accept(packet[HDR_LEN..]);
      }
      delivered := delivered + [packet[HDR_LEN..]];
      r := 0;
    }

    /** memcpy of one chunk behind what the buffer holds. */
    method AppendChunk(buf: array<byte>, len: nat, i: nat)
      requires Valid() && i < num && buf != shm.mem && len + shm.desc[i].len <= buf.Length
      requires Base(proc, shm.desc[i].addr) + shm.desc[i].len <= shm.mem.Length
      modifies buf
      ensures buf[..len + shm.desc[i].len] == old(buf[..len]) + old(Chunk(shm.desc[..], shm.mem[..], proc, i))
    {
      hide Base;
      var cur, curLen := Base(proc, shm.desc[i].addr), shm.desc[i].len;
      ChunkIs(shm.desc[..], shm.mem[..], proc, i);
      WriteEnd(buf[..], len, shm.mem[cur..cur + curLen]);
      Copy(buf, len, shm.mem[cur..cur + curLen]);
    }

    /** The loop of _process_desc. */
    method GatherChain(d: u16) returns (buf: array<byte>, len: u32)
      requires Valid() && Walkable(shm.desc[..], shm.mem[..], proc, d)
      ensures fresh(buf) && len < ETH_PACKET_SIZE == buf.Length
      ensures buf[..len] == Packet(shm.desc[..], shm.mem[..], proc, d)
    {
      hide BufferAt, Base, HasNext, Write, Wrap32, Joined, Chunk, Halts, Path, Gathered;
      ghost var desc, mem := shm.desc[..], shm.mem[..];
      ghost var n: nat :| Halts(desc, d, 0, n);
      ghost var path, taken: seq<nat> := Gathered(desc, d), [];
      GatheredIs(desc, d, n);
      JoinedNone(desc, mem, proc);
      buf := new byte[ETH_PACKET_SIZE](_ => 0);
      len := 0;
      var i: nat := d;
      while true
        invariant fresh(buf) && buf.Length == ETH_PACKET_SIZE
        invariant desc == shm.desc[..] && mem == shm.mem[..]
        invariant len < ETH_PACKET_SIZE && Halts(desc, i, len, n)
        invariant path == taken + Path(desc, i, len, n) && Below(taken, |desc|)
        invariant buf[..len] == Joined(desc, mem, proc, taken)
        decreases n
      {
        WalkOn(desc, i, len, n);
        var curLen := shm.desc[i].len;
        if Wrap32(len + curLen) >= ETH_PACKET_SIZE {
          assert taken == path;
          break;
        }
        assert path[|taken|] == i && i in path;
        JoinedSnoc(desc, mem, proc, taken, i);
        AppendChunk(buf, len, i);
        taken := taken + [i];
        len := len + curLen;
        if !HasNext(shm.desc[i]) {
          assert taken == path;
          break;
        }
        i := shm.desc[i].next;
        n := n - 1;
      }
    }

    /** The body of the loop of process_avail_vring, but for its own two counters. */
    method TakeOne(aIdx: u16)
      requires Valid() && aIdx < num
      requires Processable(shm.desc[..], shm.mem[..], proc, shm.avail[aIdx])
      modifies this`lastAvail, this`lastUsed, this`delivered, this`complaints
      modifies shm.used, sink, if sink == null then {} else {sink.buffer}
      ensures Valid()
      ensures var packet := old(Packet(shm.desc[..], shm.mem[..], proc, shm.avail[aIdx]));
              (shm.Val(), Side()) == old(Turn(shm.Val(), num, Side(), shm.avail[aIdx], packet))
      ensures sink != null ==> sink.Contents() == LastOr(old(sink.Contents()), old(delivered), delivered)
      ensures old(delivered) <= delivered
    {
      hide Walkable, Packet, Wrap16;
      var _ := ProcessDesc(aIdx);
      lastAvail := Wrap16(lastAvail + 1);
      lastUsed := Wrap16(lastUsed + 1);
    }

    /** process_avail_vring. */
    method ProcessAvail() returns (count: nat)
      requires Valid() && BatchSafe(shm.Val(), num, proc, Cur())
      modifies this`lastAvail, this`lastUsed, this`delivered, this`complaints
      modifies shm`usedIdx, shm.used, sink, if sink == null then {} else {sink.buffer}
      ensures Valid()
      ensures BatchYields(old(shm.Val()), num, proc, old(Side()), shm.Val(), Side(), count)
      ensures sink != null ==> sink.Contents() == LastOr(old(sink.Contents()), old(delivered), delivered)
    {
      hide BatchSafe, BatchYields, Midway, Packet, Slot, Gap, Processable, Turn;
      ghost var r, c := shm.Val(), Side();
      ghost var all := Gap(shm.availIdx, lastAvail);
      MidwayStart(r, num, proc, c);
      count := 0;
      var aIdx := Slot(lastAvail, num);
      while lastAvail != shm.availIdx
        invariant Valid() && count <= all && aIdx == Slot(c.cursors.lastAvail + count, num)
        invariant (shm.Val(), Side()) == Midway(r, num, proc, c, count)
        invariant old(delivered) <= delivered
        invariant sink != null ==> sink.Contents() == LastOr(old(sink.Contents()), old(delivered), delivered)
        decreases all - count
      {
        MidwayTurn(r, num, proc, c, count);
        TakeOne(aIdx);
        aIdx := Slot(aIdx + 1, num);
        count := count + 1;
      }
      MidwayTurn(r, num, proc, c, count);
      MidwayEnd(r, num, proc, c);
      shm.usedIdx := lastUsed;
    }
  }

  /** What the private packet holds after a batch: the last one handed over, if any was. */
  function LastOr(before: seq<byte>, calls: seq<seq<byte>>, now: seq<seq<byte>>): seq<byte> {
    if |now| <= |calls| then before else now[|now| - 1]
  }

  /** A batch after its first `k` turns. */
  ghost function Midway(r: Shared, num: nat, p: Process, c: Consumer, k: nat): (Shared, Consumer)
    requires BatchSafe(r, num, p, c.cursors) && k <= Gap(r.availIdx, c.cursors.lastAvail)
  {
    var heads := Pending(r, num, c.cursors);
    PacketsFit(r.desc, r.mem, p, heads);
    ProcessAll(r, num, c, heads, Packets(r.desc, r.mem, p, heads), k)
  }

  lemma MidwayStart(r: Shared, num: nat, p: Process, c: Consumer)
    requires BatchSafe(r, num, p, c.cursors)
    ensures Midway(r, num, p, c, 0) == (r, c)
  {
    hide BatchSafe;
  }

  lemma MidwayTurn(r: Shared, num: nat, p: Process, c: Consumer, k: nat)
    requires BatchSafe(r, num, p, c.cursors) && k <= Gap(r.availIdx, c.cursors.lastAvail)
    ensures Shaped(r, num)
    ensures var (r', c') := Midway(r, num, p, c, k);
            var slot := Slot(c.cursors.lastAvail + k, num);
            && Shaped(r', num) && r'.(used := r.used) == r
            && (c'.cursors.lastAvail == r.availIdx <==> k == Gap(r.availIdx, c.cursors.lastAvail))
            && (k < Gap(r.availIdx, c.cursors.lastAvail) ==>
                  && Processable(r.desc, r.mem, p, r.avail[slot])
                  && Midway(r, num, p, c, k + 1)
                     == Turn(r', num, c', r.avail[slot], Packet(r.desc, r.mem, p, r.avail[slot])))
            && Slot(slot + 1, num) == Slot(c.cursors.lastAvail + (k + 1), num)
  {
    hide Processable, Packet, Turn, Slot, Gap;
    var heads := Pending(r, num, c.cursors);
    var packets := Packets(r.desc, r.mem, p, heads);
    PacketsFit(r.desc, r.mem, p, heads);
    ProcessAllCounts(r, num, c, heads, packets, k);
    GapMeets(r.availIdx, c.cursors.lastAvail, k);
    SlotStep(c.cursors.lastAvail + k, num);
    if k < |heads| {
      assert heads[k] in heads;
    }
  }

  lemma SlotStep(k: nat, num: nat)
    requires num > 0
    ensures Slot(Slot(k, num) + 1, num) == Slot(k + 1, num)
  {
    ModSucc(k, num);
  }

  lemma MidwayEnd(r: Shared, num: nat, p: Process, c: Consumer)
    requires BatchSafe(r, num, p, c.cursors)
    ensures var all := Gap(r.availIdx, c.cursors.lastAvail);
            var (r', c') := Midway(r, num, p, c, all);
            BatchYields(r, num, p, c, r'.(usedIdx := c'.cursors.lastUsed), c', all)
  {
    hide Processable, ProcessAll;
    var heads := Pending(r, num, c.cursors);
    BatchYieldsIs(r, num, p, c, heads, Packets(r.desc, r.mem, p, heads));
  }

  lemma FreeNone(r: Shared, head: u16, ids: seq<nat>)
    requires |r.desc| <= VHOST_VRING_SIZE && ids == []
    ensures FreeAll(r, head, ids) == (r, head)
  {
  }

  /** One hop of the walk. */
  lemma WalkOn(desc: seq<Desc>, i: nat, len: nat, n: nat)
    requires Halts(desc, i, len, n)
    ensures i < |desc| && Wrap32(len + desc[i].len) == len + desc[i].len
    ensures len + desc[i].len >= ETH_PACKET_SIZE ==> Path(desc, i, len, n) == []
    ensures len + desc[i].len < ETH_PACKET_SIZE && !HasNext(desc[i]) ==> Path(desc, i, len, n) == [i]
    ensures len + desc[i].len < ETH_PACKET_SIZE && HasNext(desc[i]) ==>
              && n > 0 && Halts(desc, desc[i].next, len + desc[i].len, n - 1)
              && Path(desc, i, len, n) == [i] + Path(desc, desc[i].next, len + desc[i].len, n - 1)
  {
  }

  lemma ChunkIs(desc: seq<Desc>, mem: seq<byte>, p: Process, i: nat)
    requires i < |desc| && Base(p, desc[i].addr) + desc[i].len <= |mem|
    ensures Chunk(desc, mem, p, i) == mem[Base(p, desc[i].addr)..Base(p, desc[i].addr) + desc[i].len]
  {
  }

  lemma JoinedNone(desc: seq<Desc>, mem: seq<byte>, p: Process)
    ensures Joined(desc, mem, p, []) == []
  {
  }

  lemma WriteEnd(buf: seq<byte>, at: nat, data: seq<byte>)
    requires at + |data| <= |buf|
    ensures Write(buf, at, data)[..at + |data|] == buf[..at] + data
  {
  }

  lemma GatheredIs(desc: seq<Desc>, d: nat, n: nat)
    requires Halts(desc, d, 0, n)
    ensures Gathered(desc, d) == Path(desc, d, 0, n)
  {
    var m: nat :| Halts(desc, d, 0, m) && Gathered(desc, d) == Path(desc, d, 0, m);
    PathUnique(desc, d, 0, n, m);
  }
}
