/** What the routines of common/vring.c do to the shared ring, as functions on values. */
module Ring {
  import opened Common
  import opened AddressSpace

  const VIRTIO_DESC_F_NEXT: bv16 := 1
  const VIRTIO_DESC_F_WRITE: bv16 := 2

  datatype Desc = Desc(addr: u64, len: u32, flags: bv16, next: u16)
  datatype UsedElem = UsedElem(id: u32, len: u32)

  /** The state both processes see: descriptor table, avail ring, used ring and packet bytes. */
  datatype Shared = Shared(
    desc: seq<Desc>,
    availIdx: u16, avail: seq<u16>,
    usedIdx: u16, used: seq<UsedElem>,
    mem: seq<byte>)

  /** The cursors one side keeps for itself. */
  datatype Cursors = Cursors(lastAvail: u16, lastUsed: u16)

  predicate Shaped(r: Shared, num: nat) {
    && 0 < num <= VHOST_VRING_SIZE
    && |r.desc| == num && |r.avail| == num && |r.used| == num
  }

  function ZeroHeader(): (h: seq<byte>)
    ensures |h| == HDR_LEN
  {
    [0, 0, 0, 0, 0, 0, 0, 0, 0, 0]
  }

  predicate HeaderIsZero(packet: seq<byte>) {
    HDR_LEN <= |packet| && packet[..HDR_LEN] == ZeroHeader()
  }

  predicate HeaderFits(packet: seq<byte>) {
    packet == [] || HDR_LEN <= |packet|
  }

  // ---- the producer: put_vring ----

  /** Where descriptor `i`'s buffer is, for process `p`. */
  function BufferOf(r: Shared, p: Process, i: nat): nat
    requires i < |r.desc|
  {
    Base(p, r.desc[i].addr)
  }

  /** Header and payload go to the buffer; the descriptor becomes a readable chain of one. */
  function Fill(r: Shared, p: Process, a: nat, payload: seq<byte>): Shared
    requires a < |r.desc|
    requires BufferOf(r, p, a) + HDR_LEN + |payload| <= |r.mem|
  {
    r.(mem := Write(r.mem, BufferOf(r, p, a), ZeroHeader() + payload),
       desc := r.desc[a := Desc(r.desc[a].addr, Wrap32(HDR_LEN + |payload|), 0, VRING_IDX_NONE)])
  }

  function StoreSlot(r: Shared, num: nat, a: u16): Shared
    requires Shaped(r, num)
  {
    r.(avail := r.avail[Slot(r.availIdx, num) := a])
  }

  function BumpAvail(r: Shared): Shared {
    r.(availIdx := Wrap16(r.availIdx + 1))
  }

  // ---- the producer: _free_vring and process_used_vring ----

  function FreeDesc(r: Shared, head: u16, d: nat): Shared
    requires d < |r.desc|
  {
    r.(desc := r.desc[d := Desc(r.desc[d].addr, BUFFER_SIZE, r.desc[d].flags | VIRTIO_DESC_F_WRITE, head)])
  }

  // ---- the consumer: _process_desc ----

  predicate HasNext(d: Desc) {
    d.flags & VIRTIO_DESC_F_NEXT != 0
  }

  /** The walk from `i`, with `len` bytes taken, stays in the table, keeps its 32-bit
      total from wrapping and stops after at most `n` further hops. */
  ghost predicate Halts(desc: seq<Desc>, i: nat, len: nat, n: nat)
    decreases n
  {
    && i < |desc|
    && len + desc[i].len < 0x1_0000_0000
    && (|| len + desc[i].len >= ETH_PACKET_SIZE
        || !HasNext(desc[i])
        || (n > 0 && Halts(desc, desc[i].next, len + desc[i].len, n - 1)))
  }

  /** The descriptors whose chunks such a walk copies. */
  ghost function Path(desc: seq<Desc>, i: nat, len: nat, n: nat): (path: seq<nat>)
    requires Halts(desc, i, len, n)
    ensures Below(path, |desc|)
    decreases n
  {
    if len + desc[i].len >= ETH_PACKET_SIZE then []
    else if !HasNext(desc[i]) then [i]
    else [i] + Path(desc, desc[i].next, len + desc[i].len, n - 1)
  }

  /** The descriptors `_process_desc` gathers from head `d`. */
  ghost function Gathered(desc: seq<Desc>, d: nat): (path: seq<nat>)
    ensures Below(path, |desc|)
  {
    if exists n: nat :: Halts(desc, d, 0, n)
    then var n: nat :| Halts(desc, d, 0, n); Path(desc, d, 0, n)
    else []
  }

  function Chunk(desc: seq<Desc>, mem: seq<byte>, p: Process, i: nat): seq<byte>
    requires i < |desc|
  {
    Read(mem, Base(p, desc[i].addr), desc[i].len)
  }

  /** The chunks of a path, one after the other. */
  function Joined(desc: seq<Desc>, mem: seq<byte>, p: Process, path: seq<nat>): seq<byte>
    requires Below(path, |desc|)
  {
    if path == [] then [] else Chunk(desc, mem, p, path[0]) + Joined(desc, mem, p, path[1..])
  }

  ghost function Packet(desc: seq<Desc>, mem: seq<byte>, p: Process, d: nat): seq<byte> {
    Joined(desc, mem, p, Gathered(desc, d))
  }

  /** What the copying loop of `_process_desc` needs of a head `d`: the walk ends, and every copied
      chunk is mapped and inside shared memory. */
  ghost predicate Walkable(desc: seq<Desc>, mem: seq<byte>, p: Process, d: nat) {
    && (exists n: nat :: Halts(desc, d, 0, n))
    && (forall i :: i in Gathered(desc, d) ==>
          && BufferAt(p, desc[i].addr, Base(p, desc[i].addr), desc[i].len)
          && Base(p, desc[i].addr) + desc[i].len <= |mem|)
  }

  /** What the rest of it needs besides: a packet that is not empty has room for its header. */
  ghost predicate Processable(desc: seq<Desc>, mem: seq<byte>, p: Process, d: nat) {
    Walkable(desc, mem, p, d) && HeaderFits(Packet(desc, mem, p, d))
  }

  /** The consumer's own side: its cursors, the buffers it has handed to avail_handler, in
      order, and how often it has complained about a header. */
  datatype Consumer = Consumer(cursors: Cursors, delivered: seq<seq<byte>>, complaints: nat)

  /** A gathered packet is entered in the used ring and handed over without its header; an
      empty one is dropped without a trace. */
  function Hand(r: Shared, num: nat, c: Consumer, d: u16, packet: seq<byte>): (Shared, Consumer)
    requires Shaped(r, num)
    requires HeaderFits(packet)
  {
    if packet == [] then (r, c)
    else (r.(used := r.used[Slot(c.cursors.lastUsed, num) := UsedElem(d, Wrap32(|packet|))]),
          c.(delivered := c.delivered + [packet[HDR_LEN..]],
             complaints := if HeaderIsZero(packet) then c.complaints else c.complaints + 1))
  }

  function Advance(c: Cursors): Cursors {
    Cursors(Wrap16(c.lastAvail + 1), Wrap16(c.lastUsed + 1))
  }

  /** One turn of the loop of process_avail_vring, which finds `packet` at head `d`. */
  function Turn(r: Shared, num: nat, c: Consumer, d: u16, packet: seq<byte>): (Shared, Consumer)
    requires Shaped(r, num) && HeaderFits(packet)
  {
    var (r', c') := Hand(r, num, c, d, packet);
    (r', c'.(cursors := Advance(c'.cursors)))
  }

  // ---- entries of the rings ----

  /** The ring slots of `n` entries from counter value `from` on. */
  function SlotsFrom(from: u16, n: nat, num: nat): (slots: seq<nat>)
    requires num > 0
    ensures |slots| == n && forall j :: 0 <= j < n ==> slots[j] == Slot(from + j, num)
  {
    if n == 0 then [] else SlotsFrom(from, n - 1, num) + [Slot(from + (n - 1), num)]
  }

  /** The descriptors named by `n` avail slots from counter value `from` on. */
  function AvailIds(r: Shared, num: nat, from: u16, n: nat): (ids: seq<u16>)
    requires Shaped(r, num)
    ensures |ids| == n && forall j :: 0 <= j < n ==> ids[j] == r.avail[Slot(from + j, num)]
  {
    if n == 0 then [] else AvailIds(r, num, from, n - 1) + [r.avail[Slot(from + (n - 1), num)]]
  }

  /** The descriptors named by `n` used slots from counter value `from` on. */
  function UsedIds(r: Shared, num: nat, from: u16, n: nat): (ids: seq<nat>)
    requires Shaped(r, num)
    ensures |ids| == n && forall j :: 0 <= j < n ==> ids[j] == r.used[Slot(from + j, num)].id
  {
    if n == 0 then [] else UsedIds(r, num, from, n - 1) + [r.used[Slot(from + (n - 1), num)].id]
  }

  /** A chain of one below ETH_PACKET_SIZE is taken whole. */
  lemma GatherSingle(desc: seq<Desc>, d: nat)
    requires d < |desc| && desc[d].len < ETH_PACKET_SIZE && desc[d].flags == 0
    ensures Halts(desc, d, 0, 0) && Gathered(desc, d) == [d]
  {
    assert !HasNext(desc[d]);
    assert Halts(desc, d, 0, 0);
    forall n: nat | Halts(desc, d, 0, n) ensures Path(desc, d, 0, n) == [d] {
    }
  }

  lemma JoinedSingle(desc: seq<Desc>, mem: seq<byte>, p: Process, d: nat)
    requires d < |desc|
    ensures Joined(desc, mem, p, [d]) == Chunk(desc, mem, p, d)
  {
    assert Joined(desc, mem, p, [d]) == Chunk(desc, mem, p, d) + Joined(desc, mem, p, []);
  }

  lemma {:induction false} PathUnique(desc: seq<Desc>, i: nat, len: nat, n: nat, m: nat)
    requires Halts(desc, i, len, n) && Halts(desc, i, len, m)
    ensures Path(desc, i, len, n) == Path(desc, i, len, m)
    decreases n
  {
    hide HasNext;
    if len + desc[i].len < ETH_PACKET_SIZE && HasNext(desc[i]) {
      PathUnique(desc, desc[i].next, len + desc[i].len, n - 1, m - 1);
    }
  }

  lemma {:induction false} JoinedSnoc(desc: seq<Desc>, mem: seq<byte>, p: Process, path: seq<nat>, i: nat)
    requires Below(path, |desc|) && i < |desc|
    ensures Joined(desc, mem, p, path + [i]) == Joined(desc, mem, p, path) + Chunk(desc, mem, p, i)
    decreases |path|
  {
    if path == [] {
      JoinedSingle(desc, mem, p, i);
      assert [] + [i] == [i];
    } else {
      assert (path + [i])[1..] == path[1..] + [i];
      JoinedSnoc(desc, mem, p, path[1..], i);
    }
  }
}
