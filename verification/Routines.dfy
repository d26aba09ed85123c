/** Whole calls of put_vring, process_used_vring and process_avail_vring, undisturbed, as
    functions of the shared ring and the caller's cursors. */
module Routines {
  import opened Common
  import opened AddressSpace
  import opened Ring

  // ---- put_vring ----

  /** A free descriptor exists, and the bytes the call writes are mapped. */
  ghost predicate PutSafe(r: Shared, num: nat, p: Process, c: Cursors, payload: seq<byte>) {
    && Shaped(r, num)
    && c.lastAvail < num
    && (|payload| <= r.desc[c.lastAvail].len ==>
          && BufferAt(p, r.desc[c.lastAvail].addr, BufferOf(r, p, c.lastAvail), HDR_LEN + |payload|)
          && BufferOf(r, p, c.lastAvail) + HDR_LEN + |payload| <= |r.mem|)
  }

  ghost function Put(r: Shared, num: nat, p: Process, c: Cursors, payload: seq<byte>): (int, Shared, Cursors)
    requires PutSafe(r, num, p, c, payload)
  {
    var a := c.lastAvail;
    if |payload| > r.desc[a].len then (-1, r, c)
    else (0, BumpAvail(StoreSlot(Fill(r, p, a, payload), num, a)), c.(lastAvail := r.desc[a].next))
  }

  // ---- process_used_vring ----

  /** The turns the loop makes from cursor `u` until it meets `top`, when both are below `num`. */
  function Ahead(u: u16, top: u16, num: nat): nat
    requires u < num && top < num
  {
    if u <= top then top - u else top + num - u
  }

  function FreeAll(r: Shared, head: u16, ids: seq<nat>): (Shared, u16)
    requires |r.desc| <= VHOST_VRING_SIZE && Below(ids, |r.desc|)
    decreases |ids|
  {
    if ids == [] then (r, head) else FreeAll(FreeDesc(r, head, ids[0]), ids[0], ids[1..])
  }

  ghost predicate ReclaimSafe(r: Shared, num: nat, c: Cursors) {
    && Shaped(r, num)
    && c.lastUsed < num && r.usedIdx < num
    && Below(UsedIds(r, num, c.lastUsed, Ahead(c.lastUsed, r.usedIdx, num)), num)
  }

  function Reclaim(r: Shared, num: nat, c: Cursors): (Shared, Cursors)
    requires ReclaimSafe(r, num, c)
  {
    var (r', head) := FreeAll(r, c.lastAvail, UsedIds(r, num, c.lastUsed, Ahead(c.lastUsed, r.usedIdx, num)));
    (r', Cursors(head, r.usedIdx))
  }

  /** u_idx after `k` turns of the loop, each of which steps it by one mod `num`. */
  function CursorAfter(u: u16, k: nat, num: nat): u16
    requires 0 < num <= VHOST_VRING_SIZE && u < num
    ensures CursorAfter(u, k, num) < num
  {
    if k == 0 then u else Slot(CursorAfter(u, k - 1, num) + 1, num)
  }

  lemma {:induction false} CursorAfterIs(u: u16, k: nat, num: nat)
    requires 0 < num <= VHOST_VRING_SIZE && u < num
    ensures CursorAfter(u, k, num) == Slot(u + k, num)
  {
    if k == 0 {
      ModUnique(u, 0, u, num);
    } else {
      CursorAfterIs(u, k - 1, num);
      ModSucc(u + k - 1, num);
    }
  }

  /** Where both are below `num` the cursor meets used->idx after `Ahead` turns, not before. */
  lemma AheadFirst(u: u16, top: u16, num: nat, k: nat)
    requires num <= VHOST_VRING_SIZE && u < num && top < num && k <= Ahead(u, top, num)
    ensures CursorAfter(u, k, num) == top <==> k == Ahead(u, top, num)
  {
    CursorAfterIs(u, k, num);
    if u + k < num {
      ModUnique(u + k, 0, u + k, num);
    } else {
      ModUnique(u + k, 1, u + k - num, num);
    }
  }

  /** The loop of process_used_vring comes to an end exactly when used->idx is below `num`. */
  lemma ReclaimEndsIff(u: u16, top: u16, num: nat)
    requires num <= VHOST_VRING_SIZE && u < num
    ensures (exists k: nat :: CursorAfter(u, k, num) == top) <==> top < num
  {
    if top < num {
      AheadFirst(u, top, num, Ahead(u, top, num));
    }
  }

  function Reversed(s: seq<nat>): (r: seq<nat>)
    ensures |r| == |s|
    ensures forall x :: x in r <==> x in s
  {
    if s == [] then [] else Reversed(s[1..]) + [s[0]]
  }

  /** After freeing `ids` each of them points at the one freed before its last occurrence. */
  lemma {:induction false} FreedNext(r: Shared, head: u16, ids: seq<nat>, x: nat) returns (j: nat)
    requires |r.desc| <= VHOST_VRING_SIZE && Below(ids, |r.desc|) && x in ids
    ensures j < |ids| && ids[j] == x && x !in ids[j + 1..]
    ensures |FreeAll(r, head, ids).0.desc| == |r.desc|
    ensures FreeAll(r, head, ids).0.desc[x].next == if j == 0 then head else ids[j - 1]
    decreases |ids|
  {
    var r' := FreeDesc(r, head, ids[0]);
    if x in ids[1..] {
      var i := FreedNext(r', ids[0], ids[1..], x);
      j := i + 1;
      assert ids[1..][i + 1..] == ids[j + 1..];
    } else {
      j := 0;
      FreedOther(r', ids[0], ids[1..], x);
    }
  }

  lemma {:induction false} FreedOther(r: Shared, head: u16, ids: seq<nat>, x: nat)
    requires |r.desc| <= VHOST_VRING_SIZE && Below(ids, |r.desc|)
    requires x < |r.desc| && x !in ids
    ensures |FreeAll(r, head, ids).0.desc| == |r.desc|
    ensures FreeAll(r, head, ids).0.desc[x] == r.desc[x]
    decreases |ids|
  {
    if ids != [] {
      FreedOther(FreeDesc(r, head, ids[0]), ids[0], ids[1..], x);
    }
  }

  lemma {:induction false} FreeAllHead(r: Shared, head: u16, ids: seq<nat>)
    requires |r.desc| <= VHOST_VRING_SIZE && Below(ids, |r.desc|)
    ensures FreeAll(r, head, ids).1 == if ids == [] then head else ids[|ids| - 1]
    decreases |ids|
  {
    if ids != [] {
      FreeAllHead(FreeDesc(r, head, ids[0]), ids[0], ids[1..]);
    }
  }

  /** The loop that does not end also ruins the free list: once the cursor has gone round and
      freed a slot's descriptor again, no walk along `next` from the head ever leaves the
      descriptors it has freed. */
  lemma ReclaimHangCycles(r: Shared, num: nat, c: Cursors, ids: seq<nat>)
    requires Shaped(r, num) && c.lastUsed < num <= r.usedIdx
    requires ids == UsedIds(r, num, c.lastUsed, num + 1) && Below(ids, num)
    ensures FreeAll(r, c.lastAvail, ids).1 as nat in ids
    ensures |FreeAll(r, c.lastAvail, ids).0.desc| == num
    ensures forall x :: x in ids ==> FreeAll(r, c.lastAvail, ids).0.desc[x].next as nat in ids
  {
    hide UsedIds, Slot, FreeAll;
    ModShift(1, c.lastUsed, num);
    RoundAgain(c.lastUsed, num);
    assert ids[0] == ids[num];
    FreeAllHead(r, c.lastAvail, ids);
    forall x | x in ids
      ensures |FreeAll(r, c.lastAvail, ids).0.desc| == num
      ensures FreeAll(r, c.lastAvail, ids).0.desc[x].next as nat in ids
    {
      var j := FreedNext(r, c.lastAvail, ids, x);
      assert ids[num] in ids[1..] by {
        assert ids[1..][num - 1] == ids[num];
      }
    }
    assert ids[0] in ids;
  }

  lemma RoundAgain(u: nat, num: nat)
    requires num > 0
    ensures Slot(u + num, num) == Slot(u + 0, num)
  {
    ModShift(1, u, num);
  }

  // ---- process_avail_vring ----

  /** The heads a batch will take: everything between the consumer's cursor and avail->idx. */
  function Pending(r: Shared, num: nat, c: Cursors): seq<u16>
    requires Shaped(r, num)
  {
    AvailIds(r, num, c.lastAvail, Gap(r.availIdx, c.lastAvail))
  }

  ghost predicate BatchSafe(r: Shared, num: nat, p: Process, c: Cursors) {
    && Shaped(r, num)
    && forall d :: d in Pending(r, num, c) ==> Processable(r.desc, r.mem, p, d)
  }

  /** The packet behind each head. */
  ghost function Packets(desc: seq<Desc>, mem: seq<byte>, p: Process, heads: seq<u16>): (packets: seq<seq<byte>>)
    ensures |packets| == |heads|
    ensures forall k :: 0 <= k < |heads| ==> packets[k] == Packet(desc, mem, p, heads[k])
  {
    if heads == [] then []
    else Packets(desc, mem, p, heads[..|heads| - 1]) + [Packet(desc, mem, p, heads[|heads| - 1])]
  }

  predicate HeadersFit(packets: seq<seq<byte>>) {
    forall k :: 0 <= k < |packets| ==> HeaderFits(packets[k])
  }

  lemma PacketsFit(desc: seq<Desc>, mem: seq<byte>, p: Process, heads: seq<u16>)
    requires forall d :: d in heads ==> Processable(desc, mem, p, d)
    ensures HeadersFit(Packets(desc, mem, p, heads))
  {
    hide Halts, Gathered, Packet, BufferAt, HeaderFits;
    var packets := Packets(desc, mem, p, heads);
    forall k | 0 <= k < |packets| ensures HeaderFits(packets[k]) {
      assert Processable(desc, mem, p, heads[k]);
    }
  }

  /** The loop of process_avail_vring over the first `n` of these heads. */
  function ProcessAll(r: Shared, num: nat, c: Consumer, heads: seq<u16>, packets: seq<seq<byte>>, n: nat)
    : (t: (Shared, Consumer))
    requires Shaped(r, num) && n <= |heads| == |packets| && HeadersFit(packets)
    ensures t.0.(used := r.used) == r && |t.0.used| == num
  {
    if n == 0 then (r, c)
    else
      var (r', c') := ProcessAll(r, num, c, heads, packets, n - 1);
      Turn(r', num, c', heads[n - 1], packets[n - 1])
  }

  ghost function Batch(r: Shared, num: nat, p: Process, c: Consumer): (Shared, Consumer, nat)
    requires BatchSafe(r, num, p, c.cursors)
  {
    var heads := Pending(r, num, c.cursors);
    PacketsFit(r.desc, r.mem, p, heads);
    var (r', c') := ProcessAll(r, num, c, heads, Packets(r.desc, r.mem, p, heads), |heads|);
    (r'.(usedIdx := c'.cursors.lastUsed), c', |heads|)
  }

  lemma BatchIs(r: Shared, num: nat, p: Process, c: Consumer, heads: seq<u16>, packets: seq<seq<byte>>)
    requires BatchSafe(r, num, p, c.cursors)
    requires heads == Pending(r, num, c.cursors) && packets == Packets(r.desc, r.mem, p, heads)
    ensures Shaped(r, num) && HeadersFit(packets)
    ensures var (r', c') := ProcessAll(r, num, c, heads, packets, |heads|);
            Batch(r, num, p, c) == (r'.(usedIdx := c'.cursors.lastUsed), c', |heads|)
  {
    hide Processable, ProcessAll;
    PacketsFit(r.desc, r.mem, p, heads);
  }

  /** An undisturbed process_avail_vring takes (r, c) to (r', c') and answers n. */
  ghost predicate BatchYields(r: Shared, num: nat, p: Process, c: Consumer, r': Shared, c': Consumer, n: nat) {
    BatchSafe(r, num, p, c.cursors) && Batch(r, num, p, c) == (r', c', n)
  }

  lemma BatchYieldsIs(r: Shared, num: nat, p: Process, c: Consumer, heads: seq<u16>, packets: seq<seq<byte>>)
    requires BatchSafe(r, num, p, c.cursors)
    requires heads == Pending(r, num, c.cursors) && packets == Packets(r.desc, r.mem, p, heads)
    ensures Shaped(r, num) && HeadersFit(packets)
    ensures var (r', c') := ProcessAll(r, num, c, heads, packets, |heads|);
            BatchYields(r, num, p, c, r'.(usedIdx := c'.cursors.lastUsed), c', |heads|)
  {
    hide Processable, ProcessAll, Batch;
    BatchIs(r, num, p, c, heads, packets);
  }

  /** The payloads handed over: one for each packet that is not empty. */
  function Handed(packets: seq<seq<byte>>): seq<seq<byte>> {
    if packets == [] then []
    else
      var last := packets[|packets| - 1];
      Handed(packets[..|packets| - 1]) + if |last| < HDR_LEN then [] else [last[HDR_LEN..]]
  }

  /** What the loop does to the counters, whatever it finds: dropped packets advance the cursors
      like delivered ones. */
  lemma {:induction false} ProcessAllCounts(r: Shared, num: nat, c: Consumer, heads: seq<u16>,
                                            packets: seq<seq<byte>>, n: nat)
    requires Shaped(r, num) && n <= |heads| == |packets| && HeadersFit(packets)
    ensures var c' := ProcessAll(r, num, c, heads, packets, n).1;
            && c'.cursors.lastAvail == Wrap16(c.cursors.lastAvail + n)
            && c'.cursors.lastUsed == Wrap16(c.cursors.lastUsed + n)
            && c'.delivered == c.delivered + Handed(packets[..n])
    decreases n
  {
    hide Wrap16, Slot, HeaderIsZero;
    if n == 0 {
      SmallWrap(c.cursors.lastAvail);
      SmallWrap(c.cursors.lastUsed);
    } else {
      ProcessAllCounts(r, num, c, heads, packets, n - 1);
      WrapSucc(c.cursors.lastAvail + n - 1);
      WrapSucc(c.cursors.lastUsed + n - 1);
      assert packets[..n][..n - 1] == packets[..n - 1];
    }
  }

  /** A batch takes (avail->idx - last_avail_idx) mod 2^16 heads and leaves both cursors and
      used->idx that much further, last_avail_idx on avail->idx. */
  lemma BatchArithmetic(r: Shared, num: nat, p: Process, c: Consumer)
    requires BatchSafe(r, num, p, c.cursors)
    ensures var (r', c', count) := Batch(r, num, p, c);
            && count == Gap(r.availIdx, c.cursors.lastAvail)
            && c'.cursors.lastAvail == r.availIdx == r'.availIdx
            && c'.cursors.lastUsed == Wrap16(c.cursors.lastUsed + count) == r'.usedIdx
            && r'.desc == r.desc && r'.avail == r.avail && r'.mem == r.mem
            && c'.delivered == c.delivered + Handed(Packets(r.desc, r.mem, p, Pending(r, num, c.cursors)))
  {
    hide Processable, Handed, AvailIds, Packet, HeadersFit, ProcessAll, Wrap16, Gap;
    var heads := Pending(r, num, c.cursors);
    var packets := Packets(r.desc, r.mem, p, heads);
    PacketsFit(r.desc, r.mem, p, heads);
    ProcessAllCounts(r, num, c, heads, packets, |heads|);
    assert packets[..|heads|] == packets;
    GapCloses(r.availIdx, c.cursors.lastAvail);
  }

  lemma FreeAllStep(r: Shared, head: u16, ids: seq<nat>, k: nat)
    requires |r.desc| <= VHOST_VRING_SIZE && Below(ids, |r.desc|) && k < |ids|
    ensures FreeAll(r, head, ids[k..]) == FreeAll(FreeDesc(r, head, ids[k]), ids[k], ids[k + 1..])
  {
    assert ids[k..][1..] == ids[k + 1..];
  }

  lemma GapMeets(hi: u16, lo: u16, k: nat)
    requires k <= Gap(hi, lo)
    ensures Wrap16(lo + k) == hi <==> k == Gap(hi, lo)
  {
  }

  lemma GapCloses(hi: u16, lo: u16)
    ensures Wrap16(lo + Gap(hi, lo)) == hi
  {
  }

  /** `now` has the first `n` of `entries` in the slots from counter value `from` on, and is otherwise
      as `before`. */
  ghost predicate Entered(before: seq<UsedElem>, now: seq<UsedElem>, num: nat, from: u16, entries: seq<UsedElem>,
                          n: nat)
    requires 0 < num == |before| == |now| && n <= |entries|
  {
    && (forall k :: 0 <= k < n ==> now[Slot(from + k, num)] == entries[k])
    && (forall i :: 0 <= i < num && i !in SlotsFrom(from, n, num) ==> now[i] == before[i])
  }

  lemma EnteredOneMore(before: seq<UsedElem>, now: seq<UsedElem>, num: nat, from: u16, entries: seq<UsedElem>, n: nat)
    requires 0 < num == |before| == |now| && 0 < n <= |entries| && n <= num
    requires Entered(before, now, num, from, entries, n - 1)
    ensures Entered(before, now[Slot(from + (n - 1), num) := entries[n - 1]], num, from, entries, n)
  {
    hide Slot;
    var at := Slot(from + (n - 1), num);
    SlotsApart(num, from, from + (n - 1));
    assert SlotsFrom(from, n, num) == SlotsFrom(from, n - 1, num) + [at];
  }

  /** What a batch enters in the used ring for its heads. */
  function UsedEntries(heads: seq<u16>, packets: seq<seq<byte>>): (es: seq<UsedElem>)
    requires |heads| == |packets|
    ensures |es| == |heads| && forall k :: 0 <= k < |es| ==> es[k] == UsedElem(heads[k], Wrap32(|packets[k]|))
  {
    seq(|heads|, k requires 0 <= k < |heads| => UsedElem(heads[k], Wrap32(|packets[k]|)))
  }

  lemma {:induction false} ProcessAllEnters(r: Shared, num: nat, c: Consumer, heads: seq<u16>,
                                            packets: seq<seq<byte>>, n: nat)
    requires ValidNum(num) && Shaped(r, num) && n <= |heads| == |packets| && HeadersFit(packets)
    requires n <= num && forall k :: 0 <= k < n ==> packets[k] != []
    ensures var r' := ProcessAll(r, num, c, heads, packets, n).0;
            |r'.used| == num && Entered(r.used, r'.used, num, c.cursors.lastUsed, UsedEntries(heads, packets), n)
    decreases n
  {
    hide Slot, Wrap16, Wrap32, ValidNum, HeaderFits, HeaderIsZero, Turn, Entered;
    if n == 0 {
      EnteredNone(r.used, num, c.cursors.lastUsed, UsedEntries(heads, packets));
    } else {
      var from, at := c.cursors.lastUsed as nat, Slot(c.cursors.lastUsed + (n - 1), num);
      var (r1, c1) := ProcessAll(r, num, c, heads, packets, n - 1);
      ProcessAllEnters(r, num, c, heads, packets, n - 1);
      ProcessAllCounts(r, num, c, heads, packets, n - 1);
      ModOfCounter(from + (n - 1), num);
      TurnUsed(r1, num, c1, heads[n - 1], packets[n - 1], at);
      EnteredOneMore(r.used, r1.used, num, c.cursors.lastUsed, UsedEntries(heads, packets), n);
    }
  }

  lemma EnteredNone(before: seq<UsedElem>, num: nat, from: u16, entries: seq<UsedElem>)
    requires 0 < num == |before|
    ensures Entered(before, before, num, from, entries, 0)
  {
  }

  /** When every packet is deliverable the k-th used element of the batch is the k-th head. */
  lemma ProcessAllUsed(r: Shared, num: nat, c: Consumer, heads: seq<u16>, packets: seq<seq<byte>>, n: nat)
    requires ValidNum(num) && Shaped(r, num) && n <= |heads| == |packets| && HeadersFit(packets)
    requires n <= num && forall k :: 0 <= k < n ==> packets[k] != []
    ensures var r' := ProcessAll(r, num, c, heads, packets, n).0;
            && (forall k :: 0 <= k < n ==>
                  r'.used[Slot(c.cursors.lastUsed + k, num)] == UsedElem(heads[k], Wrap32(|packets[k]|)))
            && (forall i :: 0 <= i < num && i !in SlotsFrom(c.cursors.lastUsed, n, num) ==> r'.used[i] == r.used[i])
  {
    hide Slot, Wrap32, ValidNum, HeaderFits, ProcessAll;
    ProcessAllEnters(r, num, c, heads, packets, n);
  }

  lemma TurnUsed(r: Shared, num: nat, c: Consumer, d: u16, packet: seq<byte>, at: nat)
    requires Shaped(r, num) && HeaderFits(packet) && packet != []
    requires at == Slot(c.cursors.lastUsed, num)
    ensures Turn(r, num, c, d, packet).0.used == r.used[at := UsedElem(d, Wrap32(|packet|))]
  {
  }
}
