/** The ring protocol as a state machine: every shared access of the producer
    (put_vring, process_used_vring) and of the consumer (process_avail_vring) is a
    step of its own, and the steps of the two sides interleave freely. */
module Protocol {
  import opened Common
  import opened AddressSpace
  import opened Ring

  /** `repaired` selects the reclaim cursor: the source reduces it mod `num` at every
      step, the repaired variant lets it run mod 2^16 and reduces at the array access. */
  datatype Config = Config(num: nat, repaired: bool, producer: Process, consumer: Process, buf: seq<nat>)

  datatype ProducerPc =
    | PIdle
    | Popped(a: u16, payload: seq<byte>)   // last_avail_idx has moved on
    | Filled(a: u16, payload: seq<byte>)   // buffer and descriptor written
    | Stored(a: u16, payload: seq<byte>)   // avail slot written, avail->idx not yet
    | ReclaimTest(u: u16)                  // about to compare u_idx with used->idx
    | ReclaimFree(u: u16)                  // about to free what used slot u_idx names

  datatype ConsumerPc =
    | CIdle
    | BatchTest(slot: u16, count: nat)     // about to compare last_avail_idx with avail->idx
    | BatchWork(slot: u16, count: nat)     // about to process the descriptor in `slot`
    | BatchExit(count: nat)                // about to publish used->idx

  datatype Post = Post(id: nat, payload: seq<byte>)

  /** `delivered` and `complaints` are what the consumer's handler and header check have seen. The
      last five fields are history: what the free list holds, what was published in order, and
      how far each of the three cursors has come without wrapping. */
  datatype State = State(
    ring: Shared, prod: Cursors, cons: Cursors, ppc: ProducerPc, cpc: ConsumerPc,
    delivered: seq<seq<byte>>, complaints: nat,
    free: seq<nat>, posted: seq<Post>, consumed: nat, published: nat, reclaimed: nat)

  datatype Action =
    | PutPop(payload: seq<byte>) | PutFill | PutStore | PutBump
    | ReclaimBegin | ReclaimCheck | ReclaimOne
    | BatchBegin | BatchCheck | BatchOne | BatchPublish

  /** Where the reclaim cursor is after `k` frees. */
  function CursorAt(cfg: Config, k: nat): u16
    requires 0 < cfg.num <= VHOST_VRING_SIZE
  {
    if cfg.repaired then Wrap16(k) else Slot(k, cfg.num)
  }

  /** Whether the comparison u_idx != used->idx decides the loop of process_used_vring
      correctly: always after the repair, below `num` in the source. */
  predicate ReclaimMeaningful(cfg: Config, s: State) {
    cfg.repaired || s.ring.usedIdx < cfg.num
  }

  /** When the side that owns action `a` is about to do it, and the array accesses it
      makes are inside their arrays. */
  ghost predicate Enabled(cfg: Config, s: State, a: Action) {
    && Shaped(s.ring, cfg.num)
    && match a
       case PutPop(payload) =>
         && s.ppc.PIdle?
         && s.prod.lastAvail < cfg.num
         && HDR_LEN + |payload| < ETH_PACKET_SIZE
         && |payload| <= s.ring.desc[s.prod.lastAvail].len
       case PutFill =>
         && s.ppc.Popped?
         && s.ppc.a < cfg.num
         && BufferOf(s.ring, cfg.producer, s.ppc.a) + HDR_LEN + |s.ppc.payload| <= |s.ring.mem|
       case PutStore => s.ppc.Filled?
       case PutBump => s.ppc.Stored?
       case ReclaimBegin => s.ppc.PIdle?
       case ReclaimCheck => s.ppc.ReclaimTest? && ReclaimMeaningful(cfg, s)
       case ReclaimOne => s.ppc.ReclaimFree? && s.ring.used[Slot(s.ppc.u, cfg.num)].id < cfg.num
       case BatchBegin => s.cpc.CIdle?
       case BatchCheck => s.cpc.BatchTest?
       case BatchOne =>
         && s.cpc.BatchWork?
         && s.cpc.slot < cfg.num
         && Processable(s.ring.desc, s.ring.mem, cfg.consumer, s.ring.avail[s.cpc.slot])
       case BatchPublish => s.cpc.BatchExit?
  }

  function ConsumerSide(s: State): Consumer {
    Consumer(s.cons, s.delivered, s.complaints)
  }

  ghost function Do(cfg: Config, s: State, a: Action): State
    requires Enabled(cfg, s, a)
  {
    match a
    case PutPop(payload) =>
      s.(ppc := Popped(s.prod.lastAvail, payload),
         prod := s.prod.(lastAvail := s.ring.desc[s.prod.lastAvail].next),
         free := if s.free == [] then [] else s.free[1..])
    case PutFill =>
      s.(ring := Fill(s.ring, cfg.producer, s.ppc.a, s.ppc.payload),
         ppc := Filled(s.ppc.a, s.ppc.payload))
    case PutStore =>
      s.(ring := StoreSlot(s.ring, cfg.num, s.ppc.a), ppc := Stored(s.ppc.a, s.ppc.payload))
    case PutBump =>
      s.(ring := BumpAvail(s.ring), ppc := PIdle,
         posted := s.posted + [Post(s.ppc.a, s.ppc.payload)])
    case ReclaimBegin =>
      s.(ppc := ReclaimTest(s.prod.lastUsed))
    case ReclaimCheck =>
      if s.ppc.u == s.ring.usedIdx
      then s.(ppc := PIdle, prod := s.prod.(lastUsed := s.ppc.u))
      else s.(ppc := ReclaimFree(s.ppc.u))
    case ReclaimOne =>
      var d := s.ring.used[Slot(s.ppc.u, cfg.num)].id;
      s.(ring := FreeDesc(s.ring, s.prod.lastAvail, d),
         prod := s.prod.(lastAvail := d),
         ppc := ReclaimTest(CursorAt(cfg, s.ppc.u + 1)),
         free := [d] + s.free,
         reclaimed := s.reclaimed + 1)
    case BatchBegin =>
      s.(cpc := BatchTest(Slot(s.cons.lastAvail, cfg.num), 0))
    case BatchCheck =>
      s.(cpc := if s.cons.lastAvail == s.ring.availIdx then BatchExit(s.cpc.count)
                else BatchWork(s.cpc.slot, s.cpc.count))
    case BatchOne =>
      var d := s.ring.avail[s.cpc.slot];
      var (ring, c) := Turn(s.ring, cfg.num, ConsumerSide(s), d, Packet(s.ring.desc, s.ring.mem, cfg.consumer, d));
      s.(ring := ring, cons := c.cursors, delivered := c.delivered, complaints := c.complaints,
         cpc := BatchTest(Slot(s.cpc.slot + 1, cfg.num), s.cpc.count + 1),
         consumed := s.consumed + 1)
    case BatchPublish =>
      s.(ring := s.ring.(usedIdx := s.cons.lastUsed), cpc := CIdle, published := s.consumed)
  }

  /** Runs: the state after a list of actions, when each was enabled in its turn. */
  ghost function Exec(cfg: Config, s: State, run: seq<Action>): Option<State>
    decreases |run|
  {
    if run == [] then Some(s)
    else if Enabled(cfg, s, run[0]) then Exec(cfg, Do(cfg, s, run[0]), run[1..])
    else None
  }

  // ---- the invariant ----

  function Ids(ps: seq<Post>): (r: seq<nat>)
    ensures |r| == |ps|
  {
    seq(|ps|, i requires 0 <= i < |ps| => ps[i].id)
  }

  function Payloads(ps: seq<Post>): (r: seq<seq<byte>>)
    ensures |r| == |ps|
  {
    seq(|ps|, i requires 0 <= i < |ps| => ps[i].payload)
  }

  function InHand(s: State): seq<nat> {
    match s.ppc
    case Popped(a, _) => [a]
    case Filled(a, _) => [a]
    case Stored(a, _) => [a]
    case _ => []
  }

  /** Every descriptor and who has it: published and not yet reclaimed (in order),
      in the producer's hand, on the free list (in order). */
  function Owned(s: State): seq<nat>
    requires s.reclaimed <= |s.posted|
  {
    Ids(s.posted[s.reclaimed..]) + InHand(s) + s.free
  }

  /** Following `next` from `head` visits exactly `free` and ends in VRING_IDX_NONE;
      every descriptor on the way has its whole buffer. */
  ghost predicate FreeList(desc: seq<Desc>, head: u16, free: seq<nat>) {
    && Below(free, |desc|)
    && head == (if free == [] then VRING_IDX_NONE else free[0])
    && (forall k :: 0 <= k < |free| ==> desc[free[k]].len == BUFFER_SIZE)
    && (forall j, k :: 0 <= j < k < |free| && k == j + 1 ==> desc[free[j]].next == free[k])
    && (free != [] ==> desc[free[|free| - 1]].next == VRING_IDX_NONE)
  }

  /** Descriptor `i`, whose buffer is at `buf[i]`, is a chain of one that carries a zero header
      and `payload`. */
  ghost predicate Carries(buf: seq<nat>, desc: seq<Desc>, mem: seq<byte>, i: nat, payload: seq<byte>) {
    && i < |desc| && i < |buf|
    && HDR_LEN + |payload| < ETH_PACKET_SIZE
    && desc[i].len == HDR_LEN + |payload|
    && desc[i].flags == 0
    && Read(mem, buf[i], HDR_LEN + |payload|) == ZeroHeader() + payload
  }

  ghost predicate WellConfigured(cfg: Config) {
    && ValidNum(cfg.num)
    && |cfg.buf| == cfg.num
    && forall i, j :: 0 <= i < cfg.num && 0 <= j < cfg.num && i != j ==>
         cfg.buf[i] + BUFFER_SIZE <= cfg.buf[j] || cfg.buf[j] + BUFFER_SIZE <= cfg.buf[i]
  }

  /** Both processes find descriptor `i`'s buffer at the same shared bytes. */
  ghost predicate Addressed(cfg: Config, desc: seq<Desc>, size: nat) {
    && |desc| == |cfg.buf|
    && forall i :: 0 <= i < |cfg.buf| ==>
         && cfg.buf[i] + BUFFER_SIZE <= size
         && BufferAt(cfg.producer, desc[i].addr, cfg.buf[i], BUFFER_SIZE)
         && BufferAt(cfg.consumer, desc[i].addr, cfg.buf[i], BUFFER_SIZE)
  }

  predicate Counted(cfg: Config, s: State) {
    && s.reclaimed <= s.published <= s.consumed <= |s.posted|
    && s.ring.availIdx == Wrap16(|s.posted|)
    && s.ring.usedIdx == Wrap16(s.published)
    && s.cons.lastAvail == Wrap16(s.consumed)
    && s.cons.lastUsed == Wrap16(s.consumed)
    && (!cfg.repaired ==> s.reclaimed < cfg.num)
  }

  /** Entry k of the history is still in slot k mod `num`, for k from `lo` to `hi`. */
  predicate AvailHolds(num: nat, avail: seq<u16>, posted: seq<Post>, lo: nat)
    requires num > 0 && |avail| == num
  {
    forall k :: lo <= k < |posted| ==> avail[Slot(k, num)] == posted[k].id
  }

  predicate UsedHolds(num: nat, used: seq<UsedElem>, posted: seq<Post>, lo: nat, hi: nat)
    requires num > 0 && |used| == num && hi <= |posted|
  {
    forall k :: lo <= k < hi ==>
      && used[Slot(k, num)].id == posted[k].id
      && used[Slot(k, num)].len == HDR_LEN + |posted[k].payload|
  }

  predicate AllFit(posted: seq<Post>) {
    forall k :: 0 <= k < |posted| ==> HDR_LEN + |posted[k].payload| < ETH_PACKET_SIZE
  }

  ghost predicate AllCarried(buf: seq<nat>, desc: seq<Desc>, mem: seq<byte>, posted: seq<Post>, lo: nat) {
    forall k :: lo <= k < |posted| ==> Carries(buf, desc, mem, posted[k].id, posted[k].payload)
  }

  ghost predicate ProducerAt(cfg: Config, s: State)
    requires Shaped(s.ring, cfg.num)
  {
    match s.ppc
    case PIdle => s.prod.lastUsed == CursorAt(cfg, s.reclaimed)
    case Popped(a, payload) =>
      && s.prod.lastUsed == CursorAt(cfg, s.reclaimed)
      && HDR_LEN + |payload| < ETH_PACKET_SIZE
    case Filled(a, payload) =>
      && s.prod.lastUsed == CursorAt(cfg, s.reclaimed)
      && Carries(cfg.buf, s.ring.desc, s.ring.mem, a, payload)
    case Stored(a, payload) =>
      && s.prod.lastUsed == CursorAt(cfg, s.reclaimed)
      && Carries(cfg.buf, s.ring.desc, s.ring.mem, a, payload)
      && s.ring.avail[Slot(|s.posted|, cfg.num)] == a
    case ReclaimTest(u) => u == CursorAt(cfg, s.reclaimed)
    case ReclaimFree(u) =>
      && u == CursorAt(cfg, s.reclaimed)
      && s.reclaimed < s.published
      && (!cfg.repaired ==> s.reclaimed + 1 < cfg.num)
  }

  predicate ConsumerAt(cfg: Config, s: State)
    requires cfg.num > 0
  {
    match s.cpc
    case CIdle => s.consumed == s.published
    case BatchTest(slot, count) => slot == Slot(s.consumed, cfg.num) && count == s.consumed - s.published
    case BatchWork(slot, count) =>
      && slot == Slot(s.consumed, cfg.num) && count == s.consumed - s.published
      && s.consumed < |s.posted|
    case BatchExit(count) => count == s.consumed - s.published
  }

  ghost predicate Inv(cfg: Config, s: State) {
    && WellConfigured(cfg)
    && Shaped(s.ring, cfg.num)
    && Addressed(cfg, s.ring.desc, |s.ring.mem|)
    && Counted(cfg, s)
    && Permutes(Owned(s), cfg.num)
    && FreeList(s.ring.desc, s.prod.lastAvail, s.free)
    && AvailHolds(cfg.num, s.ring.avail, s.posted, s.reclaimed)
    && UsedHolds(cfg.num, s.ring.used, s.posted, s.reclaimed, s.consumed)
    && AllFit(s.posted)
    && AllCarried(cfg.buf, s.ring.desc, s.ring.mem, s.posted, s.consumed)
    && ProducerAt(cfg, s)
    && ConsumerAt(cfg, s)
    && s.delivered == Payloads(s.posted[..s.consumed])
    && s.complaints == 0
  }
}
