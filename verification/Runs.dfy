/** What holds over whole runs of the two sides, from a freshly set up ring. */
module Runs {
  import opened Common
  import opened Ring
  import opened Protocol
  import opened Invariant

  // ---- the starting point ----

  function Counting(n: nat): (r: seq<nat>)
    ensures |r| == n && forall i :: 0 <= i < n ==> r[i] == i
  {
    seq(n, i => i)
  }

  /** What new_vring leaves in shared memory: every descriptor free, chained in order. */
  ghost predicate FreshRing(r: Shared, num: nat) {
    && Shaped(r, num)
    && r.availIdx == 0 && r.usedIdx == 0
    && forall i :: 0 <= i < num ==>
         && r.desc[i].len == BUFFER_SIZE
         && r.desc[i].next == if i + 1 < num then i + 1 else VRING_IDX_NONE
  }

  /** Both sides idle with zeroed cursors over a fresh ring whose buffers both can reach. */
  ghost predicate Fresh(cfg: Config, s: State) {
    && WellConfigured(cfg)
    && FreshRing(s.ring, cfg.num)
    && Addressed(cfg, s.ring.desc, |s.ring.mem|)
    && s == State(s.ring, Cursors(0, 0), Cursors(0, 0), PIdle, CIdle, [], 0, Counting(cfg.num), [], 0, 0, 0)
  }

  lemma FreshHolds(cfg: Config, s: State)
    requires Fresh(cfg, s)
    ensures Inv(cfg, s)
  {
    hide Addressed, WellConfigured, FreeList, Permutes, FreshRing, Counting;
    FreshList(s.ring, cfg.num);
    CountingPermutes(cfg.num);
    assert Owned(s) == Counting(cfg.num);
    assert 0 < cfg.num <= VHOST_VRING_SIZE;
    FirstSlot(cfg.num);
  }

  lemma FirstSlot(num: nat)
    requires num > 0
    ensures Slot(0, num) == 0
  {
  }

  lemma CountingPermutes(n: nat)
    ensures Permutes(Counting(n), n)
  {
  }

  lemma FreshList(r: Shared, num: nat)
    requires FreshRing(r, num)
    ensures Shaped(r, num) && r.availIdx == 0 && r.usedIdx == 0 && FreeList(r.desc, 0, Counting(num))
  {
  }

  ghost predicate ReachedBy(cfg: Config, s0: State, run: seq<Action>, s: State) {
    Fresh(cfg, s0) && Exec(cfg, s0, run) == Some(s)
  }

  lemma ReachedInv(cfg: Config, s0: State, run: seq<Action>, s: State)
    requires ReachedBy(cfg, s0, run, s)
    ensures Inv(cfg, s)
  {
    hide Inv, Fresh;
    FreshHolds(cfg, s0);
    RunKeeps(cfg, s0, run);
  }

  // ---- conservation, read off the shared memory and the cursors alone ----

  /** The descriptors met by following `next` from `head`. */
  function Walk(desc: seq<Desc>, head: nat, n: nat): seq<nat>
    decreases n
  {
    if n == 0 || head >= |desc| then [] else [head] + Walk(desc, desc[head].next, n - 1)
  }

  /** Where that walk stands after at most `n` hops: VRING_IDX_NONE when the list has ended. */
  function WalkEnd(desc: seq<Desc>, head: nat, n: nat): nat
    decreases n
  {
    if n == 0 || head >= |desc| then head else WalkEnd(desc, desc[head].next, n - 1)
  }

  /** Published in the avail ring, not yet taken by the consumer. */
  function Unconsumed(cfg: Config, s: State): seq<nat>
    requires Shaped(s.ring, cfg.num)
  {
    AvailIds(s.ring, cfg.num, s.cons.lastAvail, Gap(s.ring.availIdx, s.cons.lastAvail))
  }

  /** Entered in the used ring by the current batch, used->idx not yet moved. */
  function Unpublished(cfg: Config, s: State): seq<nat>
    requires Shaped(s.ring, cfg.num)
  {
    UsedIds(s.ring, cfg.num, s.ring.usedIdx, Gap(s.cons.lastUsed, s.ring.usedIdx))
  }

  function ReclaimCursor(s: State): u16 {
    match s.ppc
    case ReclaimTest(u) => u
    case ReclaimFree(u) => u
    case _ => s.prod.lastUsed
  }

  /** Published in the used ring, not yet freed by the producer. */
  function Unreclaimed(cfg: Config, s: State): seq<nat>
    requires Shaped(s.ring, cfg.num)
  {
    UsedIds(s.ring, cfg.num, ReclaimCursor(s), Gap(s.ring.usedIdx, ReclaimCursor(s)))
  }

  lemma UnconsumedIs(cfg: Config, s: State)
    requires Inv(cfg, s)
    ensures Unconsumed(cfg, s) == Ids(s.posted[s.consumed..])
  {
    hide UsedHolds, AllFit, AllCarried, FreeList, Addressed, Permutes, ValidNum, Slot, Wrap16, Gap;
    OwnedBelow(s, cfg.num);
    GapOfCounters(s.consumed, |s.posted|);
    forall j: nat | j < |s.posted| - s.consumed
      ensures Unconsumed(cfg, s)[j] == s.posted[s.consumed + j].id
    {
      SlotOfCounter(s.consumed, j, cfg.num);
      assert s.ring.avail[Slot(s.consumed + j, cfg.num)] == s.posted[s.consumed + j].id;
    }
  }

  lemma UnpublishedIs(cfg: Config, s: State)
    requires Inv(cfg, s)
    ensures Unpublished(cfg, s) == Ids(s.posted[s.published..s.consumed])
  {
    hide AvailHolds, AllFit, AllCarried, FreeList, Addressed, Permutes, ValidNum, Slot, Wrap16, Gap;
    OwnedBelow(s, cfg.num);
    GapOfCounters(s.published, s.consumed);
    forall j: nat | j < s.consumed - s.published
      ensures Unpublished(cfg, s)[j] == s.posted[s.published + j].id
    {
      SlotOfCounter(s.published, j, cfg.num);
      assert s.ring.used[Slot(s.published + j, cfg.num)].id == s.posted[s.published + j].id;
    }
  }

  /** Below `num` the source's reclaim cursor is its count. */
  lemma ReclaimCursorIs(cfg: Config, s: State, j: nat)
    requires Inv(cfg, s)
    ensures ReclaimCursor(s) == Wrap16(s.reclaimed)
    ensures Slot(ReclaimCursor(s) + j, cfg.num) == Slot(s.reclaimed + j, cfg.num)
  {
    hide AvailHolds, UsedHolds, AllFit, AllCarried, FreeList, Addressed, Permutes, ValidNum, Wrap16, Slot;
    SmallCounter(s.reclaimed, cfg.num);
    SlotOfCounter(s.reclaimed, j, cfg.num);
  }

  lemma SmallCounter(k: nat, num: nat)
    requires ValidNum(num)
    ensures k < num ==> Slot(k, num) == k == Wrap16(k)
  {
    if k < num {
      ModUnique(k, 0, k, num);
    }
  }

  lemma UnreclaimedIs(cfg: Config, s: State)
    requires Inv(cfg, s)
    ensures Unreclaimed(cfg, s) == Ids(s.posted[s.reclaimed..s.published])
  {
    hide AvailHolds, AllFit, AllCarried, FreeList, Addressed, Permutes, ValidNum, Slot, Wrap16, Gap, ReclaimCursor;
    OwnedBelow(s, cfg.num);
    ReclaimCursorIs(cfg, s, 0);
    GapOfCounters(s.reclaimed, s.published);
    forall j: nat | j < s.published - s.reclaimed
      ensures Unreclaimed(cfg, s)[j] == s.posted[s.reclaimed + j].id
    {
      ReclaimCursorIs(cfg, s, j);
      assert s.ring.used[Slot(s.reclaimed + j, cfg.num)].id == s.posted[s.reclaimed + j].id;
    }
  }

  lemma {:induction false} WalkIs(desc: seq<Desc>, head: u16, free: seq<nat>, n: nat)
    requires FreeList(desc, head, free) && |free| <= n && |desc| <= VHOST_VRING_SIZE
    ensures Walk(desc, head, n) == free && WalkEnd(desc, head, n) == VRING_IDX_NONE
    decreases n
  {
    if free != [] {
      FreeListTail(desc, head, free);
      WalkIs(desc, desc[head].next, free[1..], n - 1);
    }
  }

  /** All a reader of the shared memory and of the cursors can tell about who has which descriptor. */
  function Parts(cfg: Config, s: State): seq<nat>
    requires Shaped(s.ring, cfg.num)
  {
    Unreclaimed(cfg, s) + Unpublished(cfg, s) + Unconsumed(cfg, s)
    + InHand(s) + Walk(s.ring.desc, s.prod.lastAvail, cfg.num)
  }

  lemma PartsAre(cfg: Config, s: State)
    requires Inv(cfg, s)
    ensures Parts(cfg, s) == Owned(s)
    ensures WalkEnd(s.ring.desc, s.prod.lastAvail, cfg.num) == VRING_IDX_NONE
  {
    hide Permutes, UsedHolds, AvailHolds, AllCarried, Addressed, Unreclaimed, Unconsumed, Unpublished, Walk, ValidNum;
    UnreclaimedIs(cfg, s);
    UnpublishedIs(cfg, s);
    UnconsumedIs(cfg, s);
    OwnedBelow(s, cfg.num);
    WalkIs(s.ring.desc, s.prod.lastAvail, s.free, cfg.num);
    ThreeParts(s.posted, s.reclaimed, s.published, s.consumed);
  }

  /** Conservation over every interleaving: the free list, the descriptor in the producer's
      hand, and the unreclaimed, unpublished and unconsumed ring entries, all read from the
      shared memory and the cursors, list each of 0..num-1 exactly once; the free list ends in
      VRING_IDX_NONE. */
  lemma Conservation(cfg: Config, s0: State, run: seq<Action>, s: State)
    requires ReachedBy(cfg, s0, run, s)
    ensures Shaped(s.ring, cfg.num)
    ensures Permutes(Parts(cfg, s), cfg.num)
    ensures Elems(Parts(cfg, s)) == UpTo(cfg.num)
    ensures WalkEnd(s.ring.desc, s.prod.lastAvail, cfg.num) == VRING_IDX_NONE
  {
    hide ReachedBy, Permutes, UsedHolds, AvailHolds, AllCarried, Addressed, Parts, Elems, ValidNum;
    ReachedInv(cfg, s0, run, s);
    PartsAre(cfg, s);
    PermutesCovers(Parts(cfg, s), cfg.num);
  }

  lemma ThreeParts(ps: seq<Post>, r: nat, p: nat, c: nat)
    requires r <= p <= c <= |ps|
    ensures Ids(ps[r..]) == Ids(ps[r..p]) + Ids(ps[p..c]) + Ids(ps[c..])
  {
  }
}
