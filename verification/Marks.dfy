/** What every descriptor looks like at every moment of every run: those that are out are readable
    chains of one with the length of their packet, those that are free are writable and whole. */
module Marks {
  import opened Common
  import opened Ring
  import opened Protocol
  import opened Invariant
  import opened Runs

  /** A chain of one, to be read, that carries a packet with this payload: no flag is set, and it
      leads nowhere. */
  predicate Out(desc: seq<Desc>, d: nat, payload: seq<byte>) {
    d < |desc| && desc[d].len == 10 + |payload| && desc[d].flags == 0 && desc[d].next == 0xffff
  }

  /** A whole buffer, to be written (flag 2). */
  predicate Spare(desc: seq<Desc>, d: nat) {
    d < |desc| && desc[d].len == 1528 && desc[d].flags == 2
  }

  ghost predicate Marked(s: State) {
    && (forall k :: s.reclaimed <= k < |s.posted| ==> Out(s.ring.desc, s.posted[k].id, s.posted[k].payload))
    && (forall d :: d in s.free ==> Spare(s.ring.desc, d))
    && match s.ppc
       case Popped(a, _) => Spare(s.ring.desc, a)
       case Filled(a, payload) => Out(s.ring.desc, a, payload)
       case Stored(a, payload) => Out(s.ring.desc, a, payload)
       case _ => true
  }

  lemma PopMarks(cfg: Config, s: State, payload: seq<byte>)
    requires Inv(cfg, s) && Marked(s) && Enabled(cfg, s, PutPop(payload))
    ensures Marked(Do(cfg, s, PutPop(payload)))
  {
    hide AvailHolds, UsedHolds, AllCarried, AllFit, Addressed, WellConfigured, Slot, Wrap16, Permutes, Out, Spare;
    hide ProducerAt, ConsumerAt, Counted;
    assert s.free != [] && s.prod.lastAvail as nat == s.free[0];
  }

  /** Filling touches only the descriptor in hand. */
  lemma FillMarks(cfg: Config, s: State)
    requires Inv(cfg, s) && Marked(s) && Enabled(cfg, s, PutFill)
    ensures Marked(Do(cfg, s, PutFill))
  {
    hide AvailHolds, UsedHolds, AllCarried, AllFit, Addressed, FreeList, WellConfigured, Slot, Wrap16, Permutes, Write;
    hide ConsumerAt, Counted;
    InHandApart(cfg, s);
    var t, a := Do(cfg, s, PutFill), s.ppc.a as nat;
    forall k | s.reclaimed <= k < |s.posted| ensures Out(t.ring.desc, s.posted[k].id, s.posted[k].payload) {
      assert Out(s.ring.desc, s.posted[k].id, s.posted[k].payload) && s.posted[k].id != a;
    }
    forall d | d in s.free ensures Spare(t.ring.desc, d) {
      assert Spare(s.ring.desc, d) && d != a;
    }
  }

  lemma InHandApart(cfg: Config, s: State)
    requires Inv(cfg, s) && s.ppc.Popped?
    ensures forall k :: s.reclaimed <= k < |s.posted| ==> s.posted[k].id != s.ppc.a
    ensures s.ppc.a as nat !in s.free
  {
    hide AvailHolds, UsedHolds, AllCarried, AllFit, Addressed, FreeList, WellConfigured, Slot, Wrap16, Permutes, Owned;
    hide ConsumerAt, ProducerAt;
    OwnedApart(s, cfg.num);
    assert s.ppc.a as nat in InHand(s);
  }

  /** Publishing writes no descriptor. */
  lemma PublishMarks(cfg: Config, s: State, a: Action)
    requires Marked(s) && Enabled(cfg, s, a) && (a.PutStore? || a.PutBump?)
    ensures Marked(Do(cfg, s, a))
  {
    hide Slot, Wrap16, Out, Spare;
  }

  /** Freeing touches only the descriptor freed, and puts its flag back. */
  lemma FreeMarks(cfg: Config, s: State)
    requires Inv(cfg, s) && Marked(s) && Enabled(cfg, s, ReclaimOne)
    ensures Marked(Do(cfg, s, ReclaimOne))
  {
    hide Inv, Enabled, Do;
    ReclaimOneIs(cfg, s);
    FreedApart(cfg, s);
    var t, d := Do(cfg, s, ReclaimOne), s.posted[s.reclaimed].id;
    assert Out(s.ring.desc, d, s.posted[s.reclaimed].payload);
    assert Spare(t.ring.desc, d);
    forall k | s.reclaimed < k < |s.posted| ensures Out(t.ring.desc, s.posted[k].id, s.posted[k].payload) {
      assert Out(s.ring.desc, s.posted[k].id, s.posted[k].payload);
    }
    forall x | x in s.free ensures Spare(t.ring.desc, x) {
      assert Spare(s.ring.desc, x);
    }
  }

  lemma FreedApart(cfg: Config, s: State)
    requires Inv(cfg, s) && s.reclaimed < |s.posted|
    ensures forall k :: s.reclaimed < k < |s.posted| ==> s.posted[k].id != s.posted[s.reclaimed].id
    ensures s.posted[s.reclaimed].id !in s.free
  {
    hide AvailHolds, UsedHolds, AllCarried, AllFit, Addressed, FreeList, WellConfigured, Slot, Wrap16, Permutes, Owned;
    hide ConsumerAt, ProducerAt;
    OwnedApart(s, cfg.num);
  }

  /** The rest of the steps leaves the table and who has what alone. */
  lemma OtherMarks(cfg: Config, s: State, a: Action)
    requires Marked(s) && Enabled(cfg, s, a)
    requires a.ReclaimBegin? || a.ReclaimCheck? || a.BatchBegin? || a.BatchCheck? || a.BatchOne? || a.BatchPublish?
    ensures Marked(Do(cfg, s, a))
  {
    hide Slot, Wrap16, Wrap32, Out, Spare, Packet, Processable, HeaderIsZero;
  }

  lemma StepMarks(cfg: Config, s: State, a: Action)
    requires Inv(cfg, s) && Marked(s) && Enabled(cfg, s, a)
    ensures Marked(Do(cfg, s, a))
  {
    hide Inv, Marked, Enabled, Do;
    match a
    case PutPop(payload) => PopMarks(cfg, s, payload);
    case PutFill => FillMarks(cfg, s);
    case PutStore => PublishMarks(cfg, s, a);
    case PutBump => PublishMarks(cfg, s, a);
    case ReclaimOne => FreeMarks(cfg, s);
    case _ => OtherMarks(cfg, s, a);
  }

  lemma {:induction false} RunMarks(cfg: Config, s: State, run: seq<Action>)
    requires Inv(cfg, s) && Marked(s) && Exec(cfg, s, run).Some?
    ensures Marked(Exec(cfg, s, run).value)
    decreases |run|
  {
    hide Inv, Marked, Enabled, Do;
    if run != [] {
      StepKeeps(cfg, s, run[0]);
      StepMarks(cfg, s, run[0]);
      RunMarks(cfg, Do(cfg, s, run[0]), run[1..]);
    }
  }

  /** From a ring as new_vring lays it out, over every interleaving: a descriptor that is filled, or
      published and not yet reclaimed, has its packet's length, no flag set and no successor; one that
      is free, or just taken, has its whole buffer and the write flag. */
  lemma DescriptorsMarked(cfg: Config, s0: State, run: seq<Action>, s: State)
    requires ReachedBy(cfg, s0, run, s) && forall i :: 0 <= i < |s0.ring.desc| ==> s0.ring.desc[i].flags == 2
    ensures Shaped(s.ring, cfg.num)
    ensures forall d :: d in Unreclaimed(cfg, s) + Unpublished(cfg, s) + Unconsumed(cfg, s) ==>
              && d < |s.ring.desc| && 10 <= s.ring.desc[d].len < 1518
              && s.ring.desc[d].flags == 0 && s.ring.desc[d].next == 0xffff
    ensures s.ppc.Filled? || s.ppc.Stored? ==> Out(s.ring.desc, s.ppc.a, s.ppc.payload)
    ensures forall d :: d in Walk(s.ring.desc, s.prod.lastAvail, cfg.num) ==> Spare(s.ring.desc, d)
    ensures s.ppc.Popped? ==> Spare(s.ring.desc, s.ppc.a)
  {
    hide Exec, Inv, Addressed, WellConfigured, Unreclaimed, Unpublished, Unconsumed, Walk;
    ReachedInv(cfg, s0, run, s);
    FreshHolds(cfg, s0);
    RunMarks(cfg, s0, run);
    PublishedAre(cfg, s);
    FreeAre(cfg, s);
  }

  /** What is published is what the rings tell. */
  lemma PublishedAre(cfg: Config, s: State)
    requires Inv(cfg, s) && Marked(s)
    ensures Shaped(s.ring, cfg.num)
    ensures forall d :: d in Unreclaimed(cfg, s) + Unpublished(cfg, s) + Unconsumed(cfg, s) ==>
              && d < |s.ring.desc| && 10 <= s.ring.desc[d].len < 1518
              && s.ring.desc[d].flags == 0 && s.ring.desc[d].next == 0xffff
  {
    hide UsedHolds, AvailHolds, AllCarried, Addressed, FreeList, Permutes, ValidNum, Slot;
    hide Wrap16, ProducerAt, ConsumerAt;
    hide Unreclaimed, Unpublished, Unconsumed;
    UnreclaimedIs(cfg, s);
    UnpublishedIs(cfg, s);
    UnconsumedIs(cfg, s);
    ThreeParts(s.posted, s.reclaimed, s.published, s.consumed);
    var ids := Ids(s.posted[s.reclaimed..]);
    forall d | d in ids
      ensures d < |s.ring.desc| && 10 <= s.ring.desc[d].len < 1518
      ensures s.ring.desc[d].flags == 0 && s.ring.desc[d].next == 0xffff
    {
      var j :| 0 <= j < |ids| && ids[j] == d;
      var k := s.reclaimed + j;
      assert Out(s.ring.desc, s.posted[k].id, s.posted[k].payload);
    }
  }

  lemma FreeAre(cfg: Config, s: State)
    requires Inv(cfg, s)
    ensures Shaped(s.ring, cfg.num) && Walk(s.ring.desc, s.prod.lastAvail, cfg.num) == s.free
  {
    hide UsedHolds, AvailHolds, AllCarried, AllFit, Addressed, FreeList, Permutes, ValidNum, Slot, Wrap16, Walk;
    OwnedBelow(s, cfg.num);
    WalkIs(s.ring.desc, s.prod.lastAvail, s.free, cfg.num);
  }
}
