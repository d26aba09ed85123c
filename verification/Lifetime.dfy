/** How many packets a session can send with the source's reclaim cursor: the bound is met. */
module Lifetime {
  import opened Common
  import opened Routines
  import opened Protocol
  import opened Invariant
  import opened Runs
  import opened RunTheorems
  import opened Calls

  predicate Small(payloads: seq<seq<byte>>) {
    forall k :: 0 <= k < |payloads| ==> HDR_LEN + |payloads[k]| < ETH_PACKET_SIZE
  }

  /** One put after the other, while there are free descriptors. */
  lemma {:induction false} PutsAreRun(cfg: Config, s: State, payloads: seq<seq<byte>>)
    returns (run: seq<Action>, t: State)
    requires Inv(cfg, s) && s.ppc.PIdle? && Small(payloads)
    requires s.reclaimed <= |s.posted| && |s.posted| - s.reclaimed + |payloads| <= cfg.num
    ensures Exec(cfg, s, run) == Some(t) && Inv(cfg, t) && Accepted(run) == payloads
    ensures t.ppc.PIdle? && t.cpc == s.cpc && t.consumed == s.consumed && t.published == s.published
    ensures |t.posted| == |s.posted| + |payloads| && t.reclaimed == s.reclaimed
    decreases |payloads|
  {
    hide Inv, Exec, Enabled;
    if payloads == [] {
      run, t := [], s;
      NoRun(cfg, s);
    } else {
      var payload := payloads[0];
      var put := [PutPop(payload), PutFill, PutStore, PutBump];
      FreeCount(cfg, s);
      NextStep(cfg, s, payload);
      PutIsRun(cfg, s, payload);
      var u := Exec(cfg, s, put).value;
      var rest;
      rest, t := PutsAreRun(cfg, u, payloads[1..]);
      run := put + rest;
      ExecAppend(cfg, s, put, rest);
      AcceptedPut(payload, rest);
      assert payloads == [payload] + payloads[1..];
    }
  }

  lemma NoRun(cfg: Config, s: State)
    ensures Exec(cfg, s, []) == Some(s) && Accepted([]) == []
  {
  }

  /** The counters around an undisturbed batch. */
  lemma BatchCounts(cfg: Config, s: State, t: State)
    requires Inv(cfg, s) && Inv(cfg, t) && !cfg.repaired && s.ppc.PIdle? && t.ppc.PIdle? && t.cpc.CIdle?
    requires t.posted == s.posted && t.prod == s.prod && t.delivered == Payloads(s.posted)
    ensures t.reclaimed == s.reclaimed && t.published == |t.posted|
    ensures t.published < cfg.num ==> t.ring.usedIdx == t.published
  {
    hide AvailHolds, UsedHolds, AllCarried, AllFit, Addressed, FreeList, Permutes, ValidNum, Slot, Wrap16;
    SmallCounter(s.reclaimed, cfg.num);
    SmallCounter(t.reclaimed, cfg.num);
    SmallCounter(t.published, cfg.num);
    assert |Payloads(t.posted[..t.consumed])| == t.consumed;
  }

  /** num - 1 packets put, consumed and reclaimed. */
  lemma Recycled(cfg: Config, s0: State, payloads: seq<seq<byte>>) returns (run: seq<Action>, s: State)
    requires Inv(cfg, s0) && !cfg.repaired && s0.ppc.PIdle? && s0.cpc.CIdle? && s0.posted == [] && s0.consumed == 0
    requires s0.reclaimed == 0 && |payloads| == cfg.num - 1 && Small(payloads)
    ensures Exec(cfg, s0, run) == Some(s) && Inv(cfg, s) && s.ppc.PIdle? && Accepted(run) == payloads
    ensures |s.posted| == s.reclaimed == cfg.num - 1
  {
    hide Inv, Exec, BatchTurns, ReclaimTurns, Accepted, BatchYields, BatchRun, ReclaimRun, ReclaimSafe, Reclaim, Small;
    var n := cfg.num - 1;
    var puts, s1 := PutsAreRun(cfg, s0, payloads);
    var s2 := BatchIsRun(cfg, s1, n);
    BatchCounts(cfg, s1, s2);
    ReclaimIsRun(cfg, s2);
    s := Exec(cfg, s2, ReclaimRun(n)).value;
    ExecAppend(cfg, s1, BatchRun(n), ReclaimRun(n));
    run := puts + (BatchRun(n) + ReclaimRun(n));
    ExecAppend(cfg, s0, puts, BatchRun(n) + ReclaimRun(n));
    AcceptedAppend(puts, BatchRun(n) + ReclaimRun(n));
    AcceptedAppend(BatchRun(n), ReclaimRun(n));
    TurnsAccept(n);
    assert payloads + ([] + []) == payloads;
  }

  lemma FreshIdle(cfg: Config, s: State)
    requires Fresh(cfg, s)
    ensures Inv(cfg, s) && cfg.num > 0
    ensures s.ppc.PIdle? && s.cpc.CIdle? && s.posted == [] && s.consumed == 0 && s.reclaimed == 0
  {
    hide Inv, Addressed, WellConfigured;
    FreshHolds(cfg, s);
  }

  /** A session that accepts 2*num - 1 packets, any that fit: num - 1 are put, consumed and reclaimed,
      and then the ring is filled. Lifetime says that no session accepts more. */
  lemma LifetimeReached(cfg: Config, s0: State, payloads: seq<seq<byte>>) returns (run: seq<Action>, s: State)
    requires Fresh(cfg, s0) && !cfg.repaired && |payloads| == 2 * cfg.num - 1 && Small(payloads)
    ensures ReachedBy(cfg, s0, run, s) && Accepted(run) == payloads
  {
    hide Inv, Exec, Fresh, Accepted;
    FreshIdle(cfg, s0);
    var n := cfg.num - 1;
    var before, u := Recycled(cfg, s0, payloads[..n]);
    var after;
    after, s := PutsAreRun(cfg, u, payloads[n..]);
    run := before + after;
    ExecAppend(cfg, s0, before, after);
    AcceptedAppend(before, after);
    assert payloads == payloads[..n] + payloads[n..];
  }
}
