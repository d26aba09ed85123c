/** What messages do, told field by field: for each field which messages change it, and to what. */
module Handlers {
  import opened Common
  import opened AddressSpace
  import opened Server

  /** The messages that set up a kick or a call: bits 0 to 7 are the vring, bit 8 says that no
      descriptor comes along. */
  lemma FdBits(u: u64, i: nat)
    requires i < 256
    ensures FdIndex(i) == i && FdValid(i) && FdIndex(256 + i) == i && !FdValid(256 + i)
    ensures FdIndex(u) == u % 256 && (FdValid(u) <==> (u / 256) % 2 == 0)
  {
  }

  predicate HasFd(u: u64) {
    (u / 256) % 2 == 0
  }

  /** One vring after a message: num, base, kick and call descriptor and the three pointers change by
      their own message to that vring, and by nothing else. */
  lemma VringByField(env: Env, s: ServerState, req: Request, fds: seq<int>, i: nat)
    requires Acceptable(env, s, req, fds) && i < 2
    ensures var v, t := s.vrings[i], Handle(env, s, req, fds).0;
            var w := t.vrings[i];
            && w.num == (if req.SetVringNum? && req.index == i then req.num else v.num)
            && w.lastAvail == (if req.SetVringBase? && req.index == i then req.num % 65536 else v.lastAvail)
            && w.kickfd == (if req.SetVringKick? && req.u % 256 == i && HasFd(req.u) then fds[0] else v.kickfd)
            && w.callfd == (if req.SetVringCall? && req.u % 256 == i && HasFd(req.u) then fds[0] else v.callfd)
    ensures var v, t := s.vrings[i], Handle(env, s, req, fds).0;
            var w, here := t.vrings[i], req.SetVringAddr? && req.index == i;
            && w.desc == (if here then MapUser(Regions(s), req.desc) else v.desc)
            && w.avail == (if here then MapUser(Regions(s), req.avail) else v.avail)
            && w.used == (if here then MapUser(Regions(s), req.used) else v.used)
            && (!here ==> w.lastUsed == v.lastUsed)
            && (here ==> var at := Deref(s.views, w.used);
                         at.Some? && at.value in env.usedIdx && w.lastUsed == env.usedIdx[at.value])
  {
    hide MapUser, Deref, StoreRegions;
  }

  /** The rest of the server: the table changes by SET_MEM_TABLE alone, polling and listening by
      SET_VRING_KICK alone; only the kick of TX is listened for. */
  lemma ServerByField(env: Env, s: ServerState, req: Request, fds: seq<int>)
    requires Acceptable(env, s, req, fds)
    ensures var t := Handle(env, s, req, fds).0;
            && (!req.SetMemTable? ==> t.table == s.table && t.nregions == s.nregions && t.views == s.views)
            && t.polling == (if req.SetVringKick? then !HasFd(req.u) else s.polling)
            && t.kicks == s.kicks + (if req.SetVringKick? && HasFd(req.u) && req.u % 256 == 1 then [fds[0]] else [])
    ensures Handle(env, s, req, fds).1 ==
              match req
              case GetFeatures => Some(Features(0))
              case GetVringBase(index) => Some(VringBase(index, s.vrings[index].lastAvail))
              case _ => None
  {
    hide MapUser, Deref;
    if req.SetMemTable? {
      TableLeaves(env, s, req.regions, fds, |req.regions|);
    }
  }

  lemma {:induction false} TableLeaves(env: Env, s: ServerState, regions: seq<MemRegion>, fds: seq<int>, k: nat)
    requires WellFormed(s) && k <= |regions| == |fds| <= VHOST_MEMORY_MAX_NREGIONS
    requires forall j :: 0 <= j < |fds| && fds[j] > 0 ==> fds[j] in env.landing
    ensures StoreRegions(env, s, regions, fds, k).polling == s.polling
    ensures StoreRegions(env, s, regions, fds, k).kicks == s.kicks
    decreases k
  {
    if k > 0 {
      TableLeaves(env, s, regions, fds, k - 1);
    }
  }

  // ---- over whole conversations ----

  /** The descriptors that come with the kicks of TX, in order. */
  function TxKicks(msgs: seq<(Request, seq<int>)>): seq<int> {
    if msgs == [] then []
    else
      var (req, fds) := msgs[0];
      (if req.SetVringKick? && HasFd(req.u) && req.u % 256 == 1 && fds != [] then [fds[0]] else [])
      + TxKicks(msgs[1..])
  }

  /** Whether the last kick message, if any, came without a descriptor. */
  function PollsAfter(polling: bool, msgs: seq<(Request, seq<int>)>): bool
    decreases |msgs|
  {
    if msgs == [] then polling
    else PollsAfter(if msgs[0].0.SetVringKick? then !HasFd(msgs[0].0.u) else polling, msgs[1..])
  }

  /** After any conversation the server listens to what it did before and to the kick descriptors of TX
      it was sent, in order, and it polls exactly if the last kick message came without one. */
  lemma {:induction false} ListensTo(env: Env, s: ServerState, msgs: seq<(Request, seq<int>)>)
    requires HandleAll(env, s, msgs).Some?
    ensures var t := HandleAll(env, s, msgs).value;
            t.kicks == s.kicks + TxKicks(msgs) && t.polling == PollsAfter(s.polling, msgs)
    decreases |msgs|
  {
    hide Handle, Acceptable;
    if msgs != [] {
      var (req, fds) := msgs[0];
      var t := Handle(env, s, req, fds).0;
      ServerByField(env, s, req, fds);
      KickHasFd(env, s, req, fds);
      ListensTo(env, t, msgs[1..]);
      assert t.kicks + TxKicks(msgs[1..]) == s.kicks + TxKicks(msgs);
    }
  }

  lemma KickHasFd(env: Env, s: ServerState, req: Request, fds: seq<int>)
    requires Acceptable(env, s, req, fds)
    ensures req.SetVringKick? && HasFd(req.u) ==> |fds| == 1
  {
  }

  // ---- a memory table with invalid descriptors ----

  /** How many of the first `k` descriptors are valid. */
  function Valids(fds: seq<int>, k: nat): (n: nat)
    requires k <= |fds|
    ensures n <= k
  {
    if k == 0 then 0 else Valids(fds, k - 1) + if fds[k - 1] > 0 then 1 else 0
  }

  /** The region a message describes, as the server keeps it. */
  function Kept(env: Env, m: MemRegion, fd: int): Region
    requires fd in env.landing
  {
    Region(m.guest, m.size, m.user, Wrap64(env.landing[fd].base + m.offset))
  }

  /** SET_MEM_TABLE keeps a region in the slot of its own index, when its descriptor is valid, and
      counts the valid ones; the other slots keep what they had. */
  lemma {:induction false} TableByIndex(env: Env, s: ServerState, regions: seq<MemRegion>, fds: seq<int>, k: nat)
    requires WellFormed(s) && k <= |regions| == |fds| <= VHOST_MEMORY_MAX_NREGIONS
    requires forall j :: 0 <= j < |fds| && fds[j] > 0 ==> fds[j] in env.landing
    ensures var t := StoreRegions(env, s, regions, fds, k);
            && t.nregions == Valids(fds, k)
            && (forall j :: 0 <= j < k && fds[j] > 0 ==> t.table[j] == Kept(env, regions[j], fds[j]))
            && (forall j :: 0 <= j < |s.table| && (j < k ==> fds[j] <= 0) ==> t.table[j] == s.table[j])
    decreases k
  {
    hide Kept;
    if k > 0 {
      TableByIndex(env, s, regions, fds, k - 1);
      if fds[k - 1] > 0 {
        KeptIs(env, regions[k - 1], fds[k - 1]);
      }
    }
  }

  lemma KeptIs(env: Env, m: MemRegion, fd: int)
    requires fd in env.landing
    ensures Kept(env, m, fd) == Region(m.guest, m.size, m.user, Wrap64(env.landing[fd].base + m.offset))
  {
  }

  /** A region with a valid descriptor is mapped unless the mapping fails; mappings are only added, and
      none where one failed. */
  lemma {:induction false} MapsMade(env: Env, s: ServerState, regions: seq<MemRegion>, fds: seq<int>, k: nat)
    requires WellFormed(s) && k <= |regions| == |fds| <= VHOST_MEMORY_MAX_NREGIONS
    requires forall j :: 0 <= j < |fds| && fds[j] > 0 ==> fds[j] in env.landing
    ensures var t := StoreRegions(env, s, regions, fds, k);
            && s.views <= t.views
            && (forall j :: |s.views| <= j < |t.views| ==> t.views[j].base != 0)
            && (forall j :: 0 <= j < k && fds[j] > 0 && env.landing[fds[j]].base != 0 ==>
                  Mapping(env.landing[fds[j]].base, regions[j].size, env.landing[fds[j]].shm) in t.views)
    decreases k
  {
    hide Wrap64;
    if k > 0 {
      MapsMade(env, s, regions, fds, k - 1);
    }
  }

  predicate ValidFirst(fds: seq<int>) {
    forall i, j :: 0 <= i < j < |fds| && fds[j] > 0 ==> fds[i] > 0
  }

  /** Since only the first `nregions` slots are searched, the server knows every region that came with
      a valid descriptor if and only if the valid descriptors come first. */
  lemma AllKnownIff(env: Env, s: ServerState, regions: seq<MemRegion>, fds: seq<int>)
    requires Acceptable(env, s, SetMemTable(regions), fds)
    ensures var t := Handle(env, s, SetMemTable(regions), fds).0;
            (forall j :: 0 <= j < |fds| && fds[j] > 0 ==> j < |Regions(t)|) <==> ValidFirst(fds)
    ensures var t := Handle(env, s, SetMemTable(regions), fds).0;
            forall j :: 0 <= j < |Regions(t)| && fds[j] > 0 ==> Regions(t)[j] == Kept(env, regions[j], fds[j])
  {
    hide StoreRegions, Kept;
    TableByIndex(env, s, regions, fds, |regions|);
    CountReaches(fds);
  }

  /** The count reaches past the last valid descriptor exactly when no invalid one precedes it. */
  lemma CountReaches(fds: seq<int>)
    ensures (forall j :: 0 <= j < |fds| && fds[j] > 0 ==> j < Valids(fds, |fds|)) <==> ValidFirst(fds)
  {
    if ValidFirst(fds) {
      forall j | 0 <= j < |fds| && fds[j] > 0 ensures j < Valids(fds, |fds|) {
        AllBefore(fds, j + 1);
        ValidsGrow(fds, j + 1, |fds|);
      }
    } else {
      var i, j :| 0 <= i < j < |fds| && fds[j] > 0 && fds[i] <= 0;
      var last := LastValid(fds, j);
      OneMissing(fds, i, last + 1);
      NoneAfter(fds, last + 1, |fds|);
    }
  }

  lemma {:induction false} AllBefore(fds: seq<int>, k: nat)
    requires k <= |fds| && forall i :: 0 <= i < k ==> fds[i] > 0
    ensures Valids(fds, k) == k
    decreases k
  {
    if k > 0 {
      AllBefore(fds, k - 1);
    }
  }

  lemma {:induction false} ValidsGrow(fds: seq<int>, j: nat, k: nat)
    requires j <= k <= |fds|
    ensures Valids(fds, j) <= Valids(fds, k)
    decreases k
  {
    if j < k {
      ValidsGrow(fds, j, k - 1);
    }
  }

  lemma {:induction false} LastValid(fds: seq<int>, j: nat) returns (last: nat)
    requires j < |fds| && fds[j] > 0
    ensures j <= last < |fds| && fds[last] > 0 && forall k :: last < k < |fds| ==> fds[k] <= 0
    decreases |fds| - j
  {
    if k :| j < k < |fds| && fds[k] > 0 {
      last := LastValid(fds, k);
    } else {
      last := j;
    }
  }

  lemma {:induction false} OneMissing(fds: seq<int>, i: nat, k: nat)
    requires i < k <= |fds| && fds[i] <= 0
    ensures Valids(fds, k) < k
    decreases k
  {
    if i < k - 1 {
      OneMissing(fds, i, k - 1);
    }
  }

  lemma {:induction false} NoneAfter(fds: seq<int>, j: nat, k: nat)
    requires j <= k <= |fds| && forall i :: j <= i < k ==> fds[i] <= 0
    ensures Valids(fds, k) == Valids(fds, j)
    decreases k
  {
    if j < k {
      NoneAfter(fds, j, k - 1);
    }
  }
}
