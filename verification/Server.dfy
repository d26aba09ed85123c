/** The message handlers of demo/vhost_server.c. */
module Server {
  import opened Common
  import opened AddressSpace

  const VHOST_MEMORY_MAX_NREGIONS: nat := 8
  const VHOST_CLIENT_VRING_NUM: nat := 2
  const RX: nat := 0
  const TX: nat := 1

  /** VhostUserMemoryRegion (include/vhost_user.h:20-25). */
  datatype MemRegion = MemRegion(guest: u64, size: u64, user: u64, offset: u64)

  /** The requests of include/vhost_user.h:35-52 with the payload their handler reads. */
  datatype Request =
    | GetFeatures
    | SetFeatures(u: u64)
    | SetOwner
    | ResetOwner
    | SetMemTable(regions: seq<MemRegion>)
    | SetLogBase(u: u64)
    | SetLogFd
    | SetVringNum(index: u32, num: u32)
    | SetVringAddr(index: u32, flags: u32, desc: u64, used: u64, avail: u64, log: u64)
    | SetVringBase(index: u32, num: u32)
    | GetVringBase(index: u32)
    | SetVringKick(u: u64)
    | SetVringCall(u: u64)
    | SetVringErr(u: u64)

  datatype Reply = Features(u: u64) | VringBase(index: u32, num: u32)

  /** One entry of the server's VringTable; its pointers are the server's own addresses. */
  datatype VringRegs = VringRegs(
    kickfd: int, callfd: int, desc: u64, avail: u64, used: u64,
    num: u32, lastAvail: u16, lastUsed: u16)

  const INIT_VRING: VringRegs := VringRegs(-1, -1, 0, 0, 0, 0, 0, 0)

  /** Where an mmap of a shared object lands. */
  datatype Landing = Landing(base: u64, shm: nat)

  /** What the handlers get from outside: where map_shm puts each descriptor's object (base 0
      where it fails), and the idx field of the used ring at each shared offset. */
  datatype Env = Env(landing: map<int, Landing>, usedIdx: map<nat, u16>)

  datatype ServerState = ServerState(
    table: seq<Region>, nregions: nat, views: seq<Mapping>,
    vrings: seq<VringRegs>, polling: bool, kicks: seq<int>)

  predicate WellFormed(s: ServerState) {
    |s.table| == VHOST_MEMORY_MAX_NREGIONS && s.nregions <= |s.table| && |s.vrings| == VHOST_CLIENT_VRING_NUM
  }

  function Regions(s: ServerState): seq<Region>
    requires WellFormed(s)
  {
    s.table[..s.nregions]
  }

  /** The vring index and the "no descriptor" bit of a kick or call payload. */
  function FdIndex(u: u64): nat { u % 0x100 }

  predicate FdValid(u: u64) { (u / 0x100) % 2 == 0 }

  /** What the assertions in the handlers and the pointers they follow ask of a message. */
  predicate Acceptable(env: Env, s: ServerState, req: Request, fds: seq<int>) {
    && WellFormed(s)
    && match req
       case SetMemTable(regions) =>
         && |regions| <= VHOST_MEMORY_MAX_NREGIONS && |regions| == |fds|
         && forall k :: 0 <= k < |fds| && fds[k] > 0 ==> fds[k] in env.landing
       case SetVringNum(index, _) => index < VHOST_CLIENT_VRING_NUM
       case SetVringBase(index, _) => index < VHOST_CLIENT_VRING_NUM
       case GetVringBase(index) => index < VHOST_CLIENT_VRING_NUM
       case SetVringAddr(index, _, _, used, _, _) =>
         && index < VHOST_CLIENT_VRING_NUM
         && var at := Deref(s.views, MapUser(Regions(s), used));
            at.Some? && at.value in env.usedIdx
       case SetVringKick(u) => FdIndex(u) < VHOST_CLIENT_VRING_NUM && (FdValid(u) ==> |fds| == 1)
       case SetVringCall(u) => FdIndex(u) < VHOST_CLIENT_VRING_NUM && (FdValid(u) ==> |fds| == 1)
       case _ => true
  }

  // ---- what the handlers do, on values ----

  /** _set_mem_table after its first `k` turns: slot k is filled only for a valid descriptor, and
      only valid ones are counted, also those that could not be mapped. */
  function StoreRegions(env: Env, s: ServerState, regions: seq<MemRegion>, fds: seq<int>, k: nat): (t: ServerState)
    requires WellFormed(s)
    requires k <= |regions| == |fds| <= VHOST_MEMORY_MAX_NREGIONS
    requires forall j :: 0 <= j < |fds| && fds[j] > 0 ==> fds[j] in env.landing
    ensures WellFormed(t) && t.nregions <= k && t.vrings == s.vrings
  {
    if k == 0 then s.(nregions := 0)
    else
      var t := StoreRegions(env, s, regions, fds, k - 1);
      if fds[k - 1] <= 0 then t
      else
        var m, at := regions[k - 1], env.landing[fds[k - 1]];
        t.(table := t.table[k - 1 := Region(m.guest, m.size, m.user, Wrap64(at.base + m.offset))],
           nregions := t.nregions + 1,
           views := if at.base == 0 then t.views else t.views + [Mapping(at.base, m.size, at.shm)])
  }

  function Handle(env: Env, s: ServerState, req: Request, fds: seq<int>): (t: (ServerState, Option<Reply>))
    requires Acceptable(env, s, req, fds)
    ensures WellFormed(t.0)
  {
    match req
    case GetFeatures => (s, Some(Features(0)))
    case SetMemTable(regions) => (StoreRegions(env, s, regions, fds, |regions|), None)
    case SetVringNum(index, num) => (s.(vrings := s.vrings[index := s.vrings[index].(num := num)]), None)
    case SetVringBase(index, num) =>
      (s.(vrings := s.vrings[index := s.vrings[index].(lastAvail := Wrap16(num))]), None)
    case GetVringBase(index) => (s, Some(VringBase(index, s.vrings[index].lastAvail)))
    case SetVringAddr(index, _, desc, used, avail, _) =>
      var rs := Regions(s);
      var v := s.vrings[index].(desc := MapUser(rs, desc), avail := MapUser(rs, avail), used := MapUser(rs, used));
      (s.(vrings := s.vrings[index := v.(lastUsed := env.usedIdx[Deref(s.views, v.used).value])]), None)
    case SetVringKick(u) =>
      if FdValid(u) then
        (s.(vrings := s.vrings[FdIndex(u) := s.vrings[FdIndex(u)].(kickfd := fds[0])],
            kicks := if FdIndex(u) == TX then s.kicks + [fds[0]] else s.kicks,
            polling := false), None)
      else (s.(polling := true), None)
    case SetVringCall(u) =>
      if FdValid(u) then (s.(vrings := s.vrings[FdIndex(u) := s.vrings[FdIndex(u)].(callfd := fds[0])]), None)
      else (s, None)
    case _ => (s, None)
  }

  /** A sequence of messages, each acceptable in its turn. */
  function HandleAll(env: Env, s: ServerState, msgs: seq<(Request, seq<int>)>): Option<ServerState>
    decreases |msgs|
  {
    if msgs == [] then Some(s)
    else if Acceptable(env, s, msgs[0].0, msgs[0].1)
    then HandleAll(env, Handle(env, s, msgs[0].0, msgs[0].1).0, msgs[1..])
    else None
  }

  // ---- the handlers themselves ----

  class VhostServer {
    const regions: array<Region>
    const vring: array<VringRegs>
    var nregions: nat
    var views: seq<Mapping>
    var isPolling: bool
    var kicks: seq<int>

    ghost predicate Valid()
      reads this
    {
      regions.Length == VHOST_MEMORY_MAX_NREGIONS && nregions <= regions.Length
      && vring.Length == VHOST_CLIENT_VRING_NUM
    }

    ghost function Val(): (s: ServerState)
      reads this, regions, vring
    {
      ServerState(regions[..], nregions, views, vring[..], isPolling, kicks)
    }

    constructor ()
      ensures Valid() && fresh(regions) && fresh(vring)
      ensures nregions == 0 && views == [] && !isPolling && kicks == []
      ensures vring[..] == [VringRegs(-1, -1, 0, 0, 0, 0, 0, 0), VringRegs(-1, -1, 0, 0, 0, 0, 0, 0)]
    {
      regions := new Region[VHOST_MEMORY_MAX_NREGIONS](_ => Region(0, 0, 0, 0));
      vring := new VringRegs[VHOST_CLIENT_VRING_NUM](_ => INIT_VRING);
      nregions, views, isPolling, kicks := 0, [], false, [];
    }

    /** _map_guest_addr. */
    method MapGuestAddr(addr: u64) returns (result: u64)
      requires Valid()
      ensures result == MapGuest(Regions(Val()), addr)
    {
      ghost var rs := Regions(Val());
      result := 0;
      var idx := 0;
      assert rs[0..] == rs;
      while idx < nregions
        invariant 0 <= idx <= nregions == |rs| && result == 0
        invariant MapGuest(rs[idx..], addr) == MapGuest(rs, addr)
      {
        var region := regions[idx];
        assert rs[idx..][0] == region && rs[idx..][1..] == rs[idx + 1..];
        if region.guest <= addr && addr < Wrap64(region.guest + region.size) {
          result := Wrap64(region.mmap + addr - region.guest);
          return;
        }
        idx := idx + 1;
      }
    }

    /** _map_user_addr. */
    method MapUserAddr(addr: u64) returns (result: u64)
      requires Valid()
      ensures result == MapUser(Regions(Val()), addr)
    {
      ghost var rs := Regions(Val());
      result := 0;
      var idx := 0;
      assert rs[0..] == rs;
      while idx < nregions
        invariant 0 <= idx <= nregions == |rs| && result == 0
        invariant MapUser(rs[idx..], addr) == MapUser(rs, addr)
      {
        var region := regions[idx];
        assert rs[idx..][0] == region && rs[idx..][1..] == rs[idx + 1..];
        if region.user <= addr && addr < Wrap64(region.user + region.size) {
          result := Wrap64(region.mmap + addr - region.user);
          return;
        }
        idx := idx + 1;
      }
    }

    /** _set_mem_table. */
    method SetMemTable(env: Env, msg: seq<MemRegion>, fds: seq<int>)
      requires Valid() && Acceptable(env, Val(), Request.SetMemTable(msg), fds)
      modifies this`nregions, this`views, regions
      ensures Valid() && Val() == StoreRegions(env, old(Val()), msg, fds, |msg|)
    {
      ghost var s := Val();
      nregions := 0;
      for idx := 0 to |msg|
        invariant Valid() && nregions <= idx
        invariant Val() == StoreRegions(env, s, msg, fds, idx)
      {
        if fds[idx] > 0 {
          hide Wrap64;
          var at := env.landing[fds[idx]];
          if at.base != 0 {
            views := views + [Mapping(at.base, msg[idx].size, at.shm)];
          }
          regions[idx] := Region(msg[idx].guest, msg[idx].size, msg[idx].user, Wrap64(at.base + msg[idx].offset));
          nregions := nregions + 1;
        }
      }
    }

    /** _set_vring_addr. */
    method SetVringAddr(env: Env, req: Request, fds: seq<int>)
      requires Valid() && Acceptable(env, Val(), req, fds) && req.SetVringAddr?
      modifies vring
      ensures Valid() && (Val(), None) == Handle(env, old(Val()), req, fds)
    {
      var desc := MapUserAddr(req.desc);
      var avail := MapUserAddr(req.avail);
      var used := MapUserAddr(req.used);
      vring[req.index] := vring[req.index].(
        desc := desc, avail := avail, used := used, lastUsed := env.usedIdx[Deref(views, used).value]);
    }

    /** _set_vring_kick. */
    method SetVringKick(env: Env, u: u64, fds: seq<int>)
      requires Valid() && Acceptable(env, Val(), Request.SetVringKick(u), fds)
      modifies this`isPolling, this`kicks, vring
      ensures Valid() && (Val(), None) == Handle(env, old(Val()), Request.SetVringKick(u), fds)
    {
      var idx := FdIndex(u);
      if FdValid(u) {
        vring[idx] := vring[idx].(kickfd := fds[0]);
        if idx == TX {
          kicks := kicks + [vring[idx].kickfd];
        }
        isPolling := false;
      } else {
        isPolling := true;
      }
    }

    /** in_msg_server: positive when a reply is to be sent. */
    method InMsg(env: Env, req: Request, fds: seq<int>) returns (result: int, reply: Option<Reply>)
      requires Valid() && Acceptable(env, Val(), req, fds)
      modifies this, regions, vring
      ensures Valid() && (Val(), reply) == Handle(env, old(Val()), req, fds)
      ensures result > 0 <==> reply.Some?
    {
      result, reply := 0, None;
      match req
      case GetFeatures =>
        result, reply := 1, Some(Features(0));
      case SetMemTable(msg) =>
        SetMemTable(env, msg, fds);
      case SetVringNum(index, num) =>
        vring[index] := vring[index].(num := num);
      case SetVringAddr(_, _, _, _, _, _) =>
        SetVringAddr(env, req, fds);
      case SetVringBase(index, num) =>
        vring[index] := vring[index].(lastAvail := Wrap16(num));
      case GetVringBase(index) =>
        result, reply := 1, Some(VringBase(index, vring[index].lastAvail));
      case SetVringKick(u) =>
        SetVringKick(env, u, fds);
      case SetVringCall(u) =>
        if FdValid(u) {
          vring[FdIndex(u)] := vring[FdIndex(u)].(callfd := fds[0]);
        }
      case _ =>
    }
  }
}
