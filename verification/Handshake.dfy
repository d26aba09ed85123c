/** init_vhost_client: the messages a client sends, and what the server is left with. */
module Handshake {
  import opened Common
  import opened AddressSpace
  import opened Coherence
  import opened Ring
  import opened Layout
  import opened Server
  import opened Protocol
  import opened Runs

  /** A client after new_vhost_client: where its two shared regions are mapped, and the
      descriptors of the regions and of the two eventfds of each vring. */
  datatype ClientSide = ClientSide(
    views: seq<Mapping>, shmFds: seq<int>, kickfds: seq<int>, callfds: seq<int>)

  function MemoryOf(c: ClientSide, k: nat): (rs: seq<MemRegion>)
    requires k <= |c.views| && Addressable(c)
    ensures |rs| == k
    ensures forall i :: 0 <= i < k ==> rs[i] == MemRegion(c.views[i].base, c.views[i].size, c.views[i].base, 0)
  {
    if k == 0 then []
    else MemoryOf(c, k - 1) + [MemRegion(c.views[k - 1].base, c.views[k - 1].size, c.views[k - 1].base, 0)]
  }

  predicate Addressable(c: ClientSide) {
    forall i :: 0 <= i < |c.views| ==> c.views[i].base + VHOST_CLIENT_PAGE_SIZE < 0x1_0000_0000_0000_0000
                                       && c.views[i].size == VHOST_CLIENT_PAGE_SIZE
  }

  /** The client as new_vhost_client makes it, and a server that can map the same objects. */
  predicate Ready(c: ClientSide, env: Env) {
    && |c.views| == |c.shmFds| == |c.kickfds| == |c.callfds| == VHOST_CLIENT_VRING_NUM
    && Addressable(c)
    && ViewsApart(c.views)
    && (forall i :: 0 <= i < VHOST_CLIENT_VRING_NUM ==>
         && c.shmFds[i] > 0 && c.shmFds[i] in env.landing
         && env.landing[c.shmFds[i]].shm == c.views[i].shm
         && 0 < env.landing[c.shmFds[i]].base
         && env.landing[c.shmFds[i]].base + VHOST_CLIENT_PAGE_SIZE < 0x1_0000_0000_0000_0000
         && c.views[i].shm + USED_OFFSET in env.usedIdx)
  }

  /** set_host_vring. */
  function SetHostVring(c: ClientSide, env: Env, i: nat): seq<(Request, seq<int>)>
    requires Ready(c, env) && i < VHOST_CLIENT_VRING_NUM
  {
    var base := c.views[i].base;
    [(SetVringNum(i, VHOST_VRING_SIZE), []),
     (SetVringBase(i, 0), []),
     (SetVringKick(i), [c.kickfds[i]]),
     (SetVringCall(i), [c.callfds[i]]),
     (SetVringAddr(i, 0, base + DESC_OFFSET, base + USED_OFFSET, base + AVAIL_OFFSET, 0), [])]
  }

  /** The messages of init_vhost_client. */
  function Messages(c: ClientSide, env: Env): seq<(Request, seq<int>)>
    requires Ready(c, env)
  {
    [(SetOwner, []), (GetFeatures, []), (SetMemTable(MemoryOf(c, VHOST_CLIENT_VRING_NUM)), c.shmFds)]
    + (SetHostVring(c, env, RX) + SetHostVring(c, env, TX))
  }

  // ---- SET_MEM_TABLE ----

  /** Where the first `k` regions of a table land. */
  function LandedViews(env: Env, regions: seq<MemRegion>, fds: seq<int>, k: nat): (vs: seq<Mapping>)
    requires k <= |regions| == |fds| && forall j :: 0 <= j < |fds| ==> fds[j] in env.landing
    ensures |vs| == k
    ensures forall j :: 0 <= j < k ==>
              vs[j] == Mapping(env.landing[fds[j]].base, regions[j].size, env.landing[fds[j]].shm)
  {
    if k == 0 then []
    else
      var at := env.landing[fds[k - 1]];
      LandedViews(env, regions, fds, k - 1) + [Mapping(at.base, regions[k - 1].size, at.shm)]
  }

  /** A table of at most 8 regions that describes the client's mappings by their user addresses, each
      starting at its mmap_offset in its object, all its descriptors valid, its windows apart, and
      mapped by the server apart from each other and from what it has mapped before. */
  predicate Describes(client: seq<Mapping>, env: Env, s: ServerState, regions: seq<MemRegion>, fds: seq<int>) {
    && WellFormed(s)
    && |client| == |regions| == |fds| <= VHOST_MEMORY_MAX_NREGIONS
    && (forall j :: 0 <= j < |fds| ==> fds[j] > 0 && fds[j] in env.landing)
    && (forall j :: 0 <= j < |regions| ==>
          && regions[j].user == client[j].base && regions[j].size == client[j].size
          && client[j].shm == env.landing[fds[j]].shm + regions[j].offset
          && regions[j].guest + regions[j].size < 0x1_0000_0000_0000_0000
          && regions[j].user + regions[j].size < 0x1_0000_0000_0000_0000
          && 0 < env.landing[fds[j]].base
          && env.landing[fds[j]].base + regions[j].offset + regions[j].size < 0x1_0000_0000_0000_0000)
    && (forall i, j :: 0 <= i < j < |regions| ==>
          Apart(regions[i].guest, regions[i].size, regions[j].guest, regions[j].size))
    && ViewsApart(client)
    && ViewsApart(s.views + LandedViews(env, regions, fds, |regions|))
  }

  /** The turns of _set_mem_table with valid descriptors, one by one. */
  lemma {:induction false} StoredSoFar(env: Env, s: ServerState, regions: seq<MemRegion>, fds: seq<int>, k: nat)
    requires WellFormed(s) && k <= |regions| == |fds| <= VHOST_MEMORY_MAX_NREGIONS
    requires forall j :: 0 <= j < |fds| ==> fds[j] > 0 && fds[j] in env.landing && env.landing[fds[j]].base != 0
    ensures var t := StoreRegions(env, s, regions, fds, k);
            && t.nregions == k && t.kicks == s.kicks
            && t.views == s.views + LandedViews(env, regions, fds, k)
            && forall j :: 0 <= j < k ==>
                 t.table[j] == Region(regions[j].guest, regions[j].size, regions[j].user,
                                      Wrap64(env.landing[fds[j]].base + regions[j].offset))
    decreases k
  {
    hide Wrap64;
    if k > 0 {
      StoredSoFar(env, s, regions, fds, k - 1);
    }
  }

  /** SET_MEM_TABLE makes a server, new or not, mirror whatever memory such a table describes. */
  lemma MemTableMirrors(client: seq<Mapping>, env: Env, s: ServerState, regions: seq<MemRegion>, fds: seq<int>)
    requires Describes(client, env, s, regions, fds)
    ensures Acceptable(env, s, SetMemTable(regions), fds)
    ensures var t := Handle(env, s, SetMemTable(regions), fds).0;
            Mirrors(client, t.views, Regions(t)) && t.vrings == s.vrings && t.kicks == s.kicks
  {
    hide Wrap64, StoreRegions, Mirrors, ViewsApart;
    var n := |regions|;
    StoredSoFar(env, s, regions, fds, n);
    var t := StoreRegions(env, s, regions, fds, n);
    TableMirrors(client, env, s, regions, fds, Regions(t));
  }

  /** `rs` is the table the server makes of the message. */
  predicate Stored(env: Env, regions: seq<MemRegion>, fds: seq<int>, rs: seq<Region>) {
    && |rs| == |regions| == |fds|
    && (forall j :: 0 <= j < |fds| ==> fds[j] in env.landing)
    && forall j :: 0 <= j < |rs| ==>
         rs[j] == Region(regions[j].guest, regions[j].size, regions[j].user,
                         Wrap64(env.landing[fds[j]].base + regions[j].offset))
  }

  lemma TableSound(client: seq<Mapping>, env: Env, s: ServerState, regions: seq<MemRegion>, fds: seq<int>,
                   rs: seq<Region>)
    requires Describes(client, env, s, regions, fds) && Stored(env, regions, fds, rs)
    ensures forall j :: 0 <= j < |rs| ==> rs[j].mmap == env.landing[fds[j]].base + regions[j].offset
    ensures Sound(rs)
  {
    hide Wrap64, ViewsApart, Apart;
    forall j | 0 <= j < |rs| ensures rs[j].mmap == env.landing[fds[j]].base + regions[j].offset {
      WrapsNot(env.landing[fds[j]].base + regions[j].offset);
    }
  }

  lemma TableApart(client: seq<Mapping>, env: Env, s: ServerState, regions: seq<MemRegion>, fds: seq<int>,
                   rs: seq<Region>)
    requires Describes(client, env, s, regions, fds) && Stored(env, regions, fds, rs)
    ensures GuestsApart(rs) && UsersApart(rs)
  {
    hide Wrap64, ViewsApart, Apart;
    ApartUsers(client, rs);
  }

  lemma RegionMirrors(client: seq<Mapping>, env: Env, s: ServerState, regions: seq<MemRegion>, fds: seq<int>,
                      rs: seq<Region>,
                      i: nat)
    requires Describes(client, env, s, regions, fds) && Stored(env, regions, fds, rs) && i < |rs|
    ensures var at := Newest(s.views + LandedViews(env, regions, fds, |regions|), |rs|, i);
            && rs[i].user == client[i].base && rs[i].size == client[i].size == at.size
            && rs[i].mmap == at.base + regions[i].offset && client[i].shm == at.shm + regions[i].offset
  {
    hide Wrap64, ViewsApart, Apart;
    TableSound(client, env, s, regions, fds, rs);
    var landed := LandedViews(env, regions, fds, |regions|);
    assert Newest(s.views + landed, |rs|, i) == landed[i];
  }

  lemma TableShape(client: seq<Mapping>, env: Env, s: ServerState, regions: seq<MemRegion>, fds: seq<int>)
    requires Describes(client, env, s, regions, fds)
    ensures |client| == |regions| == |fds| && ViewsApart(client)
    ensures forall j :: 0 <= j < |fds| ==> fds[j] in env.landing
    ensures ViewsApart(s.views + LandedViews(env, regions, fds, |regions|))
  {
    hide ViewsApart, Apart;
  }

  /** The table such a message leaves, beside the mappings it makes. */
  lemma TableMirrors(client: seq<Mapping>, env: Env, s: ServerState, regions: seq<MemRegion>, fds: seq<int>,
                     rs: seq<Region>)
    requires Describes(client, env, s, regions, fds) && Stored(env, regions, fds, rs)
    ensures Mirrors(client, s.views + LandedViews(env, regions, fds, |regions|), rs)
  {
    TableShape(client, env, s, regions, fds);
    hide Describes, Stored, ViewsApart, Sound, GuestsApart, UsersApart, Newest, LandedViews;
    var server := s.views + LandedViews(env, regions, fds, |regions|);
    TableSound(client, env, s, regions, fds, rs);
    TableApart(client, env, s, regions, fds, rs);
    forall i | 0 <= i < |rs|
      ensures rs[i].user == client[i].base && rs[i].size == client[i].size == Newest(server, |rs|, i).size
      ensures 0 <= Skip(server, rs, i)
      ensures client[i].shm == Newest(server, |rs|, i).shm + Skip(server, rs, i)
    {
      RegionMirrors(client, env, s, regions, fds, rs, i);
    }
  }

  lemma ApartUsers(client: seq<Mapping>, rs: seq<Region>)
    requires ViewsApart(client) && |client| == |rs|
    requires forall j :: 0 <= j < |rs| ==> rs[j].user == client[j].base && rs[j].size == client[j].size
    ensures UsersApart(rs)
  {
  }

  /** The landings of the client's two regions are apart. */
  predicate LandsApart(c: ClientSide, env: Env)
    requires Ready(c, env)
  {
    ViewsApart(LandedViews(env, MemoryOf(c, VHOST_CLIENT_VRING_NUM), c.shmFds, VHOST_CLIENT_VRING_NUM))
  }

  lemma NewHasRoom(c: ClientSide, env: Env, s: ServerState)
    requires Ready(c, env) && LandsApart(c, env) && WellFormed(s) && s.views == []
    ensures HasRoom(c, env, s)
  {
    var vs := LandedViews(env, MemoryOf(c, VHOST_CLIENT_VRING_NUM), c.shmFds, VHOST_CLIENT_VRING_NUM);
    assert [] + vs == vs;
  }

  /** A server, new or not, whose address space has room for the client's two regions. */
  predicate HasRoom(c: ClientSide, env: Env, s: ServerState)
    requires Ready(c, env)
  {
    && WellFormed(s)
    && ViewsApart(s.views + LandedViews(env, MemoryOf(c, VHOST_CLIENT_VRING_NUM), c.shmFds, VHOST_CLIENT_VRING_NUM))
  }

  /** The server knows both of the client's regions. */
  ghost predicate Mapped(c: ClientSide, env: Env, s: ServerState)
    requires Ready(c, env)
  {
    && WellFormed(s)
    && Mirrors(c.views, s.views, Regions(s))
    && forall i :: 0 <= i < VHOST_CLIENT_VRING_NUM ==>
         Regions(s)[i].guest == c.views[i].base && Skip(s.views, Regions(s), i) == 0
  }

  /** SET_MEM_TABLE with the client's regions and descriptors. */
  lemma MemTableMaps(c: ClientSide, env: Env, s: ServerState)
    requires Ready(c, env) && HasRoom(c, env, s)
    ensures var req := SetMemTable(MemoryOf(c, VHOST_CLIENT_VRING_NUM));
            && Acceptable(env, s, req, c.shmFds)
            && Mapped(c, env, Handle(env, s, req, c.shmFds).0)
            && Handle(env, s, req, c.shmFds).0.vrings == s.vrings
            && Handle(env, s, req, c.shmFds).0.kicks == s.kicks
  {
    hide ViewsApart, LandedViews, Mirrors, StoreRegions;
    var rs := MemoryOf(c, VHOST_CLIENT_VRING_NUM);
    assert Apart(rs[0].guest, rs[0].size, rs[1].guest, rs[1].size) by {
      ApartTwo(c.views);
    }
    assert Describes(c.views, env, s, rs, c.shmFds);
    MemTableMirrors(c.views, env, s, rs, c.shmFds);
    StoredSoFar(env, s, rs, c.shmFds, VHOST_CLIENT_VRING_NUM);
  }

  lemma ApartTwo(views: seq<Mapping>)
    requires ViewsApart(views) && |views| == 2
    ensures Apart(views[0].base, views[0].size, views[1].base, views[1].size)
  {
  }

  lemma {:induction false} HandleAppend(env: Env, s: ServerState, a: seq<(Request, seq<int>)>, b: seq<(Request,
                                        seq<int>)>)
    requires HandleAll(env, s, a).Some?
    ensures HandleAll(env, s, a + b) == HandleAll(env, HandleAll(env, s, a).value, b)
    decreases |a|
  {
    hide Acceptable, Handle;
    if a == [] {
      assert a + b == b;
    } else {
      assert (a + b)[1..] == a[1..] + b;
      HandleAppend(env, Handle(env, s, a[0].0, a[0].1).0, a[1..], b);
    }
  }

  lemma HandleCons(env: Env, s: ServerState, m: (Request, seq<int>), rest: seq<(Request, seq<int>)>)
    requires Acceptable(env, s, m.0, m.1)
    ensures HandleAll(env, s, [m] + rest) == HandleAll(env, Handle(env, s, m.0, m.1).0, rest)
  {
    hide Acceptable, Handle;
    assert ([m] + rest)[1..] == rest;
  }

  /** A server vring that agrees with the client's: same size, base 0, the used index of the shared
      ring, and pointers that denote the bytes the client's pointers denote. */
  predicate Agrees(c: ClientSide, env: Env, s: ServerState, i: nat)
    requires Ready(c, env) && WellFormed(s) && i < VHOST_CLIENT_VRING_NUM
  {
    var v, base, shm := s.vrings[i], c.views[i].base, c.views[i].shm;
    && v.num == VHOST_VRING_SIZE
    && v.lastAvail == 0
    && v.lastUsed == env.usedIdx[shm + USED_OFFSET]
    && v.kickfd == c.kickfds[i] && v.callfd == c.callfds[i]
    && Deref(s.views, v.desc) == Deref(c.views, base + DESC_OFFSET) == Some(shm + DESC_OFFSET)
    && Deref(s.views, v.avail) == Deref(c.views, base + AVAIL_OFFSET) == Some(shm + AVAIL_OFFSET)
    && Deref(s.views, v.used) == Deref(c.views, base + USED_OFFSET) == Some(shm + USED_OFFSET)
  }

  /** What the three addresses of SET_VRING_ADDR become in the server. */
  lemma AddressAgrees(c: ClientSide, env: Env, s: ServerState, i: nat, o: nat)
    requires Ready(c, env) && Mapped(c, env, s) && i < VHOST_CLIENT_VRING_NUM && o < VHOST_CLIENT_PAGE_SIZE
    ensures var a := c.views[i].base + o;
            Deref(s.views, MapUser(Regions(s), a)) == Deref(c.views, a) == Some(c.views[i].shm + o)
  {
    SameByte(c.views, s.views, Regions(s), i, o);
  }

  /** set_host_vring makes one vring agree and leaves the other and the memory table alone. */
  lemma HostVringAgrees(c: ClientSide, env: Env, s: ServerState, i: nat) returns (t: ServerState)
    requires Ready(c, env) && Mapped(c, env, s) && i < VHOST_CLIENT_VRING_NUM
    ensures HandleAll(env, s, SetHostVring(c, env, i)) == Some(t)
    ensures Mapped(c, env, t) && Agrees(c, env, t, i)
    ensures t.vrings[1 - i] == s.vrings[1 - i] && t.views == s.views
    ensures !t.polling && t.kicks == if i == TX then s.kicks + [c.kickfds[i]] else s.kicks
  {
    var ms := SetHostVring(c, env, i);
    var s4 := FourMessages(c, env, s, i);
    t := AddressesTaken(c, env, s4, i);
    HandleAppend(env, s, ms[..4], ms[4..]);
    HandleCons(env, s4, ms[4], []);
    assert ms[..4] + ms[4..] == ms && [ms[4]] + [] == ms[4..];
  }

  /** All that set_host_vring sends but the addresses: size, base and the two descriptors. */
  lemma FourMessages(c: ClientSide, env: Env, s: ServerState, i: nat) returns (t: ServerState)
    requires Ready(c, env) && WellFormed(s) && i < VHOST_CLIENT_VRING_NUM
    ensures HandleAll(env, s, SetHostVring(c, env, i)[..4]) == Some(t) && WellFormed(t)
    ensures t.vrings[i] == s.vrings[i].(num := VHOST_VRING_SIZE, lastAvail := 0,
                                        kickfd := c.kickfds[i], callfd := c.callfds[i])
    ensures t.vrings[1 - i] == s.vrings[1 - i]
    ensures t.table == s.table && t.nregions == s.nregions && t.views == s.views
    ensures !t.polling && t.kicks == if i == TX then s.kicks + [c.kickfds[i]] else s.kicks
  {
    hide Ready, MapUser, Deref;
    KickIndex(i);
    var ms := SetHostVring(c, env, i);
    var s1 := Handle(env, s, ms[0].0, ms[0].1).0;
    var s2 := Handle(env, s1, ms[1].0, ms[1].1).0;
    var s3 := Handle(env, s2, ms[2].0, ms[2].1).0;
    t := Handle(env, s3, ms[3].0, ms[3].1).0;
    HandleFour(env, s, ms[0], ms[1], ms[2], ms[3]);
    assert ms[..4] == [ms[0], ms[1], ms[2], ms[3]];
  }

  /** The addresses. */
  lemma AddressesTaken(c: ClientSide, env: Env, s: ServerState, i: nat) returns (t: ServerState)
    requires Ready(c, env) && Mapped(c, env, s) && i < VHOST_CLIENT_VRING_NUM
    requires s.vrings[i].num == VHOST_VRING_SIZE && s.vrings[i].lastAvail == 0
    requires s.vrings[i].kickfd == c.kickfds[i] && s.vrings[i].callfd == c.callfds[i]
    ensures var m := SetHostVring(c, env, i)[4];
            Acceptable(env, s, m.0, m.1) && t == Handle(env, s, m.0, m.1).0
    ensures Mapped(c, env, t) && Agrees(c, env, t, i)
    ensures t.vrings[1 - i] == s.vrings[1 - i] && t.views == s.views && t.polling == s.polling && t.kicks == s.kicks
  {
    hide Addressable, ViewsApart, Mirrors, MapUser, Deref;
    AddressAgrees(c, env, s, i, DESC_OFFSET);
    AddressAgrees(c, env, s, i, AVAIL_OFFSET);
    AddressAgrees(c, env, s, i, USED_OFFSET);
    UsedKnown(c, env, i);
    var m := SetHostVring(c, env, i)[4];
    t := Handle(env, s, m.0, m.1).0;
  }

  lemma UsedKnown(c: ClientSide, env: Env, i: nat)
    requires Ready(c, env) && i < VHOST_CLIENT_VRING_NUM
    ensures c.views[i].shm + USED_OFFSET in env.usedIdx
  {
  }

  lemma KickIndex(i: nat)
    requires i < VHOST_CLIENT_VRING_NUM
    ensures FdIndex(i) == i && FdValid(i)
  {
  }

  lemma HandleFour(env: Env, s: ServerState, a: (Request, seq<int>), b: (Request, seq<int>), c: (Request, seq<int>),
                   d: (Request, seq<int>))
    requires Acceptable(env, s, a.0, a.1)
    requires var s1 := Handle(env, s, a.0, a.1).0;
             Acceptable(env, s1, b.0, b.1) &&
             var s2 := Handle(env, s1, b.0, b.1).0;
             Acceptable(env, s2, c.0, c.1) &&
             var s3 := Handle(env, s2, c.0, c.1).0;
             Acceptable(env, s3, d.0, d.1)
    ensures var s1 := Handle(env, s, a.0, a.1).0;
            var s2 := Handle(env, s1, b.0, b.1).0;
            var s3 := Handle(env, s2, c.0, c.1).0;
            HandleAll(env, s, [a, b, c, d]) == Some(Handle(env, s3, d.0, d.1).0)
  {
    hide Acceptable, Handle;
    HandleCons(env, s, a, [b, c, d]);
    var s1 := Handle(env, s, a.0, a.1).0;
    HandleCons(env, s1, b, [c, d]);
    var s2 := Handle(env, s1, b.0, b.1).0;
    HandleCons(env, s2, c, [d]);
    var s3 := Handle(env, s2, c.0, c.1).0;
    HandleCons(env, s3, d, []);
    assert [a] + [b, c, d] == [a, b, c, d];
    assert [b] + [c, d] == [b, c, d];
    assert [c] + [d] == [c, d];
    assert [d] + [] == [d];
  }

  /** A server that, on top of what it listened to before, waits for the kicks of TX and of nothing
      else, and does not poll. */
  predicate WaitsForKicks(c: ClientSide, before: ServerState, s: ServerState)
    requires |c.kickfds| == 2
  {
    !s.polling && s.kicks == before.kicks + [c.kickfds[1]]
  }

  /** After the messages of init_vhost_client a server, new or not, mirrors the client's memory, both
      its vrings agree with the client's, and it waits to be kicked on TX. */
  lemma HandshakeAgrees(c: ClientSide, env: Env, s: ServerState) returns (t: ServerState)
    requires Ready(c, env) && HasRoom(c, env, s)
    ensures HandleAll(env, s, Messages(c, env)) == Some(t)
    ensures Mapped(c, env, t) && Mirrors(c.views, t.views, Regions(t))
    ensures Agrees(c, env, t, RX) && Agrees(c, env, t, TX) && WaitsForKicks(c, s, t)
  {
    var m := (SetMemTable(MemoryOf(c, VHOST_CLIENT_VRING_NUM)), c.shmFds);
    hide Handle, SetHostVring, Ready, MemoryOf;
    MemTableMaps(c, env, s);
    var s1 := Handle(env, s, m.0, m.1).0;
    var s2 := HostVringAgrees(c, env, s1, RX);
    t := HostVringAgrees(c, env, s2, TX);
    Opening(c, env, s, m);
    HandleAppend(env, s1, SetHostVring(c, env, RX), SetHostVring(c, env, TX));
    HandleAppend(env, s, [(SetOwner, []), (GetFeatures, []), m], SetHostVring(c, env, RX) + SetHostVring(c, env, TX));
    AgreesKept(c, env, s2, t);
  }

  lemma AgreesKept(c: ClientSide, env: Env, s: ServerState, t: ServerState)
    requires Ready(c, env) && Mapped(c, env, s) && Mapped(c, env, t)
    requires Agrees(c, env, s, RX) && t.vrings[RX] == s.vrings[RX] && t.views == s.views
    ensures Agrees(c, env, t, RX)
  {
  }

  /** SET_OWNER and GET_FEATURES change nothing. */
  lemma Opening(c: ClientSide, env: Env, s: ServerState, m: (Request, seq<int>))
    requires WellFormed(s) && Acceptable(env, s, m.0, m.1)
    ensures HandleAll(env, s, [(SetOwner, []), (GetFeatures, []), m]) == Some(Handle(env, s, m.0, m.1).0)
  {
    assert Handle(env, s, SetOwner, []).0 == s && Handle(env, s, GetFeatures, []).0 == s;
    HandleCons(env, s, (SetOwner, []), [(GetFeatures, []), m]);
    HandleCons(env, s, (GetFeatures, []), [m]);
    HandleCons(env, s, m, []);
    assert [(SetOwner, [])] + [(GetFeatures, []), m] == [(SetOwner, []), (GetFeatures, []), m];
    assert [(GetFeatures, [])] + [m] == [(GetFeatures, []), m];
    assert [m] + [] == [m];
  }

  // ---- the rings start in a state of the protocol ----

  /** The processes that use ring `i` as producer and as consumer: the client produces on TX and
      consumes on RX. */
  function ConfigOf(c: ClientSide, s: ServerState, i: nat, repaired: bool): Config
    requires WellFormed(s) && i < |c.views|
  {
    var client, server := Process(c.views, None), Process(s.views, Some(Regions(s)));
    Config(VHOST_VRING_SIZE, repaired,
           if i == TX then client else server,
           if i == TX then server else client,
           Offsets(c.views[i].shm + VRING_BYTES, VHOST_VRING_SIZE))
  }

  /** The shared offsets of `n` buffers from `from` on. */
  function Offsets(from: nat, n: nat): (r: seq<nat>)
    ensures |r| == n && forall i :: 0 <= i < n ==> r[i] == from + BUFFER_SIZE * i
  {
    seq(n, i => from + BUFFER_SIZE * i)
  }

  /** With ring `i` as new_vring left it, the state right after the handshake is a fresh state of
      the ring protocol; every theorem about runs applies to both rings from there on. */
  lemma HandshakeEstablishes(c: ClientSide, env: Env, s: ServerState, r: Shared, i: nat, repaired: bool)
    returns (s0: State)
    requires i < VHOST_CLIENT_VRING_NUM && Ready(c, env) && Mapped(c, env, s) && Agrees(c, env, s, i)
    requires LaidOut(r.desc, c.views[i].base) && |r.avail| == |r.used| == VHOST_VRING_SIZE
    requires r.availIdx == 0 && r.usedIdx == 0 && env.usedIdx[c.views[i].shm + USED_OFFSET] == r.usedIdx
    requires c.views[i].shm + VHOST_CLIENT_PAGE_SIZE <= |r.mem|
    ensures Fresh(ConfigOf(c, s, i, repaired), s0) && s0.ring == r
    ensures i == RX ==> s0.prod == Cursors(s.vrings[i].lastAvail, s.vrings[i].lastUsed)
    ensures i == TX ==> s0.cons == Cursors(s.vrings[i].lastAvail, s.vrings[i].lastUsed)
  {
    var cfg := ConfigOf(c, s, i, repaired);
    hide Ready, Mapped, Mirrors, BufferAt, Offsets;
    forall k | 0 <= k < VHOST_VRING_SIZE
      ensures cfg.buf[k] + BUFFER_SIZE <= |r.mem|
      ensures BufferAt(cfg.producer, r.desc[k].addr, cfg.buf[k], BUFFER_SIZE)
      ensures BufferAt(cfg.consumer, r.desc[k].addr, cfg.buf[k], BUFFER_SIZE)
    {
      BufferReached(c, env, s, i, k, BUFFER_SIZE);
    }
    BuffersApart(c.views[i].shm + VRING_BYTES);
    s0 := State(r, Cursors(0, 0), Cursors(0, 0), PIdle, CIdle, [], 0, Counting(cfg.num), [], 0, 0, 0);
    assert FreshRing(r, cfg.num);
  }

  lemma BuffersApart(from: nat)
    ensures ValidNum(VHOST_VRING_SIZE)
    ensures var buf := Offsets(from, VHOST_VRING_SIZE);
            forall i, j :: 0 <= i < VHOST_VRING_SIZE && 0 <= j < VHOST_VRING_SIZE && i != j ==>
              buf[i] + BUFFER_SIZE <= buf[j] || buf[j] + BUFFER_SIZE <= buf[i]
  {
  }

  /** Both processes find the `n` bytes from the start of a buffer on, also when they run a header's
      length over its end. */
  lemma BufferReached(c: ClientSide, env: Env, s: ServerState, i: nat, k: nat, n: nat)
    requires Ready(c, env) && Mapped(c, env, s) && i < VHOST_CLIENT_VRING_NUM && k < VHOST_VRING_SIZE
    requires 0 < n <= BUFFER_SIZE + HDR_LEN
    ensures var a, b := BufferAddr(c.views[i].base, k), c.views[i].shm + VRING_BYTES + BUFFER_SIZE * k;
            && b + n <= c.views[i].shm + VHOST_CLIENT_PAGE_SIZE
            && BufferAt(Process(c.views, None), a, b, n)
            && BufferAt(Process(s.views, Some(Regions(s))), a, b, n)
  {
    hide BufferAt;
    SameBuffer(c.views, s.views, Regions(s), i, VRING_BYTES + BUFFER_SIZE * k, n);
  }

  // ---- stop and resume, at the handlers ----

  /** The messages that resume vring `i` on a server with the base another server answered. */
  function ResumeVring(c: ClientSide, env: Env, i: nat, base: Reply): seq<(Request, seq<int>)>
    requires Ready(c, env) && i < VHOST_CLIENT_VRING_NUM && base.VringBase?
  {
    var at := c.views[i].base;
    [(SetVringBase(base.index, base.num), []),
     (SetVringAddr(i, 0, at + DESC_OFFSET, at + USED_OFFSET, at + AVAIL_OFFSET, 0), [])]
  }

  /** A server that maps the same memory and is given the base another server answers for vring `i`
      goes on with that server's available cursor and with the used index in shared memory. */
  lemma BaseHandsOver(c: ClientSide, env: Env, former: ServerState, latter: ServerState, i: nat)
    returns (t: ServerState)
    requires i < VHOST_CLIENT_VRING_NUM && Ready(c, env) && WellFormed(former) && Mapped(c, env, latter)
    ensures Handle(env, former, GetVringBase(i), []).1.Some? && Handle(env, former, GetVringBase(i), []).0 == former
    ensures HandleAll(env, latter, ResumeVring(c, env, i, Handle(env, former, GetVringBase(i), []).1.value)) == Some(t)
    ensures Mapped(c, env, t)
    ensures t.vrings[i].lastAvail == former.vrings[i].lastAvail
    ensures t.vrings[i].lastUsed == env.usedIdx[c.views[i].shm + USED_OFFSET]
    ensures t.vrings[1 - i] == latter.vrings[1 - i]
  {
    hide MapUser, Deref;
    AddressAgrees(c, env, latter, i, DESC_OFFSET);
    AddressAgrees(c, env, latter, i, AVAIL_OFFSET);
    AddressAgrees(c, env, latter, i, USED_OFFSET);
    SmallWrap(former.vrings[i].lastAvail);
    var ms := ResumeVring(c, env, i, Handle(env, former, GetVringBase(i), []).1.value);
    var s1 := Handle(env, latter, ms[0].0, ms[0].1).0;
    t := Handle(env, s1, ms[1].0, ms[1].1).0;
    HandleCons(env, latter, ms[0], [ms[1]]);
    HandleCons(env, s1, ms[1], []);
    assert [ms[0]] + [ms[1]] == ms && [ms[1]] + [] == [ms[1]];
  }
}
