/** The two address maps of the server, and the agreement of client and server about shared bytes. */
module Coherence {
  import opened Common
  import opened AddressSpace

  // ---- the answers of the two search loops ----

  /** Half-open address windows that do not meet. */
  predicate Apart(a: nat, m: nat, b: nat, n: nat) {
    a + m <= b || b + n <= a
  }

  /** No window of the table wraps round the address space or is mapped at 0. */
  predicate Sound(rs: seq<Region>) {
    forall i :: 0 <= i < |rs| ==>
      && rs[i].guest + rs[i].size < 0x1_0000_0000_0000_0000
      && rs[i].user + rs[i].size < 0x1_0000_0000_0000_0000
      && 0 < rs[i].mmap && rs[i].mmap + rs[i].size < 0x1_0000_0000_0000_0000
  }

  predicate GuestsApart(rs: seq<Region>) {
    forall i, j :: 0 <= i < j < |rs| ==> Apart(rs[i].guest, rs[i].size, rs[j].guest, rs[j].size)
  }

  predicate UsersApart(rs: seq<Region>) {
    forall i, j :: 0 <= i < j < |rs| ==> Apart(rs[i].user, rs[i].size, rs[j].user, rs[j].size)
  }

  predicate MmapsApart(rs: seq<Region>) {
    forall i, j :: 0 <= i < j < |rs| ==> Apart(rs[i].mmap, rs[i].size, rs[j].mmap, rs[j].size)
  }

  lemma WrapsNot(k: nat)
    requires k < 0x1_0000_0000_0000_0000
    ensures Wrap64(k) == k
  {
  }

  lemma SoundTail(rs: seq<Region>)
    requires rs != [] && Sound(rs)
    ensures Sound(rs[1..])
  {
  }

  /** An address has answer 0 exactly when it lies in no region. */
  lemma {:induction false} MapGuestZero(rs: seq<Region>, a: nat)
    requires Sound(rs)
    ensures MapGuest(rs, a) == 0 <==> forall i :: 0 <= i < |rs| ==> !InGuest(rs[i], a)
    decreases |rs|
  {
    if rs != [] {
      SoundTail(rs);
      MapGuestZero(rs[1..], a);
      if InGuest(rs[0], a) {
        WrapsNot(rs[0].guest + rs[0].size);
        WrapsNot(rs[0].mmap + a - rs[0].guest);
      } else {
        assert forall i :: 1 <= i < |rs| ==> rs[i] == rs[1..][i - 1];
      }
    }
  }

  lemma {:induction false} MapUserZero(rs: seq<Region>, a: nat)
    requires Sound(rs)
    ensures MapUser(rs, a) == 0 <==> forall i :: 0 <= i < |rs| ==> !InUser(rs[i], a)
    decreases |rs|
  {
    if rs != [] {
      SoundTail(rs);
      MapUserZero(rs[1..], a);
      if InUser(rs[0], a) {
        WrapsNot(rs[0].user + rs[0].size);
        WrapsNot(rs[0].mmap + a - rs[0].user);
      } else {
        assert forall i :: 1 <= i < |rs| ==> rs[i] == rs[1..][i - 1];
      }
    }
  }

  /** Offset `o` of region `i` goes to offset `o` of its mapping, as a guest address.. */
  lemma {:induction false} MapGuestAt(rs: seq<Region>, i: nat, o: nat)
    requires Sound(rs) && GuestsApart(rs) && i < |rs| && o < rs[i].size
    ensures MapGuest(rs, rs[i].guest + o) == rs[i].mmap + o
    decreases |rs|
  {
    var r := rs[0];
    WrapsNot(r.guest + r.size);
    if i == 0 {
      WrapsNot(r.mmap + o);
    } else {
      assert Apart(r.guest, r.size, rs[i].guest, rs[i].size);
      SoundTail(rs);
      assert GuestsApart(rs[1..]);
      MapGuestAt(rs[1..], i - 1, o);
    }
  }

  /** .. and as a user address. */
  lemma {:induction false} MapUserAt(rs: seq<Region>, i: nat, o: nat)
    requires Sound(rs) && UsersApart(rs) && i < |rs| && o < rs[i].size
    ensures MapUser(rs, rs[i].user + o) == rs[i].mmap + o
    decreases |rs|
  {
    var r := rs[0];
    WrapsNot(r.user + r.size);
    if i == 0 {
      WrapsNot(r.mmap + o);
    } else {
      assert Apart(r.user, r.size, rs[i].user, rs[i].size);
      SoundTail(rs);
      assert UsersApart(rs[1..]);
      MapUserAt(rs[1..], i - 1, o);
    }
  }

  /** The region that decides an address, and the offset in it. */
  lemma GuestRegion(rs: seq<Region>, a: nat) returns (i: nat, o: nat)
    requires Sound(rs) && MapGuest(rs, a) != 0
    ensures i < |rs| && o < rs[i].size && a == rs[i].guest + o
  {
    MapGuestZero(rs, a);
    i :| 0 <= i < |rs| && InGuest(rs[i], a);
    WrapsNot(rs[i].guest + rs[i].size);
    o := a - rs[i].guest;
  }

  lemma UserRegion(rs: seq<Region>, a: nat) returns (i: nat, o: nat)
    requires Sound(rs) && MapUser(rs, a) != 0
    ensures i < |rs| && o < rs[i].size && a == rs[i].user + o
  {
    MapUserZero(rs, a);
    i :| 0 <= i < |rs| && InUser(rs[i], a);
    WrapsNot(rs[i].user + rs[i].size);
    o := a - rs[i].user;
  }

  /** Different mapped addresses have different answers. */
  lemma MapsInjective(rs: seq<Region>, a: nat, b: nat)
    requires Sound(rs) && GuestsApart(rs) && UsersApart(rs) && MmapsApart(rs)
    ensures MapGuest(rs, a) == MapGuest(rs, b) != 0 ==> a == b
    ensures MapUser(rs, a) == MapUser(rs, b) != 0 ==> a == b
  {
    hide Sound, GuestsApart, UsersApart, MmapsApart, MapGuest, MapUser;
    if MapGuest(rs, a) == MapGuest(rs, b) != 0 {
      var i, o := GuestRegion(rs, a);
      var j, q := GuestRegion(rs, b);
      MapGuestAt(rs, i, o);
      MapGuestAt(rs, j, q);
      SameWindow(rs, i, o, j, q);
    }
    if MapUser(rs, a) == MapUser(rs, b) != 0 {
      var i, o := UserRegion(rs, a);
      var j, q := UserRegion(rs, b);
      MapUserAt(rs, i, o);
      MapUserAt(rs, j, q);
      SameWindow(rs, i, o, j, q);
    }
  }

  lemma SameWindow(rs: seq<Region>, i: nat, o: nat, j: nat, q: nat)
    requires MmapsApart(rs) && i < |rs| && j < |rs| && o < rs[i].size && q < rs[j].size
    requires rs[i].mmap + o == rs[j].mmap + q
    ensures i == j && o == q
  {
  }

  // ---- one shared object, two views ----

  predicate ViewsApart(vs: seq<Mapping>) {
    forall i, j :: 0 <= i < j < |vs| ==> Apart(vs[i].base, vs[i].size, vs[j].base, vs[j].size)
  }

  lemma {:induction false} DerefAt(vs: seq<Mapping>, i: nat, o: nat)
    requires ViewsApart(vs) && i < |vs| && o < vs[i].size
    ensures Deref(vs, vs[i].base + o) == Some(vs[i].shm + o)
    decreases |vs|
  {
    if i > 0 {
      assert Apart(vs[0].base, vs[0].size, vs[i].base, vs[i].size);
      assert ViewsApart(vs[1..]);
      DerefAt(vs[1..], i - 1, o);
    }
  }

  /** The i-th of the newest `n` mappings. */
  function Newest(views: seq<Mapping>, n: nat, i: nat): Mapping
    requires i < n <= |views|
  {
    views[|views| - n + i]
  }

  /** The mmap_offset of region i: how far behind its mapping the server lets it start. */
  function Skip(server: seq<Mapping>, rs: seq<Region>, i: nat): int
    requires i < |rs| <= |server|
  {
    rs[i].mmap - Newest(server, |rs|, i).base
  }

  /** The server's region table and its newest mappings describe the client's mappings one by one:
      region i is the client's mapping i under its user address, it starts where its mmap_offset says
      in the object, and the server has mapped the object from its start on, as many bytes as the
      region has, apart from whatever it has mapped before. */
  ghost predicate Mirrors(client: seq<Mapping>, server: seq<Mapping>, rs: seq<Region>) {
    && |client| == |rs| <= |server|
    && Sound(rs) && GuestsApart(rs) && UsersApart(rs)
    && ViewsApart(client) && ViewsApart(server)
    && forall i :: 0 <= i < |rs| ==>
         && rs[i].user == client[i].base
         && rs[i].size == client[i].size == Newest(server, |rs|, i).size
         && 0 <= Skip(server, rs, i)
         && client[i].shm == Newest(server, |rs|, i).shm + Skip(server, rs, i)
  }

  /** Offset `o` of region i is inside what the server has mapped for it. */
  predicate Reached(server: seq<Mapping>, rs: seq<Region>, i: nat, o: nat)
    requires i < |rs| <= |server|
  {
    o + Skip(server, rs, i) < rs[i].size
  }

  /** The client's address of any byte the server has mapped, and the server's answers for it as a
      guest and as a user address, denote the same shared byte. */
  lemma SameByte(client: seq<Mapping>, server: seq<Mapping>, rs: seq<Region>, i: nat, o: nat)
    requires Mirrors(client, server, rs) && i < |rs| && o < rs[i].size && Reached(server, rs, i, o)
    ensures MapGuest(rs, rs[i].guest + o) == MapUser(rs, rs[i].user + o)
    ensures Deref(client, client[i].base + o) == Some(client[i].shm + o)
    ensures Deref(server, MapGuest(rs, rs[i].guest + o)) == Some(client[i].shm + o)
    ensures Deref(server, MapUser(rs, rs[i].user + o)) == Some(client[i].shm + o)
  {
    hide Sound, GuestsApart, UsersApart, ViewsApart;
    MapGuestAt(rs, i, o);
    MapUserAt(rs, i, o);
    DerefAt(client, i, o);
    DerefAt(server, |server| - |rs| + i, o + Skip(server, rs, i));
  }

  /** What a virtual address denotes is decided by the one mapping it is in, if any. */
  lemma {:induction false} DerefIff(vs: seq<Mapping>, va: nat, b: nat)
    requires ViewsApart(vs)
    ensures Deref(vs, va) == Some(b) <==>
              exists k :: 0 <= k < |vs| && vs[k].base <= va < vs[k].base + vs[k].size
                && vs[k].shm + (va - vs[k].base) == b
    decreases |vs|
  {
    if exists k :: 0 <= k < |vs| && vs[k].base <= va < vs[k].base + vs[k].size {
      var k :| 0 <= k < |vs| && vs[k].base <= va < vs[k].base + vs[k].size;
      DerefAt(vs, k, va - vs[k].base);
      forall j | 0 <= j < |vs| && vs[j].base <= va < vs[j].base + vs[j].size ensures j == k {
        OneMapping(vs, j, k, va);
      }
    } else {
      DerefNone(vs, va);
    }
  }

  lemma OneMapping(vs: seq<Mapping>, j: nat, k: nat, va: nat)
    requires ViewsApart(vs) && j < |vs| && k < |vs|
    requires vs[j].base <= va < vs[j].base + vs[j].size && vs[k].base <= va < vs[k].base + vs[k].size
    ensures j == k
  {
  }

  lemma {:induction false} DerefNone(vs: seq<Mapping>, va: nat)
    requires forall k :: 0 <= k < |vs| ==> !(vs[k].base <= va < vs[k].base + vs[k].size)
    ensures Deref(vs, va) == None
    decreases |vs|
  {
    if vs != [] {
      DerefNone(vs[1..], va);
    }
  }

  /** Another mapping happens to show, `o` bytes behind the start of mapping j, the very byte that a
      longer mapping j would have shown there. */
  predicate Continued(vs: seq<Mapping>, j: nat, o: nat)
    requires j < |vs|
  {
    exists k :: 0 <= k < |vs| && k != j
      && vs[k].base <= vs[j].base + o < vs[k].base + vs[k].size
      && vs[k].shm - vs[k].base == vs[j].shm - vs[j].base
  }

  /** The client's address of byte `o` of region i and the server's answer for it as a guest address
      denote the same shared byte. */
  predicate AgreeAt(client: seq<Mapping>, server: seq<Mapping>, rs: seq<Region>, i: nat, o: nat)
    requires i < |rs| && i < |client|
  {
    Deref(server, MapGuest(rs, rs[i].guest + o)) == Deref(client, client[i].base + o)
  }

  /** Mapping as many bytes as the region has, from the start of the object, is too little when the
      region does not start there: the two views of a byte of the region agree exactly when the byte
      is inside the mapping, unless another mapping happens to continue it. */
  lemma SameByteIff(client: seq<Mapping>, server: seq<Mapping>, rs: seq<Region>, i: nat, o: nat)
    requires Mirrors(client, server, rs) && i < |rs| && o < rs[i].size
    ensures AgreeAt(client, server, rs, i, o) <==>
              Reached(server, rs, i, o) || Continued(server, |server| - |rs| + i, o + Skip(server, rs, i))
  {
    hide Sound, GuestsApart, UsersApart, ViewsApart;
    MapGuestAt(rs, i, o);
    DerefAt(client, i, o);
    DerefIff(server, rs[i].mmap + o, client[i].shm + o);
  }

  /** The server's other mappings show none of the object's bytes up to the end of region i. */
  predicate Alone(server: seq<Mapping>, rs: seq<Region>, i: nat)
    requires i < |rs| <= |server| && 0 <= Skip(server, rs, i)
  {
    var j := |server| - |rs| + i;
    forall k :: 0 <= k < |server| && k != j ==>
      Apart(server[k].shm, server[k].size, server[j].shm, rs[i].size + Skip(server, rs, i))
  }

  /** With an object of its own, then, a region is shared byte for byte as far as it is mapped, and
      the whole of it exactly when its mmap_offset is 0. */
  lemma WholeRegionIff(client: seq<Mapping>, server: seq<Mapping>, rs: seq<Region>, i: nat)
    requires Mirrors(client, server, rs) && i < |rs| && Alone(server, rs, i)
    ensures forall o :: 0 <= o < rs[i].size ==> (AgreeAt(client, server, rs, i, o) <==> Reached(server, rs, i, o))
    ensures (forall o :: 0 <= o < rs[i].size ==> AgreeAt(client, server, rs, i, o))
            <==> rs[i].size == 0 || Skip(server, rs, i) == 0
  {
    hide Sound, GuestsApart, UsersApart, ViewsApart, AgreeAt;
    forall o | 0 <= o < rs[i].size ensures AgreeAt(client, server, rs, i, o) <==> Reached(server, rs, i, o) {
      SameByteIff(client, server, rs, i, o);
      NotContinued(server, rs, i, o);
    }
    if rs[i].size > 0 {
      var last := rs[i].size - 1;
      assert AgreeAt(client, server, rs, i, last) <==> Skip(server, rs, i) == 0;
    }
  }

  lemma NotContinued(server: seq<Mapping>, rs: seq<Region>, i: nat, o: nat)
    requires i < |rs| <= |server| && 0 <= Skip(server, rs, i) && Alone(server, rs, i) && o < rs[i].size
    ensures !Continued(server, |server| - |rs| + i, o + Skip(server, rs, i))
  {
  }

  /** Hence any buffer inside what is mapped of a region is one and the same shared buffer for both
      processes: for the client under its own address, for the server under the guest address. */
  lemma SameBuffer(client: seq<Mapping>, server: seq<Mapping>, rs: seq<Region>, i: nat, o: nat, n: nat)
    requires Mirrors(client, server, rs) && i < |rs| && 0 < n && o + n <= rs[i].size
    requires Reached(server, rs, i, o + n - 1)
    ensures BufferAt(Process(client, None), client[i].base + o, client[i].shm + o, n)
    ensures BufferAt(Process(server, Some(rs)), rs[i].guest + o, client[i].shm + o, n)
  {
    hide Sound, GuestsApart, UsersApart, ViewsApart;
    var a, j := client[i].base + o, |server| - |rs| + i;
    forall va | a <= va < a + n ensures Deref(client, va) == Some(client[i].shm + o + (va - a)) {
      DerefAt(client, i, o + (va - a));
      assert va == client[i].base + (o + (va - a));
    }
    MapGuestAt(rs, i, o);
    var b, skip := rs[i].mmap + o, Skip(server, rs, i);
    forall va | b <= va < b + n ensures Deref(server, va) == Some(client[i].shm + o + (va - b)) {
      DerefAt(server, j, o + skip + (va - b));
      assert va == server[j].base + (o + skip + (va - b));
    }
  }
}
