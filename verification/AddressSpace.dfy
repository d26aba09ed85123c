/** The two views a process has of shared bytes: its own virtual addresses, and
    the region table of the vhost-user back end (demo/vhost_server.c). */
module AddressSpace {
  import opened Common

  /** VhostServerMemoryRegion (include/vhost_server.h:17-22). */
  datatype Region = Region(guest: u64, size: u64, user: u64, mmap: u64)

  /** One mmap of a shared object: virtual addresses from `base` on denote the
      shared bytes from `shm` on. */
  datatype Mapping = Mapping(base: nat, size: nat, shm: nat)

  /** A process: its mappings and, when it has a map_handler, its region table. */
  datatype Process = Process(views: seq<Mapping>, regions: Option<seq<Region>>)

  /** The shared byte behind a virtual address. */
  function Deref(views: seq<Mapping>, va: nat): Option<nat> {
    if views == [] then None
    else if views[0].base <= va < views[0].base + views[0].size then Some(views[0].shm + (va - views[0].base))
    else Deref(views[1..], va)
  }

  predicate InGuest(r: Region, addr: nat) {
    r.guest <= addr < Wrap64(r.guest + r.size)
  }

  predicate InUser(r: Region, addr: nat) {
    r.user <= addr < Wrap64(r.user + r.size)
  }

  /** The address `_map_guest_addr` answers: the first region that has it decides. */
  function MapGuest(rs: seq<Region>, addr: nat): u64 {
    if rs == [] then 0
    else if InGuest(rs[0], addr) then Wrap64(rs[0].mmap + addr - rs[0].guest)
    else MapGuest(rs[1..], addr)
  }

  /** The address `_map_user_addr` answers. */
  function MapUser(rs: seq<Region>, addr: nat): u64 {
    if rs == [] then 0
    else if InUser(rs[0], addr) then Wrap64(rs[0].mmap + addr - rs[0].user)
    else MapUser(rs[1..], addr)
  }

  /** The virtual address a vring routine uses for a descriptor's `addr`. */
  function Translate(p: Process, addr: nat): nat {
    match p.regions
    case None => addr
    case Some(rs) => MapGuest(rs, addr)
  }

  /** Offset in shared memory of a descriptor's buffer, as process `p` sees it. */
  function Base(p: Process, addr: nat): nat {
    match Deref(p.views, Translate(p, addr))
    case None => 0
    case Some(x) => x
  }

  /** In process `p` the `n` bytes from the translation of `addr` on are the shared bytes b, b+1, .. */
  ghost predicate BufferAt(p: Process, addr: nat, b: nat, n: nat) {
    var start := Translate(p, addr);
    forall va :: start <= va < start + n ==> Deref(p.views, va) == Some(b + (va - start))
  }

  lemma BufferBase(p: Process, addr: nat, b: nat, n: nat)
    requires BufferAt(p, addr, b, n) && n > 0
    ensures Base(p, addr) == b
  {
    var start := Translate(p, addr);
    assert Deref(p.views, start) == Some(b + (start - start));
  }
}
