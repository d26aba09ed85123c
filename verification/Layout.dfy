/** The ALIGN macro, the layout of struct vhost_vring and of the buffers behind it. */
module Layout {
  import opened Common
  import opened Ring
  import opened Protocol
  import opened Runs

  // ---- ALIGN ----

  /** Bitwise and of natural numbers. */
  function And(x: nat, y: nat): nat
    decreases x
  {
    if x == 0 then 0 else 2 * And(x / 2, y / 2) + (x % 2) * (y % 2)
  }

  function Pow2(k: nat): (p: nat)
    ensures p > 0
  {
    if k == 0 then 1 else 2 * Pow2(k - 1)
  }

  /** ALIGN(v, b) on 64-bit longs: (v + b - 1) & -b, with -b in two's complement. */
  function Align(v: nat, b: nat): nat
    requires 0 < b <= 0x1_0000_0000_0000_0000
  {
    And(Wrap64(v + b - 1), Wrap64(0x1_0000_0000_0000_0000 - b))
  }

  lemma {:induction false} Pow2Mono(k: nat, w: nat)
    requires k <= w
    ensures Pow2(k) <= Pow2(w)
    decreases w
  {
    if k < w {
      Pow2Mono(k, w - 1);
    }
  }

  /** `x` without its low bits, those below `m`. */
  function Cleared(x: nat, m: nat): int
    requires m > 0
  {
    x - x % m
  }

  /** Anding with -2^k in `w` bits clears the low k bits. */
  lemma {:induction false} AndClears(x: nat, k: nat, w: nat)
    requires k <= w && x < Pow2(w)
    ensures Pow2(k) <= Pow2(w)
    ensures And(x, Pow2(w) - Pow2(k)) == Cleared(x, Pow2(k))
    decreases w
  {
    hide And, Pow2, Cleared;
    Pow2Mono(k, w);
    if w == 0 {
      PowZero();
      AndNone(x, 0);
      ClearedOne(x);
    } else if k == 0 {
      PowZero();
      PowStep(w);
      AndClears(x / 2, 0, w - 1);
      ClearedOne(x / 2);
      ClearedOne(x);
      AndOdd(x, Pow2(w - 1) - 1);
    } else {
      PowStep(w);
      PowStep(k);
      Pow2Mono(k - 1, w - 1);
      AndClears(x / 2, k - 1, w - 1);
      AndEven(x, Pow2(w - 1) - Pow2(k - 1), Pow2(k - 1));
    }
  }

  lemma ClearedOne(x: nat)
    ensures Cleared(x, 1) == x
  {
  }

  lemma PowZero()
    ensures Pow2(0) == 1
  {
  }

  lemma PowStep(k: nat)
    requires k > 0
    ensures Pow2(k) == 2 * Pow2(k - 1)
  {
  }

  lemma AndNone(x: nat, y: nat)
    requires x == 0
    ensures And(x, y) == 0
  {
  }

  lemma AndOdd(x: nat, h: nat)
    requires And(x / 2, h) == x / 2
    ensures And(x, 2 * h + 1) == x
  {
    AndStep(x, h, 1);
    assert x == 2 * (x / 2) + x % 2;
  }

  lemma AndStep(x: nat, h: nat, bit: nat)
    requires bit < 2
    ensures And(x, 2 * h + bit) == 2 * And(x / 2, h) + (x % 2) * bit
  {
    assert (2 * h + bit) / 2 == h && (2 * h + bit) % 2 == bit;
  }

  lemma AndEven(x: nat, h: nat, m: nat)
    requires m > 0 && And(x / 2, h) == Cleared(x / 2, m)
    ensures And(x, 2 * h) == Cleared(x, 2 * m)
  {
    LowBits(x, m);
    AndStep(x, h, 0);
  }

  lemma LowBits(x: nat, m: nat)
    requires m > 0
    ensures x % (2 * m) == 2 * ((x / 2) % m) + x % 2
  {
    var h := x / 2;
    assert h == m * (h / m) + h % m;
    assert x == 2 * h + x % 2;
    assert 2 * (m * (h / m)) == (h / m) * (2 * m);
    ModUnique(x, h / m, 2 * (h % m) + x % 2, 2 * m);
  }

  lemma Pow64()
    ensures Pow2(64) == 0x1_0000_0000_0000_0000
  {
    assert Pow2(8) == 0x100;
    assert Pow2(16) == 0x1_0000;
    assert Pow2(24) == 0x100_0000;
    assert Pow2(32) == 0x1_0000_0000;
    assert Pow2(40) == 0x100_0000_0000;
    assert Pow2(48) == 0x1_0000_0000_0000;
    assert Pow2(56) == 0x100_0000_0000_0000;
  }

  lemma AlignClears(v: nat, k: nat)
    requires k < 64 && v + Pow2(k) <= 0x1_0000_0000_0000_0000
    ensures Align(v, Pow2(k)) == Cleared(v + Pow2(k) - 1, Pow2(k))
  {
    hide And, Pow2, Cleared;
    Pow64();
    Pow2Mono(k, 64);
    AndClears(v + Pow2(k) - 1, k, 64);
  }

  /** x in multiples of m. */
  lemma Multiples(x: nat, m: nat) returns (q: nat)
    requires m > 0
    ensures Cleared(x, m) == q * m && x - m < q * m <= x
    ensures x % m == 0 ==> x == q * m
  {
    q := x / m;
    assert x == q * m + x % m;
  }

  lemma MultiplesInOrder(p: nat, q: nat, m: nat)
    ensures p < q ==> p * m + m <= q * m
    ensures q <= p ==> q * m <= p * m
  {
    assert q * m == (q - p) * m + p * m;
    if p < q {
      MulAtLeast(q - p, m);
    }
  }

  /** Rounding v + b - 1 down to a multiple of b is rounding v up. */
  lemma RoundsUp(v: nat, b: nat, m: nat)
    requires b > 0
    ensures var a := Cleared(v + b - 1, b);
            v <= a < v + b && a % b == 0 && (v <= m && m % b == 0 ==> a <= m)
  {
    hide Cleared;
    var q := Multiples(v + b - 1, b);
    var p := Multiples(m, b);
    ModUnique(q * b, q, 0, b);
    MultiplesInOrder(p, q, b);
  }

  /** For a power of two and no overflow ALIGN(v, b) is the least multiple of b not below v. */
  lemma AlignIsLeast(v: nat, k: nat)
    requires k < 64 && v + Pow2(k) <= 0x1_0000_0000_0000_0000
    ensures v <= Align(v, Pow2(k)) < v + Pow2(k)
    ensures Align(v, Pow2(k)) % Pow2(k) == 0
    ensures forall m: nat :: v <= m && m % Pow2(k) == 0 ==> Align(v, Pow2(k)) <= m
  {
    hide And, Pow2, Align, Cleared;
    AlignClears(v, k);
    RoundsUp(v, Pow2(k), 0);
    forall m: nat | v <= m && m % Pow2(k) == 0 ensures Align(v, Pow2(k)) <= m {
      RoundsUp(v, Pow2(k), m);
    }
  }

  lemma AlignedStays(v: nat)
    requires v % 8 == 0 && v + 8 <= 0x1_0000_0000_0000_0000
    ensures Align(v, 8) == v
  {
    hide Align;
    assert Pow2(3) == 8;
    AlignClears(v, 3);
    RoundsNot(v);
  }

  lemma RoundsNot(v: nat)
    requires v % 8 == 0
    ensures (v + 8 - 1) - (v + 8 - 1) % 8 == v
  {
  }

  // ---- struct vhost_vring ----

  /** Offsets of its parts under the alignments the structure asks for. */
  const DESC_OFFSET: nat := 8
  const AVAIL_OFFSET: nat := DESC_OFFSET + 16 * VHOST_VRING_SIZE
  const USED_OFFSET: nat := 593920
  const VRING_BYTES: nat := 860160
  const ONEMEG: nat := 1024 * 1024
  const VHOST_CLIENT_PAGE_SIZE: nat := 51380224

  /** The constants are what alignment to 4096 and to a megabyte gives. */
  lemma Constants()
    ensures AVAIL_OFFSET + 4 + 2 * VHOST_VRING_SIZE == 589836
    ensures USED_OFFSET == Align(AVAIL_OFFSET + 4 + 2 * VHOST_VRING_SIZE, 4096)
    ensures VRING_BYTES == Align(USED_OFFSET + 4 + 8 * VHOST_VRING_SIZE, 4096)
    ensures VHOST_CLIENT_PAGE_SIZE == Align(VRING_BYTES + BUFFER_SIZE * VHOST_VRING_SIZE, ONEMEG)
  {
    hide Align;
    assert Pow2(8) == 256;
    assert Pow2(12) == 4096;
    assert Pow2(16) == 65536;
    assert Pow2(20) == ONEMEG;
    AlignClears(AVAIL_OFFSET + 4 + 2 * VHOST_VRING_SIZE, 12);
    AlignClears(USED_OFFSET + 4 + 8 * VHOST_VRING_SIZE, 12);
    AlignClears(VRING_BYTES + BUFFER_SIZE * VHOST_VRING_SIZE, 20);
  }

  // ---- new_vring ----

  function BufferAddr(base: nat, i: nat): nat {
    base + VRING_BYTES + BUFFER_SIZE * i
  }

  /** The descriptor table new_vring leaves for a ring based at `base`. */
  ghost predicate LaidOut(desc: seq<Desc>, base: nat) {
    && |desc| == VHOST_VRING_SIZE
    && forall i :: 0 <= i < VHOST_VRING_SIZE ==>
         && desc[i].addr == BufferAddr(base, i)
         && desc[i].len == BUFFER_SIZE
         && desc[i].flags == VIRTIO_DESC_F_WRITE
         && desc[i].next == if i + 1 < VHOST_VRING_SIZE then i + 1 else VRING_IDX_NONE
  }

  /** The loop of new_vring; `base` is page aligned as mmap answers it. */
  method NewVring(desc: array<Desc>, base: nat)
    requires desc.Length == VHOST_VRING_SIZE
    requires base % 4096 == 0 && base + VHOST_CLIENT_PAGE_SIZE < 0x1_0000_0000_0000_0000
    modifies desc
    ensures LaidOut(desc[..], base)
    ensures desc.Length == 32768 && forall i :: 0 <= i < 32768 ==>
              desc[i] == Desc(base + 860160 + 1528 * i, 1528, 2, if i == 32767 then 0xffff else i + 1)
  {
    var ptr := base + VRING_BYTES;
    hide Align;
    for i := 0 to VHOST_VRING_SIZE
      invariant ptr == BufferAddr(base, i)
      invariant forall k :: 0 <= k < i ==>
        desc[k] == Desc(BufferAddr(base, k), BUFFER_SIZE, VIRTIO_DESC_F_WRITE, k + 1)
    {
      AlignedStays(ptr);
      ptr := Align(ptr, 8);
      desc[i] := Desc(ptr, BUFFER_SIZE, VIRTIO_DESC_F_WRITE, i + 1);
      ptr := ptr + desc[i].len;
    }
    desc[VHOST_VRING_SIZE - 1] := desc[VHOST_VRING_SIZE - 1].(next := VRING_IDX_NONE);
  }

  /** The same in figures. */
  lemma LaidOutFigures(desc: seq<Desc>, base: nat)
    ensures LaidOut(desc, base) <==>
              |desc| == 32768 && forall i :: 0 <= i < 32768 ==>
                && desc[i].addr == base + 860160 + 1528 * i && desc[i].len == 1528 && desc[i].flags == 2
                && desc[i].next == if i == 32767 then 0xffff else i + 1
  {
  }

  /** In such a table all buffers are 8-aligned, behind the control structure, inside the page of
      the ring and apart from each other, and the free list is 0, 1, .., in order. */
  lemma LaidOutSound(desc: seq<Desc>, base: nat)
    requires LaidOut(desc, base) && base % 8 == 0
    ensures forall i :: 0 <= i < |desc| ==>
              && desc[i].addr % 8 == 0
              && base + USED_OFFSET + 4 + 8 * VHOST_VRING_SIZE <= desc[i].addr
              && desc[i].addr + BUFFER_SIZE <= base + VHOST_CLIENT_PAGE_SIZE
    ensures forall i, j :: 0 <= i < j < |desc| ==> desc[i].addr + BUFFER_SIZE <= desc[j].addr
    ensures Walk(desc, 0, VHOST_VRING_SIZE) == Counting(VHOST_VRING_SIZE)
  {
    hide LaidOut, Walk, FreeList, BufferAddr;
    forall i | 0 <= i < |desc|
      ensures desc[i].addr % 8 == 0
      ensures base + USED_OFFSET + 4 + 8 * VHOST_VRING_SIZE <= desc[i].addr
      ensures desc[i].addr + BUFFER_SIZE <= base + VHOST_CLIENT_PAGE_SIZE
    {
      PlacedAt(desc, base, i);
      BufferPlaced(base, i, i);
    }
    forall i, j | 0 <= i < j < |desc| ensures desc[i].addr + BUFFER_SIZE <= desc[j].addr {
      PlacedAt(desc, base, i);
      PlacedAt(desc, base, j);
      BufferPlaced(base, i, j);
    }
    LaidOutList(desc, base);
    WalkIs(desc, 0, Counting(VHOST_VRING_SIZE), VHOST_VRING_SIZE);
  }

  lemma PlacedAt(desc: seq<Desc>, base: nat, i: nat)
    requires LaidOut(desc, base) && i < |desc|
    ensures |desc| == VHOST_VRING_SIZE && desc[i].addr == BufferAddr(base, i)
  {
  }

  lemma BufferPlaced(base: nat, i: nat, j: nat)
    requires base % 8 == 0 && i < VHOST_VRING_SIZE && j < VHOST_VRING_SIZE
    ensures BufferAddr(base, i) % 8 == 0
    ensures base + USED_OFFSET + 4 + 8 * VHOST_VRING_SIZE <= BufferAddr(base, i)
    ensures BufferAddr(base, i) + BUFFER_SIZE <= base + VHOST_CLIENT_PAGE_SIZE
    ensures i < j ==> BufferAddr(base, i) + BUFFER_SIZE <= BufferAddr(base, j)
  {
  }

  lemma LaidOutList(desc: seq<Desc>, base: nat)
    requires LaidOut(desc, base)
    ensures |desc| == VHOST_VRING_SIZE && FreeList(desc, 0, Counting(VHOST_VRING_SIZE))
  {
    hide BufferAddr;
  }
}
