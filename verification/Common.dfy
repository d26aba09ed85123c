/** Constants, integer widths and byte slices shared by every module. */
module Common {

  type byte = x: int | 0 <= x < 0x100
  type u16 = x: int | 0 <= x < 0x1_0000
  type u32 = x: int | 0 <= x < 0x1_0000_0000
  type u64 = x: int | 0 <= x < 0x1_0000_0000_0000_0000

  /** Unsigned arithmetic keeps the low 16, 32 or 64 bits. */
  function Wrap16(n: nat): u16 { n % 0x1_0000 }
  function Wrap32(n: nat): u32 { n % 0x1_0000_0000 }
  function Wrap64(n: nat): u64 { n % 0x1_0000_0000_0000_0000 }

  const VHOST_VRING_SIZE: nat := 32 * 1024
  const ETH_PACKET_SIZE: nat := 1518
  const HDR_LEN: nat := 10
  const BUFFER_SIZE: nat := HDR_LEN + ETH_PACKET_SIZE
  const VRING_IDX_NONE: u16 := 0xffff

  datatype Option<+T> = None | Some(value: T)

  // ---- byte slices ----

  /** The memory after storing `data` at offset `p`. */
  function Write(mem: seq<byte>, p: nat, data: seq<byte>): (r: seq<byte>)
    requires p + |data| <= |mem|
    ensures |r| == |mem|
  {
    mem[..p] + data + mem[p + |data|..]
  }

  /** The `n` bytes at offset `p`; nothing when they are not all inside the memory. */
  function Read(mem: seq<byte>, p: nat, n: nat): (r: seq<byte>)
    ensures p + n <= |mem| ==> r == mem[p..p + n]
  {
    if p + n <= |mem| then mem[p..p + n] else []
  }

  lemma ReadBack(mem: seq<byte>, p: nat, data: seq<byte>)
    requires p + |data| <= |mem|
    ensures Read(Write(mem, p, data), p, |data|) == data
  {
  }

  lemma ReadElsewhere(mem: seq<byte>, p: nat, data: seq<byte>, q: nat, n: nat)
    requires p + |data| <= |mem| && q + n <= |mem|
    requires p + |data| <= q || q + n <= p
    ensures Read(Write(mem, p, data), q, n) == Read(mem, q, n)
  {
  }

  // ---- modular counters ----

  /** Ring sizes for which slots taken mod `num` agree with counters taken mod 2^16. */
  predicate ValidNum(num: nat) {
    0 < num <= VHOST_VRING_SIZE && 0x1_0000 % num == 0
  }

  /** The ring slot of the k-th entry. */
  function Slot(k: nat, num: nat): (i: nat)
    requires num > 0
    ensures i < num
  {
    k % num
  }

  lemma {:induction false} ModUnique(a: int, q: int, r: int, m: nat)
    requires m > 0 && a == q * m + r && 0 <= r < m
    ensures a % m == r && a / m == q
  {
    var d := q - a / m;
    assert a == (a / m) * m + a % m;
    assert d * m == q * m - (a / m) * m == a % m - r;
    if d >= 1 {
      MulAtLeast(d, m);
    } else if d <= -1 {
      MulAtLeast(-d, m);
    }
  }

  lemma MulAtLeast(d: int, m: int)
    requires d >= 1 && m >= 0
    ensures d * m >= m
  {
    assert d * m == (d - 1) * m + m;
  }

  lemma ModSucc(k: nat, m: nat)
    requires m > 0
    ensures (k % m + 1) % m == (k + 1) % m
    ensures (k + 1) % m == if k % m + 1 == m then 0 else k % m + 1
  {
    if k % m + 1 == m {
      assert k + 1 == (k / m + 1) * m + 0;
      ModUnique(k + 1, k / m + 1, 0, m);
    } else {
      ModUnique(k + 1, k / m, k % m + 1, m);
    }
  }

  lemma SmallWrap(k: nat)
    requires k < 0x1_0000
    ensures Wrap16(k) == k
  {
  }

  /** Incrementing a 16-bit counter counts one more. */
  lemma WrapSucc(k: nat)
    ensures Wrap16(Wrap16(k) + 1) == Wrap16(k + 1)
  {
  }

  lemma WrapShift(k: nat, n: nat)
    ensures Wrap16(Wrap16(k) + n) == Wrap16(k + n)
  {
    ModShift(k / 0x1_0000, k % 0x1_0000 + n, 0x1_0000);
  }

  /** Reducing a 16-bit counter to a slot loses nothing when `num` divides 2^16. */
  lemma ModOfCounter(k: nat, num: nat)
    requires ValidNum(num)
    ensures Slot(Wrap16(k), num) == Slot(k, num)
  {
    var q, t, w := k / 0x1_0000, 0x1_0000 / num, Wrap16(k);
    assert k == q * (t * num) + (w / num) * num + w % num;
    assert q * (t * num) == (q * t) * num;
    assert k == (q * t + w / num) * num + w % num;
    ModUnique(k, q * t + w / num, w % num, num);
  }

  lemma SlotOfCounter(k: nat, j: nat, num: nat)
    requires ValidNum(num)
    ensures Slot(Wrap16(k) + j, num) == Slot(k + j, num)
  {
    var w := Wrap16(k);
    ModOfCounter(k, num);
    assert Slot(w, num) == Slot(k, num);
    assert w + j == (w / num) * num + (Slot(k, num) + j);
    assert k + j == (k / num) * num + (Slot(k, num) + j);
    ModShift(w / num, Slot(k, num) + j, num);
    ModShift(k / num, Slot(k, num) + j, num);
  }

  lemma ModShift(q: nat, x: nat, m: nat)
    requires m > 0
    ensures (q * m + x) % m == x % m
  {
    assert q * m + x == (q + x / m) * m + x % m;
    ModUnique(q * m + x, q + x / m, x % m, m);
  }

  /** How far the 16-bit counter `hi` is ahead of `lo`. */
  function Gap(hi: u16, lo: u16): u16 {
    Wrap16(hi + 0x1_0000 - lo)
  }

  lemma GapOfCounters(lo: nat, hi: nat)
    requires lo <= hi < lo + 0x1_0000
    ensures Gap(Wrap16(hi), Wrap16(lo)) == hi - lo
  {
  }

  /** Two counts closer together than the modulus have different residues. */
  lemma ModDistinct(i: nat, j: nat, m: nat)
    requires m > 0 && i < j < i + m
    ensures i % m != j % m
  {
    var q, r := i / m, i % m;
    assert i == q * m + r;
    if r + (j - i) < m {
      ModUnique(j, q, r + (j - i), m);
    } else {
      assert j == (q + 1) * m + (r + (j - i) - m);
      ModUnique(j, q + 1, r + (j - i) - m, m);
    }
  }

  /** Slots of entries less than `num` apart differ. */
  lemma SlotsApart(num: nat, lo: nat, top: nat)
    requires num > 0 && top < lo + num
    ensures forall k :: lo <= k < top ==> Slot(k, num) != Slot(top, num)
  {
    forall k | lo <= k < top ensures Slot(k, num) != Slot(top, num) {
      ModDistinct(k, top, num);
    }
  }

  // ---- sequences without repetition ----

  ghost predicate Distinct(s: seq<nat>) {
    forall i, j :: 0 <= i < j < |s| ==> s[i] != s[j]
  }

  ghost predicate Below(s: seq<nat>, n: nat) {
    forall i :: 0 <= i < |s| ==> s[i] < n
  }

  /** `s` lists each of 0, 1, .., n-1 exactly once. */
  ghost predicate Permutes(s: seq<nat>, n: nat) {
    |s| == n && Below(s, n) && Distinct(s)
  }

  function UpTo(n: nat): (r: set<nat>)
    ensures forall x :: x in r <==> 0 <= x < n
    ensures |r| == n
  {
    if n == 0 then {} else UpTo(n - 1) + {n - 1}
  }

  ghost function Elems(s: seq<nat>): set<nat> {
    set x | x in s
  }

  lemma {:induction false} DistinctSize(s: seq<nat>)
    requires Distinct(s)
    ensures |Elems(s)| == |s|
  {
    if s != [] {
      var front, last := s[..|s| - 1], s[|s| - 1];
      DistinctSize(front);
      assert s == front + [last];
      assert Elems(s) == Elems(front) + {last};
    }
  }

  lemma SubsetSameSize(a: set<nat>, b: set<nat>)
    requires a <= b && |a| == |b|
    ensures a == b
  {
    assert b == a + (b - a);
    assert |b| == |a| + |b - a|;
  }

  /** By pigeonhole a listing without repetition of length n below n misses nothing. */
  lemma PermutesCovers(s: seq<nat>, n: nat)
    requires Permutes(s, n)
    ensures Elems(s) == UpTo(n)
  {
    DistinctSize(s);
    SubsetSameSize(Elems(s), UpTo(n));
  }
}
