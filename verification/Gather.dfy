/** What `_process_desc` gathers, apart from how it walks. */
module Gather {
  import opened Common
  import opened AddressSpace
  import opened Ring

  /** `path` begins the chain at `i`, and with `len` bytes before it stays below ETH_PACKET_SIZE. */
  ghost predicate Fitting(desc: seq<Desc>, i: nat, len: nat, path: seq<nat>)
    decreases |path|
  {
    path == [] ||
    (&& i < |desc| && path[0] == i
     && len + desc[i].len < ETH_PACKET_SIZE
     && (|path| > 1 ==> HasNext(desc[i]) && Fitting(desc, desc[i].next, len + desc[i].len, path[1..])))
  }

  /** Where the walk ends, the descriptors it takes are the longest beginning of the chain whose
      total is below ETH_PACKET_SIZE: the beginnings that fit are exactly its prefixes. */
  lemma {:induction false} PathIsLongest(desc: seq<Desc>, i: nat, len: nat, n: nat, path: seq<nat>)
    requires Halts(desc, i, len, n)
    ensures Fitting(desc, i, len, path) <==> path <= Path(desc, i, len, n)
    decreases n
  {
    hide HasNext;
    if path != [] && len + desc[i].len < ETH_PACKET_SIZE && HasNext(desc[i]) && path[0] == i {
      var rest := Path(desc, desc[i].next, len + desc[i].len, n - 1);
      PathIsLongest(desc, desc[i].next, len + desc[i].len, n - 1, path[1..]);
      assert path == [i] + path[1..];
      assert path <= [i] + rest <==> path[1..] <= rest;
    }
  }

  lemma GatheredIsLongest(desc: seq<Desc>, d: nat, path: seq<nat>)
    requires exists n: nat :: Halts(desc, d, 0, n)
    ensures Fitting(desc, d, 0, path) <==> path <= Gathered(desc, d)
  {
    var n: nat :| Halts(desc, d, 0, n) && Gathered(desc, d) == Path(desc, d, 0, n);
    PathIsLongest(desc, d, 0, n, path);
  }

  // ---- when the walk ends ----

  /** Empty descriptors that link only to each other. */
  ghost predicate EmptyLoop(desc: seq<Desc>, loop: set<nat>) {
    forall k :: k in loop ==> k < |desc| && desc[k].len == 0 && HasNext(desc[k]) && desc[k].next as nat in loop
  }

  /** After at most `n` hops the walk from `i`, its total still below ETH_PACKET_SIZE, has come to a
      loop of empty descriptors. */
  ghost predicate Caught(desc: seq<Desc>, i: nat, len: nat, n: nat)
    decreases n
  {
    && i < |desc| && len + desc[i].len < ETH_PACKET_SIZE && HasNext(desc[i])
    && (|| (exists loop: set<nat> :: i in loop && EmptyLoop(desc, loop))
        || (n > 0 && Caught(desc, desc[i].next, len + desc[i].len, n - 1)))
  }

  /** A loop of empty descriptors is never left. */
  lemma {:induction false} EmptyLoopNeverHalts(desc: seq<Desc>, loop: set<nat>, i: nat, len: nat, n: nat)
    requires i in loop && len < ETH_PACKET_SIZE && EmptyLoop(desc, loop)
    ensures !Halts(desc, i, len, n)
    decreases n
  {
    if n > 0 {
      EmptyLoopNeverHalts(desc, loop, desc[i].next, len, n - 1);
    }
  }

  lemma {:induction false} CaughtNeverHalts(desc: seq<Desc>, i: nat, len: nat, n: nat, m: nat)
    requires Caught(desc, i, len, n)
    ensures !Halts(desc, i, len, m)
    decreases n
  {
    hide HasNext;
    if exists loop: set<nat> :: i in loop && EmptyLoop(desc, loop) {
      var loop: set<nat> :| i in loop && EmptyLoop(desc, loop);
      EmptyLoopNeverHalts(desc, loop, i, len, m);
    } else if m > 0 {
      CaughtNeverHalts(desc, desc[i].next, len + desc[i].len, n - 1, m - 1);
    }
  }

  /** After at most `n` hops that walk has left the descriptor table. */
  ghost predicate Strays(desc: seq<Desc>, i: nat, len: nat, n: nat)
    decreases n
  {
    i < |desc| ==>
      && len + desc[i].len < ETH_PACKET_SIZE && HasNext(desc[i])
      && n > 0 && Strays(desc, desc[i].next, len + desc[i].len, n - 1)
  }

  /** After at most `n` hops it has met a length that takes its 32-bit total round past zero. */
  ghost predicate Wraps(desc: seq<Desc>, i: nat, len: nat, n: nat)
    decreases n
  {
    && i < |desc|
    && (|| len + desc[i].len >= 0x1_0000_0000
        || (&& len + desc[i].len < ETH_PACKET_SIZE && HasNext(desc[i])
            && n > 0 && Wraps(desc, desc[i].next, len + desc[i].len, n - 1)))
  }

  lemma {:induction false} StraysNeverHalts(desc: seq<Desc>, i: nat, len: nat, n: nat, m: nat)
    requires Strays(desc, i, len, n)
    ensures !Halts(desc, i, len, m)
    decreases n
  {
    hide HasNext;
    if i < |desc| && m > 0 {
      StraysNeverHalts(desc, desc[i].next, len + desc[i].len, n - 1, m - 1);
    }
  }

  lemma {:induction false} WrapsNeverHalts(desc: seq<Desc>, i: nat, len: nat, n: nat, m: nat)
    requires Wraps(desc, i, len, n)
    ensures !Halts(desc, i, len, m)
    decreases n
  {
    hide HasNext;
    if len + desc[i].len < 0x1_0000_0000 && m > 0 {
      WrapsNeverHalts(desc, desc[i].next, len + desc[i].len, n - 1, m - 1);
    }
  }

  /** Empty descriptors that link to each other or to `i`. */
  ghost predicate EmptyTrail(desc: seq<Desc>, seen: set<nat>, i: nat) {
    && seen <= UpTo(|desc|)
    && forall k :: k in seen ==>
         k < |desc| && desc[k].len == 0 && HasNext(desc[k]) && desc[k].next as nat in seen + {i}
  }

  lemma TrailGrows(desc: seq<Desc>, seen: set<nat>, i: nat) returns (more: set<nat>)
    requires EmptyTrail(desc, seen, i) && i < |desc| && desc[i].len == 0 && HasNext(desc[i])
    ensures EmptyTrail(desc, more, desc[i].next)
    ensures |seen| <= |desc| && |more| <= |desc| && (i !in seen ==> |more| == |seen| + 1)
    ensures i in seen ==> EmptyLoop(desc, seen)
  {
    more := seen + {i};
    SmallerSet(seen, |desc|);
    SmallerSet(more, |desc|);
  }

  /** What has become of the walk after at most `n` hops. */
  ghost predicate Settled(desc: seq<Desc>, i: nat, len: nat, n: nat) {
    Halts(desc, i, len, n) || Caught(desc, i, len, n) || Strays(desc, i, len, n) || Wraps(desc, i, len, n)
  }

  /** One hop of the walk. */
  lemma OneHop(desc: seq<Desc>, i: nat, len: nat, m: nat)
    requires i < |desc| && len + desc[i].len < ETH_PACKET_SIZE && HasNext(desc[i])
    requires Settled(desc, desc[i].next, len + desc[i].len, m)
    ensures Settled(desc, i, len, m + 1)
  {
    hide EmptyLoop, HasNext;
  }

  /** One of four things becomes of the walk. `seen` are the empty descriptors met since the total
      last grew: either it grows again, or a descriptor not seen yet is met, or one seen closes a
      loop. */
  lemma {:induction false} WalkComesTo(desc: seq<Desc>, i: nat, len: nat, seen: set<nat>) returns (n: nat)
    requires len < ETH_PACKET_SIZE && EmptyTrail(desc, seen, i)
    ensures Settled(desc, i, len, n)
    decreases ETH_PACKET_SIZE - len, |desc| - |seen|
  {
    hide HasNext, EmptyTrail, EmptyLoop, Settled;
    n := 0;
    if i < |desc| && len + desc[i].len < ETH_PACKET_SIZE && HasNext(desc[i]) {
      if desc[i].len > 0 {
        var none := NoTrail(desc, desc[i].next);
        var m := WalkComesTo(desc, desc[i].next, len + desc[i].len, none);
        OneHop(desc, i, len, m);
        n := m + 1;
      } else {
        var more := TrailGrows(desc, seen, i);
        if i in seen {
          CaughtHere(desc, i, len, seen);
        } else {
          var m := WalkComesTo(desc, desc[i].next, len, more);
          OneHop(desc, i, len, m);
          n := m + 1;
        }
      }
    } else {
      NoHop(desc, i, len);
    }
  }

  lemma CaughtHere(desc: seq<Desc>, i: nat, len: nat, loop: set<nat>)
    requires i in loop && EmptyLoop(desc, loop) && len < ETH_PACKET_SIZE
    ensures Settled(desc, i, len, 0)
  {
  }

  lemma NoHop(desc: seq<Desc>, i: nat, len: nat)
    requires i < |desc| && len + desc[i].len < ETH_PACKET_SIZE ==> !HasNext(desc[i])
    ensures Settled(desc, i, len, 0)
  {
    hide HasNext;
  }

  lemma NoTrail(desc: seq<Desc>, i: nat) returns (none: set<nat>)
    ensures EmptyTrail(desc, none, i)
  {
    none := {};
  }

  lemma SmallerSet(s: set<nat>, n: nat)
    requires s <= UpTo(n)
    ensures |s| <= n
  {
    assert UpTo(n) == s + (UpTo(n) - s);
    assert |UpTo(n)| == |s| + |UpTo(n) - s|;
  }

  ghost predicate GetsCaught(desc: seq<Desc>, d: nat) {
    exists n: nat :: Caught(desc, d, 0, n)
  }

  ghost predicate LeavesTable(desc: seq<Desc>, d: nat) {
    exists n: nat :: Strays(desc, d, 0, n)
  }

  ghost predicate WrapsRound(desc: seq<Desc>, d: nat) {
    exists n: nat :: Wraps(desc, d, 0, n)
  }

  /** The exact condition, for any table: the walk of `_process_desc` ends if and only if it does not,
      before its total reaches ETH_PACKET_SIZE, leave the table, meet a length that wraps the total,
      or come to a loop of empty descriptors. */
  lemma HaltsIff(desc: seq<Desc>, d: nat)
    ensures (exists n: nat :: Halts(desc, d, 0, n)) <==>
              !GetsCaught(desc, d) && !LeavesTable(desc, d) && !WrapsRound(desc, d)
  {
    hide GetsCaught, LeavesTable, WrapsRound;
    if exists m: nat :: Halts(desc, d, 0, m) {
      var m: nat :| Halts(desc, d, 0, m);
      HaltsOnly(desc, d, m);
      assert Halts(desc, d, 0, m);
    } else {
      SomethingElse(desc, d);
    }
  }

  lemma HaltsOnly(desc: seq<Desc>, d: nat, m: nat)
    requires Halts(desc, d, 0, m)
    ensures !GetsCaught(desc, d) && !LeavesTable(desc, d) && !WrapsRound(desc, d)
  {
    if GetsCaught(desc, d) {
      var n: nat :| Caught(desc, d, 0, n);
      CaughtNeverHalts(desc, d, 0, n, m);
    }
    if LeavesTable(desc, d) {
      var n: nat :| Strays(desc, d, 0, n);
      StraysNeverHalts(desc, d, 0, n, m);
    }
    if WrapsRound(desc, d) {
      var n: nat :| Wraps(desc, d, 0, n);
      WrapsNeverHalts(desc, d, 0, n, m);
    }
  }

  lemma SomethingElse(desc: seq<Desc>, d: nat)
    requires !exists n: nat :: Halts(desc, d, 0, n)
    ensures GetsCaught(desc, d) || LeavesTable(desc, d) || WrapsRound(desc, d)
  {
    var none := NoTrail(desc, d);
    var last := WalkComesTo(desc, d, 0, none);
    assert Caught(desc, d, 0, last) || Strays(desc, d, 0, last) || Wraps(desc, d, 0, last);
  }

  /** A chain that stays among `chain`, in the table and with lengths that leave the total headroom. */
  ghost predicate Chained(desc: seq<Desc>, chain: set<nat>) {
    forall k :: k in chain ==>
      && k < |desc| && desc[k].len < 0x1_0000_0000 - ETH_PACKET_SIZE
      && (HasNext(desc[k]) ==> desc[k].next as nat in chain)
  }

  /** On a well linked chain the loops of empty descriptors are all there is to fear. */
  lemma HaltsIffNotCaught(desc: seq<Desc>, chain: set<nat>, d: nat)
    requires Chained(desc, chain) && d in chain
    ensures (exists n: nat :: Halts(desc, d, 0, n)) <==> !GetsCaught(desc, d)
  {
    HaltsIff(desc, d);
    forall n: nat ensures !Strays(desc, d, 0, n) && !Wraps(desc, d, 0, n) {
      ChainHolds(desc, chain, d, 0, n);
    }
  }

  lemma {:induction false} ChainHolds(desc: seq<Desc>, chain: set<nat>, i: nat, len: nat, n: nat)
    requires Chained(desc, chain) && i in chain && len < ETH_PACKET_SIZE
    ensures !Strays(desc, i, len, n) && !Wraps(desc, i, len, n)
    decreases n
  {
    hide HasNext;
    if n > 0 && len + desc[i].len < ETH_PACKET_SIZE && HasNext(desc[i]) {
      ChainHolds(desc, chain, desc[i].next, len + desc[i].len, n - 1);
    }
  }

  /** The copies of the walk, its total kept in 32 bits as the code keeps it, lie inside `buf`, which
      has ETH_PACKET_SIZE bytes, for `n` hops. */
  ghost predicate CopiesInside(desc: seq<Desc>, i: nat, len: nat, n: nat)
    decreases n
  {
    i < |desc| && Wrap32(len + desc[i].len) < ETH_PACKET_SIZE ==>
      && len + desc[i].len <= ETH_PACKET_SIZE
      && (HasNext(desc[i]) && n > 0 ==> CopiesInside(desc, desc[i].next, Wrap32(len + desc[i].len), n - 1))
  }

  /** Every copy is inside if and only if no total wraps. */
  lemma CopiesInsideIff(desc: seq<Desc>, d: nat)
    ensures (forall n: nat :: CopiesInside(desc, d, 0, n)) <==> !WrapsRound(desc, d)
  {
    hide CopiesInside, Wraps;
    if exists n: nat :: Wraps(desc, d, 0, n) {
      var n: nat :| Wraps(desc, d, 0, n);
      InsideUnlessWraps(desc, d, 0, n);
    } else {
      forall n: nat ensures CopiesInside(desc, d, 0, n) {
        InsideUnlessWraps(desc, d, 0, n);
      }
    }
  }

  lemma {:induction false} InsideUnlessWraps(desc: seq<Desc>, i: nat, len: nat, n: nat)
    requires len < ETH_PACKET_SIZE
    ensures CopiesInside(desc, i, len, n) <==> !Wraps(desc, i, len, n)
    decreases n
  {
    hide HasNext;
    if i < |desc| && len + desc[i].len < ETH_PACKET_SIZE && n > 0 {
      InsideUnlessWraps(desc, desc[i].next, len + desc[i].len, n - 1);
    }
  }

  /** On any chain, cyclic ones included, whose own lengths are positive the walk ends, whatever the
      rest of the table holds, and within as many hops as bytes are left. */
  lemma {:induction false} PositiveLengthsHalt(desc: seq<Desc>, chain: set<nat>, i: nat, len: nat)
    requires i in chain && len < ETH_PACKET_SIZE
    requires forall k :: k in chain ==>
               && k < |desc| && 0 < desc[k].len < 0x1_0000_0000 - ETH_PACKET_SIZE
               && (HasNext(desc[k]) ==> desc[k].next as nat in chain)
    ensures Halts(desc, i, len, ETH_PACKET_SIZE - len)
    decreases ETH_PACKET_SIZE - len
  {
    hide HasNext;
    if len + desc[i].len < ETH_PACKET_SIZE && HasNext(desc[i]) {
      PositiveLengthsHalt(desc, chain, desc[i].next, len + desc[i].len);
      HaltsLater(desc, desc[i].next, len + desc[i].len,
                 ETH_PACKET_SIZE - (len + desc[i].len), ETH_PACKET_SIZE - len - 1);
    }
  }

  lemma {:induction false} HaltsLater(desc: seq<Desc>, i: nat, len: nat, n: nat, m: nat)
    requires Halts(desc, i, len, n) && n <= m
    ensures Halts(desc, i, len, m)
    decreases n
  {
    hide HasNext;
    if len + desc[i].len < ETH_PACKET_SIZE && HasNext(desc[i]) {
      HaltsLater(desc, desc[i].next, len + desc[i].len, n - 1, m - 1);
    }
  }

  // ---- one packet, from put to hand-over ----

  /** Of all packets put_vring accepts for a whole buffer those come out as a zero header and their
      payload whose header and payload together are below ETH_PACKET_SIZE; nothing comes out of
      the others. */
  lemma PacketRoundTrip(r: Shared, producer: Process, consumer: Process, a: nat, b: nat, payload: seq<byte>)
    requires a < |r.desc| && |payload| <= BUFFER_SIZE
    requires b + BUFFER_SIZE <= |r.mem| && b + HDR_LEN + |payload| <= |r.mem|
    requires BufferAt(producer, r.desc[a].addr, b, BUFFER_SIZE)
    requires BufferAt(consumer, r.desc[a].addr, b, BUFFER_SIZE)
    ensures Base(producer, r.desc[a].addr) == b
    ensures var r' := Fill(r, producer, a, payload);
            var packet := Packet(r'.desc, r'.mem, consumer, a);
            && (packet == ZeroHeader() + payload <==> HDR_LEN + |payload| < ETH_PACKET_SIZE)
            && (packet == ZeroHeader() + payload <==> |payload| < 1508)
            && (packet != ZeroHeader() + payload ==> packet == [])
            && Processable(r'.desc, r'.mem, consumer, a)
  {
    BufferBase(producer, r.desc[a].addr, b, BUFFER_SIZE);
    BufferBase(consumer, r.desc[a].addr, b, BUFFER_SIZE);
    var r', data := Fill(r, producer, a, payload), ZeroHeader() + payload;
    ReadBack(r.mem, b, data);
    if HDR_LEN + |payload| < ETH_PACKET_SIZE {
      GatherSingle(r'.desc, a);
      JoinedSingle(r'.desc, r'.mem, consumer, a);
    } else {
      GatherNone(r'.desc, a);
    }
  }

  lemma GatherNone(desc: seq<Desc>, d: nat)
    requires d < |desc| && ETH_PACKET_SIZE <= desc[d].len
    ensures Halts(desc, d, 0, 0) && Gathered(desc, d) == []
  {
    assert Halts(desc, d, 0, 0);
  }
}
