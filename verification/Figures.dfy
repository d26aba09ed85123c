/** The numbers of the headers, and the bytes on the socket, in figures. */
module Figures {
  import opened Common
  import opened Ring
  import opened Server
  import opened Handshake
  import opened Layout
  import opened Wire

  /** include/vring.h, include/vhost.h, include/common.h and include/vhost_user.h. */
  lemma Headers()
    ensures VHOST_VRING_SIZE == 32768 && VRING_IDX_NONE == 65535
    ensures ETH_PACKET_SIZE == 1518 && HDR_LEN == 10 && BUFFER_SIZE == 1528
    ensures DESC_OFFSET == 8 && AVAIL_OFFSET == 524296 && USED_OFFSET == 593920
    ensures VRING_BYTES == 860160 && VHOST_CLIENT_PAGE_SIZE == 51380224
    ensures RX == 0 && TX == 1 && VHOST_CLIENT_VRING_NUM == 2 && VHOST_MEMORY_MAX_NREGIONS == 8
    ensures VHOST_USER_HDR_SIZE == 12 && VHOST_USER_VERSION == 1
  {
  }

  /** The chain flag is bit 0 and the write flag bit 1. */
  lemma DescFlags(d: Desc)
    ensures HasNext(d) <==> d.flags & 1 == 1
    ensures VIRTIO_DESC_F_WRITE == 2
  {
  }

  // ---- one message on the socket ----

  /** Four and eight bytes, the least significant first. */
  lemma LittleEndian(v: u32, w: u64)
    ensures Bytes(v, 4) == [v % 256, v / 256 % 256, v / 65536 % 256, v / 16777216 % 256]
    ensures Bytes(w, 8) == Bytes(w % 0x1_0000_0000, 4) + Bytes(w / 0x1_0000_0000, 4)
  {
    FourBytes(v);
    FourBytes(w % 0x1_0000_0000);
    FourBytes(w / 0x1_0000_0000);
    EightBytes(w);
  }

  lemma FourBytes(v: nat)
    requires v < 0x1_0000_0000
    ensures Bytes(v, 4) == [v % 256, v / 256 % 256, v / 65536 % 256, v / 16777216 % 256]
  {
    BytesStep(v, 4);
    BytesStep(v / 256, 3);
    BytesStep(v / 256 / 256, 2);
    BytesStep(v / 256 / 256 / 256, 1);
    assert v / 256 / 256 == v / 65536 && v / 256 / 256 / 256 == v / 16777216;
  }

  lemma BytesStep(v: nat, n: nat)
    requires n > 0
    ensures Bytes(v, n) == [v % 256] + Bytes(v / 256, n - 1)
    ensures Bytes(v, 0) == []
  {
  }

  lemma EightBytes(w: u64)
    ensures Bytes(w, 8) == Bytes(w % 0x1_0000_0000, 4) + Bytes(w / 0x1_0000_0000, 4)
  {
    hide Bytes;
    var a, b := w % 0x1_0000_0000, w / 0x1_0000_0000;
    ByteByByte(w, 8);
    ByteByByte(a, 4);
    LowBytes(a, b);
  }

  /** The four low bytes of b * 2^32 + a are those of a, and what is left is b. */
  lemma LowBytes(a: nat, b: nat)
    requires a < 0x1_0000_0000
    ensures Bytes(a + 0x1_0000_0000 * b, 8) == Bytes(a, 4) + Bytes(b, 4)
  {
    hide Bytes;
    var w := a + 0x1_0000_0000 * b;
    BytesStep(w, 8);
    BytesStep(a, 4);
    var w1, a1 := w / 256, a / 256;
    assert w1 == a1 + 0x100_0000 * b && w % 256 == a % 256;
    BytesStep(w1, 7);
    BytesStep(a1, 3);
    var w2, a2 := w1 / 256, a1 / 256;
    assert w2 == a2 + 0x1_0000 * b && w1 % 256 == a1 % 256;
    BytesStep(w2, 6);
    BytesStep(a2, 2);
    var w3, a3 := w2 / 256, a2 / 256;
    assert w3 == a3 + 0x100 * b && w2 % 256 == a2 % 256;
    BytesStep(w3, 5);
    BytesStep(a3, 1);
    assert a3 < 256 && w3 / 256 == b && w3 % 256 == a3;
    BytesStep(a3 / 256, 1);
  }

  lemma ByteByByte(v: nat, n: nat)
    ensures |Bytes(v, n)| == n
  {
  }

  /** Request number, flags and size of the payload in front of every message; then its fields. */
  lemma MessageImage(req: Request)
    ensures Sent(req) ==
              match req
              case GetFeatures => Bytes(1, 4) + Bytes(1, 4) + Bytes(0, 4)
              case SetFeatures(u) => Bytes(2, 4) + Bytes(1, 4) + Bytes(8, 4) + Bytes(u, 8)
              case SetOwner => Bytes(3, 4) + Bytes(1, 4) + Bytes(0, 4)
              case ResetOwner => Bytes(4, 4) + Bytes(1, 4) + Bytes(0, 4)
              case SetMemTable(rs) =>
                Bytes(5, 4) + Bytes(1, 4) + Bytes(8 + 32 * |rs|, 4) + (Bytes(|rs|, 4) + Bytes(0, 4) + RegionsBytes(rs))
              case SetLogBase(u) => Bytes(6, 4) + Bytes(1, 4) + Bytes(8, 4) + Bytes(u, 8)
              case SetLogFd => Bytes(7, 4) + Bytes(1, 4) + Bytes(0, 4)
              case SetVringNum(i, n) => Bytes(8, 4) + Bytes(1, 4) + Bytes(8, 4) + (Bytes(i, 4) + Bytes(n, 4))
              case SetVringAddr(i, flags, desc, used, avail, log) =>
                Bytes(9, 4) + Bytes(1, 4) + Bytes(40, 4)
                + (Bytes(i, 4) + Bytes(flags, 4) + Bytes(desc, 8) + Bytes(used, 8) + Bytes(avail, 8) + Bytes(log, 8))
              case SetVringBase(i, n) => Bytes(10, 4) + Bytes(1, 4) + Bytes(8, 4) + (Bytes(i, 4) + Bytes(n, 4))
              case GetVringBase(_) => Bytes(11, 4) + Bytes(1, 4) + Bytes(0, 4)
              case SetVringKick(u) => Bytes(12, 4) + Bytes(1, 4) + Bytes(8, 4) + Bytes(u, 8)
              case SetVringCall(u) => Bytes(13, 4) + Bytes(1, 4) + Bytes(8, 4) + Bytes(u, 8)
              case SetVringErr(u) => Bytes(14, 4) + Bytes(1, 4) + Bytes(8, 4) + Bytes(u, 8)
  {
    hide Bytes;
  }

  /** A region: guest address, size, user address, offset, eight bytes each. */
  lemma RegionImage(r: MemRegion, rest: seq<MemRegion>)
    ensures RegionsBytes([r] + rest)
            == Bytes(r.guest, 8) + Bytes(r.size, 8) + Bytes(r.user, 8) + Bytes(r.offset, 8) + RegionsBytes(rest)
  {
    hide Bytes;
    assert ([r] + rest)[1..] == rest;
  }

  /** An answer has the flags 5: version 1 and the reply bit. */
  lemma ReplyImage(u: u64, index: u32, num: u32)
    ensures ReplyBytes(GetFeatures, Features(u)) == Bytes(1, 4) + Bytes(5, 4) + Bytes(8, 4) + Bytes(u, 8)
    ensures ReplyBytes(GetVringBase(index), VringBase(index, num))
            == Bytes(11, 4) + Bytes(5, 4) + Bytes(8, 4) + (Bytes(index, 4) + Bytes(num, 4))
  {
    AnswerFlags();
    hide Bytes, ReplyFlags;
  }

  lemma AnswerFlags()
    ensures ReplyFlags(VHOST_USER_VERSION) == 5
  {
  }

  // ---- the descriptors that go along ----

  /** A kick or call that the client sends without the no-descriptor bit is acceptable to the server
      exactly when it has a descriptor above 0 to attach. */
  lemma KickNeedsFd(env: Env, s: ServerState, i: nat, shmFds: seq<int>, fd: int)
    requires WellFormed(s) && i < 2
    ensures Acceptable(env, s, SetVringKick(i), FdsOf(SetVringKick(i), shmFds, fd)) <==> fd > 0
    ensures Acceptable(env, s, SetVringCall(i), FdsOf(SetVringCall(i), shmFds, fd)) <==> fd > 0
    ensures FdsOf(SetVringErr(i), shmFds, fd) == FdsOf(SetVringCall(i), shmFds, fd)
    ensures FdsOf(SetVringErr(i), shmFds, fd) == FdsOf(SetVringKick(i), shmFds, fd)
    ensures fd > 0 ==> FdsOf(SetVringErr(i), shmFds, fd) == [fd]
    ensures FdsOf(SetLogFd, shmFds, fd) == [fd]
  {
  }

  // ---- the order of the set-up ----

  function Numbers(msgs: seq<(Request, seq<int>)>): seq<nat> {
    if msgs == [] then [] else [Code(msgs[0].0)] + Numbers(msgs[1..])
  }

  lemma {:induction false} NumbersAppend(a: seq<(Request, seq<int>)>, b: seq<(Request, seq<int>)>)
    ensures Numbers(a + b) == Numbers(a) + Numbers(b)
    decreases |a|
  {
    hide Code;
    if a == [] {
      assert a + b == b;
    } else {
      assert (a + b)[1..] == a[1..] + b;
      NumbersAppend(a[1..], b);
    }
  }

  /** init_vhost_client sends SET_OWNER, GET_FEATURES, SET_MEM_TABLE, and for each vring its size, base,
      kick, call and addresses. */
  lemma SetupOrder(c: ClientSide, env: Env)
    requires Handshake.Ready(c, env)
    ensures Numbers(Messages(c, env)) == [3, 1, 5] + [8, 10, 12, 13, 9] + [8, 10, 12, 13, 9]
  {
    hide MemoryOf;
    var m: (Request, seq<int>) := (SetMemTable(MemoryOf(c, VHOST_CLIENT_VRING_NUM)), c.shmFds);
    var opening := [(SetOwner, []), (GetFeatures, []), m];
    NumbersAppend(opening, SetHostVring(c, env, RX) + SetHostVring(c, env, TX));
    NumbersAppend(SetHostVring(c, env, RX), SetHostVring(c, env, TX));
    assert opening[1..] == [(GetFeatures, []), m] && opening[1..][1..] == [m] && [m][1..] == [];
    assert Numbers([m]) == [5] + Numbers([]);
    assert Numbers([(GetFeatures, []), m]) == [1, 5];
    assert Numbers(opening) == [3, 1, 5];
    VringOrder(c, env, RX);
    VringOrder(c, env, TX);
  }

  lemma VringOrder(c: ClientSide, env: Env, i: nat)
    requires Handshake.Ready(c, env) && i < VHOST_CLIENT_VRING_NUM
    ensures Numbers(SetHostVring(c, env, i)) == [8, 10, 12, 13, 9]
  {
    var ms := SetHostVring(c, env, i);
    hide SetHostVring;
    assert ms[1..][0] == ms[1] && ms[1..][1..] == ms[2..] && ms[2..][0] == ms[2] && ms[2..][1..] == ms[3..];
    assert ms[3..][0] == ms[3] && ms[3..][1..] == ms[4..] && ms[4..][0] == ms[4] && ms[4..][1..] == [];
    assert Numbers(ms[4..]) == [9];
    assert Numbers(ms[3..]) == [13, 9];
    assert Numbers(ms[2..]) == [12, 13, 9];
    assert Numbers(ms[1..]) == [10, 12, 13, 9];
  }

  /** What the messages of vring `i` say. */
  lemma VringMessages(c: ClientSide, env: Env, i: nat)
    requires Handshake.Ready(c, env) && i < 2
    ensures var base, ms := c.views[i].base, SetHostVring(c, env, i);
            && ms[0].0 == SetVringNum(i, 32768) && ms[1].0 == SetVringBase(i, 0)
            && ms[2] == (SetVringKick(i), [c.kickfds[i]]) && ms[3] == (SetVringCall(i), [c.callfds[i]])
            && ms[4].0 == SetVringAddr(i, 0, base + 8, base + 593920, base + 524296, 0)
  {
  }
}
