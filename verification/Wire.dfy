/** vhost_ioctl and the receiving side as bytes on a stream socket (common/common.c). */
module Wire {
  import opened Common
  import opened Server

  const VHOST_USER_HDR_SIZE: nat := 12
  const VHOST_USER_VERSION: nat := 1
  const VHOST_USER_REPLY_MASK: nat := 4

  // ---- little-endian numbers ----

  /** The `n` low bytes of `v`, least significant first. */
  function Bytes(v: nat, n: nat): (b: seq<byte>)
    ensures |b| == n
  {
    if n == 0 then [] else [v % 0x100] + Bytes(v / 0x100, n - 1)
  }

  function Number(b: seq<byte>): nat {
    if b == [] then 0 else b[0] + 0x100 * Number(b[1..])
  }

  function Power(n: nat): (p: nat)
    ensures p > 0
  {
    if n == 0 then 1 else 0x100 * Power(n - 1)
  }

  lemma {:induction false} NumberOfBytes(v: nat, n: nat)
    requires v < Power(n)
    ensures Number(Bytes(v, n)) == v
    decreases n
  {
    if n > 0 {
      NumberOfBytes(v / 0x100, n - 1);
      assert Bytes(v, n)[1..] == Bytes(v / 0x100, n - 1);
    }
  }

  lemma Powers()
    ensures Power(4) == 0x1_0000_0000 && Power(8) == 0x1_0000_0000_0000_0000
  {
    assert Power(2) == 0x1_0000;
    assert Power(6) == 0x1_0000_0000_0000;
  }

  /** The unsigned field of `n` bytes at offset `o`. */
  function Field(b: seq<byte>, o: nat, n: nat): nat {
    if o + n <= |b| then Number(b[o..o + n]) else 0
  }

  function U32At(b: seq<byte>, o: nat): u32 { Wrap32(Field(b, o, 4)) }
  function U64At(b: seq<byte>, o: nat): u64 { Wrap64(Field(b, o, 8)) }

  lemma ReadsU32(pre: seq<byte>, v: u32, post: seq<byte>, o: nat)
    requires o == |pre|
    ensures U32At(pre + Bytes(v, 4) + post, o) == v
  {
    Powers();
    NumberOfBytes(v, 4);
    assert (pre + Bytes(v, 4) + post)[o..o + 4] == Bytes(v, 4);
  }

  lemma ReadsU64(pre: seq<byte>, v: u64, post: seq<byte>, o: nat)
    requires o == |pre|
    ensures U64At(pre + Bytes(v, 8) + post, o) == v
  {
    Powers();
    NumberOfBytes(v, 8);
    assert (pre + Bytes(v, 8) + post)[o..o + 8] == Bytes(v, 8);
  }

  // ---- what vhost_ioctl sends ----

  function Code(req: Request): nat {
    match req
    case GetFeatures => 1
    case SetFeatures(_) => 2
    case SetOwner => 3
    case ResetOwner => 4
    case SetMemTable(_) => 5
    case SetLogBase(_) => 6
    case SetLogFd => 7
    case SetVringNum(_, _) => 8
    case SetVringAddr(_, _, _, _, _, _) => 9
    case SetVringBase(_, _) => 10
    case GetVringBase(_) => 11
    case SetVringKick(_) => 12
    case SetVringCall(_) => 13
    case SetVringErr(_) => 14
  }

  function RegionBytes(r: MemRegion): (b: seq<byte>)
    ensures |b| == 32
  {
    Bytes(r.guest, 8) + Bytes(r.size, 8) + Bytes(r.user, 8) + Bytes(r.offset, 8)
  }

  function RegionsBytes(rs: seq<MemRegion>): (b: seq<byte>)
    ensures |b| == 32 * |rs|
  {
    if rs == [] then [] else RegionBytes(rs[0]) + RegionsBytes(rs[1..])
  }

  /** The payload; GET_VRING_BASE is sent without one. */
  function Payload(req: Request): (b: seq<byte>)
    ensures req.SetMemTable? ==> |b| == 8 + 32 * |req.regions|
  {
    match req
    case SetFeatures(u) => Bytes(u, 8)
    case SetLogBase(u) => Bytes(u, 8)
    case SetMemTable(rs) => Bytes(|rs|, 4) + Bytes(0, 4) + RegionsBytes(rs)
    case SetVringNum(index, num) => Bytes(index, 4) + Bytes(num, 4)
    case SetVringBase(index, num) => Bytes(index, 4) + Bytes(num, 4)
    case SetVringAddr(index, flags, desc, used, avail, log) =>
      Bytes(index, 4) + Bytes(flags, 4) + Bytes(desc, 8) + Bytes(used, 8) + Bytes(avail, 8) + Bytes(log, 8)
    case SetVringKick(u) => Bytes(u, 8)
    case SetVringCall(u) => Bytes(u, 8)
    case SetVringErr(u) => Bytes(u, 8)
    case _ => []
  }

  /** Request, flags and payload size in front of a payload. */
  function Framed(code: nat, flags: nat, payload: seq<byte>): (b: seq<byte>)
    ensures |b| == VHOST_USER_HDR_SIZE + |payload|
  {
    Bytes(code, 4) + Bytes(flags, 4) + Bytes(|payload|, 4) + payload
  }

  function Sent(req: Request): seq<byte> {
    Framed(Code(req), VHOST_USER_VERSION, Payload(req))
  }

  // ---- what vhost_user_recv_fds takes off the stream ----

  datatype Frame = Frame(code: nat, flags: nat, payload: seq<byte>)

  /** Twelve bytes of header, then as many as its size field says; None when the stream is short. */
  function Receive(stream: seq<byte>): Option<(Frame, seq<byte>)> {
    if |stream| < VHOST_USER_HDR_SIZE then None
    else
      var size := U32At(stream, 8);
      if |stream| < VHOST_USER_HDR_SIZE + size then None
      else Some((Frame(U32At(stream, 0), U32At(stream, 4), stream[VHOST_USER_HDR_SIZE..VHOST_USER_HDR_SIZE + size]),
                 stream[VHOST_USER_HDR_SIZE + size..]))
  }

  function ReadRegions(b: seq<byte>, o: nat, n: nat): (rs: seq<MemRegion>)
    ensures |rs| == n
    decreases n
  {
    if n == 0 then []
    else [MemRegion(U64At(b, o), U64At(b, o + 8), U64At(b, o + 16), U64At(b, o + 24))] + ReadRegions(b, o + 32, n - 1)
  }

  /** The fields a handler finds in the union, by request code; `index` is what GET_VRING_BASE
      finds there, its payload not having been sent. */
  function Parse(f: Frame, index: u32): Option<Request> {
    match f.code
    case 1 => Some(GetFeatures)
    case 2 => Some(SetFeatures(U64At(f.payload, 0)))
    case 3 => Some(SetOwner)
    case 4 => Some(ResetOwner)
    case 5 => Some(SetMemTable(ReadRegions(f.payload, 8, U32At(f.payload, 0))))
    case 6 => Some(SetLogBase(U64At(f.payload, 0)))
    case 7 => Some(SetLogFd)
    case 8 => Some(SetVringNum(U32At(f.payload, 0), U32At(f.payload, 4)))
    case 9 => Some(SetVringAddr(U32At(f.payload, 0), U32At(f.payload, 4), U64At(f.payload, 8),
                                U64At(f.payload, 16), U64At(f.payload, 24), U64At(f.payload, 32)))
    case 10 => Some(SetVringBase(U32At(f.payload, 0), U32At(f.payload, 4)))
    case 11 => Some(GetVringBase(index))
    case 12 => Some(SetVringKick(U64At(f.payload, 0)))
    case 13 => Some(SetVringCall(U64At(f.payload, 0)))
    case 14 => Some(SetVringErr(U64At(f.payload, 0)))
    case _ => None
  }

  /** Whatever follows it on the stream, one framed message is received as it was sent and leaves
      the stream at the start of what follows. */
  lemma FrameRoundTrip(code: u32, flags: u32, payload: seq<byte>, rest: seq<byte>)
    requires |payload| < 0x1_0000_0000
    ensures Receive(Framed(code, flags, payload) + rest) == Some((Frame(code, flags, payload), rest))
  {
    hide U32At, Bytes;
    var stream := Framed(code, flags, payload) + rest;
    var c, g, z := Bytes(code, 4), Bytes(flags, 4), Bytes(|payload|, 4);
    assert stream == [] + c + (g + z + payload + rest);
    ReadsU32([], code, g + z + payload + rest, 0);
    assert stream == c + g + (z + payload + rest);
    ReadsU32(c, flags, z + payload + rest, 4);
    assert stream == (c + g) + z + (payload + rest);
    ReadsU32(c + g, |payload|, payload + rest, 8);
  }

  lemma RegionFields(pre: seq<byte>, r: MemRegion, tail: seq<byte>)
    ensures var b, o := pre + RegionBytes(r) + tail, |pre|;
            MemRegion(U64At(b, o), U64At(b, o + 8), U64At(b, o + 16), U64At(b, o + 24)) == r
  {
    hide U64At, Bytes;
    var b := pre + RegionBytes(r) + tail;
    var g, z, u, f := Bytes(r.guest, 8), Bytes(r.size, 8), Bytes(r.user, 8), Bytes(r.offset, 8);
    assert b == pre + g + (z + u + f + tail);
    ReadsU64(pre, r.guest, z + u + f + tail, |pre|);
    assert b == (pre + g) + z + (u + f + tail);
    ReadsU64(pre + g, r.size, u + f + tail, |pre| + 8);
    assert b == (pre + g + z) + u + (f + tail);
    ReadsU64(pre + g + z, r.user, f + tail, |pre| + 16);
    assert b == (pre + g + z + u) + f + tail;
    ReadsU64(pre + g + z + u, r.offset, tail, |pre| + 24);
  }

  lemma {:induction false} RegionsRoundTrip(pre: seq<byte>, rs: seq<MemRegion>)
    ensures ReadRegions(pre + RegionsBytes(rs), |pre|, |rs|) == rs
    decreases |rs|
  {
    hide U64At, RegionBytes;
    if rs != [] {
      var tail := RegionsBytes(rs[1..]);
      assert pre + RegionsBytes(rs) == pre + RegionBytes(rs[0]) + tail;
      RegionFields(pre, rs[0], tail);
      RegionsRoundTrip(pre + RegionBytes(rs[0]), rs[1..]);
    }
  }

  lemma TwoU32(a: u32, b: u32)
    ensures U32At(Bytes(a, 4) + Bytes(b, 4), 0) == a && U32At(Bytes(a, 4) + Bytes(b, 4), 4) == b
  {
    ReadsU32([], a, Bytes(b, 4), 0);
    assert [] + Bytes(a, 4) + Bytes(b, 4) == Bytes(a, 4) + Bytes(b, 4);
    ReadsU32(Bytes(a, 4), b, [], 4);
    assert Bytes(a, 4) + Bytes(b, 4) + [] == Bytes(a, 4) + Bytes(b, 4);
  }

  lemma OneU64(u: u64)
    ensures U64At(Bytes(u, 8), 0) == u
  {
    ReadsU64([], u, [], 0);
    assert [] + Bytes(u, 8) + [] == Bytes(u, 8);
  }

  lemma AddrFields(index: u32, flags: u32, desc: u64, used: u64, avail: u64, log: u64)
    ensures var b := Payload(SetVringAddr(index, flags, desc, used, avail, log));
            && U32At(b, 0) == index && U32At(b, 4) == flags && U64At(b, 8) == desc
            && U64At(b, 16) == used && U64At(b, 24) == avail && U64At(b, 32) == log
  {
    hide U32At, U64At;
    var b := Payload(SetVringAddr(index, flags, desc, used, avail, log));
    var i, f, d := Bytes(index, 4), Bytes(flags, 4), Bytes(desc, 8);
    var u, a, l := Bytes(used, 8), Bytes(avail, 8), Bytes(log, 8);
    assert b == [] + i + (f + d + u + a + l);
    ReadsU32([], index, f + d + u + a + l, 0);
    assert b == i + f + (d + u + a + l);
    ReadsU32(i, flags, d + u + a + l, 4);
    assert b == (i + f) + d + (u + a + l);
    ReadsU64(i + f, desc, u + a + l, 8);
    assert b == (i + f + d) + u + (a + l);
    ReadsU64(i + f + d, used, a + l, 16);
    assert b == (i + f + d + u) + a + l;
    ReadsU64(i + f + d + u, avail, l, 24);
    assert b == (i + f + d + u + a) + l + [];
    ReadsU64(i + f + d + u + a, log, [], 32);
  }

  lemma TableFields(rs: seq<MemRegion>)
    requires |rs| <= VHOST_MEMORY_MAX_NREGIONS
    ensures var b := Payload(SetMemTable(rs));
            U32At(b, 0) == |rs| && ReadRegions(b, 8, |rs|) == rs
  {
    hide U32At, U64At, Bytes, RegionsBytes, ReadRegions;
    var b, n, z := Payload(SetMemTable(rs)), Bytes(|rs|, 4), Bytes(0, 4);
    assert b == n + z + RegionsBytes(rs);
    assert b == [] + n + (z + RegionsBytes(rs));
    ReadsU32([], |rs|, z + RegionsBytes(rs), 0);
    RegionsRoundTrip(n + z, rs);
  }

  predicate Supported(req: Request) {
    req.SetMemTable? ==> |req.regions| <= VHOST_MEMORY_MAX_NREGIONS
  }

  /** The fields of every request survive; only the index of GET_VRING_BASE is not sent. */
  lemma ParseRoundTrip(req: Request, index: u32)
    requires Supported(req) && (req.GetVringBase? ==> req.index == index)
    ensures Parse(Frame(Code(req), VHOST_USER_VERSION, Payload(req)), index) == Some(req)
  {
    hide U32At, U64At, Bytes, ReadRegions;
    match req
    case SetMemTable(rs) => TableFields(rs);
    case SetVringNum(i, num) => TwoU32(i, num);
    case SetVringBase(i, num) => TwoU32(i, num);
    case SetVringAddr(i, flags, desc, used, avail, log) => AddrFields(i, flags, desc, used, avail, log);
    case SetFeatures(u) => OneU64(u);
    case SetLogBase(u) => OneU64(u);
    case SetVringKick(u) => OneU64(u);
    case SetVringCall(u) => OneU64(u);
    case SetVringErr(u) => OneU64(u);
    case _ =>
  }

  // ---- a whole conversation ----

  function SentAll(reqs: seq<Request>): seq<byte> {
    if reqs == [] then [] else Sent(reqs[0]) + SentAll(reqs[1..])
  }

  /** Receiving and parsing until the stream is used up. */
  function ReceiveAll(stream: seq<byte>, index: u32): Option<seq<Request>>
    decreases |stream|
  {
    if stream == [] then Some([])
    else
      match Receive(stream)
      case None => None
      case Some((f, rest)) =>
        match (Parse(f, index), ReceiveAll(rest, index))
        case (Some(req), Some(more)) => Some([req] + more)
        case _ => None
  }

  lemma PayloadSmall(req: Request)
    requires Supported(req)
    ensures |Payload(req)| <= 264
  {
  }

  /** Any sequence of supported requests is received as it was sent, message by message, to the
      end of the stream. */
  lemma {:induction false} ConversationRoundTrip(reqs: seq<Request>, index: u32)
    requires forall k :: 0 <= k < |reqs| ==>
               Supported(reqs[k]) && (reqs[k].GetVringBase? ==> reqs[k].index == index)
    ensures ReceiveAll(SentAll(reqs), index) == Some(reqs)
    decreases |reqs|
  {
    hide Receive, Parse, Payload, Code, Framed;
    if reqs != [] {
      var req, rest := reqs[0], SentAll(reqs[1..]);
      PayloadSmall(req);
      CodeSmall(req);
      FrameRoundTrip(Code(req), VHOST_USER_VERSION, Payload(req), rest);
      ParseRoundTrip(req, index);
      ConversationRoundTrip(reqs[1..], index);
      var stream := SentAll(reqs);
      assert stream == Framed(Code(req), VHOST_USER_VERSION, Payload(req)) + rest;
      ReceiveOneMore(stream, Frame(Code(req), VHOST_USER_VERSION, Payload(req)), rest, index, req, reqs[1..]);
      assert [req] + reqs[1..] == reqs;
    }
  }

  lemma ReceiveOneMore(stream: seq<byte>, f: Frame, rest: seq<byte>, index: u32, req: Request, more: seq<Request>)
    requires stream != [] && Receive(stream) == Some((f, rest))
    requires Parse(f, index) == Some(req) && ReceiveAll(rest, index) == Some(more)
    ensures ReceiveAll(stream, index) == Some([req] + more)
  {
    hide Parse;
  }

  lemma CodeSmall(req: Request)
    ensures 0 < Code(req) < 15
  {
  }

  // ---- replies ----

  /** vhost_ioctl waits for an answer to these. */
  predicate Waits(req: Request) {
    req.GetFeatures? || req.GetVringBase?
  }

  /** receive_sock_server: version 1 and the reply bit are put into the flags of the request. */
  function ReplyFlags(flags: u32): u32 {
    var clean := flags - flags % 4 + VHOST_USER_VERSION;
    if (flags / 4) % 2 == 1 then clean else Wrap32(clean + VHOST_USER_REPLY_MASK)
  }

  /** The version is 1, the reply bit is set, and the other bits stay. */
  lemma ReplyFlagsBits(flags: u32)
    ensures var r := ReplyFlags(flags);
            r % 4 == 1 && (r / 4) % 2 == 1 && r / 8 == flags / 8
  {
    var q, b, v := flags / 8, (flags / 4) % 2, flags % 4;
    assert flags == 8 * q + 4 * b + v;
    assert flags - flags % 4 + VHOST_USER_VERSION == 8 * q + 4 * b + 1;
    assert ReplyFlags(flags) == 8 * q + 5;
  }

  function ReplyPayload(reply: Reply): seq<byte> {
    match reply
    case Features(u) => Bytes(u, 8)
    case VringBase(index, num) => Bytes(index, 4) + Bytes(num, 4)
  }

  function ReplyBytes(req: Request, reply: Reply): seq<byte> {
    Framed(Code(req), ReplyFlags(VHOST_USER_VERSION), ReplyPayload(reply))
  }

  /** The descriptors vhost_ioctl attaches to a request; `fd` is that of its argument. */
  function FdsOf(req: Request, shmFds: seq<int>, fd: int): seq<int>
    requires req.SetMemTable? ==> |req.regions| <= |shmFds|
  {
    match req
    case SetMemTable(rs) => shmFds[..|rs|]
    case SetLogFd => [fd]
    case SetVringKick(_) => if fd > 0 then [fd] else []
    case SetVringCall(_) => if fd > 0 then [fd] else []
    case SetVringErr(_) => if fd > 0 then [fd] else []
    case _ => []
  }

  /** What the client makes of the bytes of an answer: the code it asked for, the version it asserts
      with the reply bit, the fields of the answer, and nothing left on the stream. */
  predicate Understood(req: Request, reply: Reply, bytes: seq<byte>) {
    var got := Receive(bytes);
    && got.Some? && got.value.1 == []
    && got.value.0.code == Code(req)
    && got.value.0.flags % 4 == VHOST_USER_VERSION && (got.value.0.flags / 4) % 2 == 1
    && match reply
       case Features(u) => req.GetFeatures? && U64At(got.value.0.payload, 0) == u
       case VringBase(index, num) =>
         && req == GetVringBase(index)
         && U32At(got.value.0.payload, 0) == index && U32At(got.value.0.payload, 4) == num
  }

  lemma FeaturesUnderstood(u: u64)
    ensures Understood(GetFeatures, Features(u), ReplyBytes(GetFeatures, Features(u)))
  {
    hide U64At, Receive, Framed, Bytes;
    OneU64(u);
    FrameRoundTrip(Code(GetFeatures), ReplyFlags(VHOST_USER_VERSION), Bytes(u, 8), []);
    assert ReplyBytes(GetFeatures, Features(u)) + [] == ReplyBytes(GetFeatures, Features(u));
  }

  lemma BaseUnderstood(index: u32, num: u32)
    ensures var req, reply := GetVringBase(index), VringBase(index, num);
            Understood(req, reply, ReplyBytes(req, reply))
  {
    hide U32At, Receive, Framed, Bytes;
    var req, reply := GetVringBase(index), VringBase(index, num);
    TwoU32(index, num);
    FrameRoundTrip(Code(req), ReplyFlags(VHOST_USER_VERSION), Bytes(index, 4) + Bytes(num, 4), []);
    assert ReplyBytes(req, reply) + [] == ReplyBytes(req, reply);
  }

  /** The server answers exactly the requests the client waits for, and the client understands. */
  lemma RepliesMatch(env: Env, s: ServerState, req: Request, fds: seq<int>)
    requires Acceptable(env, s, req, fds)
    ensures Handle(env, s, req, fds).1.Some? <==> Waits(req)
    ensures Waits(req) ==>
              var reply := Handle(env, s, req, fds).1.value;
              Understood(req, reply, ReplyBytes(req, reply))
  {
    hide Understood, ReplyBytes;
    if req.GetFeatures? {
      FeaturesUnderstood(0);
    } else if req.GetVringBase? {
      BaseUnderstood(req.index, s.vrings[req.index].lastAvail);
    }
  }
}
