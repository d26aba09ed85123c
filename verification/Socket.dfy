/** Sending and receiving on the socket as the source does it (common/common.c, common/unsock.c). */
module Socket {
  import opened Common
  import opened Server
  import opened Wire
  import opened FdList

  /** What can be wrong with a recvmsg: it fails, or control data do not fit (MSG_CTRUNC). */
  datatype Trouble = Fine | Failed | Truncated

  /** One direction of a stream socket: bytes under way, for each message not yet received the
      descriptors attached to it, and whether the sender has closed its end. */
  class Stream {
    var bytes: seq<byte>
    var ancillary: seq<seq<int>>
    var closed: bool

    constructor ()
      ensures bytes == [] && ancillary == [] && !closed
    {
      bytes, ancillary, closed := [], [], false;
    }

    /** vhost_user_send_fds. */
    method SendFds(msg: seq<byte>, fds: seq<int>)
      modifies this`bytes, this`ancillary
      ensures bytes == old(bytes) + msg && ancillary == old(ancillary) + [fds]
    {
      bytes := bytes + msg;
      ancillary := ancillary + [fds];
    }

    /** A call of recvmsg that does not block: there is a whole message, or the end is reached. */
    predicate Ready(trouble: Trouble)
      reads this
    {
      match trouble
      case Failed => true
      case Truncated => VHOST_USER_HDR_SIZE <= |bytes| && ancillary != []
      case Fine => if bytes == [] then closed else Receive(bytes).Some? && ancillary != []
    }

    /** vhost_user_recv_fds: the header first, then as many bytes as it announces. Zero at the end of
        the stream, negative on an error; truncated control data have cost the header. */
    method RecvFds(trouble: Trouble) returns (ret: int, f: Frame, fds: seq<int>)
      requires Ready(trouble)
      modifies this`bytes, this`ancillary
      ensures trouble.Failed? ==> ret == -1 && bytes == old(bytes) && ancillary == old(ancillary)
      ensures trouble.Truncated? ==>
                ret == -1 && bytes == old(bytes)[VHOST_USER_HDR_SIZE..] && ancillary == old(ancillary)[1..]
      ensures trouble.Fine? && old(bytes) == [] ==> ret == 0 && bytes == [] && ancillary == old(ancillary)
      ensures trouble.Fine? && old(bytes) != [] ==>
                && ret == VHOST_USER_HDR_SIZE
                && Receive(old(bytes)) == Some((f, bytes))
                && old(ancillary) == [fds] + ancillary
    {
      hide U32At;
      ret, f, fds := -1, Frame(0, 0, []), [];
      if trouble.Fine? && bytes == [] {
        ret := 0;
      } else if !trouble.Failed? {
        var header := bytes[..VHOST_USER_HDR_SIZE];
        HeaderFields(bytes);
        bytes := bytes[VHOST_USER_HDR_SIZE..];
        fds := ancillary[0];
        ancillary := ancillary[1..];
        if trouble.Fine? {
          var size := U32At(header, 8);
          assert bytes[..size] == old(bytes)[VHOST_USER_HDR_SIZE..VHOST_USER_HDR_SIZE + size];
          assert bytes[size..] == old(bytes)[VHOST_USER_HDR_SIZE + size..];
          f := Frame(U32At(header, 0), U32At(header, 4), bytes[..size]);
          bytes := bytes[size..];
          ret := VHOST_USER_HDR_SIZE;
        }
      }
    }
  }

  lemma HeaderFields(stream: seq<byte>)
    requires VHOST_USER_HDR_SIZE <= |stream|
    ensures var header := stream[..VHOST_USER_HDR_SIZE];
            && U32At(header, 0) == U32At(stream, 0) && U32At(header, 4) == U32At(stream, 4)
            && U32At(header, 8) == U32At(stream, 8)
  {
    var header := stream[..VHOST_USER_HDR_SIZE];
    assert header[0..4] == stream[0..4] && header[4..8] == stream[4..8] && header[8..12] == stream[8..12];
  }

  /** vhost_ioctl up to the send: the size is added up, and the descriptors of a memory table are
      collected, region by region. */
  method VhostIoctl(out: Stream, req: Request, shmFds: seq<int>, fd: int)
    requires Supported(req) && (req.SetMemTable? ==> |req.regions| <= |shmFds|)
    modifies out`bytes, out`ancillary
    ensures out.bytes == old(out.bytes) + Sent(req)
    ensures out.ancillary == old(out.ancillary) + [FdsOf(req, shmFds, fd)]
  {
    hide Bytes, RegionsBytes;
    var size, fds: seq<int> := 0, [];
    match req {
      case GetFeatures =>
      case GetVringBase(_) =>
      case SetFeatures(_) => size := 8;
      case SetLogBase(_) => size := 8;
      case SetOwner =>
      case ResetOwner =>
      case SetMemTable(rs) =>
        size := 4;
        size := size + 4;
        while |fds| < |rs|
          invariant |fds| <= |rs| && fds == shmFds[..|fds|] && size == 8 + 32 * |fds|
        {
          fds := fds + [shmFds[|fds|]];
          size := size + 32;
        }
      case SetLogFd => fds := [fd];
      case SetVringNum(_, _) => size := 8;
      case SetVringBase(_, _) => size := 8;
      case SetVringAddr(_, _, _, _, _, _) => size := 40;
      case SetVringKick(_) =>
        size := 8;
        if fd > 0 { fds := [fd]; }
      case SetVringCall(_) =>
        size := 8;
        if fd > 0 { fds := [fd]; }
      case SetVringErr(_) =>
        size := 8;
        if fd > 0 { fds := [fd]; }
    }
    PayloadSize(req);
    out.SendFds(Bytes(Code(req), 4) + Bytes(VHOST_USER_VERSION, 4) + Bytes(size, 4) + Payload(req), fds);
  }

  lemma PayloadSize(req: Request)
    ensures match req
            case SetMemTable(rs) => |Payload(req)| == 8 + 32 * |rs|
            case SetVringAddr(_, _, _, _, _, _) => |Payload(req)| == 40
            case GetFeatures => |Payload(req)| == 0
            case GetVringBase(_) => |Payload(req)| == 0
            case SetOwner => |Payload(req)| == 0
            case ResetOwner => |Payload(req)| == 0
            case SetLogFd => |Payload(req)| == 0
            case _ => |Payload(req)| == 8
  {
  }

  /** receive_sock_server with in_msg_server as its handler. An error is reported and nothing is
      handled; at the end of the stream the socket is no longer listened on; otherwise the request
      received is the one that was sent, it is handled, and the answer, if the handler asks for
      one, is sent with the version and the reply bit in its flags, unless the send fails, which is
      reported. */
  method ReceiveSockServer(inp: Stream, out: Stream, server: VhostServer, table: FdTable, sock: int, env: Env,
                           index: u32, trouble: Trouble, sends: bool, ghost req: Request, ghost rest: seq<byte>)
    returns (status: int)
    requires inp != out && server.Valid() && table.Valid() && inp.Ready(trouble)
    requires trouble.Fine? && inp.bytes != [] ==>
               && Supported(req) && (req.GetVringBase? ==> req.index == index)
               && inp.bytes == Wire.Sent(req) + rest
               && Acceptable(env, server.Val(), req, inp.ancillary[0])
    modifies inp`bytes, inp`ancillary, out`bytes, out`ancillary, server, server.regions, server.vring, table.readFds
    ensures server.Valid()
    ensures trouble.Fine? && old(inp.bytes) == [] ==> status == 0
    ensures !trouble.Fine? ==> status == -1
    ensures !trouble.Fine? || old(inp.bytes) == [] ==>
              server.Val() == old(server.Val()) && out.bytes == old(out.bytes) && out.ancillary == old(out.ancillary)
    ensures table.readFds[..] == if trouble.Fine? && old(inp.bytes) == []
                                 then Deleted(old(table.readFds[..]), sock).1 else old(table.readFds[..])
    ensures trouble.Fine? && old(inp.bytes) != [] ==>
              && inp.bytes == rest && inp.ancillary == old(inp.ancillary)[1..]
              && var (s, reply) := Handle(env, old(server.Val()), req, old(inp.ancillary)[0]);
                 && server.Val() == s
                 && status == (if reply.Some? && !sends then -1 else 0)
                 && out.bytes == old(out.bytes) + (if reply.Some? && sends then ReplyBytes(req, reply.value) else [])
                 && out.ancillary == old(out.ancillary) + (if reply.Some? && sends then [[]] else [])
  {
    hide Receive, Parse, Acceptable, Handle, Framed, Payload, ReplyPayload, ReplyFlags, Deleted;
    if trouble.Fine? && inp.bytes != [] {
      CodeSmall(req);
      PayloadSmall(req);
      FrameRoundTrip(Code(req), VHOST_USER_VERSION, Payload(req), rest);
      ParseRoundTrip(req, index);
    }
    var ret, f, fds := inp.RecvFds(trouble);
    if ret < 0 {
      return -1;
    }
    if ret == 0 {
      var _ := table.DelFd(true, sock);
      return 0;
    }
    var got := Parse(f, index).value;
    var r, reply := server.InMsg(env, got, fds);
    status := 0;
    if r > 0 {
      if sends {
        out.SendFds(Framed(f.code, ReplyFlags(f.flags), ReplyPayload(reply.value)), []);
      } else {
        status := -1;
      }
    }
  }

  /** The rest of vhost_ioctl for a request that needs a reply: what it asserts of the answer holds,
      and the answer is the one the server gave. */
  method TakeReply(inp: Stream, req: Request, ghost reply: Reply) returns (got: Reply)
    requires Waits(req) && Understood(req, reply, ReplyBytes(req, reply))
    requires inp.bytes == ReplyBytes(req, reply) && inp.ancillary != []
    modifies inp`bytes, inp`ancillary
    ensures got == reply && inp.bytes == [] && inp.ancillary == old(inp.ancillary)[1..]
  {
    hide Receive, Framed, ReplyPayload, U32At, U64At;
    var _, f, _ := inp.RecvFds(Fine);
    assert f.code == Code(req) && f.flags % 4 == VHOST_USER_VERSION;
    if req.GetFeatures? {
      got := Features(U64At(f.payload, 0));
    } else {
      got := VringBase(U32At(f.payload, 0), U32At(f.payload, 4));
    }
  }
}
