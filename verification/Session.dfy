/** The set-up from end to end: the client's calls put bytes on the socket, the server's receiving
    loop turns them into its memory table and vrings. */
module Session {
  import opened Common
  import opened Server
  import opened Handshake
  import Layout
  import opened Wire
  import opened Socket
  import opened FdList

  function RequestsOf(msgs: seq<(Request, seq<int>)>): (r: seq<Request>)
    ensures |r| == |msgs|
  {
    if msgs == [] then [] else [msgs[0].0] + RequestsOf(msgs[1..])
  }

  function FdsOfAll(msgs: seq<(Request, seq<int>)>): (r: seq<seq<int>>)
    ensures |r| == |msgs|
  {
    if msgs == [] then [] else [msgs[0].1] + FdsOfAll(msgs[1..])
  }

  /** The stream carries exactly these messages. */
  ghost predicate Carries(s: Stream, msgs: seq<(Request, seq<int>)>)
    reads s
  {
    s.bytes == SentAll(RequestsOf(msgs)) && s.ancillary == FdsOfAll(msgs)
  }

  lemma {:induction false} CarriesSnoc(msgs: seq<(Request, seq<int>)>, m: (Request, seq<int>))
    ensures SentAll(RequestsOf(msgs + [m])) == SentAll(RequestsOf(msgs)) + Sent(m.0)
    ensures FdsOfAll(msgs + [m]) == FdsOfAll(msgs) + [m.1]
    decreases |msgs|
  {
    hide Sent;
    if msgs == [] {
      assert ([] + [m])[0] == m && ([] + [m])[1..] == [];
      assert RequestsOf([m]) == [m.0] && RequestsOf([m])[1..] == [];
      assert [] + [m] == [m];
      assert SentAll([m.0]) == Sent(m.0) + SentAll([]);
    } else {
      assert (msgs + [m])[1..] == msgs[1..] + [m];
      CarriesSnoc(msgs[1..], m);
    }
  }

  /** One call of vhost_ioctl on a stream that so far carries `msgs`. */
  method Ioctl(out: Stream, req: Request, shmFds: seq<int>, fd: int, ghost msgs: seq<(Request, seq<int>)>)
    requires Supported(req) && (req.SetMemTable? ==> |req.regions| <= |shmFds|) && Carries(out, msgs)
    modifies out`bytes, out`ancillary
    ensures Carries(out, msgs + [(req, FdsOf(req, shmFds, fd))])
  {
    CarriesSnoc(msgs, (req, FdsOf(req, shmFds, fd)));
    VhostIoctl(out, req, shmFds, fd);
  }

  /** set_host_vring. */
  method SetOneVring(out: Stream, c: ClientSide, i: nat, ghost env: Env, ghost before: seq<(Request, seq<int>)>)
    requires Handshake.Ready(c, env) && i < VHOST_CLIENT_VRING_NUM && c.kickfds[i] > 0 && c.callfds[i] > 0
    requires Carries(out, before)
    modifies out`bytes, out`ancillary
    ensures Carries(out, before + SetHostVring(c, env, i))
  {
    hide Wire.Sent, SentAll, RequestsOf, FdsOfAll, Carries;
    var base := c.views[i].base;
    Ioctl(out, SetVringNum(i, VHOST_VRING_SIZE), [], 0, before);
    ghost var s1 := before + [(SetVringNum(i, VHOST_VRING_SIZE), [])];
    Ioctl(out, SetVringBase(i, 0), [], 0, s1);
    ghost var s2 := s1 + [(SetVringBase(i, 0), [])];
    Ioctl(out, SetVringKick(i), [], c.kickfds[i], s2);
    ghost var s3 := s2 + [(SetVringKick(i), [c.kickfds[i]])];
    Ioctl(out, SetVringCall(i), [], c.callfds[i], s3);
    ghost var s4 := s3 + [(SetVringCall(i), [c.callfds[i]])];
    var addr := SetVringAddr(i, 0, base + Layout.DESC_OFFSET, base + Layout.USED_OFFSET, base + Layout.AVAIL_OFFSET, 0);
    Ioctl(out, addr, [], 0, s4);
    assert s4 + [(addr, [])] == before + SetHostVring(c, env, i);
  }

  /** set_host_vring_table. */
  method SetHostVringTable(out: Stream, c: ClientSide, ghost env: Env, ghost before: seq<(Request, seq<int>)>)
    requires Handshake.Ready(c, env) && Carries(out, before)
    requires forall i :: 0 <= i < VHOST_CLIENT_VRING_NUM ==> c.kickfds[i] > 0 && c.callfds[i] > 0
    modifies out`bytes, out`ancillary
    ensures Carries(out, before + (SetHostVring(c, env, 0) + SetHostVring(c, env, 1)))
  {
    hide Carries, SetHostVring;
    ghost var sent := before;
    for i := 0 to VHOST_CLIENT_VRING_NUM
      invariant Carries(out, sent)
      invariant sent == if i == 0 then before
                        else if i == 1 then before + SetHostVring(c, env, 0)
                        else before + (SetHostVring(c, env, 0) + SetHostVring(c, env, 1))
    {
      SetOneVring(out, c, i, env, sent);
      sent := sent + SetHostVring(c, env, i);
    }
  }

  predicate Expected(msgs: seq<(Request, seq<int>)>, index: u32) {
    forall k :: 0 <= k < |msgs| ==>
      Supported(msgs[k].0) && (msgs[k].0.GetVringBase? ==> msgs[k].0.index == index)
  }

  /** The answers a server gives to messages, in order. */
  function Answers(env: Env, s: ServerState, msgs: seq<(Request, seq<int>)>): seq<(Request, Reply)>
    requires HandleAll(env, s, msgs).Some?
    decreases |msgs|
  {
    if msgs == [] then []
    else
      var (t, reply) := Handle(env, s, msgs[0].0, msgs[0].1);
      (if reply.Some? then [(msgs[0].0, reply.value)] else []) + Answers(env, t, msgs[1..])
  }

  /** Answers as bytes, one reply after the other. */
  function AnswerBytes(answers: seq<(Request, Reply)>): seq<byte> {
    if answers == [] then [] else ReplyBytes(answers[0].0, answers[0].1) + AnswerBytes(answers[1..])
  }

  /** The requests among messages whose sender waits. */
  function WaitingOf(msgs: seq<(Request, seq<int>)>): seq<Request> {
    if msgs == [] then [] else (if Waits(msgs[0].0) then [msgs[0].0] else []) + WaitingOf(msgs[1..])
  }

  function AnsweredOf(answers: seq<(Request, Reply)>): seq<Request> {
    if answers == [] then [] else [answers[0].0] + AnsweredOf(answers[1..])
  }

  lemma AnsweredCons(first: (Request, Reply), rest: seq<(Request, Reply)>)
    ensures AnsweredOf([first] + rest) == [first.0] + AnsweredOf(rest)
    ensures AnswerBytes([first] + rest) == ReplyBytes(first.0, first.1) + AnswerBytes(rest)
  {
    assert ([first] + rest)[1..] == rest;
  }

  /** The answers are those to the requests whose sender waits, one each and in order, and each is
      understood by the sender. */
  lemma {:induction false} AnswersAreAwaited(env: Env, s: ServerState, msgs: seq<(Request, seq<int>)>)
    requires HandleAll(env, s, msgs).Some?
    ensures AnsweredOf(Answers(env, s, msgs)) == WaitingOf(msgs)
    ensures forall k :: 0 <= k < |Answers(env, s, msgs)| ==>
              var (req, reply) := Answers(env, s, msgs)[k]; Understood(req, reply, ReplyBytes(req, reply))
    decreases |msgs|
  {
    hide Acceptable, Handle, Waits, Understood, ReplyBytes;
    if msgs != [] {
      var t := Handle(env, s, msgs[0].0, msgs[0].1);
      RepliesMatch(env, s, msgs[0].0, msgs[0].1);
      AnswersAreAwaited(env, t.0, msgs[1..]);
      if t.1.Some? {
        AnsweredCons((msgs[0].0, t.1.value), Answers(env, t.0, msgs[1..]));
        assert Answers(env, s, msgs) == [(msgs[0].0, t.1.value)] + Answers(env, t.0, msgs[1..]);
      } else {
        assert Answers(env, s, msgs) == Answers(env, t.0, msgs[1..]);
      }
    }
  }

  /** The server's loop over receive_sock_server until the stream is used up: whatever acceptable
      messages the stream carries, the server ends where their handlers lead, and has sent the
      answers to those whose sender waits, in order. */
  method Serve(inp: Stream, out: Stream, server: VhostServer, table: FdTable, sock: int, env: Env, index: u32,
               ghost msgs: seq<(Request, seq<int>)>)
    requires inp != out && server.Valid() && table.Valid() && Carries(inp, msgs) && Expected(msgs, index)
    requires HandleAll(env, server.Val(), msgs).Some?
    modifies inp`bytes, inp`ancillary, out`bytes, out`ancillary, server, server.regions, server.vring, table.readFds
    ensures server.Valid() && inp.bytes == [] && inp.ancillary == []
    ensures HandleAll(env, old(server.Val()), msgs) == Some(server.Val())
    ensures out.bytes == old(out.bytes) + AnswerBytes(Answers(env, old(server.Val()), msgs))
    ensures |out.ancillary| == |old(out.ancillary)| + |Answers(env, old(server.Val()), msgs)|
  {
    hide Acceptable, Handle, Wire.Sent, ReplyBytes, Deleted;
    ghost var left, s := msgs, server.Val();
    while inp.bytes != []
      invariant server.Valid() && Carries(inp, left) && Expected(left, index)
      invariant HandleAll(env, server.Val(), left) == HandleAll(env, s, msgs)
      invariant out.bytes + AnswerBytes(Answers(env, server.Val(), left))
                == old(out.bytes) + AnswerBytes(Answers(env, s, msgs))
      invariant |out.ancillary| + |Answers(env, server.Val(), left)| == |old(out.ancillary)| + |Answers(env, s, msgs)|
      decreases |left|
    {
      ghost var t, before := server.Val(), out.bytes;
      ReadyToReceive(inp, left);
      var _ := ReceiveSockServer(inp, out, server, table, sock, env, index, Fine, true, left[0].0,
                                 SentAll(RequestsOf(left[1..])));
      OneAnswer(env, t, left, before);
      left := left[1..];
    }
    NothingLeft(left);
  }

  lemma ReadyToReceive(inp: Stream, left: seq<(Request, seq<int>)>)
    requires Carries(inp, left) && inp.bytes != [] && (left != [] ==> Supported(left[0].0))
    ensures left != [] && inp.Ready(Fine)
    ensures inp.bytes == Wire.Sent(left[0].0) + SentAll(RequestsOf(left[1..]))
    ensures inp.ancillary[0] == left[0].1 && inp.ancillary[1..] == FdsOfAll(left[1..])
  {
    hide Receive, Payload;
    var req, rest := left[0].0, SentAll(RequestsOf(left[1..]));
    CodeSmall(req);
    PayloadSmall(req);
    FrameRoundTrip(Code(req), VHOST_USER_VERSION, Payload(req), rest);
  }

  lemma OneAnswer(env: Env, s: ServerState, msgs: seq<(Request, seq<int>)>, before: seq<byte>)
    requires msgs != [] && HandleAll(env, s, msgs).Some?
    ensures var (t, reply) := Handle(env, s, msgs[0].0, msgs[0].1);
            && HandleAll(env, t, msgs[1..]) == HandleAll(env, s, msgs)
            && |Answers(env, s, msgs)| == (if reply.Some? then 1 else 0) + |Answers(env, t, msgs[1..])|
            && before + AnswerBytes(Answers(env, s, msgs))
               == before + (if reply.Some? then ReplyBytes(msgs[0].0, reply.value) else [])
                  + AnswerBytes(Answers(env, t, msgs[1..]))
  {
    hide Acceptable, Handle, ReplyBytes;
    var (t, reply) := Handle(env, s, msgs[0].0, msgs[0].1);
    var rest := Answers(env, t, msgs[1..]);
    var now := if reply.Some? then ReplyBytes(msgs[0].0, reply.value) else [];
    if reply.Some? {
      AnsweredCons((msgs[0].0, reply.value), rest);
      assert Answers(env, s, msgs) == [(msgs[0].0, reply.value)] + rest;
    } else {
      assert Answers(env, s, msgs) == rest;
    }
    assert AnswerBytes(Answers(env, s, msgs)) == now + AnswerBytes(rest);
    assert before + (now + AnswerBytes(rest)) == before + now + AnswerBytes(rest);
  }

  lemma NothingLeft(left: seq<(Request, seq<int>)>)
    requires SentAll(RequestsOf(left)) == []
    ensures left == []
  {
  }

  // ---- init_vhost_client ----

  function FirstTwo(): seq<(Request, seq<int>)> {
    [(SetOwner, []), (GetFeatures, [])]
  }

  function TheRest(c: ClientSide, env: Env): seq<(Request, seq<int>)>
    requires Handshake.Ready(c, env)
  {
    [(SetMemTable(MemoryOf(c, VHOST_CLIENT_VRING_NUM)), c.shmFds)] + (SetHostVring(c, env, 0) + SetHostVring(c, env, 1))
  }

  lemma TwoHalves(c: ClientSide, env: Env)
    requires Handshake.Ready(c, env)
    ensures Messages(c, env) == FirstTwo() + TheRest(c, env)
    ensures Expected(FirstTwo(), 0) && Expected(TheRest(c, env), 0)
  {
  }

  /** The opening of init_vhost_client, up to where it waits for the answer to GET_FEATURES. */
  method OpenSession(up: Stream)
    requires up.bytes == [] && up.ancillary == []
    modifies up`bytes, up`ancillary
    ensures Carries(up, FirstTwo())
  {
    ghost var m1: (Request, seq<int>) := (SetOwner, []);
    assert Carries(up, []);
    hide Wire.Sent, SentAll, RequestsOf, FdsOfAll, Carries;
    Ioctl(up, SetOwner, [], 0, []);
    assert [] + [m1] == [m1];
    Ioctl(up, GetFeatures, [], 0, [m1]);
    assert [m1] + [(GetFeatures, [])] == FirstTwo();
  }

  /** The rest of it, once it has the answer: the memory table and both vrings. */
  method SendSetup(up: Stream, c: ClientSide, ghost env: Env)
    requires Handshake.Ready(c, env) && up.bytes == [] && up.ancillary == []
    requires forall i :: 0 <= i < VHOST_CLIENT_VRING_NUM ==> c.kickfds[i] > 0 && c.callfds[i] > 0
    modifies up`bytes, up`ancillary
    ensures Carries(up, TheRest(c, env))
  {
    var table := MemoryOf(c, VHOST_CLIENT_VRING_NUM);
    ghost var m := (SetMemTable(table), c.shmFds);
    assert Carries(up, []);
    hide Wire.Sent, SentAll, RequestsOf, FdsOfAll, Carries, SetHostVring;
    Ioctl(up, SetMemTable(table), c.shmFds, 0, []);
    assert c.shmFds[..|table|] == c.shmFds && [] + [m] == [m];
    SetHostVringTable(up, c, env, [m]);
  }

  /** The first two messages change nothing, and only GET_FEATURES is answered, with no features. */
  lemma FirstTwoHandled(env: Env, s: ServerState)
    requires WellFormed(s)
    ensures HandleAll(env, s, FirstTwo()) == Some(s)
    ensures Answers(env, s, FirstTwo()) == [(GetFeatures, Features(0))]
    ensures AnswerBytes([(GetFeatures, Features(0))]) == ReplyBytes(GetFeatures, Features(0))
  {
    hide ReplyBytes;
    var m2: (Request, seq<int>) := (GetFeatures, []);
    assert FirstTwo()[1..] == [m2] && [m2][1..] == [];
    assert HandleAll(env, s, []) == Some(s) && Answers(env, s, []) == [];
    assert HandleAll(env, s, [m2]) == Some(s) && Answers(env, s, [m2]) == [(GetFeatures, Features(0))];
    assert [(GetFeatures, Features(0))][1..] == [];
  }

  /** init_vhost_client against a server: the server has its turn while the client waits for the
      answer to GET_FEATURES, which is the one the client asserts, and again at the end. The server
      then mirrors the client's memory, both vrings agree, and nothing is left on either stream. */
  method InitClient(up: Stream, down: Stream, c: ClientSide, server: VhostServer, table: FdTable, sock: int, env: Env)
    returns (features: u64)
    requires Handshake.Ready(c, env) && server.Valid() && table.Valid() && HasRoom(c, env, server.Val())
    requires forall i :: 0 <= i < VHOST_CLIENT_VRING_NUM ==> c.kickfds[i] > 0 && c.callfds[i] > 0
    requires up != down && up.bytes == [] && up.ancillary == [] && down.bytes == [] && down.ancillary == []
    modifies up`bytes, up`ancillary, down`bytes, down`ancillary, server, server.regions, server.vring, table.readFds
    ensures features == 0
    ensures up.bytes == [] && up.ancillary == [] && down.bytes == [] && down.ancillary == []
    ensures server.Valid() && HandleAll(env, old(server.Val()), Messages(c, env)) == Some(server.Val())
    ensures Mapped(c, env, server.Val())
    ensures Agrees(c, env, server.Val(), RX) && Agrees(c, env, server.Val(), TX)
    ensures WaitsForKicks(c, old(server.Val()), server.Val())
  {
    hide HandleAll, Handshake.Ready, Agrees, Mapped, Carries, HasRoom, Understood, ReplyBytes, Messages, TheRest;
    hide Expected, FirstTwo, Answers, AnswerBytes, WaitingOf, WaitsForKicks;
    ghost var s := server.Val();
    ghost var t := HandshakeAgrees(c, env, s);
    TwoHalves(c, env);
    FirstTwoHandled(env, s);
    OpenSession(up);
    Serve(up, down, server, table, sock, env, 0, FirstTwo());
    FeaturesUnderstood(0);
    var got := TakeReply(down, GetFeatures, Features(0));
    features := got.u;
    SendSetup(up, c, env);
    HandleAppend(env, s, FirstTwo(), TheRest(c, env));
    RestUnanswered(env, s, c);
    Serve(up, down, server, table, sock, env, 0, TheRest(c, env));
  }

  /** No one waits after the opening. */
  lemma RestUnanswered(env: Env, s: ServerState, c: ClientSide)
    requires Handshake.Ready(c, env) && HandleAll(env, s, TheRest(c, env)).Some?
    ensures Answers(env, s, TheRest(c, env)) == [] && AnswerBytes([]) == []
  {
    hide HandleAll, Answers, Understood, ReplyBytes, Handshake.Ready, MemoryOf;
    AnswersAreAwaited(env, s, TheRest(c, env));
    NoneWait(TheRest(c, env));
  }

  lemma {:induction false} NoneWait(msgs: seq<(Request, seq<int>)>)
    requires forall k :: 0 <= k < |msgs| ==> !Waits(msgs[k].0)
    ensures WaitingOf(msgs) == []
    decreases |msgs|
  {
    if msgs != [] {
      NoneWait(msgs[1..]);
    }
  }

  /** A client's set-up against a new server. */
  method Connect(c: ClientSide, env: Env, sock: int) returns (server: VhostServer, features: u64)
    requires Handshake.Ready(c, env) && LandsApart(c, env)
    requires forall i :: 0 <= i < VHOST_CLIENT_VRING_NUM ==> c.kickfds[i] > 0 && c.callfds[i] > 0
    ensures server.Valid() && Mapped(c, env, server.Val())
    ensures Agrees(c, env, server.Val(), RX) && Agrees(c, env, server.Val(), TX)
    ensures !server.isPolling && server.kicks == [c.kickfds[1]]
    ensures features == 0
  {
    hide HandleAll, Addressable, Agrees, Mapped, LandsApart, HasRoom, Messages;
    server := new VhostServer();
    var up := new Stream();
    var down := new Stream();
    var table := new FdTable();
    NewHasRoom(c, env, server.Val());
    features := InitClient(up, down, c, server, table, sock, env);
  }
}
