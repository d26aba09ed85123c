/** The table of file descriptors a poll loop listens on (common/fd_list.c). */
module FdList {

  const FD_LIST_SIZE: nat := 10

  /** struct fd_node; context and handler are opaque here. -1 marks a free slot. */
  datatype FdNode = FdNode(fd: int, context: int, handler: int)

  const FREE_NODE: FdNode := FdNode(-1, 0, 0)

  // ---- the table as a value ----

  /** The first slot with `fd`, or the number of slots. */
  function First(slots: seq<FdNode>, fd: int): (k: nat)
    ensures k <= |slots|
    ensures k < |slots| ==> slots[k].fd == fd
    ensures forall j :: 0 <= j < k ==> slots[j].fd != fd
  {
    if slots == [] || slots[0].fd == fd then 0 else 1 + First(slots[1..], fd)
  }

  function Added(slots: seq<FdNode>, node: FdNode): (int, seq<FdNode>) {
    var k := First(slots, -1);
    if k == |slots| then (-1, slots) else (0, slots[k := node])
  }

  function Deleted(slots: seq<FdNode>, fd: int): (int, seq<FdNode>) {
    var k := First(slots, fd);
    if k == |slots| then (-1, slots) else (0, slots[k := FREE_NODE])
  }

  /** What one slot listens on. */
  function One(node: FdNode): multiset<int> {
    if node.fd == -1 then multiset{} else multiset{node.fd}
  }

  /** The descriptors listened on, as often as they are. */
  function Live(slots: seq<FdNode>): multiset<int> {
    if slots == [] then multiset{} else One(slots[0]) + Live(slots[1..])
  }

  /** How one slot changes what is live. */
  lemma {:induction false} LiveUpdate(slots: seq<FdNode>, k: nat, node: FdNode)
    requires k < |slots|
    ensures Live(slots[k := node]) + One(slots[k]) == Live(slots) + One(node)
    decreases |slots|
  {
    hide One;
    if k == 0 {
      assert slots[0 := node][1..] == slots[1..];
    } else {
      LiveUpdate(slots[1..], k - 1, node);
      assert slots[k := node][1..] == slots[1..][k - 1 := node];
      Shift(One(slots[0]), Live(slots[1..][k - 1 := node]), One(slots[k]), Live(slots[1..]), One(node));
    }
  }

  lemma Shift(a: multiset<int>, l: multiset<int>, o: multiset<int>, m: multiset<int>, n: multiset<int>)
    requires l + o == m + n
    ensures (a + l) + o == (a + m) + n
  {
    assert (a + l) + o == a + (l + o);
    assert (a + m) + n == a + (m + n);
  }

  /** A free slot exists exactly when fewer descriptors are live than there are slots. */
  lemma {:induction false} RoomIff(slots: seq<FdNode>)
    ensures |Live(slots)| <= |slots|
    ensures First(slots, -1) < |slots| <==> |Live(slots)| < |slots|
    decreases |slots|
  {
    if slots != [] {
      RoomIff(slots[1..]);
    }
  }

  lemma {:induction false} LiveIff(slots: seq<FdNode>, fd: int)
    requires fd != -1
    ensures fd in Live(slots) <==> First(slots, fd) < |slots|
    decreases |slots|
  {
    if slots != [] {
      LiveIff(slots[1..], fd);
    }
  }

  // ---- a bounded multiset ----

  function BagAdd(bag: multiset<int>, fd: int): (int, multiset<int>) {
    if |bag| < 10 then (0, bag + multiset{fd}) else (-1, bag)
  }

  function BagDel(bag: multiset<int>, fd: int): (int, multiset<int>) {
    if fd in bag then (0, bag - multiset{fd}) else (-1, bag)
  }

  /** Adding succeeds exactly while fewer than FD_LIST_SIZE descriptors are live, duplicates
      counted, and makes one more live. */
  lemma AddRefines(slots: seq<FdNode>, node: FdNode)
    requires |slots| == FD_LIST_SIZE && node.fd != -1
    ensures var (r, after) := Added(slots, node);
            |after| == FD_LIST_SIZE && (r, Live(after)) == BagAdd(Live(slots), node.fd)
  {
    RoomIff(slots);
    var k := First(slots, -1);
    if k < |slots| {
      LiveUpdate(slots, k, node);
      assert One(slots[k]) == multiset{};
      assert Live(slots[k := node]) == Live(slots) + One(node);
    }
  }

  /** Deleting removes one occurrence of a live descriptor, or fails and changes nothing. */
  lemma DelRefines(slots: seq<FdNode>, fd: int)
    requires |slots| == FD_LIST_SIZE && fd != -1
    ensures var (r, after) := Deleted(slots, fd);
            |after| == FD_LIST_SIZE && (r, Live(after)) == BagDel(Live(slots), fd)
  {
    hide Live;
    LiveIff(slots, fd);
    var k := First(slots, fd);
    if k < |slots| {
      LiveUpdate(slots, k, FREE_NODE);
      OneLess(Live(slots[k := FREE_NODE]), Live(slots), fd);
    }
  }

  lemma OneLess(after: multiset<int>, before: multiset<int>, fd: int)
    requires after + multiset{fd} == before + multiset{}
    ensures after == before - multiset{fd}
  {
    assert before == before + multiset{};
    assert after == (after + multiset{fd}) - multiset{fd};
  }

  datatype Op = Add(node: FdNode) | Del(fd: int)

  /** Answers and table after a sequence of calls. */
  function RunSlots(slots: seq<FdNode>, ops: seq<Op>): (seq<int>, seq<FdNode>) {
    if ops == [] then ([], slots)
    else
      var last := ops[|ops| - 1];
      var (rs, before) := RunSlots(slots, ops[..|ops| - 1]);
      var (r, after) := match last case Add(node) => Added(before, node) case Del(fd) => Deleted(before, fd);
      (rs + [r], after)
  }

  function RunBag(bag: multiset<int>, ops: seq<Op>): (seq<int>, multiset<int>) {
    if ops == [] then ([], bag)
    else
      var last := ops[|ops| - 1];
      var (rs, before) := RunBag(bag, ops[..|ops| - 1]);
      var (r, after) := match last case Add(node) => BagAdd(before, node.fd) case Del(fd) => BagDel(before, fd);
      (rs + [r], after)
  }

  predicate RealFd(op: Op) {
    match op
    case Add(node) => node.fd != -1
    case Del(fd) => fd != -1
  }

  /** Over any sequence of adds and deletes of real descriptors the table answers as, and holds
      what, a multiset bounded by FD_LIST_SIZE does. */
  lemma {:induction false} TableIsBag(slots: seq<FdNode>, ops: seq<Op>)
    requires |slots| == FD_LIST_SIZE && forall k :: 0 <= k < |ops| ==> RealFd(ops[k])
    ensures |RunSlots(slots, ops).1| == FD_LIST_SIZE
    ensures (RunSlots(slots, ops).0, Live(RunSlots(slots, ops).1)) == RunBag(Live(slots), ops)
    decreases |ops|
  {
    hide Added, Deleted, Live, BagAdd, BagDel;
    if ops != [] {
      var last, before := ops[|ops| - 1], RunSlots(slots, ops[..|ops| - 1]).1;
      TableIsBag(slots, ops[..|ops| - 1]);
      assert RealFd(last);
      match last
      case Add(node) => AddRefines(before, node);
      case Del(fd) => DelRefines(before, fd);
    }
  }

  // ---- what the slots are for ----

  /** The slots in use, each with its context and handler. */
  function Nodes(slots: seq<FdNode>): multiset<FdNode> {
    if slots == [] then multiset{}
    else (if slots[0].fd == -1 then multiset{} else multiset{slots[0]}) + Nodes(slots[1..])
  }

  function Node(node: FdNode): multiset<FdNode> {
    if node.fd == -1 then multiset{} else multiset{node}
  }

  lemma {:induction false} NodesUpdate(slots: seq<FdNode>, k: nat, node: FdNode)
    requires k < |slots|
    ensures Nodes(slots[k := node]) + Node(slots[k]) == Nodes(slots) + Node(node)
    decreases |slots|
  {
    hide Node;
    NodesHead(slots);
    NodesHead(slots[k := node]);
    if k == 0 {
      assert slots[0 := node][1..] == slots[1..];
    } else {
      NodesUpdate(slots[1..], k - 1, node);
      assert slots[k := node][1..] == slots[1..][k - 1 := node];
      ShiftNodes(Node(slots[0]), Nodes(slots[1..][k - 1 := node]), Node(slots[k]), Nodes(slots[1..]), Node(node));
    }
  }

  lemma NodesHead(slots: seq<FdNode>)
    requires slots != []
    ensures Nodes(slots) == Node(slots[0]) + Nodes(slots[1..])
  {
  }

  lemma ShiftNodes(a: multiset<FdNode>, l: multiset<FdNode>, o: multiset<FdNode>, m: multiset<FdNode>,
                   n: multiset<FdNode>)
    requires l + o == m + n
    ensures (a + l) + o == (a + m) + n
  {
    assert (a + l) + o == a + (l + o);
    assert (a + m) + n == a + (m + n);
  }

  /** Adding a descriptor with its context and handler puts just that into the table and leaves every
      other entry as it is; or the table is full and nothing changes. */
  lemma AddKeepsNode(slots: seq<FdNode>, fd: int, context: int, handler: int)
    requires fd != -1
    ensures var (r, after) := Added(slots, FdNode(fd, context, handler));
            && (r == 0 <==> exists k :: 0 <= k < |slots| && slots[k].fd == -1)
            && Nodes(after) == Nodes(slots) + (if r == 0 then multiset{FdNode(fd, context, handler)} else multiset{})
            && (r != 0 ==> r == -1 && after == slots)
  {
    var node, k := FdNode(fd, context, handler), First(slots, -1);
    if k < |slots| {
      NodesUpdate(slots, k, node);
      assert Nodes(slots[k := node]) + multiset{} == Nodes(slots[k := node]);
    }
  }

  /** Deleting a descriptor takes out one entry for it and leaves every other as it is; or there is
      none and nothing changes. */
  lemma DelTakesNode(slots: seq<FdNode>, fd: int) returns (node: FdNode)
    requires fd != -1
    ensures var (r, after) := Deleted(slots, fd);
            && (r == 0 <==> exists k :: 0 <= k < |slots| && slots[k].fd == fd)
            && (r == 0 ==> node.fd == fd && Nodes(after) + multiset{node} == Nodes(slots))
            && (r != 0 ==> r == -1 && after == slots)
  {
    node := FREE_NODE;
    var k := First(slots, fd);
    if k < |slots| {
      node := slots[k];
      NodesUpdate(slots, k, FREE_NODE);
      assert Nodes(slots) + multiset{} == Nodes(slots);
    }
  }

  /** No free slot keeps anything of what was in it. */
  predicate Clean(slots: seq<FdNode>) {
    forall k :: 0 <= k < |slots| && slots[k].fd == -1 ==> slots[k] == FdNode(-1, 0, 0)
  }

  /** Whatever is called, the entries in use are some that were there or were added, context and handler
      included, and free slots are clean. */
  lemma {:induction false} NodesAreAdded(slots: seq<FdNode>, ops: seq<Op>, node: FdNode)
    requires Clean(slots) && forall k :: 0 <= k < |ops| ==> RealFd(ops[k])
    ensures Clean(RunSlots(slots, ops).1)
    ensures node in Nodes(RunSlots(slots, ops).1) ==> node in Nodes(slots) || Op.Add(node) in ops
    decreases |ops|
  {
    hide Added, Deleted, Nodes, Clean;
    if ops != [] {
      var last, front := ops[|ops| - 1], ops[..|ops| - 1];
      var before := RunSlots(slots, front).1;
      NodesAreAdded(slots, front, node);
      assert RealFd(last);
      StaysClean(before, last);
      match last
      case Add(n) => AddKeepsNode(before, n.fd, n.context, n.handler);
      case Del(fd) =>
        var gone := DelTakesNode(before, fd);
        assert node in Nodes(Deleted(before, fd).1) ==> node in Nodes(Deleted(before, fd).1) + multiset{gone};
    }
  }

  lemma StaysClean(slots: seq<FdNode>, op: Op)
    requires Clean(slots) && RealFd(op)
    ensures Clean(match op case Add(node) => Added(slots, node).1 case Del(fd) => Deleted(slots, fd).1)
  {
  }

  /** The calls process_fd_set makes for the descriptors that are ready, slot by slot, when handlers
      leave the table alone: the nodes that have a handler. */
  function Calls(slots: seq<FdNode>, ready: set<int>): seq<FdNode> {
    if slots == [] then []
    else
      var last := slots[|slots| - 1];
      Calls(slots[..|slots| - 1], ready) + if last.fd in ready && last.handler != 0 then [last] else []
  }

  /** The slots whose descriptor is ready. */
  ghost function ReadySlots(slots: seq<FdNode>, ready: set<int>): set<int> {
    set k | 0 <= k < |slots| && slots[k].fd in ready
  }

  /** Exactly the entries with a handler whose descriptor is ready are called, with the context they
      were added with. */
  lemma {:induction false} CalledIff(slots: seq<FdNode>, ready: set<int>, node: FdNode)
    requires -1 !in ready
    ensures node in Calls(slots, ready) <==> node in Nodes(slots) && node.fd in ready && node.handler != 0
    decreases |slots|
  {
    hide Nodes;
    if slots == [] {
      NodesNone();
    } else {
      var front, last := slots[..|slots| - 1], slots[|slots| - 1];
      CalledIff(front, ready, node);
      NodesSnoc(front, last);
      assert slots == front + [last];
    }
  }

  lemma NodesNone()
    ensures Nodes([]) == multiset{}
  {
  }

  lemma {:induction false} NodesSnoc(slots: seq<FdNode>, node: FdNode)
    ensures Nodes(slots + [node]) == Nodes(slots) + Node(node)
    decreases |slots|
  {
    hide Node;
    NodesHead(slots + [node]);
    if slots == [] {
      assert ([] + [node])[1..] == [];
      NodesNone();
    } else {
      assert (slots + [node])[1..] == slots[1..] + [node];
      NodesHead(slots);
      NodesSnoc(slots[1..], node);
    }
  }

  /** So a handler added for a descriptor is called when that is ready. */
  lemma AddedIsCalled(slots: seq<FdNode>, fd: int, context: int, handler: int, ready: set<int>)
    requires fd != -1 && -1 !in ready && fd in ready && handler != 0
    requires Added(slots, FdNode(fd, context, handler)).0 == 0
    ensures FdNode(fd, context, handler) in Calls(Added(slots, FdNode(fd, context, handler)).1, ready)
  {
    hide Added, Nodes, Calls;
    AddKeepsNode(slots, fd, context, handler);
    CalledIff(Added(slots, FdNode(fd, context, handler)).1, ready, FdNode(fd, context, handler));
  }

  // ---- the table itself ----

  class FdTable {
    const readFds: array<FdNode>
    const writeFds: array<FdNode>

    ghost predicate Valid() {
      readFds.Length == writeFds.Length == FD_LIST_SIZE && readFds != writeFds
    }

    /** init_fd_list. */
    constructor ()
      ensures Valid() && fresh(readFds) && fresh(writeFds)
      ensures Live(readFds[..]) == Live(writeFds[..]) == multiset{}
      ensures Clean(readFds[..]) && Clean(writeFds[..])
    {
      readFds := new FdNode[FD_LIST_SIZE](_ => FREE_NODE);
      writeFds := new FdNode[FD_LIST_SIZE](_ => FREE_NODE);
      new;
      NothingLive(readFds[..]);
      NothingLive(writeFds[..]);
    }

    /** find_fd_node: the index of the slot, -1 for none. */
    static method Find(fds: array<FdNode>, fd: int) returns (k: int)
      ensures k == if First(fds[..], fd) == fds.Length then -1 else First(fds[..], fd)
    {
      for idx := 0 to fds.Length
        invariant forall j :: 0 <= j < idx ==> fds[j].fd != fd
      {
        if fds[idx].fd == fd {
          return idx;
        }
      }
      k := -1;
    }

    /** add_fd_list. */
    method AddFd(read: bool, fd: int, context: int, handler: int) returns (r: int)
      requires Valid()
      modifies if read then readFds else writeFds
      ensures (r, (if read then readFds else writeFds)[..])
              == Added(old((if read then readFds else writeFds)[..]), FdNode(fd, context, handler))
    {
      var fds := if read then readFds else writeFds;
      var k := Find(fds, -1);
      if k == -1 {
        return -1;
      }
      fds[k] := FdNode(fd, context, handler);
      r := 0;
    }

    /** del_fd_list. */
    method DelFd(read: bool, fd: int) returns (r: int)
      requires Valid()
      modifies if read then readFds else writeFds
      ensures (r, (if read then readFds else writeFds)[..])
              == Deleted(old((if read then readFds else writeFds)[..]), fd)
    {
      var fds := if read then readFds else writeFds;
      var k := Find(fds, fd);
      if k == -1 {
        return -1;
      }
      fds[k] := FREE_NODE;
      r := 0;
    }

    /** process_fd_set: how many slots are ready, and the calls made, in order. */
    method ProcessFdSet(read: bool, ready: set<int>) returns (num: nat, called: seq<FdNode>)
      requires Valid()
      ensures called == Calls((if read then readFds else writeFds)[..], ready)
      ensures num == |ReadySlots((if read then readFds else writeFds)[..], ready)|
    {
      var fds := if read then readFds else writeFds;
      num, called := 0, [];
      ghost var slots: set<int> := {};
      for idx := 0 to FD_LIST_SIZE
        invariant called == Calls(fds[..idx], ready) && num == |slots| && slots == ReadySlots(fds[..idx], ready)
      {
        assert fds[..idx + 1][..idx] == fds[..idx];
        if fds[idx].fd in ready {
          num := num + 1;
          slots := slots + {idx};
          if fds[idx].handler != 0 {
            called := called + [fds[idx]];
          }
        }
      }
      assert fds[..FD_LIST_SIZE] == fds[..];
    }

    /** get_fd_set: exactly the live descriptors, and the greatest of them when any is above -1. */
    method GetFdSet(read: bool) returns (fdset: set<int>, fdmax: int)
      requires Valid()
      ensures forall fd :: fd in fdset <==> fd in Live((if read then readFds else writeFds)[..])
      ensures fdmax >= -1 && (forall fd :: fd in fdset ==> fd <= fdmax) && (fdmax != -1 ==> fdmax in fdset)
    {
      hide Live;
      var fds := if read then readFds else writeFds;
      fdset, fdmax := {}, -1;
      ghost var live := Live([]);
      NothingLive([]);
      for idx := 0 to FD_LIST_SIZE
        invariant live == Live(fds[..idx])
        invariant forall fd :: fd in fdset <==> fd in live
        invariant fdmax >= -1 && (forall fd :: fd in fdset ==> fd <= fdmax) && (fdmax != -1 ==> fdmax in fdset)
      {
        var fd := fds[idx].fd;
        LiveSnoc(fds[..idx], fds[idx]);
        assert fds[..idx + 1] == fds[..idx] + [fds[idx]];
        live := live + One(fds[idx]);
        if fd != -1 {
          fdset := fdset + {fd};
          fdmax := if fd > fdmax then fd else fdmax;
        }
      }
      assert fds[..FD_LIST_SIZE] == fds[..];
    }
  }

  lemma {:induction false} NothingLive(slots: seq<FdNode>)
    requires forall k :: 0 <= k < |slots| ==> slots[k].fd == -1
    ensures Live(slots) == multiset{}
    decreases |slots|
  {
    if slots != [] {
      NothingLive(slots[1..]);
    }
  }

  lemma {:induction false} LiveSnoc(slots: seq<FdNode>, node: FdNode)
    ensures Live(slots + [node]) == Live(slots) + One(node)
    decreases |slots|
  {
    hide One;
    if slots == [] {
      assert ([] + [node])[1..] == [];
    } else {
      assert (slots + [node])[1..] == slots[1..] + [node];
      LiveSnoc(slots[1..], node);
    }
  }
}
