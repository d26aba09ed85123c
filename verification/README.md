# A verified model of the vhost-user split virtqueue

The repository is a vhost-user client and server that exchange packets through two split
virtqueues (section 2.6 of VIRTIO 1.1) in shared memory. The model covers the ring routines of
`common/vring.c`, the control plane that sets the rings up (`demo/vhost_server.c`,
`demo/vhost_client.c`, `common/common.c`, `common/unsock.c`), the layout of a ring in its shared
region (`include/vring.h`, `include/common.h`), and the descriptor table of `common/fd_list.c`.

## How the model is built

- `Common`, `AddressSpace`, `Ring`: integer widths, the two views of shared bytes, the shared ring and
  what each access of the ring routines does to it, as functions on values.
- `Routines`, `Vring`: whole calls as functions, and the routines themselves as methods that update the
  descriptor table, the two rings, the packet bytes and the private cursors in place. Each method's
  `ensures` equates the new state with the function of the old one.
- `Protocol`: the same accesses as the steps of a state machine. A put is four steps (take the free
  head, fill, write the avail slot, move `avail->idx`), each turn of the two loops is two (test, work),
  and the steps of producer and consumer interleave freely. One machine serves both rings: the client
  produces on TX and the server on RX, each with its own address map.
- `Invariant`, `Runs`, `RunTheorems`, `Marks`: every step keeps one invariant; from it, theorems about
  every run of the machine from a freshly set up ring, down to what each descriptor looks like.
- `Calls`, `Lifetime`: undisturbed calls are runs, so the methods inherit the theorems, and how long a
  session can be.
- `Gather`: what `_process_desc` copies, when its walk ends, and the exact condition under which a packet
  survives.
- `Oversize`: what becomes of the ring, and of the other packets, when a packet does not survive.
- `Coherence`, `Layout`, `Server`, `Handshake`, `Wire`, `Socket`, `Session`: address maps, ring layout,
  message handlers, messages as bytes, and the set-up from `vhost_ioctl` to a state of the protocol.
- `Handlers`, `Figures`: the handlers once more, field by field and over whole conversations; the numbers
  of the headers and the bytes of the messages in figures.
- `Setup`: the end of the set-up is the beginning of the demo.
- `Resume`: one server taking a session over from another.
- `Echo`, `Demo`, `Turns`: the demo as a whole, one turn of each poll loop, and the turns as plays of
  the whole.
- `FdList`: the table of descriptors a poll loop listens on, and which handlers it calls.

## What the code needs, and what happens without it

The source leaves these to its callers. They appear as guards of steps or preconditions, and the lemma
named with each says what they are worth.

- `put_vring` needs a free descriptor, `last_avail_idx != VRING_IDX_NONE` (`common/vring.c:133-143`).
  `RunTheorems.Progress`: in every reachable state this and the next point are all a put needs.
- A packet needs `hdr_len + size < ETH_PACKET_SIZE`, although `put_vring` accepts any `size <= desc.len`
  (`common/vring.c:138`, `common/vring.c:258`). `Gather.PacketRoundTrip`: it comes out unchanged if and
  only if that holds. `Oversize.OversizeConservedIff`: any larger packet that is accepted, up to 1528
  bytes, is dropped; from any reachable state of idle sides the descriptors are then conserved if and
  only if the used slot passed over already named the dropped one, and everything accepted before is
  still delivered. `Oversize.OversizeLoses`: on a new ring the second packet, if oversize, loses
  descriptor 1.
- From 1519 bytes on `put_vring` writes over the end of the buffer (`common/vring.c:163`). No byte of
  another packet's payload is touched (`Oversize.PayloadSpared`); a header stays zero if and only if the
  bytes that fall on it are zero (`Oversize.HeaderSparedIff`), otherwise a pending packet there draws one
  complaint. On the rings the handshake sets up only the next descriptor is in reach, and the bytes stay
  in the ring's page (`Setup.OverrunInPage`).
- `_process_desc` hands over `len - hdr_len` bytes (`common/vring.c:299`), so a gathered packet must be
  empty or have room for its header: a total of 1 to 9 bytes wraps the size round. No reachable state
  has one, since `put_vring` always writes the header (`Invariant.PacketFound`).
- `process_used_vring` steps its cursor mod `num` and compares it with an index that runs mod 2^16
  (`common/vring.c:213`), so `used->idx < num` must hold at every test. `Routines.ReclaimEndsIff`: the
  loop ends if and only if it does; `Routines.ReclaimHangCycles`: otherwise it also ties the free list
  into a cycle; `RunTheorems.ReclaimLostForever`: once lost, the condition never returns;
  `RunTheorems.Lifetime`: a session therefore accepts at most `2 * num - 1` packets, and
  `Lifetime.LifetimeReached`: that many can be sent. The configuration
  field `repaired` selects a cursor that runs mod 2^16 and is reduced at the array access; with it every
  theorem about runs holds without this condition, for runs of any length.
- `_process_desc` walks chains of any shape. `Gather.HaltsIff`: the walk ends if and only if it does
  not, with its total still below ETH_PACKET_SIZE, leave the table, meet a length that takes the 32-bit
  total round past zero, or come to descriptors of length 0 that link only to each other.
  `Gather.CopiesInsideIff`: its copies stay inside `buf` if and only if no total goes round.
- `map_shm` maps `memory_size` bytes from the start of the object (`demo/vhost_server.c:168-173`), while
  a region starts at its `mmap_offset` in it (`doc/vhost-user.txt:98`). The views therefore agree exactly
  on the bytes before `memory_size - mmap_offset`, unless another mapping happens to continue this one
  (`Coherence.SameByteIff`); a region with an object of its own is shared as a whole exactly when the
  offset is 0, as the client sends it (`Coherence.WholeRegionIff`).
- The server searches the first `nregions` slots, but files a region under its index in the message and
  counts only valid descriptors (`demo/vhost_server.c:157-180`): it knows all valid regions if and only if
  the valid descriptors come first (`Handlers.AllKnownIff`).
- The server never reclaims on RX, so a session forwards at most `num` packets
  (`Echo.ForwardAccepted`).
- `num` divides 2^16 and is at most 32768; the source uses 32768.

Steps are sequentially consistent: the code has no barriers, and the model assumes none are needed.

## Model

| member | source | states |
|---|---|---|
| Vring.VringEnd.Put | common/vring.c:127-176 | the answer, the shared ring, the packet bytes and the cursors after a put, refusal included |
| Vring.VringEnd.Free | common/vring.c:187-201 | the descriptor gets its whole buffer back and becomes the head of the free list |
| Vring.VringEnd.ProcessUsed | common/vring.c:207-220 | below `num` the loop ends and the result is that of freeing the published ids in order |
| Vring.VringEnd.ProcessDesc | common/vring.c:226-306 | used entry, header complaint, hand-over and private packet, or -1 and nothing changed |
| Vring.VringEnd.GatherChain | common/vring.c:243-274 | for any walk that ends and is mapped, the buffer holds the concatenated chunks of the descriptors the specification takes, also when they are fewer than 10 bytes |
| Vring.VringEnd.TakeOne | common/vring.c:327-330 | one descriptor processed and both cursors moved, also when it is dropped |
| Vring.VringEnd.ProcessAvail | common/vring.c:311-338 | the loop takes exactly the pending heads, used->idx is published once, and the private packet is the last one handed over |
| Vring.PacketBuffer.Accept | demo/vhost_server.c:262-275 | the private packet becomes the packet handed over |
| Vring.PacketBuffer.Clear | demo/vhost_server.c:455-456 | the private packet is marked empty |
| Common.ModOfCounter | common/vring.c:232 | a slot computed from a wrapped 16-bit counter is that of the count when num divides 2^16 |
| Routines.AheadFirst | common/vring.c:213 | the reclaim cursor meets used->idx after (used->idx - u_idx) mod num turns and not before |
| Routines.ReclaimEndsIff | common/vring.c:211-215 | the reclaim loop ends if and only if used->idx is below num |
| Routines.ReclaimHangCycles | common/vring.c:194-215 | after one round of a loop that does not end, following next from the head never leaves the freed descriptors |
| Routines.ProcessAllCounts | common/vring.c:321-332 | every turn moves both cursors, dropped packets included, and only packets that are not empty are handed over, in order |
| Routines.BatchArithmetic | common/vring.c:311-338 | count is (avail->idx - start) mod 2^16; both cursors and used->idx move by it; nothing else of the ring but used slots changes |
| Routines.ProcessAllUsed | common/vring.c:281-282 | the k-th used element of a batch is the k-th avail head with its packet's length; other slots keep theirs |
| Gather.PathIsLongest | common/vring.c:243-274 | the beginnings of a chain that stay below ETH_PACKET_SIZE are exactly the prefixes of what is taken |
| Gather.GatheredIsLongest | common/vring.c:243-274 | the same for a whole walk from its head |
| Gather.PositiveLengthsHalt | common/vring.c:244-274 | the walk ends on any chain, cyclic ones included, whose lengths are positive, whatever the rest of the table holds |
| Gather.EmptyLoopNeverHalts | common/vring.c:244-274 | a loop of empty descriptors is never left |
| Gather.HaltsIff | common/vring.c:244-274 | for any table at all the walk ends if and only if it does not leave the table, wrap its total, or get caught in a loop of empty descriptors |
| Gather.CopiesInsideIff | common/vring.c:258-267 | with the total kept in 32 bits every copy lies inside the buffer if and only if no total wraps |
| Gather.HaltsIffNotCaught | common/vring.c:244-274 | on a chain that stays in the table with headroom for the total, the walk ends if and only if it is not caught, below the bound, in a loop of empty descriptors; the rest of the table is arbitrary |
| Gather.PacketRoundTrip | common/vring.c:153-166 | of the packets put accepts those below 1508 bytes come out, as zero header and payload, and the others come out as nothing |
| Invariant.PutPopKeeps | common/vring.c:133-143 | taking the free head keeps the invariant |
| Invariant.PutFillKeeps | common/vring.c:145-166 | filling buffer and descriptor keeps it, whatever the consumer is doing |
| Invariant.PutStoreKeeps | common/vring.c:169 | writing the avail slot overwrites no entry still to be reclaimed |
| Invariant.PutBumpKeeps | common/vring.c:170 | publishing keeps it, across 16-bit wrap |
| Invariant.ReclaimTestExact | common/vring.c:213 | where meaningful the reclaim test asks whether something published is unreclaimed |
| Invariant.ReclaimSlot | common/vring.c:214 | the used slot at the reclaim cursor names the oldest unreclaimed descriptor |
| Invariant.ReclaimOneKeeps | common/vring.c:187-214 | freeing one descriptor keeps the invariant |
| Invariant.BatchTestExact | common/vring.c:323 | the consumer's empty test is never fooled by the wrap |
| Invariant.PacketFound | common/vring.c:233-274 | the consumer finds the zero header and the payload of the oldest unconsumed put |
| Invariant.BatchOneKeeps | common/vring.c:327-331 | one turn of the batch overwrites no used entry still to be reclaimed and keeps the invariant |
| Invariant.BatchPublishKeeps | common/vring.c:335 | publishing used->idx keeps the invariant |
| Invariant.StepKeeps | common/vring.c:127-338 | every step of either side keeps the invariant |
| Invariant.RunKeeps | common/vring.c:127-338 | so does every run |
| Runs.FreshHolds | common/vring.c:43-74 | a freshly set up ring satisfies the invariant |
| Runs.Conservation | common/vring.c:127-338 | in every reachable state free list, descriptor in hand, unreclaimed, unpublished and unconsumed entries, read off shared memory and cursors, are exactly 0..num-1, each once, and the free list ends in VRING_IDX_NONE |
| RunTheorems.FifoExactlyOnce | common/vring.c:127-338 | what was handed over is always a prefix of what was accepted, and all of it once the empty test succeeds with nothing in flight; no header is complained about |
| RunTheorems.BatchTerminates | common/vring.c:321-335 | one batch makes at most num turns and num + 1 tests, whatever the producer does meanwhile |
| RunTheorems.ReclaimBounded | common/vring.c:213-215 | one reclaim frees at most num descriptors, whatever the consumer does meanwhile |
| RunTheorems.AvailSlotFree | common/vring.c:169 | the avail slot about to be written holds no unconsumed entry |
| RunTheorems.UsedSlotFree | common/vring.c:281-282 | the used slot about to be written holds no unreclaimed entry |
| RunTheorems.Progress | common/vring.c:127-338 | each side's next step is enabled in every reachable state up to exactly the stated conditions, all accesses in range |
| Marks.DescriptorsMarked | common/vring.c:127-220 | over every run, a descriptor filled or published and not reclaimed has its packet's length, flags 0 and next 0xffff; a free one has 1528 bytes and the write flag |
| Marks.StepMarks | common/vring.c:127-338 | every step keeps this |
| RunTheorems.Lifetime | common/vring.c:207-220 | with the source's cursor a session accepts at most 2*num - 1 packets and avail->idx counts them without wrapping |
| Lifetime.LifetimeReached | common/vring.c:207-220 | any 2*num - 1 packets that fit are accepted by some session |
| RunTheorems.ReclaimLostForever | common/vring.c:207-220 | once used->idx has reached num no later reclaim test is meaningful |
| RunTheorems.StopResume | demo/vhost_server.c:227-258 | a restart with the fetched base conserves the descriptors, and keeps the protocol sound, exactly when nothing completed is unpublished, and between batches it changes nothing |
| Calls.PutReaches | common/vring.c:127-176 | from any reachable state an undisturbed put of a packet that fits, with a free descriptor, is a run of four steps |
| Calls.BatchReaches | common/vring.c:311-338 | from any reachable state an undisturbed batch is a run after which everything accepted and published has been handed over |
| Calls.FreeAllList | common/vring.c:187-215 | freeing ids in order puts them, reversed, before the free list |
| Calls.ReclaimRestores | common/vring.c:207-220 | a reclaim frees (used->idx - u_idx) mod num descriptors; the free list is their reverse followed by the old one, lengths back at BUFFER_SIZE |
| Calls.ReclaimReaches | common/vring.c:207-220 | from any reachable state with used->idx below num an undisturbed reclaim is a run that leaves nothing published unreclaimed |
| Oversize.OversizeConservedIff | common/vring.c:138-278 | in any reachable state of idle sides, pending packets included, an accepted packet of 1508 to 1528 bytes is dropped, all packets before it are delivered, one complaint is drawn exactly if a pending header is hit by a byte that is not zero, and descriptors are conserved exactly if the used slot passed over named the dropped one before |
| Oversize.PutAcceptsIff | common/vring.c:138-140 | in every reachable state exactly packets up to 1528 bytes are accepted, and a refusal changes nothing |
| Oversize.OversizeLoses | common/vring.c:138-278 | a run from a new ring, one packet and then an oversize one, after which descriptor 1 is neither free nor reclaimable |
| Oversize.PayloadSpared | common/vring.c:153-163 | whatever put_vring accepts, no byte behind another buffer's header changes |
| Oversize.HeaderSparedIff | common/vring.c:153-163 | another buffer's zero header stays zero exactly when the bytes that fall on it are zero |
| Oversize.PendingSpared | common/vring.c:258-303 | a packet pending during such a put is found with its payload whole, and complained about exactly when its header was hit |
| Oversize.AllSparedIff | common/vring.c:51-66 | with buffers in one row a pending header is hit exactly when the next descriptor is pending and the overrun is not zero |
| Setup.OverrunInPage | common/vring.c:153-163 | on the rings of the handshake, in any reachable state, the overrun stays in the ring's page and can hit only the next descriptor |
| Coherence.MapGuestZero | demo/vhost_server.c:85-101 | the guest map answers 0 exactly outside every region |
| Coherence.MapUserZero | demo/vhost_server.c:103-119 | the user map answers 0 exactly outside every region |
| Coherence.MapGuestAt | demo/vhost_server.c:85-101 | an offset in a region goes to that offset of its mapping |
| Coherence.MapUserAt | demo/vhost_server.c:103-119 | likewise for user addresses |
| Coherence.MapsInjective | demo/vhost_server.c:85-119 | both maps are injective over mapped addresses |
| Coherence.SameByte | demo/vhost_server.c:85-119 | at any mmap_offset, a client address inside what the server mapped and the server's answers for it denote one shared byte, and both maps agree |
| Coherence.SameByteIff | demo/vhost_server.c:168-173 | at any mmap_offset and offset in the region, the two views of a byte agree exactly when it is inside the mapping or another mapping continues it |
| Coherence.WholeRegionIff | demo/vhost_server.c:168-173 | for a region with an object of its own they agree exactly on the mapped bytes, and on the whole region exactly when mmap_offset is 0 |
| Coherence.SameBuffer | common/vring.c:146-151 | a buffer inside what is mapped of a region is the same shared bytes, for the client under its own address and for the server under the guest address |
| Layout.AlignIsLeast | include/common.h:30 | for a power of two and no overflow ALIGN(v,b) is the least multiple of b not below v |
| Layout.Constants | demo/vhost_client.c:28-29 | offsets and page size are what the alignments of struct vhost_vring and ALIGN give |
| Layout.NewVring | common/vring.c:43-66 | every descriptor new_vring writes, in figures: addresses from 860160 on, 1528 apart, length 1528, flag 2, linked in order, the last to 0xffff |
| Layout.LaidOutFigures | include/common.h:24-26 | the layout the other theorems start from is that one |
| Layout.LaidOutSound | common/vring.c:51-66 | buffers are aligned, apart, behind the control structure and inside the region; the free list is 0..num-1 in order |
| Server.VhostServer.constructor | demo/vhost_server.c:49-61 | a new server has no regions and initialised vrings |
| Server.VhostServer.MapGuestAddr | demo/vhost_server.c:85-101 | the loop answers as the first region that has the address |
| Server.VhostServer.MapUserAddr | demo/vhost_server.c:103-119 | likewise for user addresses |
| Server.VhostServer.SetMemTable | demo/vhost_server.c:150-182 | slots filled by message index for valid descriptors only, valid ones counted, mappings added |
| Server.VhostServer.SetVringAddr | demo/vhost_server.c:209-231 | translated pointers, and last_used_idx read from the shared used ring |
| Server.VhostServer.SetVringKick | demo/vhost_server.c:325-353 | kickfd, polling flag, and listening for TX only |
| Server.VhostServer.InMsg | demo/vhost_server.c:391-426 | state and reply after any message, a positive result exactly when there is a reply |
| Handlers.VringByField | demo/vhost_server.c:193-384 | each field of each vring changes by its own message to that vring, to what, and by nothing else |
| Handlers.ServerByField | demo/vhost_server.c:121-384 | table, polling, listening and answer likewise; only the kick of TX is listened for |
| Handlers.ListensTo | demo/vhost_server.c:325-353 | after any conversation the server listens to the TX kick descriptors it was sent, in order, and polls exactly if the last kick came without one |
| Handlers.FdBits | include/vhost_user.h:62-63 | bits 0 to 7 of a kick or call are the vring, bit 8 says that there is no descriptor |
| Handlers.TableByIndex | demo/vhost_server.c:150-182 | with any mix of valid and invalid descriptors, slots by message index, the others unchanged, valid ones counted |
| Handlers.AllKnownIff | demo/vhost_server.c:85-182 | every region with a valid descriptor is known to the maps if and only if valid descriptors come first |
| Handlers.MapsMade | demo/vhost_server.c:168-173 | a valid region is mapped unless the mapping fails, and mappings are only added |
| Handshake.MemTableMirrors | demo/vhost_server.c:150-182 | SET_MEM_TABLE with any table of up to 8 described regions, each at its own mmap_offset in its object, makes any server mirror that memory |
| Handshake.MemTableMaps | demo/vhost_server.c:150-182 | with the client's own table the server, new or not, then knows exactly the client's regions |
| Handshake.HostVringAgrees | common/vring.c:78-108 | set_host_vring makes one vring agree with the client's and leaves the other alone; the server then does not poll, and listens for the kick only of TX |
| Handshake.HandshakeAgrees | demo/vhost_client.c:79-136 | after the messages of init_vhost_client the server, new or not, mirrors the client's memory, both its vrings have the client's num, base 0, the shared used index, and pointers to the same shared bytes, and it waits for kicks on TX without polling |
| Handshake.HandshakeEstablishes | demo/vhost_client.c:127-136 | on rings as new_vring left them that is a fresh state of the ring protocol, for TX and for RX |
| Setup.DemoBegins | demo/vhost_client.c:127-136 | for both rings at once that is the beginning of the demo |
| Setup.Start | demo/vhost_client.c:79-136 | a set-up carried out as bytes on a socket ends where every later play of the demo gives the client only what it sent, in order, no packet twice |
| Handshake.BaseHandsOver | demo/vhost_server.c:233-258 | the base one server answers gives another its available cursor, and its used cursor comes from shared memory |
| Resume.ServerTakesOver | demo/vhost_server.c:227-258 | TX taken over by a server that maps the memory elsewhere, given the fetched base: descriptors are conserved exactly when nothing was unpublished, and between batches every later run delivers what is sent, in order, as if there had been one server |
| Resume.ServerTakesOverRx | demo/vhost_server.c:227-258 | RX taken over likewise: descriptors are conserved exactly when no put was under way and everything published was reclaimed, and then later runs go on |
| Wire.FrameRoundTrip | common/common.c:60-65 | a framed message is received as sent and leaves the stream at what follows |
| Wire.ParseRoundTrip | common/common.c:173-229 | the fields of every supported request survive |
| Wire.ConversationRoundTrip | common/common.c:92-146 | any sequence of supported requests is received message by message to the end of the stream |
| Wire.RepliesMatch | common/unsock.c:143-153 | the server answers exactly the requests the client waits for, with matching request, version and fields |
| Wire.ReplyFlagsBits | common/unsock.c:144-147 | version 1, the reply bit set, all other bits kept |
| Figures.Headers | include/vring.h:14-85 | sizes, offsets and indices in figures |
| Figures.DescFlags | include/vring.h:27-32 | the chain flag is bit 0, the write flag is 2 |
| Figures.LittleEndian | common/common.c:60-65 | numbers on the socket, byte by byte |
| Figures.MessageImage | common/common.c:149-229 | request number, flags, size and fields of every message, in figures |
| Figures.RegionImage | include/vhost_user.h:20-25 | the four fields of a region, in order |
| Figures.ReplyImage | common/unsock.c:143-153 | the bytes of both answers |
| Figures.KickNeedsFd | common/common.c:215-224 | a kick or call is acceptable to the server exactly when the client has a descriptor above 0 to attach |
| Figures.SetupOrder | demo/vhost_client.c:92-120 | the request numbers of the set-up, in order |
| Figures.VringMessages | common/vring.c:78-108 | what the five messages of a vring say, in figures |
| Socket.Stream.SendFds | common/common.c:43-88 | message bytes and attached descriptors go to the end of the stream |
| Socket.Stream.RecvFds | common/common.c:92-146 | -1 on a failed or truncated receive with what that costs the stream, 0 at its end, else the header, then as many bytes as it announces, and the attached descriptors |
| Socket.VhostIoctl | common/common.c:149-235 | the bytes and descriptors put on the socket, the size added up region by region |
| Socket.ReceiveSockServer | common/unsock.c:100-163 | an error changes nothing, the end of the stream takes the socket off the list, and else the sent request is handled, its reply sent with version and reply bit or the failed send reported, the stream left at the next message |
| Socket.TakeReply | common/common.c:237-261 | the client's asserts on the answer hold and it takes from it what the server answered |
| Session.SetOneVring | common/vring.c:78-108 | the client's calls put the messages for one vring on the stream |
| Session.SetHostVringTable | common/vring.c:111-123 | and those for both, in order |
| Session.OpenSession | demo/vhost_client.c:92-105 | the stream carries SET_OWNER and GET_FEATURES |
| Session.SendSetup | demo/vhost_client.c:107-120 | and then the memory table and the messages of both vrings |
| Session.AnswersAreAwaited | common/unsock.c:143-153 | over any conversation the answers are those to the requests whose sender waits, one each, in order, and each is understood |
| Session.InitClient | demo/vhost_client.c:79-120 | the client waits for the answer to GET_FEATURES before the rest; it reads the server's features, and the server ends knowing its memory with both vrings agreeing, waiting for TX kicks, nothing left on either stream |
| Session.Serve | common/unsock.c:100-163 | the receiving loop ends where the handlers of the carried messages lead, with the stream used up and the answers, in order, on the other stream |
| Session.Connect | demo/vhost_client.c:79-120 | sent as bytes and served by a new server, the set-up leaves both sides in agreement, and the server listening for the TX kick and not polling |
| Echo.EchoSafety | demo/vhost_server.c:428-474 | over every interleaving what the client receives is an order-preserving selection of what it sent, no packet twice, and the k-th RX put uses descriptor k |
| Echo.ForwardsLast | demo/vhost_server.c:443-457 | a forward is of the packet consumed last, for the first time |
| Echo.ForwardAccepted | demo/vhost_server.c:443-457 | a waiting packet can be forwarded exactly while fewer than num have been |
| Demo.PollClient | demo/vhost_client.c:217-233 | reclaim, then put, on the TX ring |
| Demo.PollServer | demo/vhost_server.c:428-461 | nothing before RX is set up; then a batch exactly when polling with TX set up, TX untouched otherwise, the packet kept last put on RX, and none kept afterwards |
| Turns.PollClientPlays | demo/vhost_client.c:217-233 | from any reachable state of the demo with something free or reclaimable, an undisturbed client turn meets what the calls need and is a play that sends one message |
| Turns.PollServerPlays | demo/vhost_server.c:428-461 | an undisturbed server turn is a play to its batch and, exactly if RX has a free descriptor, on to the forward |
| Turns.KickThenPoll | demo/vhost_server.c:298-320 | a kick that takes the batch and a turn without polling that forwards are a play likewise |
| Turns.KickClientPlays | demo/vhost_client.c:191-215 | the client's batch on RX when kicked is a play after which it has received all that was forwarded |
| Turns.MessageComesBack | demo/vhost_server.c:428-461 | from any reachable drained state with descriptors free, a client turn, a server turn, kicked or polling, and a kick of the client bring the message back as the next one received, and both rings are drained again |
| FdList.AddRefines | common/fd_list.c:55-70 | adding succeeds exactly below FD_LIST_SIZE live descriptors and adds one occurrence |
| FdList.DelRefines | common/fd_list.c:72-85 | deleting removes one occurrence, or fails and changes nothing |
| FdList.TableIsBag | common/fd_list.c:41-85 | any sequence of calls answers and ends as a bounded multiset does |
| FdList.AddKeepsNode | common/fd_list.c:55-70 | adding puts just the given descriptor, context and handler into the table and keeps every other entry |
| FdList.DelTakesNode | common/fd_list.c:72-85 | deleting takes out one entry for the descriptor and keeps every other |
| FdList.NodesAreAdded | common/fd_list.c:16-85 | after any sequence of calls every entry was there or was added, context and handler included, and free slots are clean |
| FdList.CalledIff | common/fd_list.c:117-135 | exactly the entries with a handler whose descriptor is ready are called |
| FdList.AddedIsCalled | common/fd_list.c:55-135 | a handler added for a descriptor is called with its context when that is ready |
| FdList.FdTable.constructor | common/fd_list.c:27-39 | both tables start without live descriptors |
| FdList.FdTable.Find | common/fd_list.c:41-52 | the first slot with the descriptor, or none |
| FdList.FdTable.AddFd | common/fd_list.c:55-70 | the first free slot is filled, or -1 |
| FdList.FdTable.DelFd | common/fd_list.c:72-85 | the first matching slot is reset, or -1 |
| FdList.FdTable.GetFdSet | common/fd_list.c:92-109 | exactly the live descriptors, and their maximum |
| FdList.FdTable.ProcessFdSet | common/fd_list.c:117-135 | the number of ready slots, and the calls in slot order |

## Left out

- RunTheorems.FifoExactlyOnce: covers puts below ETH_PACKET_SIZE and, for the source's cursor, reclaim tests with used->idx below num; what happens outside is stated by Oversize.OversizeConservedIff and Routines.ReclaimEndsIff.
- Gather.PacketRoundTrip: is about a packet's own buffer; what one of 1519 to 1528 bytes does to the others is stated in Oversize.
- Vring.VringEnd.ProcessDesc: excludes gathered totals of 1 to 9 bytes, for which the code's size wraps and it reads past what it gathered; Vring.VringEnd.GatherChain covers them.
- Vring.VringEnd.TakeOne: as Vring.VringEnd.ProcessDesc.
- Vring.VringEnd.ProcessAvail: as Vring.VringEnd.ProcessDesc.
- Handshake.MemTableMirrors: assumes all descriptors valid; for other tables see Handlers.TableByIndex and Handlers.AllKnownIff.
- FdList.FdTable.ProcessFdSet: handlers that add or delete descriptors while the table is gone through are not modelled; the server's list of kick descriptors has no bound.
- Echo.EchoSafety: a packet without payload is consumed and not forwarded, since its length 0 marks the private packet empty.
- Socket.Stream.RecvFds: does not model short reads, after which the code goes on with what the message happened to hold.
- Socket.ReceiveSockServer: short reads and messages that the assertions of the handlers refuse are not modelled; GET_VRING_BASE is sent without payload, so its index is a parameter.
- Shared memory of the two rings is kept apart: each ring of Echo has its own bytes, as each lies in its own region.
- The control structures are arrays beside the packet bytes, not bytes themselves; Layout.LaidOutSound says they do not meet the buffers.
- Hardware memory ordering, `sync_shm`, `mmap` and `shm_unlink`: accesses are sequentially consistent and a mapping is a window on shared bytes.
- Sockets, `select`, eventfd and `kick`: a stream is a byte sequence with attached descriptors, and a kick is that a batch may begin.
- `vgpu_host.c` repeats the server.
- `common/stat.c`, `common/debug.c`, `main.c`, signals and logging.
- Features of vhost-user that the code does not have: log pages, IOTLB, inflight tracking, packed rings, ring enable.
