/** One turn of the poll loops of the demo client and the demo server. */
module Demo {
  import opened Common
  import opened Routines
  import opened Vring

  /** poll_client: give back what the server has completed, then send one packet. */
  method PollClient(tx: VringEnd, message: seq<byte>) returns (r: int)
    requires tx.Valid() && ReclaimSafe(tx.shm.Val(), tx.num, tx.Cur())
    requires var (ring, cur) := Reclaim(tx.shm.Val(), tx.num, tx.Cur());
             PutSafe(ring, tx.num, tx.proc, cur, message)
    modifies tx`lastAvail, tx`lastUsed, tx.shm`availIdx, tx.shm.desc, tx.shm.avail, tx.shm.mem
    ensures tx.Valid()
    ensures var (ring, cur) := Reclaim(old(tx.shm.Val()), tx.num, old(tx.Cur()));
            (r, tx.shm.Val(), tx.Cur()) == Put(ring, tx.num, tx.proc, cur, message)
  {
    hide Routines.Put, Reclaim, ReclaimSafe, PutSafe;
    tx.ProcessUsed();
    r := tx.Put(message);
  }

  /** What a batch writes at its end of a vring, if that is set up. */
  ghost function TakeFrame(tx: VringEnd?): set<object> {
    if tx == null then {} else {tx, tx.shm, tx.shm.used}
  }

  /** What a put writes at its end of a vring, if that is set up. */
  ghost function PutFrame(rx: VringEnd?): set<object> {
    if rx == null then {} else {rx, rx.shm, rx.shm.desc, rx.shm.avail, rx.shm.mem}
  }

  /** The vrings of a server that are set up lie in different regions, neither of them in its
      private packet, which TX fills. */
  ghost predicate Separate(tx: VringEnd?, rx: VringEnd?, packet: PacketBuffer) {
    && (tx != null ==> tx.sink == packet)
    && (rx != null ==>
          && rx.sink == null
          && rx.shm.mem as object != packet.buffer as object && rx.shm.avail as object != packet.buffer as object)
    && (tx != null && rx != null ==>
          && tx != rx && tx.shm != rx.shm
          && tx.shm.desc != rx.shm.desc && tx.shm.avail != rx.shm.avail
          && tx.shm.used != rx.shm.used && tx.shm.mem != rx.shm.mem
          && tx.shm.avail as object != rx.shm.mem as object && tx.shm.mem as object != rx.shm.avail as object)
  }

  /** What the private packet is after the batch, if there is one. */
  ghost function ToForward(tx: VringEnd?, rx: VringEnd?, packet: PacketBuffer, isPolling: bool): seq<byte>
    requires packet.Valid()
    requires rx != null && isPolling && tx != null ==> BatchSafe(tx.shm.Val(), tx.num, tx.proc, tx.Cur())
    reads packet, packet.buffer
    reads if tx == null then {} else {tx, tx.shm, tx.shm.desc, tx.shm.avail, tx.shm.used, tx.shm.mem}
  {
    if rx != null && isPolling && tx != null
    then LastOr(packet.Contents(), tx.delivered, Batch(tx.shm.Val(), tx.num, tx.proc, tx.Side()).1.delivered)
    else packet.Contents()
  }

  /** poll_server, `tx` and `rx` null while the vring is not set up: without RX nothing; else, when
      polling, take a batch from TX, then put the packet kept last on RX, if there is one; afterwards
      none is kept, whether or not the put was accepted. A server that does not poll leaves TX alone. */
  method PollServer(tx: VringEnd?, rx: VringEnd?, packet: PacketBuffer, isPolling: bool) returns (count: nat, r: int)
    requires packet.Valid() && (tx != null ==> tx.Valid()) && (rx != null ==> rx.Valid()) && Separate(tx, rx, packet)
    requires rx != null && isPolling && tx != null ==> BatchSafe(tx.shm.Val(), tx.num, tx.proc, tx.Cur())
    requires rx != null && ToForward(tx, rx, packet, isPolling) != [] ==>
               PutSafe(rx.shm.Val(), rx.num, rx.proc, rx.Cur(), ToForward(tx, rx, packet, isPolling))
    modifies TakeFrame(tx), PutFrame(rx), packet, packet.buffer
    ensures packet.Valid() && (tx != null ==> tx.Valid()) && (rx != null ==> rx.Valid())
    ensures tx != null && (rx == null || !isPolling) ==>
              count == 0 && tx.shm.Val() == old(tx.shm.Val()) && tx.Side() == old(tx.Side())
    ensures tx != null && rx != null && isPolling ==>
              BatchYields(old(tx.shm.Val()), tx.num, tx.proc, old(tx.Side()), tx.shm.Val(), tx.Side(), count)
    ensures rx != null ==>
              var next := if tx != null && |old(tx.delivered)| < |tx.delivered|
                          then tx.delivered[|tx.delivered| - 1] else old(packet.Contents());
              && rx.Side() == old(rx.Side()).(cursors := rx.Cur())
              && if next == [] then rx.shm.Val() == old(rx.shm.Val()) && rx.Cur() == old(rx.Cur())
                 else PutSafe(old(rx.shm.Val()), rx.num, rx.proc, old(rx.Cur()), next)
                      && (r, rx.shm.Val(), rx.Cur()) == Put(old(rx.shm.Val()), rx.num, rx.proc, old(rx.Cur()), next)
    ensures packet.Contents() == if rx == null then old(packet.Contents()) else []
  {
    hide Routines.Put, PutSafe, BatchSafe, Batch;
    count, r := 0, 0;
    if rx != null {
      if isPolling && tx != null {
        count := tx.ProcessAvail();
      }
      if packet.size > 0 {
        r := rx.Put(packet.buffer[..packet.size]);
        packet.Clear();
      }
    }
  }
}
