/** The client's allreduce call: the ring loop with its buffers and byte-order conversions. */
module Allreduce {
  import opened Payloads
  import opened ByteOrder
  import opened ClientWindow
  import opened ClientSchedule
  import opened ClientBuffers

  /** Work request identifiers carry the direction above bit 32 and the ring element below. */
  const RECV_WR: nat := 0x1_0000_0000
  const SEND_WR: nat := 0x2_0000_0000

  /** One call on words `sbuf[0..count)` and `dbuf[0..count)`.  `buf` is the registered memory, four
      send chunks and then four receive chunks; it is page aligned. */
  class Call {
    const sbuf: array<Word>
    const dbuf: array<Word>
    const buf: array<Word>
    const sAddr: nat
    const dAddr: nat
    const count: nat
    /** What the network delivers, as numbers: the result of every chunk, padding included. */
    const results: seq<Word>
    var ring: seq<Elem>
    var sendPos: nat
    var outstanding: nat
    var ringPos: nat
    ghost var n: Counts

    ghost predicate Layout() {
      && sbuf != buf && dbuf != buf && sbuf != dbuf
      && sAddr % 4 == 0 && dAddr % 4 == 0
      && sbuf.Length >= SourceEnd(count) && dbuf.Length >= DestEnd(count, dAddr)
      && buf.Length >= ReadEnd(count, dAddr)
      && |results| == At(Chunks(count))
    }

    ghost predicate Valid()
      reads this, sbuf, dbuf, buf
    {
      && Layout() && LoopOk(count, ring, sendPos, outstanding, ringPos, n)
      && AllFilled(count, sbuf[..], buf[..], n.sent, n.posted)
      && Stored(count, dbuf[..], results, n.received)
    }

    predicate Busy()
      reads this
    {
      sendPos < count || outstanding > 0
    }

    constructor (sbuf: array<Word>, dbuf: array<Word>, buf: array<Word>, sAddr: nat, dAddr: nat, count: nat,
                 results: seq<Word>)
      requires sbuf != buf && dbuf != buf && sbuf != dbuf
      requires sAddr % 4 == 0 && dAddr % 4 == 0
      requires sbuf.Length >= SourceEnd(count) && dbuf.Length >= DestEnd(count, dAddr)
      requires buf.Length >= ReadEnd(count, dAddr)
      requires |results| == At(Chunks(count))
      ensures Valid() && n == Counts(0, 0, 0)
      ensures this.sbuf == sbuf && this.dbuf == dbuf && this.buf == buf && this.count == count && this.results == results
    {
      this.sbuf, this.dbuf, this.buf := sbuf, dbuf, buf;
      this.sAddr, this.dAddr, this.count, this.results := sAddr, dAddr, count, results;
      ring := [Elem(0, 0, 0), Elem(0, 0, 0), Elem(0, 0, 0), Elem(0, 0, 0)];
      sendPos, outstanding, ringPos := 0, 0, 0;
      n := Counts(0, 0, 0);
    }

    /** Posts the next chunk into a free ring element. */
    method Post(next: nat)
      requires Valid() && sendPos < count
      requires next == Slot(n.posted) && ring[next].status == 0
      modifies this`ring, this`sendPos, this`outstanding, this`ringPos, this`n, buf
      ensures Valid() && n == old(n).(posted := old(n).posted + 1)
      ensures n.posted <= Chunks(count) && buf[..] == PostBuf(count, sbuf[..], old(buf[..]), old(n).posted)
    {
      hide LoopOk, AllFilled, Stored, PostBuf, Size, Start, At, Min, Chunks, Slot;
      ghost var c := n.posted;
      LoopFacts(count, ring, sendPos, outstanding, ringPos, n);
      PostLoop(count, ring, sendPos, outstanding, ringPos, n);
      FillNext(count, sbuf[..], buf[..], n.sent, c);
      var toSend := Min(CHUNK, count - sendPos);
      Fill(sendPos, next, toSend, c);
      ringPos := next;
      ring := ring[next := Elem(2, sendPos, toSend)];
      outstanding := outstanding + 2;
      sendPos := sendPos + toSend;
      n := n.(posted := c + 1);
    }

    /** Converts chunk c into its send buffer. */
    method Fill(from: nat, slot: nat, toSend: nat, ghost c: nat)
      requires Layout() && c < Chunks(count)
      requires from == Start(count, c) && slot == Slot(c) && toSend == Size(count, c)
      modifies buf
      ensures buf[..] == PostBuf(count, sbuf[..], old(buf[..]), c)
    {
      FillCall(count, sAddr, c);
      hide Spliced, Start, Size, Slot, At, Extent, FillExtent;
      var ok := Convert(sbuf, from, sAddr + 4 * from, buf, At(slot), 4 * At(slot), toSend);
    }

    /** "Fill ring with new WRs".  The next chunk is posted exactly when the chunk four before it has been
        both sent and received; its words are converted into its send buffer. */
    method TryPost() returns (did: bool)
      requires Valid()
      modifies this`ring, this`sendPos, this`outstanding, this`ringPos, this`n, buf
      ensures Valid() && n == Posted(count, old(n))
      ensures did <==> old(sendPos < count && n.posted < n.sent + RING && n.posted < n.received + RING)
      ensures did <==> old(CanPost(count, n))
      ensures did ==> Left(count, n) == Left(count, old(n)) - 1
      ensures buf[..] == if did then PostBuf(count, sbuf[..], old(buf[..]), old(n).posted) else old(buf[..])
    {
      hide PostBuf, AllFilled, Stored, RingOk;
      LoopFacts(count, ring, sendPos, outstanding, ringPos, n);
      did := false;
      if sendPos < count {
        var next := (ringPos + 1) % RING;
        NextSlot(ringPos, n.posted);
        NextFree(count, ring, n);
        if ring[next].status == 0 {
          Post(next);
          did := true;
        }
      }
    }

    /** A send completion. */
    method SendDone(pos: nat)
      requires Valid() && n.sent < n.posted && pos == Slot(n.sent)
      modifies this`ring, this`outstanding, this`n
      ensures Valid() && n == old(n).(sent := old(n).sent + 1) && Left(count, n) == Left(count, old(n)) - 1
    {
      hide LoopOk, Filled, Stored, Slot, Chunks;
      LoopFacts(count, ring, sendPos, outstanding, ringPos, n);
      SendLoop(count, ring, sendPos, outstanding, ringPos, n);
      ring := ring[pos := ring[pos].(status := ring[pos].status - 1)];
      outstanding := outstanding - 1;
      n := n.(sent := n.sent + 1);
    }

    /** The adapter writes one chunk from the network into registered memory. */
    method Dma(from: nat, to: nat)
      requires from + CHUNK <= |results| && to + CHUNK <= buf.Length
      modifies buf
      ensures forall m | to <= m < to + CHUNK :: buf[m] == Swap(results[from + (m - to)])
      ensures forall m | 0 <= m < to :: buf[m] == old(buf[m])
      ensures forall m | to + CHUNK <= m < buf.Length :: buf[m] == old(buf[m])
    {
      hide Swap;
      forall m | to <= m < to + CHUNK {
        buf[m] := Swap(results[from + (m - to)]);
      }
    }

    /** The result of the next chunk arrives in its posted receive buffer. */
    method Receive(c: nat)
      requires Valid() && c == n.received < n.posted
      modifies buf
      ensures Valid() && Arrived(count, buf[..], results, c)
    {
      ghost var b := buf[..];
      RecvLoop(count, ring, sendPos, outstanding, ringPos, n);
      RecvBounds(count, c);
      hide LoopOk, AllFilled, Stored, Swap, At, RecvAt, Chunks;
      Dma(At(c), RecvAt(c));
      ReceiveKeeps(count, sbuf[..], b, buf[..], n.sent, n.posted);
    }

    /** Converts the result of chunk c into place. */
    method Store(pos: nat, offset: nat, size: nat, ghost c: nat)
      requires Layout() && c < Chunks(count)
      requires pos == Slot(c) && offset == Start(count, c) && size == Size(count, c)
      modifies dbuf
      ensures dbuf[..] == StoreBuf(count, dAddr, old(dbuf[..]), buf[..], c)
    {
      hide Spliced, Start, Size, Slot, At, Extent, RecvAt, StoreExtent, Chunks;
      StoreCall(count, dAddr, c);
      StoreRoom(count, dAddr, c);
      var ok := Convert(buf, At(RING + pos), 4 * At(RING + pos), dbuf, offset, dAddr + 4 * offset, size);
    }

    /** A receive completion: the result is converted into place.  Receives complete in posting order,
        so the words a conversion spills past its chunk are put right by the next one. */
    method RecvDone(pos: nat)
      requires Valid() && n.received < n.posted && pos == Slot(n.received)
      requires Arrived(count, buf[..], results, n.received)
      modifies this`ring, this`outstanding, this`n, dbuf
      ensures Valid() && n == old(n).(received := old(n).received + 1) && Left(count, n) == Left(count, old(n)) - 1
      ensures old(n).received < Chunks(count) && dbuf[..] == StoreBuf(count, dAddr, old(dbuf[..]), buf[..], old(n).received)
    {
      hide LoopOk, AllFilled, Arrived, Stored, StoreBuf, Size, Start, At, Slot, Chunks;
      ghost var c := n.received;
      LoopFacts(count, ring, sendPos, outstanding, ringPos, n);
      RecvLoop(count, ring, sendPos, outstanding, ringPos, n);
      StoreMore(count, dAddr, buf[..], dbuf[..], results, c);
      Store(pos, ring[pos].offset, ring[pos].size, c);
      ring := ring[pos := ring[pos].(status := ring[pos].status - 1)];
      outstanding := outstanding - 1;
      n := n.(received := c + 1);
    }

    /** One entry of a completion queue poll: the work request identifier tells a send from a
        receive and names the ring element. */
    method Complete(wrId: nat, ghost isSend: bool)
      requires Valid()
      requires isSend ==> n.sent < n.posted && wrId == SEND_WR + Slot(n.sent)
      requires !isSend ==> n.received < n.posted && wrId == RECV_WR + Slot(n.received)
      requires !isSend ==> Arrived(count, buf[..], results, n.received)
      modifies this`ring, this`outstanding, this`n, dbuf
      ensures Valid() && n == Completed(old(n), isSend)
      ensures isSend ==> dbuf[..] == old(dbuf[..])
      ensures !isSend ==> old(n).received < Chunks(count) && dbuf[..] == StoreBuf(count, dAddr, old(dbuf[..]), buf[..], old(n).received)
    {
      hide LoopOk, AllFilled, Stored, Arrived, StoreBuf;
      if wrId >= SEND_WR {
        SendDone(wrId - SEND_WR);
      } else {
        RecvDone(wrId - RECV_WR);
      }
    }

    /** The completions of one poll, `true` for a send and `false` for a receive, whose result the
        network has written first.  Completions of either kind come in posting order, and only for
        requests that are outstanding. */
    method Poll(poll: seq<bool>, posts: nat, sends: nat, recvs: nat) returns (sends': nat, recvs': nat)
      requires Valid() && n == Counts(posts, sends, recvs)
      modifies this`ring, this`outstanding, this`n, buf, dbuf
      ensures Valid() && n == Counts(posts, sends', recvs') == AllCompleted(old(n), poll)
      ensures dbuf[..][DestEnd(count, dAddr)..] == old(dbuf[..])[DestEnd(count, dAddr)..]
    {
      hide LoopOk, AllFilled, Stored, Arrived, StoreBuf;
      sends', recvs' := sends, recvs;
      for j := 0 to |poll|
        invariant Valid() && n == Counts(posts, sends', recvs') == AllCompleted(old(n), poll[..j])
        invariant dbuf[..][DestEnd(count, dAddr)..] == old(dbuf[..])[DestEnd(count, dAddr)..]
      {
        assert poll[..j + 1][..j] == poll[..j];
        if poll[j] && sends' < posts {
          Complete(SEND_WR + Slot(sends'), true);
          sends' := sends' + 1;
        } else if !poll[j] && recvs' < posts {
          Receive(recvs');
          ghost var d := dbuf[..];
          Complete(RECV_WR + Slot(recvs'), false);
          StoreBeyond(count, dAddr, d, buf[..], recvs');
          recvs' := recvs' + 1;
        }
      }
      assert poll[..|poll|] == poll;
    }

    /** The whole loop.  Each iteration posts at most one chunk and then handles one poll of the
        completion queue.  The loop ends exactly when every chunk is posted, sent and received, and it
        does end in every schedule that is three iterations per chunk longer than its idle ones. */
    method Run(polls: seq<seq<bool>>) returns (finished: bool)
      requires Valid() && n == Counts(0, 0, 0)
      modifies this`ring, this`sendPos, this`outstanding, this`ringPos, this`n, buf, dbuf
      ensures Valid() && n == Replay(count, polls)
      ensures finished <==> !Busy()
      ensures finished <==> n == Done(count)
      ensures |polls| >= 3 * Chunks(count) + Idle(count, polls) ==> finished
      ensures finished ==> forall k | 0 <= k < count :: k < |results| && dbuf[k] == results[k]
      ensures dbuf[..][DestEnd(count, dAddr)..] == old(dbuf[..])[DestEnd(count, dAddr)..]
    {
      hide LoopOk, AllFilled, Stored, Arrived, Chunks;
      var i, posts, sends, recvs := 0, 0, 0, 0;
      LoopEnds(count, ring, sendPos, outstanding, ringPos, n);
      while i < |polls| && Busy()
        invariant i <= |polls| && Valid()
        invariant n == Counts(posts, sends, recvs) == Replay(count, polls[..i])
        invariant Busy() <==> n != Done(count)
        invariant dbuf[..][DestEnd(count, dAddr)..] == old(dbuf[..])[DestEnd(count, dAddr)..]
      {
        assert polls[..i + 1][..i] == polls[..i];
        var did := TryPost();
        if did { posts := posts + 1; }
        sends, recvs := Poll(polls[i], posts, sends, recvs);
        LoopEnds(count, ring, sendPos, outstanding, ringPos, n);
        i := i + 1;
      }
      finished := !Busy();
      if finished {
        ReplayStays(count, polls, i);
        StoredAll(count, dbuf[..], results);
      } else {
        assert polls[..i] == polls;
      }
      if |polls| >= 3 * Chunks(count) + Idle(count, polls) { Finishes(count, polls); }
    }
  }
}
