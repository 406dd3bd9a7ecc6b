/** What every step of the clients and the network keeps of a worker's memory: send buffers hold what
is still to be sent, receive buffers what has arrived, destinations what has been received. */
module ClusterInvariant {
  import opened Payloads
  import opened ByteOrder
  import opened ClientWindow
  import opened ClientSchedule
  import opened ClientBuffers
  import opened Cluster

  /** Word k of a sequence of packets. */
  function WordAt(rows: seq<Payload>, k: nat): Word {
    if k / PER_PACKET < |rows| then rows[k / PER_PACKET].Val(k % PER_PACKET) else 0
  }

  /** The words of a call's chunks among what a worker has received; b is the chunks before the call. */
  function Results(got: seq<Payload>, b: nat, count: nat): (r: seq<Word>)
    ensures |r| == At(Chunks(count))
  {
    seq<Word>(At(Chunks(count)), k requires 0 <= k < At(Chunks(count)) => WordAt(got, At(b) + k))
  }

  ghost predicate Holds(buf: seq<Word>, a: nat, p: Payload)
    requires a + PER_PACKET <= |buf|
  {
    forall k | 0 <= k < PER_PACKET :: buf[a + k] == Swap(p.Val(k))
  }

  /** Packets that have arrived for chunks not yet received are in their receive buffers. */
  ghost predicate Landed(b: nat, received: nat, buf: seq<Word>, got: seq<Payload>)
    requires |buf| >= BUF_WORDS
  {
    forall q | PER_CHUNK * (b + received) <= q < |got| :: Holds(buf, LandAt(b, q), got[q])
  }

  /** Packet q of a call carries the words of its source, as far as they go; the rest is padding. */
  ghost predicate Carries(sbuf: seq<Word>, count: nat, q: nat, p: Payload)
    requires |sbuf| >= count
  {
    forall r | 0 <= r < PER_PACKET && PER_PACKET * q + r < count :: p.Val(r) == sbuf[PER_PACKET * q + r]
  }

  /** Packet q belongs to call j. */
  predicate InCall(counts: seq<nat>, j: nat, q: nat) {
    j < |counts| && PER_CHUNK * Base(counts, j) <= q < PER_CHUNK * Base(counts, j + 1)
  }

  ghost predicate WireOk(plan: Plan, i: nat, wire: seq<Payload>)
    requires plan.JobsOk() && i < |plan.jobs|
  {
    forall q, j | 0 <= q < |wire| && 0 <= j < |plan.counts| && InCall(plan.counts, j, q) ::
      Carries(plan.jobs[i][j].sbuf, plan.counts[j], q - PER_CHUNK * Base(plan.counts, j), wire[q])
  }

  ghost predicate Sending(plan: Plan, i: nat, h: Host)
    requires plan.JobsOk() && HostShaped(plan, i, h) && i < |plan.jobs|
  {
    h.call < |plan.counts| ==>
      AllFilled(plan.counts[h.call], plan.jobs[i][h.call].sbuf, h.buf, h.n.sent, h.n.posted)
  }

  /** How many chunks of call j have been received. */
  function ReceivedOf(plan: Plan, h: Host, j: nat): nat {
    if j < h.call then Chunks(plan.Count(j)) else h.n.received
  }

  ghost predicate StoredCalls(plan: Plan, i: nat, h: Host, got: seq<Payload>)
    requires HostShaped(plan, i, h)
  {
    forall j | 0 <= j < |plan.counts| && j <= h.call ::
      Stored(plan.counts[j], h.dbufs[j], Results(got, Base(plan.counts, j), plan.counts[j]), ReceivedOf(plan, h, j))
  }

  ghost predicate HostInv(plan: Plan, i: nat, h: Host, wire: seq<Payload>, got: seq<Payload>)
    requires plan.JobsOk() && i < |plan.jobs|
  {
    && HostShaped(plan, i, h) && HostLocated(plan, i, h, |wire|, |got|)
    && Sending(plan, i, h) && Landed(Base(plan.counts, h.call), h.n.received, h.buf, got)
    && StoredCalls(plan, i, h, got) && WireOk(plan, i, wire)
  }

  lemma LandedFrame(b: nat, received: nat, buf: seq<Word>, buf': seq<Word>, got: seq<Payload>)
    requires |buf| == |buf'| >= BUF_WORDS && At(RING) <= BUF_WORDS
    requires buf'[At(RING)..] == buf[At(RING)..] && Landed(b, received, buf, got)
    ensures Landed(b, received, buf', got)
  {
    hide LandAt, At, Swap, Payload.Val;
    forall q | PER_CHUNK * (b + received) <= q < |got|
      ensures Holds(buf', LandAt(b, q), got[q])
    {
      var a := LandAt(b, q);
      assert Holds(buf, a, got[q]);
      forall k | 0 <= k < PER_PACKET
        ensures buf'[a + k] == Swap(got[q].Val(k))
      {
        assert buf'[a + k] == buf'[At(RING)..][a + k - At(RING)];
        assert buf[a + k] == buf[At(RING)..][a + k - At(RING)];
      }
    }
  }

  /** Calls that nothing has been received for are stored as before. */
  lemma StoredSame(plan: Plan, i: nat, h: Host, h': Host, got: seq<Payload>)
    requires HostShaped(plan, i, h) && HostShaped(plan, i, h') && StoredCalls(plan, i, h, got)
    requires h'.call == h.call && h'.dbufs == h.dbufs && h'.n.received == h.n.received
    ensures StoredCalls(plan, i, h', got)
  {
    hide Stored, Results, Chunks, Base;
  }

  /** Posting a chunk. */
  lemma PostOk(plan: Plan, i: nat, h: Host, wire: seq<Payload>, got: seq<Payload>)
    requires plan.JobsOk() && i < |plan.jobs| && HostInv(plan, i, h, wire, got) && CanPost(plan.Count(h.call), h.n)
    ensures HostInv(plan, i, PostHost(plan, i, h), wire, got)
  {
    hide PostBuf, AllFilled, Landed, StoredCalls, WireOk, Chunks, Base;
    InSome(plan, h);
    var j, c := h.call, h.n.posted;
    var count, sbuf := plan.counts[j], plan.jobs[i][j].sbuf;
    FillNext(count, sbuf, h.buf, h.n.sent, c);
    FillBelow(count, sbuf, h.buf, c);
    LandedFrame(Base(plan.counts, j), h.n.received, h.buf, PostBuf(count, sbuf, h.buf, c), got);
    StoredSame(plan, i, h, PostHost(plan, i, h), got);
  }

  /** Requests are open only during a call. */
  lemma InSome(plan: Plan, h: Host)
    requires plan.JobsOk() && (h.n.posted < Chunks(plan.Count(h.call)) || (Within(plan.Count(h.call), h.n) && h.n.posted > 0))
    ensures h.call < |plan.counts|
  {
  }

  lemma SendDoneOk(plan: Plan, i: nat, h: Host, wire: seq<Payload>, got: seq<Payload>)
    requires plan.JobsOk() && i < |plan.jobs| && HostInv(plan, i, h, wire, got) && h.n.sent < h.n.posted
    requires PER_CHUNK * (Base(plan.counts, h.call) + h.n.sent + 1) <= |wire|
    ensures HostInv(plan, i, h.(n := h.n.(sent := h.n.sent + 1)), wire, got)
  {
    hide Filled, StoredCalls, Landed, WireOk, Chunks, Base;
    StoredSame(plan, i, h, h.(n := h.n.(sent := h.n.sent + 1)), got);
  }

  /** A chunk whose packets have all arrived is complete in its receive buffer. */
  lemma LandedArrived(b: nat, c: nat, count: nat, buf: seq<Word>, got: seq<Payload>)
    requires |buf| >= BUF_WORDS && c < Chunks(count) && Landed(b, c, buf, got) && PER_CHUNK * (b + c + 1) <= |got|
    ensures Arrived(count, buf, Results(got, b, count), c)
  {
    hide RecvAt, Swap, Chunks, Landed, Results, At, Size;
    RecvBounds(count, c);
    StartBounds(count, c);
    forall m | RecvAt(c) <= m < RecvAt(c) + Size(count, c)
      ensures buf[m] == Swap(Results(got, b, count)[At(c) + (m - RecvAt(c))])
    {
      LandedWord(b, c, count, buf, got, m - RecvAt(c));
    }
  }

  lemma LandedWord(b: nat, c: nat, count: nat, buf: seq<Word>, got: seq<Payload>, k: nat)
    requires |buf| >= BUF_WORDS && c < Chunks(count) && Landed(b, c, buf, got) && PER_CHUNK * (b + c + 1) <= |got|
    requires k < CHUNK && At(c) + k < At(Chunks(count))
    ensures RecvAt(c) + k < BUF_WORDS && buf[RecvAt(c) + k] == Swap(Results(got, b, count)[At(c) + k])
  {
    hide RecvAt, LandAt, Swap, Payload.Val, Chunks, At;
    ChunkPacket(b, c, k);
    var q := PER_CHUNK * (b + c) + k / PER_PACKET;
    assert Holds(buf, LandAt(b, q), got[q]);
    assert buf[LandAt(b, q) + k % PER_PACKET] == Swap(got[q].Val(k % PER_PACKET));
    assert Results(got, b, count)[At(c) + k] == WordAt(got, At(b) + At(c) + k);
  }

  /** Word k of chunk c. */
  lemma ChunkPacket(b: nat, c: nat, k: nat)
    requires k < CHUNK
    ensures
      var q := PER_CHUNK * (b + c) + k / PER_PACKET;
      && q < PER_CHUNK * (b + c + 1) && LandAt(b, q) + k % PER_PACKET == RecvAt(c) + k
      && (At(b) + At(c) + k) / PER_PACKET == q && (At(b) + At(c) + k) % PER_PACKET == k % PER_PACKET
  {
    hide RecvAt;
    var q := PER_CHUNK * (b + c) + k / PER_PACKET;
    assert q / PER_CHUNK == b + c && q % PER_CHUNK == k / PER_PACKET;
  }

  /** A receive completion. */
  lemma RecvDoneOk(plan: Plan, i: nat, h: Host, wire: seq<Payload>, got: seq<Payload>)
    requires plan.JobsOk() && i < |plan.jobs| && HostInv(plan, i, h, wire, got) && h.n.received < h.n.posted
    requires PER_CHUNK * (Base(plan.counts, h.call) + h.n.received + 1) <= |got|
    ensures h.call < |plan.counts| && h.n.received < Chunks(plan.Count(h.call))
    ensures Arrived(plan.counts[h.call], h.buf, Results(got, Base(plan.counts, h.call), plan.counts[h.call]), h.n.received)
    ensures HostInv(plan, i, StoreHost(plan, i, h), wire, got)
  {
    hide Landed, StoreBuf, Arrived, Stored, Results, WireOk, AllFilled, Chunks, Base;
    InSome(plan, h);
    var j, c := h.call, h.n.received;
    var b, count := Base(plan.counts, j), plan.counts[j];
    LandedArrived(b, c, count, h.buf, got);
    StoreMore(count, plan.jobs[i][j].dAddr, h.buf, h.dbufs[j], Results(got, b, count), c);
    LandedLess(b, c, h.buf, got);
    StoredOne(plan, i, h, got);
    hide StoredCalls;
  }

  lemma StoredOne(plan: Plan, i: nat, h: Host, got: seq<Payload>)
    requires plan.JobsOk() && i < |plan.jobs| && HostShaped(plan, i, h) && StoredCalls(plan, i, h, got)
    requires h.call < |plan.counts| && h.n.received < Chunks(plan.Count(h.call))
    requires Stored(plan.counts[h.call], StoreHost(plan, i, h).dbufs[h.call],
                    Results(got, Base(plan.counts, h.call), plan.counts[h.call]), h.n.received + 1)
    ensures HostShaped(plan, i, StoreHost(plan, i, h)) && StoredCalls(plan, i, StoreHost(plan, i, h), got)
  {
    hide StoreBuf, Stored, Results, Chunks, Base;
  }

  lemma LandedLess(b: nat, received: nat, buf: seq<Word>, got: seq<Payload>)
    requires |buf| >= BUF_WORDS && Landed(b, received, buf, got)
    ensures Landed(b, received + 1, buf, got)
  {
    hide Holds;
  }

  /** The next call starts with an empty ring. */
  lemma NextOk(plan: Plan, i: nat, h: Host, wire: seq<Payload>, got: seq<Payload>)
    requires plan.JobsOk() && i < |plan.jobs| && HostInv(plan, i, h, wire, got)
    requires h.call < |plan.counts| && h.n == Done(plan.Count(h.call))
    ensures HostInv(plan, i, h.(call := h.call + 1, n := Counts(0, 0, 0)), wire, got)
  {
    hide Located, Landed, AllFilled, StoredCalls, WireOk, Chunks;
    var h' := h.(call := h.call + 1, n := Counts(0, 0, 0));
    LocatedNext(Base(plan.counts, h.call), plan.Count(h.call), plan.Count(h'.call), |wire|, |got|);
    LandedNone(Base(plan.counts, h'.call), h'.buf, got);
    StoredNext(plan, i, h, got);
    if h'.call < |plan.counts| { FilledNone(plan.counts[h'.call], plan.jobs[i][h'.call].sbuf, h'.buf); }
  }

  lemma LocatedNext(b: nat, count: nat, next: nat, sent: nat, got: nat)
    requires Located(b, count, Done(count), sent, got)
    ensures Located(b + Chunks(count), next, Counts(0, 0, 0), sent, got) && got == PER_CHUNK * (b + Chunks(count))
  {
    hide Chunks;
  }

  lemma LandedNone(b: nat, buf: seq<Word>, got: seq<Payload>)
    requires |buf| >= BUF_WORDS && |got| == PER_CHUNK * b
    ensures Landed(b, 0, buf, got)
  {
  }

  lemma FilledNone(count: nat, sbuf: seq<Word>, buf: seq<Word>)
    requires |sbuf| >= count && |buf| >= BUF_WORDS
    ensures AllFilled(count, sbuf, buf, 0, 0)
  {
  }

  lemma StoredNext(plan: Plan, i: nat, h: Host, got: seq<Payload>)
    requires HostShaped(plan, i, h) && StoredCalls(plan, i, h, got) && h.call < |plan.counts| && h.n == Done(plan.Count(h.call))
    ensures StoredCalls(plan, i, h.(call := h.call + 1, n := Counts(0, 0, 0)), got)
  {
    hide Stored, Results, Chunks, Base;
    var h' := h.(call := h.call + 1, n := Counts(0, 0, 0));
    forall j | 0 <= j < |plan.counts| && j <= h'.call
      ensures Stored(plan.counts[j], h'.dbufs[j], Results(got, Base(plan.counts, j), plan.counts[j]), ReceivedOf(plan, h', j))
    {
      if j == h'.call { StoredNone(plan.counts[j], h'.dbufs[j], Results(got, Base(plan.counts, j), plan.counts[j])); }
    }
  }

  lemma StoredNone(count: nat, dbuf: seq<Word>, results: seq<Word>)
    requires |dbuf| >= count && |results| == At(Chunks(count))
    ensures Stored(count, dbuf, results, 0)
  {
  }

  /** The packet that is read from a filled send buffer carries the source's words. */
  lemma ReadCarries(count: nat, sbuf: seq<Word>, buf: seq<Word>, b: nat, q: nat)
    requires |sbuf| >= count && |buf| >= BUF_WORDS && q >= PER_CHUNK * b
    requires Filled(count, sbuf, buf, q / PER_CHUNK - b)
    ensures SendAt(b, q) + PER_PACKET <= BUF_WORDS
    ensures Carries(sbuf, count, q - PER_CHUNK * b, ReadPacket(buf, SendAt(b, q)))
  {
    hide SendAt, ReadPacket, Filled, Payload.Val;
    RecvAbove();
    forall r | 0 <= r < PER_PACKET && PER_PACKET * (q - PER_CHUNK * b) + r < count
      ensures ReadPacket(buf, SendAt(b, q)).Val(r) == sbuf[PER_PACKET * (q - PER_CHUNK * b) + r]
    {
      ReadWord(count, sbuf, buf, b, q, r);
    }
  }

  lemma ReadWord(count: nat, sbuf: seq<Word>, buf: seq<Word>, b: nat, q: nat, r: nat)
    requires |sbuf| >= count && |buf| >= BUF_WORDS && q >= PER_CHUNK * b
    requires Filled(count, sbuf, buf, q / PER_CHUNK - b) && SendAt(b, q) + PER_PACKET <= BUF_WORDS
    requires r < PER_PACKET && PER_PACKET * (q - PER_CHUNK * b) + r < count
    ensures ReadPacket(buf, SendAt(b, q)).Val(r) == sbuf[PER_PACKET * (q - PER_CHUNK * b) + r]
  {
    hide Swap, ReadPacket, Payload.Val, SendAt, Start, Size, At, Chunks, Slot;
    var c, x := q / PER_CHUNK - b, PER_PACKET * (q % PER_CHUNK) + r;
    PacketPlace(count, b, q, r);
    ReadVal(buf, SendAt(b, q), r);
    assert buf[At(Slot(c)) + x] == Swap(sbuf[Start(count, c) + x]);
    SwapTwice(sbuf[At(c) + x]);
  }

  lemma PacketPlace(count: nat, b: nat, q: nat, r: nat)
    requires q >= PER_CHUNK * b && r < PER_PACKET && PER_PACKET * (q - PER_CHUNK * b) + r < count
    ensures
      var c, x := q / PER_CHUNK - b, PER_PACKET * (q % PER_CHUNK) + r;
      && PER_PACKET * (q - PER_CHUNK * b) + r == At(c) + x && At(c) == Start(count, c) && x < Size(count, c)
      && SendAt(b, q) + r == At(Slot(c)) + x
  {
    hide Slot;
    var c := q / PER_CHUNK - b;
    assert q - PER_CHUNK * b == PER_CHUNK * c + q % PER_CHUNK;
    StartBounds(count, c);
  }

  lemma CallOf(counts: seq<nat>, j: nat, k: nat, q: nat)
    requires InCall(counts, j, q) && InCall(counts, k, q)
    ensures j == k
  {
    hide Chunks;
    if j < k { BaseMono(counts, j + 1, k); }
    if k < j { BaseMono(counts, k + 1, j); }
  }

  /** One more packet on the network. */
  lemma SentOk(plan: Plan, i: nat, h: Host, wire: seq<Payload>, got: seq<Payload>)
    requires plan.JobsOk() && i < |plan.jobs| && HostInv(plan, i, h, wire, got)
    requires |wire| < PER_CHUNK * (Base(plan.counts, h.call) + h.n.posted)
    ensures At(RING) <= BUF_WORDS
    ensures HostInv(plan, i, h, wire + [ReadPacket(h.buf, SendAt(Base(plan.counts, h.call), |wire|))], got)
  {
    hide Filled, StoredCalls, Landed, SendAt, ReadPacket, WireOk, Chunks, Base, InCall, Carries;
    RecvAbove();
    InSome(plan, h);
    var j, q := h.call, |wire|;
    var b := Base(plan.counts, j);
    var c := q / PER_CHUNK - b;
    SendPlace(b, plan.counts[j], h.n, q, |got|);
    assert Filled(plan.counts[j], plan.jobs[i][j].sbuf, h.buf, c);
    ReadCarries(plan.counts[j], plan.jobs[i][j].sbuf, h.buf, b, q);
    SendInCall(plan.counts, j, h.n, q);
    WireMore(plan, i, wire, j, ReadPacket(h.buf, SendAt(b, q)));
  }

  /** The packet to be sent is one of a chunk that is posted and not sent. */
  lemma SendPlace(b: nat, count: nat, n: Counts, q: nat, got: nat)
    requires Located(b, count, n, q, got) && q < PER_CHUNK * (b + n.posted)
    ensures n.sent <= q / PER_CHUNK - b < n.posted
  {
  }

  lemma SendInCall(counts: seq<nat>, j: nat, n: Counts, q: nat)
    requires j < |counts| && n.posted <= Chunks(counts[j])
    requires PER_CHUNK * Base(counts, j) <= q < PER_CHUNK * (Base(counts, j) + n.posted)
    ensures InCall(counts, j, q)
  {
    hide Chunks;
  }

  lemma WireMore(plan: Plan, i: nat, wire: seq<Payload>, j: nat, p: Payload)
    requires plan.JobsOk() && i < |plan.jobs| && WireOk(plan, i, wire)
    requires j < |plan.counts| && InCall(plan.counts, j, |wire|)
    requires Carries(plan.jobs[i][j].sbuf, plan.counts[j], |wire| - PER_CHUNK * Base(plan.counts, j), p)
    ensures WireOk(plan, i, wire + [p])
  {
    hide Carries, Base, Chunks;
    var wire' := wire + [p];
    forall r, k | 0 <= r < |wire'| && 0 <= k < |plan.counts| && InCall(plan.counts, k, r)
      ensures Carries(plan.jobs[i][k].sbuf, plan.counts[k], r - PER_CHUNK * Base(plan.counts, k), wire'[r])
    {
      if r < |wire| {
        assert wire'[r] == wire[r];
      } else {
        CallOf(plan.counts, j, k, r);
      }
    }
  }

  /** Places in the receive buffers of two packets within four chunks do not overlap. */
  lemma LandApart(b: nat, received: nat, q: nat, r: nat)
    requires PER_CHUNK * (b + received) <= q < r < PER_CHUNK * (b + received + RING)
    ensures LandAt(b, q) + PER_PACKET <= LandAt(b, r) || LandAt(b, r) + PER_PACKET <= LandAt(b, q)
  {
    var c, d := q / PER_CHUNK - b, r / PER_CHUNK - b;
    assert received <= c <= d < received + RING;
    if c == d {
      assert q % PER_CHUNK < r % PER_CHUNK;
    } else {
      SlotDiffers(received, d);
      assert Slot(c) != Slot(d);
    }
  }

  lemma LandMore(b: nat, n: Counts, buf: seq<Word>, got: seq<Payload>, p: Payload)
    requires |buf| >= BUF_WORDS && n.posted <= n.received + RING
    requires PER_CHUNK * (b + n.received) <= |got| < PER_CHUNK * (b + n.posted)
    requires Landed(b, n.received, buf, got)
    ensures Landed(b, n.received, WritePacket(buf, LandAt(b, |got|), p), got + [p])
  {
    hide LandAt, WritePacket, Swap, Payload.Val;
    var buf', got' := WritePacket(buf, LandAt(b, |got|), p), got + [p];
    forall q | PER_CHUNK * (b + n.received) <= q < |got'|
      ensures Holds(buf', LandAt(b, q), got'[q])
    {
      if q < |got| {
        LandApart(b, n.received, q, |got|);
        assert Holds(buf, LandAt(b, q), got[q]);
      }
    }
  }

  /** What is stored does not depend on what arrives later. */
  lemma StoredLater(count: nat, dbuf: seq<Word>, got: seq<Payload>, p: Payload, b: nat, c: nat)
    requires |dbuf| >= count && PER_CHUNK * (b + c) <= |got|
    requires Stored(count, dbuf, Results(got, b, count), c)
    ensures Stored(count, dbuf, Results(got + [p], b, count), c)
  {
    hide Payload.Val, Chunks;
    var r, r' := Results(got, b, count), Results(got + [p], b, count);
    StoredWithin(count, dbuf, r, c);
    forall k | 0 <= k < Start(count, c)
      ensures r'[k] == r[k]
    {
      WordLater(got, p, b, c, k);
    }
  }

  lemma WordLater(got: seq<Payload>, p: Payload, b: nat, c: nat, k: nat)
    requires PER_CHUNK * (b + c) <= |got| && k < At(c)
    ensures WordAt(got + [p], At(b) + k) == WordAt(got, At(b) + k)
  {
    hide Payload.Val;
    assert (At(b) + k) / PER_PACKET < PER_CHUNK * (b + c);
  }

  lemma StoredWithin(count: nat, dbuf: seq<Word>, results: seq<Word>, c: nat)
    requires |dbuf| >= count && |results| == At(Chunks(count)) && Stored(count, dbuf, results, c)
    ensures Start(count, c) <= At(Chunks(count))
  {
  }

  /** One more packet arrives in the receive buffer posted for it. */
  lemma LandOk(plan: Plan, i: nat, h: Host, wire: seq<Payload>, got: seq<Payload>, p: Payload)
    requires plan.JobsOk() && i < |plan.jobs| && HostInv(plan, i, h, wire, got)
    requires |got| < PER_CHUNK * (Base(plan.counts, h.call) + h.n.posted)
    ensures HostInv(plan, i, LandHost(plan, i, h, |got|, p), wire, got + [p])
  {
    hide AllFilled, Landed, StoredCalls, WireOk, LandAt, WritePacket, Chunks, Base;
    var b, h' := Base(plan.counts, h.call), LandHost(plan, i, h, |got|, p);
    InSome(plan, h);
    LandMore(b, h.n, h.buf, got, p);
    RecvAbove();
    assert forall m | 0 <= m < At(RING) :: h'.buf[m] == h.buf[m];
    ReceiveKeeps(plan.counts[h.call], plan.jobs[i][h.call].sbuf, h.buf, h'.buf, h.n.sent, h.n.posted);
    StoredMore(plan, i, h, h', got, p);
  }

  lemma ReceivedBelow(plan: Plan, h: Host, j: nat)
    requires j <= h.call <= |plan.counts| && j < |plan.counts|
    ensures Base(plan.counts, j) + ReceivedOf(plan, h, j) <= Base(plan.counts, h.call) + h.n.received
  {
    hide Chunks;
    if j < h.call { BaseMono(plan.counts, j + 1, h.call); }
  }

  lemma StoredMore(plan: Plan, i: nat, h: Host, h': Host, got: seq<Payload>, p: Payload)
    requires HostShaped(plan, i, h) && HostShaped(plan, i, h') && StoredCalls(plan, i, h, got)
    requires h'.call == h.call && h'.dbufs == h.dbufs && h'.n == h.n
    requires PER_CHUNK * (Base(plan.counts, h.call) + h.n.received) <= |got|
    ensures StoredCalls(plan, i, h', got + [p])
  {
    hide Results, Stored, Chunks, Base;
    forall j | 0 <= j < |plan.counts| && j <= h.call
      ensures Stored(plan.counts[j], h'.dbufs[j], Results(got + [p], Base(plan.counts, j), plan.counts[j]), ReceivedOf(plan, h', j))
    {
      ReceivedBelow(plan, h, j);
      StoredLater(plan.counts[j], h.dbufs[j], got, p, Base(plan.counts, j), ReceivedOf(plan, h, j));
    }
  }
}
