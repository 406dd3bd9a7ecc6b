/** What the client's buffers hold while the ring loop runs. */
module ClientBuffers {
  import opened Payloads
  import opened ByteOrder
  import opened ClientWindow

  /** Words of registered memory: four send chunks and four receive chunks of 4096 words each. */
  const BUF_WORDS: nat := 32768

  /** Where the receive buffer of chunk c starts in registered memory. */
  function RecvAt(c: nat): (d: nat)
    ensures d + CHUNK <= BUF_WORDS
  {
    At(RING + Slot(c))
  }

  /** How much of the source a call reads. */
  function SourceEnd(count: nat): (e: nat)
    ensures count <= e < count + LANES
  {
    Extent(count, 0)
  }

  /** How much of the destination a call writes; `dAddr` is its address in bytes. */
  function DestEnd(count: nat, dAddr: nat): (e: nat)
    ensures count <= e < count + LANES
  {
    Extent(count, dAddr / 4)
  }

  /** The conversion from the last receive buffer reads past registered memory. */
  predicate ReadsPast(count: nat, dAddr: nat) {
    dAddr / 4 % LANES != 0 && count + dAddr / 4 % LANES > 3 * CHUNK
  }

  /** How much of registered memory a call reads. */
  function ReadEnd(count: nat, dAddr: nat): (e: nat)
    ensures BUF_WORDS <= e < BUF_WORDS + LANES
  {
    BUF_WORDS + (if ReadsPast(count, dAddr) then Gap(dAddr / 4) else 0)
  }

  /** Chunk c's send buffer holds its words in network order. */
  ghost predicate Filled(count: nat, sbuf: seq<Word>, buf: seq<Word>, c: nat)
    requires |sbuf| >= count && |buf| >= BUF_WORDS
  {
    StartBounds(count, c);
    forall m | At(Slot(c)) <= m < At(Slot(c)) + Size(count, c) ::
      buf[m] == Swap(sbuf[Start(count, c) + (m - At(Slot(c)))])
  }

  ghost predicate AllFilled(count: nat, sbuf: seq<Word>, buf: seq<Word>, from: nat, to: nat)
    requires |sbuf| >= count && |buf| >= BUF_WORDS
  {
    forall c: nat | from <= c < to :: Filled(count, sbuf, buf, c)
  }

  lemma ChunkWithin(count: nat, c: nat)
    requires c < Chunks(count)
    ensures At(c) + CHUNK <= At(Chunks(count))
  {
  }

  /** The result of chunk c is in its receive buffer, in network order; what lies behind the data is padding. */
  ghost predicate Arrived(count: nat, buf: seq<Word>, results: seq<Word>, c: nat)
    requires |buf| >= BUF_WORDS && |results| == At(Chunks(count)) && c < Chunks(count)
  {
    StartBounds(count, c);
    ChunkWithin(count, c);
    forall m | RecvAt(c) <= m < RecvAt(c) + Size(count, c) :: buf[m] == Swap(results[At(c) + (m - RecvAt(c))])
  }

  /** The first c chunks of results are in place. */
  ghost predicate Stored(count: nat, dbuf: seq<Word>, results: seq<Word>, c: nat)
    requires |dbuf| >= count && |results| == At(Chunks(count))
  {
    c <= Chunks(count) && forall k | 0 <= k < Start(count, c) :: dbuf[k] == results[k]
  }

  /** How many words the conversion into the send buffer of chunk c writes. */
  function FillExtent(count: nat, c: nat): (e: nat)
    requires c < Chunks(count)
    ensures Size(count, c) <= e <= CHUNK && Start(count, c) + e <= SourceEnd(count)
    ensures At(Slot(c)) + e <= At(RING)
  {
    StartBounds(count, c);
    FillIs(count, c);
    Extent(Size(count, c), 4 * At(Slot(c)) / 4)
  }

  /** How many words the conversion of chunk c's result writes. */
  function StoreExtent(count: nat, dAddr: nat, c: nat): (e: nat)
    requires c < Chunks(count)
    ensures Size(count, c) <= e < Size(count, c) + LANES
    ensures RecvAt(c) + e <= ReadEnd(count, dAddr) && Start(count, c) + e <= DestEnd(count, dAddr)
  {
    hide Extent, ReadEnd, DestEnd, RecvAt, Gap;
    StoreIs(count, dAddr, c);
    StoreDest(count, dAddr, c);
    StoreRead(count, dAddr, c);
    StartBounds(count, c);
    Extent(Size(count, c), (dAddr + 4 * Start(count, c)) / 4)
  }

  lemma SameGap(a: nat, k: nat)
    ensures Gap(a + At(k)) == Gap(a) && Gap(At(k)) == 0
  {
    assert At(k) == LANES * (512 * k);
    ModAdd(a, 512 * k);
    ModAdd(0, 512 * k);
  }

  lemma ModAdd(a: nat, k: nat)
    ensures (a + LANES * k) % LANES == a % LANES
  {
  }

  lemma FillIs(count: nat, c: nat)
    requires c < Chunks(count)
    ensures
      var e := Extent(Size(count, c), 4 * At(Slot(c)) / 4);
      && e == Size(count, c) + Gap(Size(count, c)) <= CHUNK && Start(count, c) + e <= SourceEnd(count)
      && At(Slot(c)) + CHUNK <= At(RING)
      && (c + 1 == Chunks(count) ==> Start(count, c) + e == SourceEnd(count))
  {
    hide Extent, Head;
    var n, a := Size(count, c), 4 * At(Slot(c)) / 4;
    StartBounds(count, c);
    SameGap(0, Slot(c));
    ExtentExact(n, a);
    ExtentExact(count, 0);
    SameGap(n, Slot(c));
    SameGap(n, c);
  }

  /** Rounding up is monotone, and the same for all that lies before the same boundary. */
  lemma GapMono(a: nat, x: nat, y: nat)
    requires x <= y
    ensures x + Gap(a + x) <= y + Gap(a + y)
    ensures y <= x + Gap(a + x) ==> y + Gap(a + y) == x + Gap(a + x)
  {
    var p, q := a + x, a + y;
    assert p + Gap(p) == (p + Gap(p)) / LANES * LANES && q + Gap(q) == (q + Gap(q)) / LANES * LANES;
  }

  /** All chunks start at the same distance from a 32-byte boundary. */
  lemma StoreIs(count: nat, dAddr: nat, c: nat)
    requires c < Chunks(count)
    ensures
      var n, a := Size(count, c), dAddr / 4;
      Extent(n, (dAddr + 4 * Start(count, c)) / 4) == n + (if n <= Gap(a) then 0 else Gap(a + n))
  {
    hide Extent, Head, Chunks, Size, At, Gap;
    var n, a := Size(count, c), dAddr / 4;
    StartBounds(count, c);
    StartAt(dAddr, c);
    SameGap(a, c);
    SameGap(a + n, c);
    ExtentExact(n, a + At(c));
  }

  lemma StartAt(dAddr: nat, c: nat)
    ensures (dAddr + 4 * At(c)) / 4 == dAddr / 4 + At(c)
  {
  }

  lemma StoreDest(count: nat, dAddr: nat, c: nat)
    requires c < Chunks(count)
    ensures
      var n, a := Size(count, c), dAddr / 4;
      var end := Start(count, c) + n + (if n <= Gap(a) then 0 else Gap(a + n));
      && end <= DestEnd(count, dAddr)
      && (c + 1 == Chunks(count) && n > Gap(a) ==> end == DestEnd(count, dAddr))
      && (c + 2 == Chunks(count) && Size(count, c + 1) <= Gap(a) ==> end == DestEnd(count, dAddr))
  {
    hide Extent, Gap;
    var n, a := Size(count, c), dAddr / 4;
    StartBounds(count, c);
    StartBounds(count, c + 1);
    ExtentExact(count, a);
    SameGap(a + n, c);
    SameGap(a, c + 1);
    GapMono(a, At(c) + n, count);
    GapMono(a, 0, n);
    GapMono(a, 0, count);
  }

  lemma StoreRead(count: nat, dAddr: nat, c: nat)
    requires c < Chunks(count)
    ensures
      var n, a := Size(count, c), dAddr / 4;
      var end := RecvAt(c) + n + (if n <= Gap(a) then 0 else Gap(a + n));
      && end <= ReadEnd(count, dAddr)
      && (c == 2 && ReadsPast(count, dAddr) ==> end == ReadEnd(count, dAddr))
  {
    var n, a := Size(count, c), dAddr / 4;
    StartBounds(count, c);
    if n + Gap(a + n) <= CHUNK {
      if c == 2 && ReadsPast(count, dAddr) { ReadsFull(n, a); }
    } else {
      LastRing(count, c);
      ReadsFull(n, a);
    }
  }

  lemma ReadsFull(n: nat, a: nat)
    requires n <= CHUNK
    ensures n + Gap(a + n) > CHUNK <==> a % LANES != 0 && n + a % LANES > CHUNK
    ensures n + Gap(a + n) > CHUNK ==> n + Gap(a + n) == CHUNK + Gap(a)
  {
    hide Gap;
    SameGap(a, 1);
    GapMono(a, n, CHUNK);
    var edge := CHUNK - a % LANES;
    BehindEdge(a);
    if n <= edge {
      GapMono(a, n, edge);
    } else {
      NextMultiple(a + edge, a + n + Gap(a + n));
    }
  }

  /** The last boundary within a chunk. */
  lemma BehindEdge(a: nat)
    ensures
      var edge := CHUNK - a % LANES;
      (a + edge) % LANES == 0 && Gap(a + edge) == 0
  {
    assert a + (CHUNK - a % LANES) == LANES * (a / LANES + 512);
    ModAdd(0, a / LANES + 512);
  }

  lemma NextMultiple(x: nat, y: nat)
    requires x % LANES == 0 && y % LANES == 0 && x < y
    ensures x + LANES <= y
  {
  }

  lemma LastRing(count: nat, c: nat)
    requires c < Chunks(count)
    ensures RecvAt(c) + CHUNK < BUF_WORDS ==> RecvAt(c) + CHUNK + LANES <= BUF_WORDS
    ensures RecvAt(c) + CHUNK == BUF_WORDS ==> c >= 2 && (c > 2 ==> count > 3 * CHUNK)
  {
  }

  /** Registered memory once chunk c is converted into its send buffer. */
  function PostBuf(count: nat, sbuf: seq<Word>, buf: seq<Word>, c: nat): (r: seq<Word>)
    requires c < Chunks(count) && |sbuf| >= SourceEnd(count) && |buf| >= BUF_WORDS
    ensures |r| == |buf|
  {
    Spliced(buf, At(Slot(c)), sbuf, Start(count, c), FillExtent(count, c))
  }

  /** The destination once chunk c's result is converted into place. */
  function StoreBuf(count: nat, dAddr: nat, dbuf: seq<Word>, buf: seq<Word>, c: nat): (r: seq<Word>)
    requires c < Chunks(count) && |dbuf| >= DestEnd(count, dAddr) && |buf| >= ReadEnd(count, dAddr)
    ensures |r| == |dbuf|
    ensures forall k | DestEnd(count, dAddr) <= k < |dbuf| :: r[k] == dbuf[k]
  {
    hide Spliced;
    Spliced(dbuf, Start(count, c), buf, RecvAt(c), StoreExtent(count, dAddr, c))
  }

  lemma FillCall(count: nat, sAddr: nat, c: nat)
    requires c < Chunks(count) && sAddr % 4 == 0
    ensures Extent(Size(count, c), 4 * At(Slot(c)) / 4) == FillExtent(count, c)
    ensures (sAddr + 4 * Start(count, c)) % 4 == 0 && 4 * At(Slot(c)) % 4 == 0
  {
    hide Extent, Size, Start, Slot, At;
  }

  lemma StoreCall(count: nat, dAddr: nat, c: nat)
    requires c < Chunks(count) && dAddr % 4 == 0
    ensures Extent(Size(count, c), (dAddr + 4 * Start(count, c)) / 4) == StoreExtent(count, dAddr, c)
    ensures (dAddr + 4 * Start(count, c)) % 4 == 0 && 4 * RecvAt(c) % 4 == 0
  {
    hide Extent, Size, Start, RecvAt;
  }

  lemma StoreRoom(count: nat, dAddr: nat, c: nat)
    requires c < Chunks(count)
    ensures Start(count, c) + StoreExtent(count, dAddr, c) <= DestEnd(count, dAddr)
    ensures RecvAt(c) + StoreExtent(count, dAddr, c) <= ReadEnd(count, dAddr)
    ensures At(RING + Slot(c)) == RecvAt(c)
  {
    hide StoreExtent, DestEnd, ReadEnd;
  }

  /** Writing the receive buffers leaves the send buffers alone. */
  lemma ReceiveKeeps(count: nat, sbuf: seq<Word>, buf: seq<Word>, buf': seq<Word>, from: nat, to: nat)
    requires |sbuf| >= count && |buf| == |buf'| >= BUF_WORDS
    requires forall m | 0 <= m < At(RING) :: buf'[m] == buf[m]
    requires AllFilled(count, sbuf, buf, from, to)
    ensures AllFilled(count, sbuf, buf', from, to)
  {
    hide Filled, At, Slot, Start, Size;
    forall d: nat | from <= d < to
      ensures Filled(count, sbuf, buf', d)
    {
      StartBounds(count, d);
      SendBelow(d);
      FilledFrame(count, sbuf, buf, buf', d);
    }
  }

  lemma RecvBounds(count: nat, c: nat)
    requires c < Chunks(count)
    ensures At(RING) <= RecvAt(c) && At(c) + CHUNK <= At(Chunks(count))
  {
  }

  lemma RecvAbove()
    ensures At(RING) <= BUF_WORDS
  {
  }

  lemma SendBelow(d: nat)
    ensures At(Slot(d)) + CHUNK <= At(RING)
  {
  }

  lemma SlotsApart(a: nat, b: nat, size: nat)
    requires a != b && size <= CHUNK
    ensures At(a) + CHUNK <= At(b) || At(b) + size <= At(a)
  {
  }

  /** Filling the send buffer of chunk c leaves those of chunks in other ring elements alone. */
  lemma FillKeeps(count: nat, sbuf: seq<Word>, buf: seq<Word>, c: nat, d: nat)
    requires |sbuf| >= SourceEnd(count) && |buf| >= BUF_WORDS && c < Chunks(count)
    requires Slot(d) != Slot(c) && Filled(count, sbuf, buf, d)
    ensures Filled(count, sbuf, PostBuf(count, sbuf, buf, c), d)
  {
    hide At, Slot, Start, Size, Swap, Spliced, FillExtent, Chunks, Extent;
    StartBounds(count, d);
    SlotsApart(Slot(c), Slot(d), Size(count, d));
    var buf' := PostBuf(count, sbuf, buf, c);
    FilledFrame(count, sbuf, buf, buf', d);
  }

  lemma FilledFrame(count: nat, sbuf: seq<Word>, buf: seq<Word>, buf': seq<Word>, d: nat)
    requires |sbuf| >= count && |buf| == |buf'| >= BUF_WORDS
    requires Filled(count, sbuf, buf, d)
    requires forall m | At(Slot(d)) <= m < At(Slot(d)) + Size(count, d) :: m < BUF_WORDS ==> buf'[m] == buf[m]
    ensures Filled(count, sbuf, buf', d)
  {
    StartBounds(count, d);
    SendBelow(d);
    RecvAbove();
    assert Start(count, d) + Size(count, d) <= count;
    hide At, Slot, Start, Size, Swap;
    forall m | At(Slot(d)) <= m < At(Slot(d)) + Size(count, d)
      ensures buf'[m] == Swap(sbuf[Start(count, d) + (m - At(Slot(d)))])
    {
      assert buf'[m] == buf[m];
    }
  }

  /** Filling a send buffer leaves the receive buffers alone. */
  lemma FillBelow(count: nat, sbuf: seq<Word>, buf: seq<Word>, c: nat)
    requires |sbuf| >= SourceEnd(count) && |buf| >= BUF_WORDS && c < Chunks(count)
    ensures At(RING) <= BUF_WORDS
    ensures PostBuf(count, sbuf, buf, c)[At(RING)..] == buf[At(RING)..]
  {
    RecvAbove();
    SendBelow(c);
    hide At, Slot, Start, Size, Swap, Spliced, FillExtent;
  }

  lemma FillDone(count: nat, sbuf: seq<Word>, buf: seq<Word>, c: nat)
    requires |sbuf| >= SourceEnd(count) && |buf| >= BUF_WORDS && c < Chunks(count)
    ensures Filled(count, sbuf, PostBuf(count, sbuf, buf, c), c)
  {
    hide At, Slot, Start, Size, Swap, Spliced, FillExtent;
  }

  /** Filling the send buffer of the next chunk disturbs no chunk of the last three. */
  lemma FillNext(count: nat, sbuf: seq<Word>, buf: seq<Word>, from: nat, c: nat)
    requires |sbuf| >= SourceEnd(count) && |buf| >= BUF_WORDS && c < Chunks(count) && c < from + RING
    requires AllFilled(count, sbuf, buf, from, c)
    ensures AllFilled(count, sbuf, PostBuf(count, sbuf, buf, c), from, c + 1)
  {
    SlotDiffers(from, c);
    FillDone(count, sbuf, buf, c);
    hide Filled, Spliced, FillExtent, Slot, Start, At, Chunks;
    forall d: nat | from <= d < c
      ensures Filled(count, sbuf, PostBuf(count, sbuf, buf, c), d)
    {
      FillKeeps(count, sbuf, buf, c, d);
    }
  }

  /** Converting chunk c's result into place adds it to what is stored, although the vector loop
      writes into the chunk after it. */
  lemma StoreMore(count: nat, dAddr: nat, buf: seq<Word>, dbuf: seq<Word>, results: seq<Word>, c: nat)
    requires |dbuf| >= DestEnd(count, dAddr) && |buf| >= ReadEnd(count, dAddr) && |results| == At(Chunks(count)) && c < Chunks(count)
    requires Arrived(count, buf, results, c) && Stored(count, dbuf, results, c)
    ensures Stored(count, StoreBuf(count, dAddr, dbuf, buf, c), results, c + 1)
  {
    StartBounds(count, c);
    StartBounds(count, c + 1);
    assert At(c + 1) == At(c) + CHUNK;
    assert Start(count, c) == At(c) <= Start(count, c + 1) <= Start(count, c) + CHUNK;
    hide At, Start, Size, Swap, Spliced, StoreExtent, RecvAt, Chunks;
    var dbuf' := StoreBuf(count, dAddr, dbuf, buf, c);
    forall k | 0 <= k < Start(count, c + 1)
      ensures dbuf'[k] == results[k]
    {
      if k < Start(count, c) {
        assert dbuf'[k] == dbuf[k];
      } else {
        var m := RecvAt(c) + (k - Start(count, c));
        assert buf[m] == Swap(results[At(c) + (m - RecvAt(c))]);
        SwapTwice(results[k]);
      }
    }
  }

  lemma StoreBeyond(count: nat, dAddr: nat, dbuf: seq<Word>, buf: seq<Word>, c: nat)
    requires c < Chunks(count) && |dbuf| >= DestEnd(count, dAddr) && |buf| >= ReadEnd(count, dAddr)
    ensures StoreBuf(count, dAddr, dbuf, buf, c)[DestEnd(count, dAddr)..] == dbuf[DestEnd(count, dAddr)..]
  {
    hide StoreBuf;
  }

  lemma StoredAll(count: nat, dbuf: seq<Word>, results: seq<Word>)
    requires |dbuf| >= count && |results| == At(Chunks(count))
    requires Stored(count, dbuf, results, Chunks(count))
    ensures |results| >= count && forall k | 0 <= k < count :: dbuf[k] == results[k]
  {
    StartBounds(count, Chunks(count));
  }

  /** A call reads past its source exactly if it has no whole number of vectors. */
  lemma SourceExact(count: nat)
    ensures (exists c: nat :: c < Chunks(count) && Start(count, c) + FillExtent(count, c) > count) <==> count % LANES != 0
    ensures SourceEnd(count) == count + Gap(count)
  {
    hide FillExtent, Chunks, Extent;
    ExtentExact(count, 0);
    if count % LANES != 0 { LastFill(count); }
  }

  lemma LastFill(count: nat)
    requires count > 0
    ensures Chunks(count) > 0 && Start(count, Chunks(count) - 1) + FillExtent(count, Chunks(count) - 1) == SourceEnd(count)
  {
    FillIs(count, Chunks(count) - 1);
    hide Extent, SourceEnd;
  }

  /** A call as a whole writes exactly as far as a single conversion of all its words would: past the
      end exactly if that does. */
  lemma DestExact(count: nat, dAddr: nat)
    ensures (exists c: nat :: c < Chunks(count) && Start(count, c) + StoreExtent(count, dAddr, c) > count)
            <==> Extent(count, dAddr / 4) > count
    ensures count > 0 ==>
              exists c: nat :: c < Chunks(count) && Start(count, c) + StoreExtent(count, dAddr, c) == Extent(count, dAddr / 4)
  {
    hide StoreExtent, Chunks, Extent;
    if count > 0 {
      var c := FarthestStore(count, dAddr);
      assert c < Chunks(count) && Start(count, c) + StoreExtent(count, dAddr, c) == Extent(count, dAddr / 4);
    } else {
      NothingToStore(dAddr);
    }
  }

  lemma NothingToStore(dAddr: nat)
    ensures Chunks(0) == 0 && Extent(0, dAddr / 4) == 0
  {
  }

  lemma FarthestStore(count: nat, dAddr: nat) returns (c: nat)
    requires count > 0
    ensures c < Chunks(count) && Start(count, c) + StoreExtent(count, dAddr, c) == Extent(count, dAddr / 4)
  {
    hide Extent, Gap, DestEnd;
    var last := Chunks(count) - 1;
    c := if last > 0 && Size(count, last) <= Gap(dAddr / 4) then last - 1 else last;
    StoreIs(count, dAddr, c);
    StoreDest(count, dAddr, c);
    if c == last && Size(count, c) <= Gap(dAddr / 4) { OneChunk(count, dAddr); }
    DestIs(count, dAddr);
  }

  lemma DestIs(count: nat, dAddr: nat)
    ensures DestEnd(count, dAddr) == Extent(count, dAddr / 4)
  {
  }

  lemma OneChunk(count: nat, dAddr: nat)
    requires Chunks(count) == 1 && Size(count, 0) <= Gap(dAddr / 4)
    ensures Size(count, 0) == count && Start(count, 0) == 0 && Extent(count, dAddr / 4) == count
  {
    ExtentExact(count, dAddr / 4);
  }

  /** If the last chunk ends before the first boundary, its conversion stays within the destination, and
      that of the chunk before it is the one that writes past the end. */
  lemma SpillBehindLast(count: nat, dAddr: nat)
    requires Chunks(count) >= 2 && Size(count, Chunks(count) - 1) < Gap(dAddr / 4)
    ensures var last := Chunks(count) - 1;
            && Start(count, last) + StoreExtent(count, dAddr, last) == count
            && Start(count, last - 1) + StoreExtent(count, dAddr, last - 1) == DestEnd(count, dAddr) > count
  {
    hide Extent, Gap, DestEnd;
    var last := Chunks(count) - 1;
    StoreIs(count, dAddr, last);
    StoreIs(count, dAddr, last - 1);
    StoreDest(count, dAddr, last - 1);
    StartBounds(count, last + 1);
    FullChunk(count, last - 1);
    SameGap(dAddr / 4, 1);
  }

  lemma FullChunk(count: nat, c: nat)
    requires c + 1 < Chunks(count)
    ensures Size(count, c) == CHUNK == At(1) && Start(count, c) + CHUNK == Start(count, c + 1)
  {
  }

  /** A call reads past its registered memory exactly if the destination is not 32-byte aligned and the
      third chunk is full up to the destination's last boundary: its receive buffer is the last one. */
  lemma ReadsPastExact(count: nat, dAddr: nat)
    ensures (exists c: nat :: c < Chunks(count) && RecvAt(c) + StoreExtent(count, dAddr, c) > BUF_WORDS)
            <==> dAddr / 4 % LANES != 0 && count + dAddr / 4 % LANES > 3 * CHUNK
    ensures ReadsPast(count, dAddr) ==>
              2 < Chunks(count) && RecvAt(2) + StoreExtent(count, dAddr, 2) == ReadEnd(count, dAddr) > BUF_WORDS
  {
    hide StoreExtent, Extent, RecvAt;
    if ReadsPast(count, dAddr) {
      assert 2 < Chunks(count);
      StoreFull(count, dAddr);
    }
  }

  lemma StoreFull(count: nat, dAddr: nat)
    requires 2 < Chunks(count) && ReadsPast(count, dAddr)
    ensures RecvAt(2) + StoreExtent(count, dAddr, 2) == ReadEnd(count, dAddr)
  {
    hide Extent, ReadEnd, RecvAt, Gap;
    StoreIs(count, dAddr, 2);
    StoreRead(count, dAddr, 2);
  }

  /** Three full chunks into a destination one word behind a boundary: seven words too many are read. */
  lemma ReadsPastInput()
    ensures RecvAt(2) + StoreExtent(3 * CHUNK, 4, 2) == BUF_WORDS + 7
  {
  }
}
