/** The ring loop of `AggregationGroup::allreduce`: a window of four chunks over one queue pair.

Positions are in words; the code counts bytes. */
module ClientWindow {
  import opened Payloads
  import opened ByteOrder

  /** One chunk in words, and the number of ring elements. */
  const CHUNK: nat := 4096
  const RING: nat := 4

  function Chunks(count: nat): nat {
    (count + 4095) / 4096
  }

  /** Where the k-th chunk of a buffer starts. */
  function At(k: nat): nat {
    k * 4096
  }

  function Min(a: nat, b: nat): nat {
    if a < b then a else b
  }

  /** Where chunk c starts; the end of the data from Chunks(count) on. */
  function Start(count: nat, c: nat): nat {
    Min(At(c), count)
  }

  function Size(count: nat, c: nat): nat {
    Start(count, c + 1) - Start(count, c)
  }

  lemma StartBounds(count: nat, c: nat)
    ensures c < Chunks(count) <==> Start(count, c) < count
    ensures c < Chunks(count) ==> Start(count, c) == At(c) && Size(count, c) == Min(CHUNK, count - At(c))
    ensures c >= Chunks(count) ==> Start(count, c) == count
    ensures Size(count, c) <= CHUNK
  {
  }

  /** The ring element of chunk c. */
  function Slot(c: nat): (k: nat)
    ensures k < RING
  {
    (c + 1) % RING
  }

  lemma NextSlot(ringPos: nat, c: nat)
    requires ringPos == c % RING
    ensures (ringPos + 1) % RING == Slot(c) == (c + 1) % RING
  {
  }

  lemma SlotDiffers(from: nat, c: nat)
    requires c < from + RING
    ensures forall d: nat | from <= d < c :: Slot(d) != Slot(c)
  {
  }

  datatype Elem = Elem(status: nat, offset: nat, size: nat)

  /** Chunks posted, chunks whose send is complete, chunks received. */
  datatype Counts = Counts(posted: nat, sent: nat, received: nat) {
    function Status(c: nat): nat {
      (if c < sent then 0 else 1) + (if c < received then 0 else 1)
    }

    /** How many requests are outstanding. */
    function Open(): int {
      2 * posted - sent - received
    }
  }

  /** Never more than four chunks ahead of sends and receives. */
  predicate Within(count: nat, n: Counts) {
    && n.sent <= n.posted <= n.sent + RING
    && n.received <= n.posted <= n.received + RING
    && n.posted <= Chunks(count)
  }

  /** What the loop's ring says about the last four posted chunks. */
  ghost predicate RingOk(count: nat, ring: seq<Elem>, n: Counts) {
    && |ring| == RING && Within(count, n)
    && (forall c: nat | n.posted - RING <= c < n.posted :: ring[Slot(c)] == Elem(n.Status(c), Start(count, c), Size(count, c)))
    && (forall c: nat | n.posted <= c < RING :: ring[Slot(c)].status == 0)
  }

  function StatusSum(ring: seq<Elem>): nat
    requires |ring| == RING
  {
    ring[0].status + ring[1].status + ring[2].status + ring[3].status
  }

  lemma RingFacts(count: nat, ring: seq<Elem>, n: Counts)
    requires RingOk(count, ring, n)
    ensures |ring| == RING && n.sent <= n.posted <= n.sent + RING && n.received <= n.posted <= n.received + RING
  {
  }

  /** `outstanding_reqs` is the sum of the ring statuses ... */
  lemma OutstandingIsStatusSum(count: nat, ring: seq<Elem>, n: Counts)
    requires RingOk(count, ring, n)
    ensures StatusSum(ring) == n.Open()
  {
    hide RingOk, Slot, Before, StatusSum;
    RingFacts(count, ring, n);
    var p := n.posted;
    SlotStatus(count, ring, n, p);
    SlotStatus(count, ring, n, p + 1);
    SlotStatus(count, ring, n, p + 2);
    SlotStatus(count, ring, n, p + 3);
    OpenSum(n);
    SlotCycle(ring, p);
  }

  /** ... each 0, 1 or 2. */
  lemma StatusRange(count: nat, ring: seq<Elem>, n: Counts, k: nat)
    requires RingOk(count, ring, n) && k < RING
    ensures ring[k].status <= 2
  {
    var p := n.posted;
    SlotCover(p, k);
    if k == Slot(p) {
      SlotStatus(count, ring, n, p);
    } else if k == Slot(p + 1) {
      SlotStatus(count, ring, n, p + 1);
    } else if k == Slot(p + 2) {
      SlotStatus(count, ring, n, p + 2);
    } else {
      SlotStatus(count, ring, n, p + 3);
    }
  }

  lemma SlotCover(p: nat, k: nat)
    requires k < RING
    ensures k == Slot(p) || k == Slot(p + 1) || k == Slot(p + 2) || k == Slot(p + 3)
  {
    hide Slot;
    SlotNext(p);
    SlotNext(p + 1);
    SlotNext(p + 2);
  }

  lemma SlotNext(c: nat)
    ensures Slot(c + 1) == if Slot(c) + 1 == RING then 0 else Slot(c) + 1
  {
  }

  /** Status of the chunk that last used the element of chunk c, if any did. */
  function Before(n: Counts, c: nat): nat {
    if c < RING then 0 else n.Status(c - RING)
  }

  lemma OpenSum(n: Counts)
    requires n.sent <= n.posted <= n.sent + RING && n.received <= n.posted <= n.received + RING
    ensures Before(n, n.posted) + Before(n, n.posted + 1) + Before(n, n.posted + 2) + Before(n, n.posted + 3) == n.Open()
  {
  }

  lemma SlotStatus(count: nat, ring: seq<Elem>, n: Counts, c: nat)
    requires RingOk(count, ring, n) && n.posted <= c < n.posted + RING
    ensures ring[Slot(c)].status == Before(n, c)
  {
    if c >= RING { SlotBack(c); }
  }

  lemma SlotBack(c: nat)
    requires c >= RING
    ensures Slot(c - RING) == Slot(c)
  {
  }

  lemma SlotCycle(ring: seq<Elem>, p: nat)
    requires |ring| == RING
    ensures StatusSum(ring) ==
      ring[Slot(p)].status + ring[Slot(p + 1)].status + ring[Slot(p + 2)].status + ring[Slot(p + 3)].status
  {
    hide Slot;
    SlotNext(p);
    SlotNext(p + 1);
    SlotNext(p + 2);
  }

  /** The next element is free exactly when the chunk four back is sent and received. */
  lemma NextFree(count: nat, ring: seq<Elem>, n: Counts)
    requires RingOk(count, ring, n)
    ensures ring[Slot(n.posted)].status == 0 <==> n.posted < n.sent + RING && n.posted < n.received + RING
  {
    if n.posted >= RING {
      assert Slot(n.posted - RING) == Slot(n.posted);
    }
  }

  lemma PostRing(count: nat, ring: seq<Elem>, n: Counts)
    requires RingOk(count, ring, n) && n.posted < Chunks(count) && ring[Slot(n.posted)].status == 0
    ensures RingOk(count, ring[Slot(n.posted) := Elem(2, Start(count, n.posted), Size(count, n.posted))],
                   n.(posted := n.posted + 1))
  {
    NextFree(count, ring, n);
    forall c: nat | c < n.posted + RING && n.posted < c + RING && c != n.posted
      ensures Slot(c) != Slot(n.posted)
    {
    }
  }

  lemma SendRing(count: nat, ring: seq<Elem>, n: Counts)
    requires RingOk(count, ring, n) && n.sent < n.posted
    ensures var e := ring[Slot(n.sent)];
            e.status > 0 && RingOk(count, ring[Slot(n.sent) := e.(status := e.status - 1)], n.(sent := n.sent + 1))
  {
    SlotsDistinct(n.posted, n.sent);
  }

  lemma RecvRing(count: nat, ring: seq<Elem>, n: Counts)
    requires RingOk(count, ring, n) && n.received < n.posted
    ensures var e := ring[Slot(n.received)];
            e.status > 0 && RingOk(count, ring[Slot(n.received) := e.(status := e.status - 1)], n.(received := n.received + 1))
  {
    SlotsDistinct(n.posted, n.received);
  }

  /** The loop's variables: the ring, the send position, the outstanding requests, the ring position. */
  ghost predicate LoopOk(count: nat, ring: seq<Elem>, sendPos: nat, outstanding: nat, ringPos: nat, n: Counts) {
    && RingOk(count, ring, n)
    && ringPos == n.posted % RING
    && sendPos == Start(count, n.posted)
    && outstanding == n.Open()
  }

  lemma LoopFacts(count: nat, ring: seq<Elem>, sendPos: nat, outstanding: nat, ringPos: nat, n: Counts)
    requires LoopOk(count, ring, sendPos, outstanding, ringPos, n)
    ensures |ring| == RING && Within(count, n) && ringPos == n.posted % RING
    ensures sendPos < count <==> n.posted < Chunks(count)
  {
    StartBounds(count, n.posted);
  }

  lemma PostLoop(count: nat, ring: seq<Elem>, sendPos: nat, outstanding: nat, ringPos: nat, n: Counts)
    requires LoopOk(count, ring, sendPos, outstanding, ringPos, n)
    requires sendPos < count && ring[Slot(n.posted)].status == 0
    ensures
      var toSend := Min(CHUNK, count - sendPos);
      && n.posted < Chunks(count) && sendPos == Start(count, n.posted) && toSend == Size(count, n.posted)
      && n.posted < n.sent + RING && n.posted < n.received + RING
      && LoopOk(count, ring[Slot(n.posted) := Elem(2, sendPos, toSend)], sendPos + toSend, outstanding + 2,
                Slot(n.posted), n.(posted := n.posted + 1))
  {
    StartBounds(count, n.posted);
    NextFree(count, ring, n);
    PostRing(count, ring, n);
    NextSlot(ringPos, n.posted);
  }

  lemma SendLoop(count: nat, ring: seq<Elem>, sendPos: nat, outstanding: nat, ringPos: nat, n: Counts)
    requires LoopOk(count, ring, sendPos, outstanding, ringPos, n) && n.sent < n.posted
    ensures var e := ring[Slot(n.sent)];
            e.status > 0 && outstanding > 0 &&
            LoopOk(count, ring[Slot(n.sent) := e.(status := e.status - 1)], sendPos, outstanding - 1, ringPos, n.(sent := n.sent + 1))
  {
    SendRing(count, ring, n);
  }

  lemma RecvLoop(count: nat, ring: seq<Elem>, sendPos: nat, outstanding: nat, ringPos: nat, n: Counts)
    requires LoopOk(count, ring, sendPos, outstanding, ringPos, n) && n.received < n.posted
    ensures var e := ring[Slot(n.received)];
            e.status > 0 && outstanding > 0 && e.offset == Start(count, n.received) && e.size == Size(count, n.received) &&
            LoopOk(count, ring[Slot(n.received) := e.(status := e.status - 1)], sendPos, outstanding - 1, ringPos,
                   n.(received := n.received + 1))
  {
    RecvRing(count, ring, n);
  }

  lemma SlotsDistinct(posted: nat, d: nat)
    requires d < posted <= d + RING
    ensures forall c: nat | posted - RING <= c < posted && c != d :: Slot(c) != Slot(d)
    ensures forall c: nat | posted <= c < RING :: Slot(c) != Slot(d)
  {
  }

  /** The loop stops exactly when everything is posted, sent and received, after three events
      per chunk. */
  lemma LoopEnds(count: nat, ring: seq<Elem>, sendPos: nat, outstanding: nat, ringPos: nat, n: Counts)
    requires LoopOk(count, ring, sendPos, outstanding, ringPos, n)
    ensures sendPos < count || outstanding > 0 <==> n != Counts(Chunks(count), Chunks(count), Chunks(count))
    ensures n.posted + n.sent + n.received <= 3 * Chunks(count)
  {
    StartBounds(count, n.posted);
  }
}
