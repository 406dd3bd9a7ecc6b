/** One pipe of the switch as an aggregator for one channel.

A slot is picked by the low eight bits of the packet sequence number.  A contributing
packet ORs its bit into the slot's bitmap, adds both halves of its payload, and leaves
with the slot's low half; if it completes the bitmap it is recirculated, otherwise it is
dropped.  The second pass of the recirculated packet reads the high half and clears the slot. */
module Aggregator {
  import opened Payloads

  const SLOTS: nat := 256
  const PSN_MOD: nat := 0x100_0000

  /** The 24-bit sequence number of the n-th packet on a queue pair. */
  function Psn(n: nat): (psn: nat)
    ensures psn < PSN_MOD && psn % SLOTS == n % SLOTS
  {
    n % PSN_MOD
  }

  datatype Packet = Packet(psn: nat, data: Payload)

  datatype Slot = Slot(bits: set<nat>, sum: Payload)

  const EMPTY: Slot := Slot({}, ZERO)

  datatype Pipe = Pipe(slots: seq<Slot>, recirc: seq<Packet>) {
    predicate Shaped() {
      |slots| == SLOTS
    }
  }

  function IdlePipe(): (p: Pipe)
    ensures p.Shaped()
  {
    Pipe(seq(SLOTS, _ => EMPTY), [])
  }

  /** What a contributing packet leaves in its slot. */
  function Accumulate(s: Slot, bit: nat, data: Payload): Slot {
    Slot(s.bits + {bit}, Add(s.sum, data))
  }

  /** First pass of a contributing packet. */
  function FirstPass(p: Pipe, bit: nat, full: set<nat>, pkt: Packet): (p': Pipe)
    requires p.Shaped()
    ensures p'.Shaped()
  {
    var i := pkt.psn % SLOTS;
    var s := Accumulate(p.slots[i], bit, pkt.data);
    var out := Packet(pkt.psn, Payload(s.sum.low, pkt.data.high));
    Pipe(p.slots[i := s], if s.bits == full then p.recirc + [out] else p.recirc)
  }

  /** Second pass of the packet at the head of the recirculation queue. */
  function ClearPass(p: Pipe): (p': Pipe)
    requires p.Shaped() && p.recirc != []
    ensures p'.Shaped()
  {
    Pipe(p.slots[p.recirc[0].psn % SLOTS := EMPTY], p.recirc[1..])
  }

  /** The packet that leaves the pipe after its second pass. */
  function ClearOutput(p: Pipe): Packet
    requires p.Shaped() && p.recirc != []
  {
    var pkt := p.recirc[0];
    Packet(pkt.psn, Payload(pkt.data.low, p.slots[pkt.psn % SLOTS].sum.high))
  }

  /** What feeds a pipe: `members` are the feeders, `bit[i]` the bitmap position the control
      plane gave feeder `i`, `rows[i]` the payloads it contributes, in order. */
  datatype Stage = Stage(members: set<nat>, bit: seq<nat>, rows: seq<seq<Payload>>, packets: nat) {
    ghost predicate Valid() {
      && |bit| == |rows|
      && members != {}
      && (forall i <- members :: i < |rows| && |rows[i]| == packets)
      && (forall i, j | i in members && j in members && i != j :: bit[i] != bit[j])
    }

    function Bits(who: set<nat>): set<nat>
      requires forall i <- who :: i < |bit|
    {
      set i | i in who :: bit[i]
    }

    function Full(): set<nat>
      requires forall i <- members :: i < |bit|
    {
      Bits(members)
    }

    /** The complete result for packet `n`. */
    ghost function Total(n: nat): Payload
      requires Valid() && n < packets
    {
      Sum(members, rows, n)
    }

    /** The feeders that have contributed packet `n`, when feeder `i` has contributed `done[i]` packets. */
    ghost function Contributors(done: seq<nat>, n: nat): (who: set<nat>)
      requires Valid() && |done| == |rows|
      ensures who <= members
    {
      set i | i in members && n < done[i]
    }

    /** What the slot of packet `n` must hold. */
    ghost function Expected(done: seq<nat>, n: nat): Slot
      requires Valid() && |done| == |rows|
      requires forall i <- members :: done[i] <= packets
    {
      var who := Contributors(done, n);
      Slot(Bits(who), Sum(who, rows, n))
    }
  }

  /** The packet a slot serves once `cleared` packets have been cleared: the only number in
      [cleared, cleared + 256) that maps to it. */
  function Serves(cleared: nat, slot: nat): (n: nat)
    requires slot < SLOTS
    ensures cleared <= n < cleared + SLOTS && n % SLOTS == slot
    ensures forall m | cleared <= m < cleared + SLOTS && m % SLOTS == slot :: m == n
  {
    cleared + (slot - cleared) % SLOTS
  }

  /** How far a pipe has come: `done[i]` packets of feeder `i` have had their first pass,
      `completed` packets have been completed, `cleared` of them have had their second pass. */
  datatype Progress = Progress(done: seq<nat>, completed: nat, cleared: nat)

  ghost predicate Counters(g: Stage, h: Progress)
    requires g.Valid()
  {
    && |h.done| == |g.rows|
    && h.cleared <= h.completed <= g.packets
    && (forall i <- g.members :: h.completed <= h.done[i] <= g.packets)
    && (forall i <- g.members :: h.done[i] <= h.cleared + SLOTS)
    && (exists i :: i in g.members && h.done[i] == h.completed)
  }

  /** Every slot holds exactly the contributions to the one packet it serves. */
  ghost predicate SlotsExact(g: Stage, slots: seq<Slot>, h: Progress)
    requires g.Valid() && Counters(g, h) && |slots| == SLOTS
  {
    forall s | 0 <= s < SLOTS :: slots[s] == g.Expected(h.done, Serves(h.cleared, s))
  }

  /** The recirculation queue holds the completed packets, in order, with their low halves final. */
  ghost predicate RecircExact(g: Stage, recirc: seq<Packet>, h: Progress)
    requires g.Valid() && Counters(g, h)
  {
    && |recirc| == h.completed - h.cleared
    && (forall k | 0 <= k < |recirc| ::
          recirc[k].psn == Psn(h.cleared + k) && recirc[k].data.low == g.Total(h.cleared + k).low)
  }

  ghost predicate Inv(g: Stage, p: Pipe, h: Progress)
    requires g.Valid()
  {
    match p
    case Pipe(slots, recirc) =>
      |slots| == SLOTS && Counters(g, h) && SlotsExact(g, slots, h) && RecircExact(g, recirc, h)
  }

  lemma InitInv(g: Stage)
    requires g.Valid()
    ensures Inv(g, IdlePipe(), Progress(seq(|g.rows|, _ => 0), 0, 0))
  {
    var h := Progress(seq(|g.rows|, _ => 0), 0, 0);
    forall s | 0 <= s < SLOTS
      ensures EMPTY == g.Expected(h.done, Serves(0, s))
    {
      SumBelowEmpty(g.rows, Serves(0, s), |g.rows|);
      assert g.Contributors(h.done, Serves(0, s)) == {};
    }
    var i :| i in g.members;
    assert h.done[i] == h.completed;
  }

  /** Distinct bits make the bitmap comparison a comparison of the contributing feeders. */
  lemma BitsFull(g: Stage, who: set<nat>)
    requires g.Valid() && who <= g.members
    ensures g.Bits(who) == g.Full() <==> who == g.members
  {
    if i :| i in g.members && i !in who {
      assert g.bit[i] in g.Full();
      assert g.bit[i] !in g.Bits(who);
    }
  }

  /** Progress after feeder `f` has contributed its next packet. */
  ghost function AfterFirst(g: Stage, h: Progress, f: nat): Progress
    requires g.Valid() && Counters(g, h) && f in g.members
  {
    var done := h.done[f := h.done[f] + 1];
    Progress(done, if forall i <- g.members :: h.completed < done[i] then h.completed + 1 else h.completed, h.cleared)
  }

  lemma AfterFirstCounters(g: Stage, h: Progress, f: nat)
    requires g.Valid() && Counters(g, h)
    requires f in g.members && h.done[f] < g.packets && h.done[f] < h.cleared + SLOTS
    ensures Counters(g, AfterFirst(g, h, f))
    ensures AfterFirst(g, h, f).completed == h.completed + 1 <==>
            g.Contributors(AfterFirst(g, h, f).done, h.done[f]) == g.members
  {
    var h' := AfterFirst(g, h, f);
    var low :| low in g.members && h.done[low] == h.completed;
    if h'.completed == h.completed {
      var i :| i in g.members && h'.done[i] <= h.completed;
      assert h'.done[i] == h'.completed;
      assert i !in g.Contributors(h'.done, h.done[f]) by {
        assert h.done[f] >= h.completed;
      }
    } else {
      assert low == f && h'.done[f] == h'.completed;
    }
  }

  ghost predicate CanContribute(g: Stage, h: Progress, f: nat, pkt: Packet)
    requires g.Valid() && Counters(g, h)
  {
    && f in g.members && h.done[f] < g.packets && h.done[f] < h.cleared + SLOTS
    && pkt == Packet(Psn(h.done[f]), g.rows[f][h.done[f]])
  }

  lemma FirstPassSlot(g: Stage, p: Pipe, h: Progress, f: nat, pkt: Packet, s: nat)
    requires g.Valid() && Inv(g, p, h) && CanContribute(g, h, f, pkt) && s < SLOTS
    ensures Counters(g, AfterFirst(g, h, f))
    ensures FirstPass(p, g.bit[f], g.Full(), pkt).slots[s] == g.Expected(AfterFirst(g, h, f).done, Serves(h.cleared, s))
  {
    var n := h.done[f];
    AfterFirstCounters(g, h, f);
    var h' := AfterFirst(g, h, f);
    var m := Serves(h.cleared, s);
    var who, who' := g.Contributors(h.done, m), g.Contributors(h'.done, m);
    if s == n % SLOTS {
      assert m == n;
      assert who' == who + {f};
      assert g.Bits(who') == g.Bits(who) + {g.bit[f]};
      SumInsert(who, f, g.rows, n);
    } else {
      assert who' == who;
    }
  }

  /** The bitmap comparison fires exactly when the packet is complete. */
  lemma FirstPassCompletes(g: Stage, p: Pipe, h: Progress, f: nat, pkt: Packet)
    requires g.Valid() && Inv(g, p, h) && CanContribute(g, h, f, pkt)
    ensures
      var n, h' := h.done[f], AfterFirst(g, h, f);
      var s := FirstPass(p, g.bit[f], g.Full(), pkt).slots[n % SLOTS];
      if s.bits == g.Full() then n == h.completed && h'.completed == n + 1 && s.sum == g.Total(n)
      else h'.completed == h.completed
  {
    hide Add, SumBelow;
    var n := h.done[f];
    AfterFirstCounters(g, h, f);
    var h' := AfterFirst(g, h, f);
    FirstPassSlot(g, p, h, f, pkt, n % SLOTS);
    assert Serves(h.cleared, n % SLOTS) == n;
    BitsFull(g, g.Contributors(h'.done, n));
    if h'.completed != h.completed {
      var low :| low in g.members && h.done[low] == h.completed;
      assert low == f;
    }
  }

  lemma FirstPassRecirc(g: Stage, p: Pipe, h: Progress, f: nat, pkt: Packet)
    requires g.Valid() && Inv(g, p, h) && CanContribute(g, h, f, pkt)
    ensures Counters(g, AfterFirst(g, h, f))
    ensures RecircExact(g, FirstPass(p, g.bit[f], g.Full(), pkt).recirc, AfterFirst(g, h, f))
  {
    hide Add, SumBelow;
    AfterFirstCounters(g, h, f);
    FirstPassCompletes(g, p, h, f, pkt);
  }

  /** The first pass of feeder `f`'s next packet keeps the invariant, provided the feeder is
      fewer than 256 packets ahead of the second passes. */
  lemma FirstPassInv(g: Stage, p: Pipe, h: Progress, f: nat, pkt: Packet)
    requires g.Valid() && Inv(g, p, h) && CanContribute(g, h, f, pkt)
    ensures Inv(g, FirstPass(p, g.bit[f], g.Full(), pkt), AfterFirst(g, h, f))
  {
    AfterFirstCounters(g, h, f);
    var p', h' := FirstPass(p, g.bit[f], g.Full(), pkt), AfterFirst(g, h, f);
    assert SlotsExact(g, p'.slots, h') by {
      forall s | 0 <= s < SLOTS
        ensures p'.slots[s] == g.Expected(h'.done, Serves(h'.cleared, s))
      {
        FirstPassSlot(g, p, h, f, pkt, s);
      }
    }
    FirstPassRecirc(g, p, h, f, pkt);
  }

  lemma ClearPassSlot(g: Stage, p: Pipe, h: Progress, s: nat)
    requires g.Valid() && Inv(g, p, h) && p.recirc != [] && s < SLOTS
    ensures ClearPass(p).slots[s] == g.Expected(h.done, Serves(h.cleared + 1, s))
  {
    var n := h.cleared;
    assert p.recirc[0].psn == Psn(n + 0);
    var m := Serves(n + 1, s);
    if s == n % SLOTS {
      assert m == n + SLOTS;
      assert g.Contributors(h.done, m) == {};
      SumBelowEmpty(g.rows, m, |g.rows|);
    } else {
      assert Serves(n, s) == m;
    }
  }

  lemma ClearPassRecirc(g: Stage, p: Pipe, h: Progress)
    requires g.Valid() && Inv(g, p, h) && p.recirc != []
    ensures h.cleared < h.completed
    ensures RecircExact(g, p.recirc[1..], h.(cleared := h.cleared + 1))
  {
    var n := h.cleared;
    forall k | 0 <= k < |p.recirc| - 1
      ensures p.recirc[1..][k].psn == Psn(n + 1 + k) && p.recirc[1..][k].data.low == g.Total(n + 1 + k).low
    {
      assert p.recirc[1..][k] == p.recirc[k + 1];
    }
  }

  /** The second pass keeps the invariant, puts out the complete result of packet `cleared`,
      and leaves its slot all zero, ready for packet `cleared + 256`. */
  lemma ClearPassInv(g: Stage, p: Pipe, h: Progress)
    requires g.Valid() && Inv(g, p, h) && p.recirc != []
    ensures h.cleared < h.completed
    ensures Inv(g, ClearPass(p), h.(cleared := h.cleared + 1))
    ensures ClearOutput(p) == Packet(Psn(h.cleared), g.Total(h.cleared))
    ensures ClearPass(p).slots[h.cleared % SLOTS] == EMPTY
  {
    var n := h.cleared;
    assert p.recirc[0].psn == Psn(n + 0) && p.recirc[0].data.low == g.Total(n + 0).low;
    assert Serves(n, n % SLOTS) == n;
    assert g.Contributors(h.done, n) == g.members;
    ClearPassRecirc(g, p, h);
    assert SlotsExact(g, ClearPass(p).slots, h.(cleared := n + 1)) by {
      forall s | 0 <= s < SLOTS
        ensures ClearPass(p).slots[s] == g.Expected(h.done, Serves(n + 1, s))
      {
        ClearPassSlot(g, p, h, s);
      }
    }
  }
}
