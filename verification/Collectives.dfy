/** The `Collectives` control of one pipe: registers indexed by aggregation unit and sequence
number, updated in place by every packet that passes. */
module Collectives {
  import opened Payloads
  import opened Aggregator
  import opened Bitmaps
  import opened Options

  const REGISTERS: nat := 16384

  /** Result of the unit selector table. */
  datatype Selection = Selection(unit: nat, bitmap: Bitmap)

  /** What happens to the packet: left alone, dropped, or sent on. */
  datatype Verdict = Pass | Drop | Recirculate(port: nat) | NextPipe(port: nat) | Distribute(group: nat)

  /** The two `check_complete` entries of a unit: what happens to the packet that completes its slot, and
      to one that comes back. */
  datatype Completion = Completion(full: Bitmap, onFull: Verdict, onClear: Verdict)

  /** meta.agg_unit: eight bits of the unit, then the low eight bits of the sequence number. */
  function AggUnit(unit: nat, psn: nat): (a: nat)
    ensures a < 0x1_0000
  {
    (unit % 256) * SLOTS + psn % SLOTS
  }

  /** The cast to 14 bits that picks the register. */
  function Index(aggUnit: nat): (i: nat)
    ensures i < REGISTERS
  {
    aggUnit % REGISTERS
  }

  /** Only six bits of the unit survive the cast: two slots share a register exactly when
      their units agree modulo 64 and their sequence numbers modulo 256. */
  lemma IndexAliases(u: nat, p: nat, v: nat, q: nat)
    ensures Index(AggUnit(u, p)) == Index(AggUnit(v, q)) <==> u % 64 == v % 64 && p % SLOTS == q % SLOTS
  {
    IndexSplit(u, p);
    IndexSplit(v, q);
  }

  lemma IndexSplit(u: nat, p: nat)
    ensures Index(AggUnit(u, p)) == (u % 64) * SLOTS + p % SLOTS
  {
    var a, b := u % 256, p % SLOTS;
    UnitParts(u);
    assert AggUnit(u, p) == REGISTERS * (a / 64) + (SLOTS * (u % 64) + b);
    LowPart(a / 64, SLOTS * (u % 64) + b);
  }

  lemma UnitParts(u: nat)
    ensures u % 256 == 64 * (u % 256 / 64) + u % 64
  {
    assert u == 64 * (4 * (u / 256)) + u % 256;
    Low64(4 * (u / 256), u % 256);
  }

  lemma Low64(q: nat, r: nat)
    ensures (64 * q + r) % 64 == r % 64
  {
  }

  lemma LowPart(q: nat, r: nat)
    requires r < REGISTERS
    ensures (REGISTERS * q + r) % REGISTERS == r
  {
  }

  /** The slots of all other units below 64 stay. */
  ghost predicate OthersKept(s: seq<Slot>, s': seq<Slot>, unit: nat)
    requires |s| == |s'| == REGISTERS
  {
    forall w: nat, k: nat | w < 64 && k < SLOTS && w != unit :: s'[Index(AggUnit(w, k))] == s[Index(AggUnit(w, k))]
  }

  /** The selection picks register k. */
  predicate Picks(sel: Option<Selection>, psn: nat, k: nat) {
    sel.Some? && k == Index(AggUnit(sel.value.unit, psn))
  }

  class Pipeline {
    const low: array2<Word>        // low words of the 32 value registers
    const high: array2<Word>       // high words of the 32 value registers
    const mapLow: array<Bits32>    // state_bitmaps_low
    const mapHigh: array<Bits32>   // state_bitmaps_high
    var units: set<nat>                  // units with choose_action entries
    var complete: map<nat, Completion>   // check_complete entries by unit

    ghost predicate Valid() {
      && low.Length0 == high.Length0 == UNITS && low.Length1 == high.Length1 == REGISTERS
      && mapLow.Length == mapHigh.Length == REGISTERS
      && low != high && mapLow != mapHigh
    }

    ghost function Registers(): set<object> {
      {low, high, mapLow, mapHigh}
    }

    /** All slots, by register index. */
    ghost function Slots(): (s: seq<Slot>)
      requires Valid()
      reads low, high, mapLow, mapHigh
      ensures |s| == REGISTERS && forall i | 0 <= i < REGISTERS :: s[i] == SlotAt(i)
    {
      seq(REGISTERS, i requires 0 <= i < REGISTERS reads low, high, mapLow, mapHigh => SlotAt(i))
    }

    /** The tables know the selected unit; without one, they know nothing of unit 255, which is
        what the parser's default agg_unit looks like. */
    ghost predicate Listed(sel: Option<Selection>)
      reads this
    {
      match sel
      case Some(s) => s.unit < 256 && s.unit in units && s.unit in complete
      case None => 255 !in units && 255 !in complete
    }

    ghost function LowAt(i: nat): Half
      requires Valid() && i < REGISTERS
      reads low
    {
      seq(UNITS, j requires 0 <= j < UNITS reads low => low[j, i])
    }

    ghost function HighAt(i: nat): Half
      requires Valid() && i < REGISTERS
      reads high
    {
      seq(UNITS, j requires 0 <= j < UNITS reads high => high[j, i])
    }

    /** The contents of one register index as a slot. */
    ghost function SlotAt(i: nat): Slot
      requires Valid() && i < REGISTERS
      reads low, high, mapLow, mapHigh
    {
      Slot(Positions(Bitmap(mapLow[i], mapHigh[i])), Payload(LowAt(i), HighAt(i)))
    }

    constructor ()
      ensures Valid() && fresh(Registers())
      ensures forall i | 0 <= i < REGISTERS :: SlotAt(i) == EMPTY
      ensures units == {} && complete == map[]
    {
      low := new Word[UNITS, REGISTERS]((_, _) => 0);
      high := new Word[UNITS, REGISTERS]((_, _) => 0);
      mapLow := new Bits32[REGISTERS](_ => 0);
      mapHigh := new Bits32[REGISTERS](_ => 0);
      units, complete := {}, map[];
      new;
      forall i | 0 <= i < REGISTERS
        ensures SlotAt(i) == EMPTY
      {
        NoPositions();
        assert LowAt(i) == ZeroHalf() && HighAt(i) == ZeroHalf();
      }
    }

    /** `agg_int_32_add` in all 32 units: add both halves, read back the low one. */
    method AddValues(i: nat, data: Payload) returns (out: Payload)
      requires Valid() && i < REGISTERS
      modifies low, high
      ensures LowAt(i) == AddHalf(old(LowAt(i)), data.low)
      ensures HighAt(i) == AddHalf(old(HighAt(i)), data.high)
      ensures forall k | 0 <= k < REGISTERS && k != i :: LowAt(k) == old(LowAt(k)) && HighAt(k) == old(HighAt(k))
      ensures out == Payload(LowAt(i), data.high)
    {
      var read: seq<Word> := [];
      for j := 0 to UNITS
        invariant |read| == j
        invariant forall m | 0 <= m < j :: low[m, i] == AddWord(old(low[m, i]), data.low[m]) == read[m]
        invariant forall m | 0 <= m < j :: high[m, i] == AddWord(old(high[m, i]), data.high[m])
        invariant forall m | j <= m < UNITS :: low[m, i] == old(low[m, i]) && high[m, i] == old(high[m, i])
        invariant forall m, k | 0 <= m < UNITS && 0 <= k < REGISTERS && k != i ::
                    low[m, k] == old(low[m, k]) && high[m, k] == old(high[m, k])
      {
        low[j, i] := AddWord(low[j, i], data.low[j]);
        high[j, i] := AddWord(high[j, i], data.high[j]);
        read := read + [low[j, i]];
      }
      out := Payload(read, data.high);
    }

    /** `agg_int_32_clear` in all 32 units: read back the high half, clear both. */
    method ClearValues(i: nat, data: Payload) returns (out: Payload)
      requires Valid() && i < REGISTERS
      modifies low, high
      ensures LowAt(i) == ZeroHalf() && HighAt(i) == ZeroHalf()
      ensures forall k | 0 <= k < REGISTERS && k != i :: LowAt(k) == old(LowAt(k)) && HighAt(k) == old(HighAt(k))
      ensures out == Payload(data.low, old(HighAt(i)))
    {
      var read: seq<Word> := [];
      for j := 0 to UNITS
        invariant |read| == j
        invariant forall m | 0 <= m < j :: low[m, i] == 0 && high[m, i] == 0 && read[m] == old(high[m, i])
        invariant forall m | j <= m < UNITS :: low[m, i] == old(low[m, i]) && high[m, i] == old(high[m, i])
        invariant forall m, k | 0 <= m < UNITS && 0 <= k < REGISTERS && k != i ::
                    low[m, k] == old(low[m, k]) && high[m, k] == old(high[m, k])
      {
        read := read + [high[j, i]];
        low[j, i] := 0;
        high[j, i] := 0;
      }
      assert read == old(HighAt(i));
      assert LowAt(i) == ZeroHalf();
      out := Payload(data.low, read);
    }

    /** The control plane's way to clear a register index: every value register, then the bitmaps. */
    method ClearIndex(i: nat)
      requires Valid() && i < REGISTERS
      modifies low, high, mapLow, mapHigh
      ensures SlotAt(i) == EMPTY
      ensures forall k | 0 <= k < REGISTERS && k != i :: SlotAt(k) == old(SlotAt(k))
    {
      var _ := ClearValues(i, ZERO);
      mapLow[i] := 0;
      mapHigh[i] := 0;
      NoPositions();
    }

    /** One pass of a packet through the control, stage by stage: pick the slot, track the
        workers seen, compare with the complete bitmap, then add or clear the values. */
    method Apply(psn: nat, data: Payload, sel: Option<Selection>, isClear: bool) returns (out: Payload, v: Verdict)
      requires Valid()
      modifies low, high, mapLow, mapHigh
      ensures Listed(sel) ==> forall k | 0 <= k < REGISTERS && !Picks(sel, psn, k) :: SlotAt(k) == old(SlotAt(k))
      ensures sel.None? && Listed(sel) ==> out == data && v == Pass
      ensures sel.Some? && Listed(sel) && !isClear ==>
        var i := Index(AggUnit(sel.value.unit, psn));
        && SlotAt(i) == Slot(old(SlotAt(i)).bits + Positions(sel.value.bitmap), Add(old(SlotAt(i)).sum, data))
        && out == Payload(SlotAt(i).sum.low, data.high)
        && v == if SlotAt(i).bits == Positions(complete[sel.value.unit].full) then complete[sel.value.unit].onFull else Drop
      ensures sel.Some? && Listed(sel) && isClear ==>
        var i := Index(AggUnit(sel.value.unit, psn));
        && SlotAt(i) == EMPTY
        && out == Payload(data.low, old(SlotAt(i)).sum.high)
        && v == complete[sel.value.unit].onClear
    {
      // unit_selector: a packet of a channel is dropped unless a later stage decides otherwise
      var haveUnit := sel.Some?;
      var aggUnit := if haveUnit then AggUnit(sel.value.unit, psn) else 65535;
      var bitmap := if haveUnit then sel.value.bitmap else EMPTY_MAP;
      v := if haveUnit then Drop else Pass;
      var i := Index(aggUnit);

      // tbl_update_bitmap_low, tbl_update_bitmap_high
      if haveUnit {
        if isClear {
          mapLow[i] := 0;
          mapHigh[i] := 0;
        } else {
          OrPositions(Bitmap(mapLow[i], mapHigh[i]), bitmap);
          mapLow[i] := Or32(mapLow[i], bitmap.low);
          mapHigh[i] := Or32(mapHigh[i], bitmap.high);
          bitmap := Bitmap(mapLow[i], mapHigh[i]);
        }
      }

      // check_complete
      var u := aggUnit / 256;
      if u in complete {
        if isClear {
          v := complete[u].onClear;
        } else if bitmap == complete[u].full {
          v := complete[u].onFull;
        }
        EqualPositions(bitmap, complete[u].full);
      }

      // agg00 to agg31
      out := data;
      if u in units {
        if isClear {
          out := ClearValues(i, data);
        } else {
          out := AddValues(i, data);
        }
      }
      NoPositions();
    }

    /** The slots of one unit, with a given recirculation queue, as a pipe of the slot protocol. */
    ghost function PipeOf(unit: nat, q: seq<Packet>): (p: Pipe)
      requires Valid()
      reads low, high, mapLow, mapHigh
      ensures p.Shaped() && p.recirc == q
    {
      Pipe(seq(SLOTS, k requires 0 <= k < SLOTS reads low, high, mapLow, mapHigh => SlotAt(Index(AggUnit(unit, k)))), q)
    }

    /** A pass over the registers is a pass of the slot protocol on the unit's own slots, and no
        pass at all on those of any other unit below 64.  A first pass comes with a worker's bit; on a
        second pass the bitmap does not matter. */
    method Refine(sel: Selection, ghost bit: nat, psn: nat, data: Payload, isClear: bool, ghost q: seq<Packet>)
      returns (out: Payload, v: Verdict)
      requires Valid() && sel.unit < 64 && Listed(Some(sel))
      requires !isClear ==> bit < 64 && sel.bitmap == Mask(bit) && complete[sel.unit].onFull.Recirculate?
      requires isClear ==> q != [] && q[0] == Packet(psn, data)
      modifies low, high, mapLow, mapHigh
      ensures !isClear ==>
        var p := FirstPass(old(PipeOf(sel.unit, q)), bit, Positions(complete[sel.unit].full), Packet(psn, data));
        && PipeOf(sel.unit, p.recirc) == p
        && (v == complete[sel.unit].onFull || v == Drop)
        && p.recirc == if v.Recirculate? then q + [Packet(psn, out)] else q
      ensures isClear ==>
        && PipeOf(sel.unit, q[1..]) == ClearPass(old(PipeOf(sel.unit, q)))
        && Packet(psn, out) == ClearOutput(old(PipeOf(sel.unit, q)))
        && v == complete[sel.unit].onClear
      ensures OthersKept(old(Slots()), Slots(), sel.unit)
    {
      hide Positions, Mask, AggUnit, Index, Add, Listed, SlotAt;
      UnitIndex(sel.unit, psn);
      if !isClear { MaskPositions(bit); }
      out, v := Apply(psn, data, Some(sel), isClear);
      forall w, k | 0 <= w < 64 && 0 <= k < SLOTS && (w != sel.unit || k != psn % SLOTS)
        ensures SlotAt(Index(AggUnit(w, k))) == old(SlotAt(Index(AggUnit(w, k))))
      {
        IndexAliases(w, k, sel.unit, psn);
        assert !Picks(Some(sel), psn, Index(AggUnit(w, k)));
      }
    }
  }

  lemma UnitIndex(unit: nat, psn: nat)
    ensures Index(AggUnit(unit, psn % SLOTS)) == Index(AggUnit(unit, psn))
  {
  }

  lemma NoPositions()
    ensures Positions(EMPTY_MAP) == {}
  {
    FirstNPositions(0);
  }
}
