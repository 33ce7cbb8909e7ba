/** The bit fields of mr0 (include/sel4/rpc.h): the BIT_FIELD macros on 64-bit words, and the MMIO
    request that packs direction, address space, length and slot beside the op code. */
module Packing {
  import opened Bits

  /** rpcmsg_t */
  datatype Message = Message(mr0: nat, mr1: nat, mr2: nat, mr3: nat)

  datatype Field = Field(width: nat, shift: nat) {
    predicate Fits() { width + shift <= 64 }
  }

  const OP := Field(6, 0)
  const SLOT := Field(6, 6)
  const DIRECTION := Field(1, 12)
  const ADDR_SPACE := Field(8, 13)
  const LENGTH := Field(4, 21)

  const OP_MMIO: nat := 0
  const AS_GLOBAL: nat := Ones(8)

  /** PCI_DEVFN with function 0, and PCI_SLOT */
  function PciDevfn(slot: nat): nat { Shl(And(slot, 0x1f), 3) }
  function PciSlot(devfn: nat): (s: nat)
    ensures s < 32
  {
    SlotBound(Shr(devfn, 3));
    And(Shr(devfn, 3), 0x1f)
  }

  lemma SlotBound(x: nat)
    ensures And(x, 0x1f) == x % 32
  {
    assert Ones(5) == 0x1f && Pow2(5) == 32;
    AndOnes(x, 5);
    LowIsMod(x, 5);
  }

  /** BIT_FIELD_MASK, BIT_FIELD_GET and BIT_FIELD_SET */
  function Mask(f: Field): nat { Shl(Ones(f.width), f.shift) }
  function GetField(v: nat, f: Field): nat { And(Shr(v, f.shift), Ones(f.width)) }
  function SetField(v: nat, f: Field, n: nat): nat {
    Or(And(v, Not(Mask(f), 64)), And(Low(Shl(n, f.shift), 64), Mask(f)))
  }

  /** What a message says about itself: its op, and the slot a request belongs to. */
  function OpOf(m: Message): nat { GetField(m.mr0, OP) }
  function SlotOf(m: Message): nat { GetField(m.mr0, SLOT) }

  /** mr0 as driver_rpc_req_mmio_start and driver_rpc_request build it. */
  function MmioMr0(direction: nat, space: nat, len: nat, slot: nat): nat {
    var d := SetField(0, DIRECTION, direction);
    var s := SetField(d, ADDR_SPACE, space);
    var l := SetField(s, LENGTH, len);
    var t := SetField(l, SLOT, slot);
    SetField(t, OP, OP_MMIO)
  }

  predicate Disjoint(f: Field, g: Field) { f.shift + f.width <= g.shift || g.shift + g.width <= f.shift }

  /* ---------------------------------------------------------------- single fields */

  lemma MaskBit(f: Field, i: nat)
    ensures Bit(Mask(f), i) <==> f.shift <= i < f.shift + f.width
  {
    ShlBit(Ones(f.width), f.shift, i);
    if f.shift <= i { OnesBit(f.width, i - f.shift); }
  }

  lemma GetFieldBit(v: nat, f: Field, i: nat)
    ensures Bit(GetField(v, f), i) <==> i < f.width && Bit(v, i + f.shift)
  {
    AndBit(Shr(v, f.shift), Ones(f.width), i);
    ShrBit(v, f.shift, i);
    OnesBit(f.width, i);
  }

  lemma SetFieldBit(v: nat, f: Field, n: nat, i: nat)
    requires f.Fits()
    ensures Bit(SetField(v, f, n), i) <==>
            i < 64 && if f.shift <= i < f.shift + f.width then Bit(n, i - f.shift) else Bit(v, i)
  {
    var kept, field := And(v, Not(Mask(f), 64)), And(Low(Shl(n, f.shift), 64), Mask(f));
    OrBit(kept, field, i);
    AndBit(v, Not(Mask(f), 64), i);
    NotBit(Mask(f), 64, i);
    MaskBit(f, i);
    AndBit(Low(Shl(n, f.shift), 64), Mask(f), i);
    LowBit(Shl(n, f.shift), 64, i);
    ShlBit(n, f.shift, i);
  }

  /** Reading a field just set gives the value, cut to the width of the field. */
  lemma GetSetSame(v: nat, f: Field, n: nat)
    requires f.Fits()
    ensures GetField(SetField(v, f, n), f) == Low(n, f.width)
  {
    forall i: nat ensures Bit(GetField(SetField(v, f, n), f), i) == Bit(Low(n, f.width), i) {
      GetFieldBit(SetField(v, f, n), f, i);
      SetFieldBit(v, f, n, i + f.shift);
      LowBit(n, f.width, i);
    }
    SameBits(GetField(SetField(v, f, n), f), Low(n, f.width));
  }

  /** Setting a field leaves every other field alone. */
  lemma GetSetOther(v: nat, f: Field, n: nat, g: Field)
    requires f.Fits() && g.Fits() && Disjoint(f, g)
    ensures GetField(SetField(v, f, n), g) == GetField(v, g)
  {
    forall i: nat ensures Bit(GetField(SetField(v, f, n), g), i) == Bit(GetField(v, g), i) {
      GetFieldBit(SetField(v, f, n), g, i);
      GetFieldBit(v, g, i);
      SetFieldBit(v, f, n, i + g.shift);
    }
    SameBits(GetField(SetField(v, f, n), g), GetField(v, g));
  }

  /** So the order in which fields are set does not matter. */
  lemma SetCommutes(v: nat, f: Field, a: nat, g: Field, b: nat)
    requires f.Fits() && g.Fits() && Disjoint(f, g)
    ensures SetField(SetField(v, f, a), g, b) == SetField(SetField(v, g, b), f, a)
  {
    forall i: nat ensures Bit(SetField(SetField(v, f, a), g, b), i) == Bit(SetField(SetField(v, g, b), f, a), i) {
      SetFieldBit(SetField(v, f, a), g, b, i);
      SetFieldBit(v, f, a, i);
      SetFieldBit(SetField(v, g, b), f, a, i);
      SetFieldBit(v, g, b, i);
    }
    SameBits(SetField(SetField(v, f, a), g, b), SetField(SetField(v, g, b), f, a));
  }

  lemma {:induction false} LowSmall(n: nat, w: nat)
    requires n < Pow2(w)
    ensures Low(n, w) == n
    decreases w
  {
    if w > 0 { LowSmall(n / 2, w - 1); }
  }

  /** A field as a number: the value of its bits within the word. */
  lemma FieldIsNumber(v: nat, f: Field)
    ensures GetField(v, f) == v / Pow2(f.shift) % Pow2(f.width)
  {
    ShrIsDiv(v, f.shift);
    AndOnes(Shr(v, f.shift), f.width);
    LowIsMod(Shr(v, f.shift), f.width);
  }

  /** Where the fields of mr0 are, from the lowest bit up: six bits of op, six of slot, one of direction,
      eight of address space, four of length. */
  lemma FieldPlaces(v: nat)
    ensures GetField(v, OP) == v % 64 && GetField(v, SLOT) == v / 64 % 64 && GetField(v, DIRECTION) == v / 4096 % 2
    ensures GetField(v, ADDR_SPACE) == v / 8192 % 256 && GetField(v, LENGTH) == v / 2097152 % 16
  {
    hide GetField;
    Powers();
    FieldIsNumber(v, OP);
    FieldIsNumber(v, SLOT);
    FieldIsNumber(v, DIRECTION);
    FieldIsNumber(v, ADDR_SPACE);
    FieldIsNumber(v, LENGTH);
  }

  lemma Powers()
    ensures Pow2(0) == 1 && Pow2(1) == 2 && Pow2(4) == 16 && Pow2(6) == 64 && Pow2(8) == 256
    ensures Pow2(12) == 4096 && Pow2(13) == 8192 && Pow2(21) == 2097152 && Pow2(25) == 33554432
  {
    assert Pow2(8) == 256;
    assert Pow2(16) == 65536;
    assert Pow2(21) == 2097152;
  }

  lemma OpBits(m: Message)
    ensures OpOf(m) == m.mr0 % 64
  {
    hide GetField;
    FieldPlaces(m.mr0);
  }

  lemma SlotBits(m: Message)
    ensures SlotOf(m) == m.mr0 / 64 % 64
  {
    hide GetField;
    FieldPlaces(m.mr0);
  }

  /* ---------------------------------------------------------------- the request */

  /** Every field of a request reads back as it was given, cut to its width. */
  lemma MmioFields(direction: nat, space: nat, len: nat, slot: nat)
    ensures var mr0 := MmioMr0(direction, space, len, slot);
            && GetField(mr0, OP) == OP_MMIO && GetField(mr0, SLOT) == Low(slot, 6)
            && GetField(mr0, DIRECTION) == Low(direction, 1) && GetField(mr0, ADDR_SPACE) == Low(space, 8)
            && GetField(mr0, LENGTH) == Low(len, 4)
  {
    var d := SetField(0, DIRECTION, direction);
    var s := SetField(d, ADDR_SPACE, space);
    var l := SetField(s, LENGTH, len);
    var t := SetField(l, SLOT, slot);
    GetSetSame(0, DIRECTION, direction);
    GetSetSame(d, ADDR_SPACE, space);
    GetSetSame(s, LENGTH, len);
    GetSetSame(l, SLOT, slot);
    GetSetSame(t, OP, OP_MMIO);
    GetSetOther(d, ADDR_SPACE, space, DIRECTION);
    GetSetOther(s, LENGTH, len, DIRECTION);
    GetSetOther(s, LENGTH, len, ADDR_SPACE);
    GetSetOther(l, SLOT, slot, DIRECTION);
    GetSetOther(l, SLOT, slot, ADDR_SPACE);
    GetSetOther(l, SLOT, slot, LENGTH);
    GetSetOther(t, OP, OP_MMIO, DIRECTION);
    GetSetOther(t, OP, OP_MMIO, ADDR_SPACE);
    GetSetOther(t, OP, OP_MMIO, LENGTH);
    GetSetOther(t, OP, OP_MMIO, SLOT);
    LowSmall(OP_MMIO, 6);
  }

  /** Whether no field of a request is cut. */
  predicate InRange(direction: nat, space: nat, len: nat, slot: nat) {
    direction < 2 && space < 256 && len < 16 && slot < 64
  }

  /** A request in range reads back unchanged. */
  lemma MmioRoundTrip(direction: nat, space: nat, len: nat, slot: nat)
    requires InRange(direction, space, len, slot)
    ensures var mr0 := MmioMr0(direction, space, len, slot);
            && GetField(mr0, OP) == OP_MMIO && GetField(mr0, SLOT) == slot
            && GetField(mr0, DIRECTION) == direction && GetField(mr0, ADDR_SPACE) == space
            && GetField(mr0, LENGTH) == len
  {
    MmioFields(direction, space, len, slot);
    assert Pow2(1) == 2 && Pow2(4) == 16 && Pow2(6) == 64 && Pow2(8) == 256;
    LowSmall(direction, 1);
    LowSmall(space, 8);
    LowSmall(len, 4);
    LowSmall(slot, 6);
  }

  /** A request in range as a number. */
  lemma MmioNumber(direction: nat, space: nat, len: nat, slot: nat)
    requires InRange(direction, space, len, slot)
    ensures MmioMr0(direction, space, len, slot) == 64 * slot + 4096 * direction + 8192 * space + 2097152 * len
  {
    hide GetField, MmioMr0, Pow2;
    var mr0 := MmioMr0(direction, space, len, slot);
    MmioRoundTrip(direction, space, len, slot);
    FieldPlaces(mr0);
    forall i: nat ensures 25 <= i ==> !Bit(mr0, i) { MmioHighBit(direction, space, len, slot, i); }
    NoHighBits(mr0, 25);
    Powers();
    Assemble(mr0);
  }

  lemma Assemble(x: nat)
    requires x < 33554432
    ensures x == x % 64 + 64 * (x / 64 % 64) + 4096 * (x / 4096 % 2) + 8192 * (x / 8192 % 256) + 2097152 * (x / 2097152 % 16)
  {
    assert x / 64 / 64 == x / 4096 && x / 4096 / 2 == x / 8192 && x / 8192 / 256 == x / 2097152;
  }

  lemma MmioHighBit(direction: nat, space: nat, len: nat, slot: nat, i: nat)
    ensures 25 <= i ==> !Bit(MmioMr0(direction, space, len, slot), i)
  {
    hide SetField;
    var d := SetField(0, DIRECTION, direction);
    var s := SetField(d, ADDR_SPACE, space);
    var l := SetField(s, LENGTH, len);
    var t := SetField(l, SLOT, slot);
    ZeroBit(i);
    SetFieldBit(0, DIRECTION, direction, i);
    SetFieldBit(d, ADDR_SPACE, space, i);
    SetFieldBit(s, LENGTH, len, i);
    SetFieldBit(l, SLOT, slot, i);
    SetFieldBit(t, OP, OP_MMIO, i);
  }

  /* ---------------------------------------------------------------- PCI numbers */

  /** The number of slot s is 8 times s, and a number belongs to the slot that it has 8 times. */
  lemma PciNumbers(x: nat)
    ensures PciDevfn(x) == x % 32 * 8 && PciSlot(x) == x / 8 % 32
  {
    SlotBound(x);
    SlotBound(Shr(x, 3));
    assert Pow2(3) == 8;
    ShrIsDiv(x, 3);
    ShlIsMul(And(x, 0x1f), 3);
  }

  /** So a slot is the slot of its own number, cut to five bits. */
  lemma PciSlotOf(slot: nat)
    ensures PciSlot(PciDevfn(slot)) == slot % 32
  {
    hide PciSlot, PciDevfn;
    PciNumbers(slot);
    PciNumbers(PciDevfn(slot));
  }

  /** The address space of a PCI device is never the global one, which is 255. */
  lemma PciSpaceDistinct(devfn: nat)
    ensures AS_GLOBAL == 255 && PciSlot(devfn) != AS_GLOBAL
  {
    assert Ones(8) == 255;
  }
}
