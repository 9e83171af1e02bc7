/** The multicomp09 memory mapper: bank registers, the bus_map calls and expander slots they
    produce, and the address space these pieces add up to. */
module Mapper {
  import opened Words
  import opened Bus

  const BLOCK := 0x2000
  const FRT_BLOCK := 7
  const RAM := 1
  const ROM := 2
  const CONSOLE := 3
  const SDMAPPER := 4
  const EXPANDER := 5

  /** MMUADR (bit 7 ROMDIS, 6 TR, 5 MMUEN), the Fixed-RAM-Top flag and the sixteen block registers. */
  datatype Regs = Regs(adr: byte, frt: bool, pblk: seq<byte>)

  predicate Valid(r: Regs) { |r.pblk| == 16 }
  predicate RomDisabled(r: Regs) { Bit(r.adr, 7) }
  predicate MmuEnabled(r: Regs) { Bit(r.adr, 5) }

  function BlockReg(r: Regs, blk: nat): byte
    requires Valid(r) && blk < 8
  {
    r.pblk[if Bit(r.adr, 6) then blk + 8 else blk]
  }

  /** mmu_offset and mmu_flags: where block `blk` of the CPU space lies in RAM, and how it may be used. */
  function Offset(r: Regs, blk: nat): nat
    requires Valid(r) && blk < 8
  {
    if MmuEnabled(r) then BlockReg(r, blk) % 128 * BLOCK else blk * BLOCK
  }

  function Flags(r: Regs, blk: nat): byte
    requires Valid(r) && blk < 8
  {
    if MmuEnabled(r) && BlockReg(r, blk) >= 128 then READABLE else READWRITE
  }

  // ----- register writes -----

  datatype Write = Adr(val: byte) | Dat(val: byte)

  /** A write to MMUADR with bit 4 set is the single-step control and changes no mapping. */
  predicate IgnoredWrite(w: Write) { w.Adr? && Bit(w.val, 4) }

  function SetAdr(r: Regs, val: byte): Regs {
    SetByteBit(val, 7);
    var enter := RomDisabled(r) && MmuEnabled(r) && !Bit(val, 7) && Bit(val, 5);
    var v: byte := if enter then SetBit(val, 7) else val;
    Regs(v, (r.frt || enter) && Bit(v, 5), r.pblk)
  }

  function Update(r: Regs, w: Write): Regs
    requires Valid(r)
  {
    match w
    case Adr(v) => SetAdr(r, v)
    case Dat(v) => r.(pblk := r.pblk[r.adr % 16 := v])
  }

  // ----- the pieces of the address space -----

  datatype Slot = Slot(dev: nat, offset: nat)

  /** The ten bus_map calls of sdmapper_remap, in order. */
  function Call(r: Regs, i: nat): Mapping
    requires Valid(r) && i < 10
  {
    if i < 7 then Mapping(i * BLOCK, RAM, Offset(r, i), BLOCK, Flags(r, i))
    else if i == 7 then
      if RomDisabled(r) then Mapping(0xe000, RAM, Offset(r, 7), 0x1e00, Flags(r, 7))
      else Mapping(0xe000, ROM, 0, 0x1e00, READABLE)
    else if i == 8 then
      if RomDisabled(r) then
        if r.frt then Mapping(0xfe00, RAM, 0x1e00 + FRT_BLOCK * BLOCK, 0x180, Flags(r, 7))
        else Mapping(0xfe00, RAM, 0x1e00 + Offset(r, 7), 0x180, READWRITE)
      else Mapping(0xfe00, ROM, 0x1e00, 0x180, READABLE)
    else Mapping(0xff80, EXPANDER, 0, 128, READWRITE)
  }

  function Calls(r: Regs): (h: seq<Mapping>)
    requires Valid(r)
    ensures |h| == 10 && forall i :: 0 <= i < 10 ==> h[i] == Call(r, i)
  {
    seq(10, i requires 0 <= i < 10 => Call(r, i))
  }

  /** The expander slot for the eight bytes at 0xff80 + 8 * i. */
  function SlotFor(r: Regs, i: nat): Slot
    requires Valid(r)
  {
    if i == 10 then Slot(CONSOLE, 0)
    else if i == 11 then Slot(SDMAPPER, 0)
    else if !RomDisabled(r) then Slot(ROM, 0x1f80 + i * 8)
    else if r.frt then Slot(RAM, FRT_BLOCK * BLOCK + 0x1f80 + i * 8)
    else Slot(RAM, Offset(r, 7) + 0x1f80 + i * 8)
  }

  function Slots(r: Regs): (s: seq<Slot>)
    requires Valid(r)
    ensures |s| == 16 && forall i :: 0 <= i < 16 ==> s[i] == SlotFor(r, i)
  {
    seq(16, i requires 0 <= i < 16 => SlotFor(r, i))
  }

  /** Where an access at `a` ends up: a device number and an offset in that device. */
  function Decode(cs: seq<Cell>, slots: seq<Slot>, a: word): Slot
    requires |cs| == CELLS && |slots| == 16
  {
    var c := CellAt(cs, a);
    var p := Physical(cs, a);
    if c.devid == EXPANDER && p / 8 < 16 then Slot(slots[p / 8].dev, p % 8 + slots[p / 8].offset)
    else Slot(c.devid, p)
  }

  /** The memory map the hardware promises.  The I/O page holds the console and the mapper itself. */
  function Promised(r: Regs, a: word): Slot
    requires Valid(r)
  {
    if 0xffd0 <= a < 0xffd8 then Slot(CONSOLE, a - 0xffd0)
    else if 0xffd8 <= a < 0xffe0 then Slot(SDMAPPER, a - 0xffd8)
    else if a < 0xe000 then Slot(RAM, Offset(r, a / BLOCK) + a % BLOCK)
    else if !RomDisabled(r) then Slot(ROM, a - 0xe000)
    else if r.frt && a >= 0xfe00 then Slot(RAM, FRT_BLOCK * BLOCK + (a - 0xe000))
    else Slot(RAM, Offset(r, 7) + (a - 0xe000))
  }

  predicate IoAddress(a: word) { 0xffd0 <= a < 0xffe0 }

  // ----- the imperative mapper -----

  class SdMapper {
    const bus: Machine
    const slots: array<Slot>
    const pblk: array<byte>
    var adr: byte
    var frt: bool
    var dat: byte

    constructor (bus: Machine)
      ensures this.bus == bus && fresh(slots) && fresh(pblk) && slots.Length == 16 && pblk.Length == 16
      ensures adr == 0 && !frt && dat == 0 && pblk[..] == seq(16, _ => 0)
    {
      this.bus := bus;
      slots := new Slot[16](_ => Slot(0, 0));
      pblk := new byte[16](_ => 0);
      adr, frt, dat := 0, false, 0;
    }

    ghost predicate Ready()
      reads this
    {
      slots.Length == 16 && pblk.Length == 16 && bus.cells.Length == CELLS
    }

    ghost function State(): Regs
      reads this, pblk
    {
      Regs(adr, frt, pblk[..])
    }

    /** The register part of sdmapper_remap. */
    method Load(w: Write)
      requires Ready()
      modifies this, pblk
      ensures State() == Update(old(State()), w)
    {
      match w {
        case Dat(v) =>
          pblk[adr % 16] := v;
          dat := v;
        case Adr(v) =>
          hide Bit, SetBit;
          var val := v;
          if Bit(adr, 7) && Bit(adr, 5) && !Bit(val, 7) && Bit(val, 5) {
            frt := true;
            SetByteBit(val, 7);
            val := SetBit(val, 7);
          }
          if !Bit(val, 5) {
            frt := false;
          }
          adr := val;
      }
    }

    /** The mapping part: ten bus_map calls, then the sixteen expander slots. */
    method Remap()
      requires Ready()
      modifies bus.cells, slots
      ensures bus.cells[..] == MapAll(old(bus.cells[..]), Calls(State()))
      ensures slots[..] == Slots(State())
    {
      ghost var h := Calls(State());
      var r := Regs(adr, frt, pblk[..]);
      for i := 0 to 10
        invariant bus.cells[..] == MapAll(old(bus.cells[..]), h[..i])
      {
        CallsFit(r, i);
        bus.BusMap(Call(r, i));
        assert h[..i + 1][..i] == h[..i];
      }
      assert h[..10] == h;
      for i := 0 to 16
        invariant bus.cells[..] == MapAll(old(bus.cells[..]), h)
        invariant forall k :: 0 <= k < i ==> slots[k] == SlotFor(r, k)
      {
        slots[i] := SlotFor(r, i);
      }
    }

    /** sdmapper_write to MMUADR or MMUDAT. */
    method WriteRegister(w: Write)
      requires Ready()
      modifies this, pblk, bus.cells, slots
      ensures IgnoredWrite(w) ==>
                State() == old(State()) && bus.cells[..] == old(bus.cells[..]) && slots[..] == old(slots[..])
      ensures !IgnoredWrite(w) ==>
                && State() == Update(old(State()), w)
                && bus.cells[..] == MapAll(old(bus.cells[..]), Calls(State())) && slots[..] == Slots(State())
    {
      hide Bit, Update, Calls, Slots;
      if !(w.Adr? && Bit(w.val, 4)) {
        Load(w);
        Remap();
      }
    }
  }

  // ----- one remap -----

  lemma CallsFit(r: Regs, i: nat)
    requires Valid(r) && i < 10
    ensures Fits(Call(r, i)) && !FixedFlag(Call(r, i).flags)
  {
    hide Bit;
  }

  /** The call that covers each cell; the ten ranges do not overlap. */
  function CallOf(k: nat): nat { if k < 448 then k / 64 else if k < 508 then 7 else if k < 511 then 8 else 9 }

  lemma CallRange(r: Regs, i: nat, k: nat)
    requires Valid(r) && i < 10 && k < CELLS
    ensures Covers(Call(r, i), k) <==> i == CallOf(k)
  {
    hide Bit, Offset, Flags;
  }

  predicate NothingFixed(cs: seq<Cell>) { forall k :: 0 <= k < |cs| ==> !Fixed(cs[k]) }

  lemma CellAfterRemap(cs: seq<Cell>, r: Regs, k: nat)
    requires Valid(r) && |cs| == CELLS && NothingFixed(cs) && k < CELLS
    ensures Covers(Call(r, CallOf(k)), k)
    ensures MapAll(cs, Calls(r))[k] == CellFor(Call(r, CallOf(k)), k)
  {
    hide Call, Covers, MapAll, FixedFlag;
    var h := Calls(r);
    forall j | 0 <= j < 10 ensures (Covers(h[j], k) <==> j == CallOf(k)) && !FixedFlag(h[j].flags) {
      CallRange(r, j, k);
      CallsFit(r, j);
    }
    CellAfterHistory(cs, h, k, CallOf(k));
  }

  lemma RemapFixesNothing(cs: seq<Cell>, r: Regs)
    requires Valid(r) && |cs| == CELLS && NothingFixed(cs)
    ensures NothingFixed(MapAll(cs, Calls(r)))
  {
    hide Call, MapAll, FixedFlag;
    forall k | 0 <= k < CELLS ensures !Fixed(MapAll(cs, Calls(r))[k]) {
      CellAfterRemap(cs, r, k);
      CallsFit(r, CallOf(k));
    }
  }

  lemma DecodeLow(r: Regs, c: Cell, a: word)
    requires Valid(r) && a < 0xe000
    requires var k := a / CELL_SIZE; Covers(Call(r, CallOf(k)), k) && c == CellFor(Call(r, CallOf(k)), k)
    ensures Slot(c.devid, c.offset + a % CELL_SIZE) == Promised(r, a) && c.devid != EXPANDER
  {
    hide Bit, Offset, Flags, Units;
    LowCell(r, a);
    BlockAligned(r);
  }

  lemma DecodeHigh(r: Regs, c: Cell, a: word)
    requires Valid(r) && 0xe000 <= a < 0xff80
    requires var k := a / CELL_SIZE; Covers(Call(r, CallOf(k)), k) && c == CellFor(Call(r, CallOf(k)), k)
    ensures Slot(c.devid, c.offset + a % CELL_SIZE) == Promised(r, a) && c.devid != EXPANDER
  {
    hide Bit, Offset, Flags;
    BlockAligned(r);
  }

  lemma DecodeTop(r: Regs, a: word)
    requires Valid(r) && 0xff80 <= a
    ensures var p := a % CELL_SIZE; p / 8 < 16 && Slot(SlotFor(r, p / 8).dev, p % 8 + SlotFor(r, p / 8).offset) == Promised(r, a)
  {
    hide Bit, Offset, Flags;
    ExpanderSlot(a);
  }

  /** Map cells and expander slots together decode every address to the promised place. */
  lemma RemapDecodes(cs: seq<Cell>, r: Regs, a: word)
    requires Valid(r) && |cs| == CELLS && NothingFixed(cs)
    ensures Decode(MapAll(cs, Calls(r)), Slots(r), a) == Promised(r, a)
  {
    hide MapAll, Calls, Bit, Flags, Offset, Promised, SlotFor;
    var k := a / CELL_SIZE;
    CellAfterRemap(cs, r, k);
    if a < 0xe000 {
      hide Call, CellFor, Covers;
      DecodeLow(r, MapAll(cs, Calls(r))[k], a);
    } else if a < 0xff80 {
      hide Call, CellFor, Covers;
      DecodeHigh(r, MapAll(cs, Calls(r))[k], a);
    } else {
      assert k == 511 && MapAll(cs, Calls(r))[k] == Cell(EXPANDER, 0, READWRITE);
      DecodeTop(r, a);
    }
  }

  lemma BlockAligned(r: Regs)
    requires Valid(r)
    ensures forall b :: 0 <= b < 8 ==> Units(Offset(r, b)) * CELL_SIZE == Offset(r, b)
    ensures Units(0x1e00 + Offset(r, 7)) * CELL_SIZE == 0x1e00 + Offset(r, 7)
  {
    hide Bit;
    forall b | 0 <= b < 8 ensures Units(Offset(r, b)) * CELL_SIZE == Offset(r, b) {
      var q := if MmuEnabled(r) then BlockReg(r, b) % 128 else b;
      assert Offset(r, b) == CELL_SIZE * (64 * q);
    }
    assert 0x1e00 + Offset(r, 7) == CELL_SIZE * (60 + Offset(r, 7) / CELL_SIZE);
  }

  lemma LowCell(r: Regs, a: word)
    requires Valid(r) && a < 0xe000
    ensures var k := a / CELL_SIZE;
            && CallOf(k) == k / 64 == a / BLOCK && Units(k / 64 * BLOCK) == 64 * (k / 64)
            && CELL_SIZE * (k - 64 * (k / 64)) + a % CELL_SIZE == a % BLOCK
  {
    var k := a / CELL_SIZE;
    assert a == CELL_SIZE * k + a % CELL_SIZE;
    assert k == 64 * (k / 64) + k % 64;
  }

  lemma ExpanderSlot(a: word)
    requires a / CELL_SIZE == 511
    ensures var p := a % CELL_SIZE; p / 8 < 16 && a - 0xe000 == 0x1f80 + p / 8 * 8 + p % 8
    ensures !IoAddress(a) ==> a % CELL_SIZE / 8 != 10 && a % CELL_SIZE / 8 != 11
  {
  }

  predicate Allowed(r: Regs, a: word)
    requires Valid(r)
  {
    if a < 0xe000 then Flags(r, a / BLOCK) == READWRITE
    else if a >= 0xff80 then true
    else if !RomDisabled(r) then false
    else if a >= 0xfe00 && !r.frt then true
    else Flags(r, 7) == READWRITE
  }

  /** Who may write where: below 0xfe00 the block's protect bit decides; from 0xfe00 to 0xff7f it is
      honoured exactly in Fixed-RAM-Top mode and ignored otherwise; the top 128 bytes are always
      writable, so the expander lets the CPU change even ROM there. */
  lemma WritePermission(cs: seq<Cell>, r: Regs, a: word)
    requires Valid(r) && |cs| == CELLS && NothingFixed(cs)
    ensures Writable(CellAt(MapAll(cs, Calls(r)), a)) <==> Allowed(r, a)
  {
    hide MapAll, Calls, Bit, Offset;
    CellAfterRemap(cs, r, a / CELL_SIZE);
    if a < 0xe000 { LowCell(r, a); }
  }

  /** The permission the comments give from 0xfe00 on: none over ROM, always in Fixed-RAM-Top mode,
      otherwise that of block 7.  The last 128 bytes are to follow the same rules. */
  predicate Commented(r: Regs)
    requires Valid(r)
  {
    RomDisabled(r) && (r.frt || Flags(r, 7) == READWRITE)
  }

  /** Below 0xff80 the code grants what the comments say exactly over ROM or an unprotected block 7;
      from 0xff80 on it grants everything, which is right exactly over RAM that is fixed or unprotected. */
  lemma PermissionAsCommentedIff(cs: seq<Cell>, r: Regs, a: word)
    requires Valid(r) && |cs| == CELLS && NothingFixed(cs) && 0xfe00 <= a && !IoAddress(a)
    ensures (Writable(CellAt(MapAll(cs, Calls(r)), a)) <==> Commented(r))
            <==> if a < 0xff80 then !RomDisabled(r) || Flags(r, 7) == READWRITE
                 else RomDisabled(r) && (r.frt || Flags(r, 7) == READWRITE)
  {
    hide MapAll, Calls, Bit, Flags;
    WritePermission(cs, r, a);
  }

  // ----- every sequence of writes -----

  datatype Mapped = Mapped(regs: Regs, cells: seq<Cell>, slots: seq<Slot>)

  function Boot(cs: seq<Cell>): Mapped
    requires |cs| == CELLS
  {
    var r := Regs(0, false, seq(16, _ => 0));
    Mapped(r, MapAll(cs, Calls(r)), Slots(r))
  }

  function Apply(m: Mapped, w: Write): Mapped
    requires Valid(m.regs)
  {
    if IgnoredWrite(w) then m
    else var r := Update(m.regs, w); Mapped(r, MapAll(m.cells, Calls(r)), Slots(r))
  }

  function ApplyAll(m: Mapped, ws: seq<Write>): (r: Mapped)
    requires Valid(m.regs)
    ensures Valid(r.regs)
    decreases |ws|
  {
    if ws == [] then m else ApplyAll(Apply(m, ws[0]), ws[1..])
  }

  /** What holds after every prefix of writes. */
  predicate Consistent(m: Mapped) {
    && Valid(m.regs) && |m.cells| == CELLS && |m.slots| == 16 && NothingFixed(m.cells)
    && (forall a: word :: Decode(m.cells, m.slots, a) == Promised(m.regs, a))
    && (forall a: word :: Writable(CellAt(m.cells, a)) <==> Allowed(m.regs, a))
    && (m.regs.frt ==> RomDisabled(m.regs) && MmuEnabled(m.regs))
  }

  lemma UpdateKeepsFrt(r: Regs, w: Write)
    requires Valid(r) && (r.frt ==> RomDisabled(r) && MmuEnabled(r))
    ensures var r' := Update(r, w); r'.frt ==> RomDisabled(r') && MmuEnabled(r')
  {
    hide Bit, SetBit;
    if w.Adr? { SetByteBit(w.val, 7); }
  }

  lemma RemapConsistent(cs: seq<Cell>, r: Regs)
    requires Valid(r) && |cs| == CELLS && NothingFixed(cs) && (r.frt ==> RomDisabled(r) && MmuEnabled(r))
    ensures Consistent(Mapped(r, MapAll(cs, Calls(r)), Slots(r)))
  {
    hide MapAll, Calls, Decode, Promised, Bit;
    RemapFixesNothing(cs, r);
    forall a: word ensures Decode(MapAll(cs, Calls(r)), Slots(r), a) == Promised(r, a) {
      RemapDecodes(cs, r, a);
    }
    forall a: word ensures Writable(CellAt(MapAll(cs, Calls(r)), a)) <==> Allowed(r, a) {
      WritePermission(cs, r, a);
    }
  }

  /** From boot on, after every sequence of MMUADR and MMUDAT writes the address space is the promised one. */
  lemma {:induction false} AlwaysConsistent(m: Mapped, ws: seq<Write>)
    requires Consistent(m)
    ensures Consistent(ApplyAll(m, ws))
    decreases |ws|
  {
    hide MapAll, Calls, Slots, Update, Decode, Promised, NothingFixed;
    if ws != [] {
      assert Consistent(Apply(m, ws[0])) by { ApplyConsistent(m, ws[0]); }
      AlwaysConsistent(Apply(m, ws[0]), ws[1..]);
    }
  }

  lemma ApplyConsistent(m: Mapped, w: Write)
    requires Consistent(m)
    ensures Consistent(Apply(m, w))
  {
    hide MapAll, Calls, Slots, Decode, Promised, Update, Bit;
    if !IgnoredWrite(w) {
      UpdateKeepsFrt(m.regs, w);
      UpdateValid(m.regs, w);
      RemapConsistent(m.cells, Update(m.regs, w));
    }
  }

  lemma UpdateValid(r: Regs, w: Write)
    requires Valid(r)
    ensures Valid(Update(r, w))
  {
  }

  lemma BootConsistent(cs: seq<Cell>)
    requires |cs| == CELLS && NothingFixed(cs)
    ensures Consistent(Boot(cs))
  {
    hide MapAll, Calls, Slots;
    RemapConsistent(cs, Regs(0, false, seq(16, _ => 0)));
  }

  /** Once ROM is off with the MMU on, it stays off for as long as MMUEN is kept at 1. */
  lemma {:induction false} RomStaysOff(m: Mapped, ws: seq<Write>)
    requires Valid(m.regs) && RomDisabled(m.regs) && MmuEnabled(m.regs)
    requires forall i :: 0 <= i < |ws| && ws[i].Adr? && !IgnoredWrite(ws[i]) ==> Bit(ws[i].val, 5)
    ensures RomDisabled(ApplyAll(m, ws).regs) && MmuEnabled(ApplyAll(m, ws).regs)
    decreases |ws|
  {
    hide Bit, SetBit, MapAll, Calls, Slots;
    if ws != [] {
      var w := ws[0];
      if w.Adr? { SetByteBit(w.val, 7); }
      RomStaysOff(Apply(m, w), ws[1..]);
    }
  }

  // ----- what software programs -----

  /** The last value written to block register `n`, -1 if none, by these writes: MMUDAT goes to the
      register that the low four bits of MMUADR select, writes with bit 4 set count for nothing. */
  function Programmed(select: nat, ws: seq<Write>, n: nat): (v: int)
    ensures -1 <= v < 256
    decreases |ws|
  {
    if ws == [] then -1
    else match ws[0]
         case Adr(v) => Programmed(if Bit(v, 4) then select else v % 16, ws[1..], n)
         case Dat(v) => var later := Programmed(select, ws[1..], n); if later < 0 && select == n then v else later
  }

  /** The control value in force after these writes. */
  function Control(adr: byte, ws: seq<Write>): byte
    decreases |ws|
  {
    if ws == [] then adr else Control(if ws[0].Adr? && !Bit(ws[0].val, 4) then ws[0].val else adr, ws[1..])
  }

  /** The registers hold what was programmed last; entering Fixed-RAM-Top mode alters bit 7 only. */
  lemma {:induction false} RegistersHold(m: Mapped, adr: byte, ws: seq<Write>, n: nat)
    requires Valid(m.regs) && n < 16
    requires m.regs.adr % 16 == adr % 16 && Bit(m.regs.adr, 5) == Bit(adr, 5) && Bit(m.regs.adr, 6) == Bit(adr, 6)
    ensures var r := ApplyAll(m, ws).regs; var v := Programmed(adr % 16, ws, n);
            && Valid(r) && r.pblk[n] == (if v < 0 then m.regs.pblk[n] else v)
            && Bit(r.adr, 5) == Bit(Control(adr, ws), 5) && Bit(r.adr, 6) == Bit(Control(adr, ws), 6)
    decreases |ws|
  {
    hide Bit, SetBit, MapAll, Calls, Slots;
    if ws != [] {
      var w := ws[0];
      if w.Adr? && !Bit(w.val, 4) {
        SetByteBit(w.val, 7);
        TopBitOnly(w.val);
        RegistersHold(Apply(m, w), w.val, ws[1..], n);
      } else {
        RegistersHold(Apply(m, w), adr, ws[1..], n);
      }
    }
  }

  lemma TopBitOnly(v: byte)
    ensures SetBit(v, 7) % 16 == v % 16
  {
    hide Bit;
    Pow2Values();
  }

  /** After any writes that leave the MMU on with task register bank n / 8, the CPU block n % 8 below the
      ROM area is the 8K block of RAM whose number was last written to block register n, and it may be
      written exactly if bit 7 of that value is clear. */
  lemma BlockIsProgrammed(m: Mapped, ws: seq<Write>, n: nat, a: word)
    requires Consistent(m) && n < 16 && a < 0xe000 && a / 0x2000 == n % 8 && Programmed(m.regs.adr % 16, ws, n) >= 0
    requires var c := Control(m.regs.adr, ws); Bit(c, 5) && Bit(c, 6) == (n >= 8)
    ensures var m' := ApplyAll(m, ws); var v := Programmed(m.regs.adr % 16, ws, n);
            && |m'.cells| == CELLS && |m'.slots| == 16
            && Decode(m'.cells, m'.slots, a) == Slot(RAM, v % 128 * 0x2000 + a % 0x2000)
            && (Writable(CellAt(m'.cells, a)) <==> v < 128)
  {
    hide Programmed, Control, ApplyAll, Decode, Writable, NothingFixed, Bit, CellAt;
    AlwaysConsistent(m, ws);
    RegistersHold(m, m.regs.adr, ws, n);
    var m' := ApplyAll(m, ws);
    assert Decode(m'.cells, m'.slots, a) == Promised(m'.regs, a);
    assert Writable(CellAt(m'.cells, a)) <==> Allowed(m'.regs, a);
  }

  /** With ROM off and Fixed-RAM-Top not entered, block 7 reaches up to the top but for the I/O page. */
  lemma TopBlockIsProgrammed(m: Mapped, ws: seq<Write>, n: nat, a: word)
    requires Consistent(m) && (n == 7 || n == 15) && 0xe000 <= a && !IoAddress(a) && Programmed(m.regs.adr % 16, ws, n) >= 0
    requires var c := Control(m.regs.adr, ws); Bit(c, 5) && Bit(c, 6) == (n >= 8)
    requires RomDisabled(ApplyAll(m, ws).regs) && !ApplyAll(m, ws).regs.frt
    ensures var m' := ApplyAll(m, ws);
            && |m'.cells| == CELLS && |m'.slots| == 16
            && Decode(m'.cells, m'.slots, a) == Slot(RAM, Programmed(m.regs.adr % 16, ws, n) % 128 * 0x2000 + (a - 0xe000))
  {
    hide Programmed, Control, ApplyAll, Decode, Writable, NothingFixed, Bit;
    AlwaysConsistent(m, ws);
    RegistersHold(m, m.regs.adr, ws, n);
    var m' := ApplyAll(m, ws);
    assert Decode(m'.cells, m'.slots, a) == Promised(m'.regs, a);
  }

  /** With the MMU off, the CPU sees the first 56K of RAM in place, unprotected. */
  lemma MmuOffIsFlat(m: Mapped, ws: seq<Write>, a: word)
    requires Consistent(m) && a < 0xe000 && !Bit(Control(m.regs.adr, ws), 5)
    ensures var m' := ApplyAll(m, ws);
            && |m'.cells| == CELLS && |m'.slots| == 16
            && Decode(m'.cells, m'.slots, a) == Slot(RAM, a) && Writable(CellAt(m'.cells, a))
  {
    hide Programmed, Control, ApplyAll, Decode, Writable, NothingFixed, Bit, CellAt;
    AlwaysConsistent(m, ws);
    RegistersHold(m, m.regs.adr, ws, 0);
    var m' := ApplyAll(m, ws);
    assert Decode(m'.cells, m'.slots, a) == Promised(m'.regs, a);
    assert Writable(CellAt(m'.cells, a)) <==> Allowed(m'.regs, a);
  }

  /** Two addresses in programmed blocks of one bank are the same byte of RAM exactly when their offsets
      and the low seven bits of their registers agree. */
  lemma BlocksAliasIff(m: Mapped, ws: seq<Write>, n: nat, k: nat, a: word, b: word)
    requires Consistent(m) && n < 16 && k < 16 && a < 0xe000 && b < 0xe000 && a / 0x2000 == n % 8 && b / 0x2000 == k % 8
    requires Programmed(m.regs.adr % 16, ws, n) >= 0 && Programmed(m.regs.adr % 16, ws, k) >= 0
    requires var c := Control(m.regs.adr, ws); Bit(c, 5) && Bit(c, 6) == (n >= 8) == (k >= 8)
    ensures var m' := ApplyAll(m, ws); var v, w := Programmed(m.regs.adr % 16, ws, n), Programmed(m.regs.adr % 16, ws, k);
            && |m'.cells| == CELLS && |m'.slots| == 16
            && (Decode(m'.cells, m'.slots, a) == Decode(m'.cells, m'.slots, b) <==> a % 0x2000 == b % 0x2000 && v % 128 == w % 128)
  {
    hide Programmed, Control, ApplyAll, Decode, Writable, Consistent, Bit, CellAt;
    BlockIsProgrammed(m, ws, n, a);
    BlockIsProgrammed(m, ws, k, b);
  }

  /** The two writes a driver makes: select register n with the MMU on and its bank shown, then write v.
      The block shows at once. */
  lemma SelectAndWrite(m: Mapped, w: byte, v: byte, n: nat, a: word)
    requires Consistent(m) && n < 16 && a < 0xe000 && a / 0x2000 == n % 8
    requires w % 16 == n && !Bit(w, 4) && Bit(w, 5) && Bit(w, 6) == (n >= 8)
    ensures var m' := ApplyAll(m, [Adr(w), Dat(v)]);
            && |m'.cells| == CELLS && |m'.slots| == 16
            && Decode(m'.cells, m'.slots, a) == Slot(RAM, v % 128 * 0x2000 + a % 0x2000)
  {
    hide ApplyAll, Decode, Consistent, Bit;
    var ws := [Adr(w), Dat(v)];
    assert ws[1..] == [Dat(v)] && [Dat(v)][1..] == [];
    assert Programmed(w % 16, [Dat(v)], n) == v by { assert Programmed(w % 16, [], n) == -1; }
    assert Control(w, [Dat(v)]) == w by { assert Control(w, []) == w; }
    BlockIsProgrammed(m, ws, n, a);
  }

  // ----- states that show the flags -----

  lemma ControlBits()
    ensures !Bit(0xa7, 4) && Bit(0xa7, 5) && !Bit(0xa7, 6) && Bit(0xa7, 7)
    ensures !Bit(0x27, 4) && Bit(0x27, 5) && !Bit(0x27, 6) && !Bit(0x27, 7) && SetBit(0x27, 7) == 0xa7
    ensures !Bit(0, 5) && !Bit(0, 7)
  {
    BitDown4(0xa7, 4); BitDown4(0xa7, 5); BitDown4(0xa7, 6); BitDown4(0xa7, 7);
    BitDown4(0x27, 4); BitDown4(0x27, 5); BitDown4(0x27, 6); BitDown4(0x27, 7);
    BitDown4(0, 5); BitDown4(0, 7);
    Pow2Values();
  }

  /** ROM off and MMU on with block register 7 selected, the block protected, then MMUADR written
      again without ROMDIS: the last write enters Fixed-RAM-Top mode. */
  lemma ProtectRegs(r0: Regs)
    requires r0 == Regs(0, false, seq(16, _ => 0))
    ensures var r1 := Update(r0, Adr(0xa7)); var r2 := Update(r1, Dat(0x80)); var r3 := Update(r2, Adr(0x27));
            && RomDisabled(r2) && !r2.frt && Flags(r2, 7) == READABLE
            && RomDisabled(r3) && r3.frt && Flags(r3, 7) == READABLE
  {
    hide Bit, SetBit;
    ControlBits();
  }

  /** Two register writes from boot make 0xfe00 writable although block 7 is protected; a third makes
      it read-only although Fixed-RAM-Top is on.  The comments say the opposite both times; and at boot
      already ROM can be written at 0xff80. */
  lemma PermissionsOpposite(cs: seq<Cell>)
    requires |cs| == CELLS && NothingFixed(cs)
    ensures !Commented(Boot(cs).regs) && Writable(CellAt(Boot(cs).cells, 0xff80))
    ensures var m := ApplyAll(Boot(cs), [Adr(0xa7), Dat(0x80)]);
            !m.regs.frt && !Commented(m.regs) && Writable(CellAt(m.cells, 0xfe00))
    ensures var m := ApplyAll(Boot(cs), [Adr(0xa7), Dat(0x80), Adr(0x27)]);
            && m.regs.frt && Commented(m.regs) && !Writable(CellAt(m.cells, 0xfe00))
            && Decode(m.cells, m.slots, 0xfe00) == Slot(RAM, 0xfe00)
  {
    hide MapAll, Calls, Slots, Update, Flags, Bit, Decode, Promised;
    var m0 := Boot(cs);
    BootConsistent(cs);
    var m1 := Apply(m0, Adr(0xa7));
    ApplyConsistent(m0, Adr(0xa7));
    var m2 := Apply(m1, Dat(0x80));
    ApplyConsistent(m1, Dat(0x80));
    var m3 := Apply(m2, Adr(0x27));
    ApplyConsistent(m2, Adr(0x27));
    ControlBits();
    ProtectRegs(m0.regs);
    WritePermission(cs, m0.regs, 0xff80);
    WritePermission(m1.cells, m2.regs, 0xfe00);
    WritePermission(m2.cells, m3.regs, 0xfe00);
    assert Promised(m3.regs, 0xfe00) == Slot(RAM, 0xfe00) by { FrtTop(m3.regs); }
    ThreeWrites(m0, Adr(0xa7), Dat(0x80), Adr(0x27));
  }

  lemma FrtTop(r: Regs)
    requires Valid(r) && RomDisabled(r) && r.frt
    ensures Promised(r, 0xfe00) == Slot(RAM, 0xfe00)
  {
    hide Bit;
  }

  lemma ThreeWrites(m: Mapped, a: Write, b: Write, c: Write)
    requires Consistent(m)
    ensures Valid(Apply(m, a).regs) && Valid(Apply(Apply(m, a), b).regs)
    ensures ApplyAll(m, [a, b]) == Apply(Apply(m, a), b)
    ensures ApplyAll(m, [a, b, c]) == Apply(Apply(Apply(m, a), b), c)
  {
    hide Apply, Decode, Promised, NothingFixed;
    var m1 := Apply(m, a);
    ApplyConsistent(m, a);
    var m2 := Apply(m1, b);
    ApplyConsistent(m1, b);
    assert [a, b][1..] == [b] && [b][1..] == [] && [a, b, c][1..] == [b, c] && [b, c][1..] == [c] && [c][1..] == [];
    assert ApplyAll(m2, []) == m2 && ApplyAll(m1, [b]) == m2;
    assert ApplyAll(m2, [c]) == Apply(m2, c);
  }

  // ----- a 16-bit read that goes wrong -----

  /** From boot on, a word read at 0xdfff takes its second byte from RAM, while the byte at 0xe000 is
      in ROM: for some contents of the two devices the word is wrong. */
  lemma FastReadMisled(cs: seq<Cell>, ds: Devices)
    requires |cs| == CELLS && NothingFixed(cs)
    requires |ds| > ROM && 0x10000 <= |ds[RAM]| <= MAX_DEVICE && 0x2000 <= |ds[ROM]| <= MAX_DEVICE
    ensures var cells := Boot(cs).cells;
            && !Continues(cells, 0xdfff) && Backed16(cells, ds, 0xdfff) && Backed(cells, ds, 0xe000)
            && exists ds' :: SameShape(ds, ds') && !FastReadRight(cells, ds', 0xdfff)
  {
    hide MapAll, Calls, Slots, Bit;
    var r := Regs(0, false, seq(16, _ => 0));
    ControlBits();
    var cells := Boot(cs).cells;
    CellAfterRemap(cs, r, 447);
    CellAfterRemap(cs, r, 448);
    assert cells[447] == Cell(RAM, 0xdf80, READWRITE) && cells[448] == Cell(ROM, 0, READABLE);
    FastReadExact(cells, ds, 0xdfff);
  }
}
