/** The system bus: 512 map cells of 128 bytes, sticky FIXED entries, address translation and the
    eon MMU that rewrites cells. */
module Bus {
  import opened Words

  const CELLS := 512
  const CELL_SIZE := 128

  // flag bits: 0 readable, 1 writable, 2 fixed, 3 ignore writes
  const READABLE: byte := 1
  const READWRITE: byte := 3

  datatype Cell = Cell(devid: nat, offset: nat, flags: byte)

  predicate Writable(c: Cell) { c.flags / 2 % 2 == 1 }
  predicate FixedFlag(flags: byte) { flags / 4 % 2 == 1 }
  predicate Fixed(c: Cell) { FixedFlag(c.flags) }
  predicate IgnoresWrites(c: Cell) { c.flags / 8 % 2 == 1 }

  /** One call of bus_map. */
  datatype Mapping = Mapping(addr: nat, devid: nat, offset: nat, len: nat, flags: byte)

  /** Byte counts are rounded up to whole cells. */
  function Units(n: nat): nat { (n + CELL_SIZE - 1) / CELL_SIZE }

  predicate Fits(c: Mapping) { Units(c.addr) + Units(c.len) <= CELLS }
  predicate Covers(c: Mapping, k: nat) { Units(c.addr) <= k < Units(c.addr) + Units(c.len) }

  /** The cell a mapping asks for: the offset advances by 128 a cell. */
  function CellFor(c: Mapping, k: nat): Cell
    requires Covers(c, k)
  {
    Cell(c.devid, CELL_SIZE * (Units(c.offset) + (k - Units(c.addr))), c.flags)
  }

  function Remapped(c: Mapping, k: nat, was: Cell): Cell {
    if Covers(c, k) && !Fixed(was) then CellFor(c, k) else was
  }

  function MapCells(cs: seq<Cell>, c: Mapping): (r: seq<Cell>)
    ensures |r| == |cs|
    ensures forall k :: 0 <= k < |cs| ==> r[k] == Remapped(c, k, cs[k])
  {
    seq(|cs|, k requires 0 <= k < |cs| => Remapped(c, k, cs[k]))
  }

  // ----- the loop -----

  class Machine {
    const cells: array<Cell>
    var devices: Devices
    var running: bool  // cpu_running: set once the processor has been reset
    var regs: MmuRegs

    constructor (ds: Devices)
      ensures fresh(cells) && cells.Length == CELLS && devices == ds && !running
      ensures forall k :: 0 <= k < CELLS ==> cells[k] == Cell(0xff, 0, 0)
    {
      cells := new Cell[CELLS](_ => Cell(0xff, 0, 0));
      devices := ds;
      running := false;
      regs := seq(16, _ => [0, 0, 0, 0]);
    }

    /** Writes the covered cells one by one, skipping the fixed ones. */
    method BusMap(c: Mapping)
      requires cells.Length == CELLS && Fits(c)
      modifies cells
      ensures cells[..] == MapCells(old(cells[..]), c)
    {
      var start := Units(c.addr);
      var count := Units(c.len);
      var offset := Units(c.offset) * CELL_SIZE;
      var i := start;
      while count > 0
        invariant i + count == start + Units(c.len) && start <= i
        invariant offset == CELL_SIZE * (Units(c.offset) + (i - start))
        invariant forall k :: 0 <= k < CELLS ==>
                    cells[k] == if k < i then Remapped(c, k, old(cells[k])) else old(cells[k])
      {
        if !Fixed(cells[i]) {
          cells[i] := Cell(c.devid, offset, c.flags);
        }
        count := count - 1;
        i := i + 1;
        offset := offset + CELL_SIZE;
      }
      forall k | 0 <= k < CELLS ensures cells[k] == Remapped(c, k, old(cells[k])) {
        assert k >= i ==> !Covers(c, k);
      }
    }

    /** cpu_write8.  A write the map forbids, or that no memory answers, leaves every device byte alone. */
    method CpuWrite8(a: word, v: byte) returns (fault: bool)
      requires cells.Length == CELLS && InBounds(cells[..], devices, a)
      modifies `devices
      ensures devices == match Write8(cells[..], old(devices), running, a, v)
                         case Written(ds) => ds
                         case _ => old(devices)
      ensures fault <==> Write8(cells[..], old(devices), running, a, v) == Faulted
    {
      var c := cells[a / CELL_SIZE];
      var phys := c.offset + a % CELL_SIZE;
      fault := running && !Present(devices, c.devid);
      if fault { return; }
      if !running || Writable(c) {
        if Present(devices, c.devid) && c.devid != NULL_DEVICE {
          devices := Poke(devices, c.devid, phys, v);
        }
      } else if !IgnoresWrites(c) {
        fault := true;
      }
    }

    /** mmu_write: store the register, then remap its page. */
    method WriteMmu(addr: nat, val: byte)
      requires cells.Length == CELLS
      modifies `regs, cells
      ensures Mmu(cells[..], regs) == MmuWrite(old(Mmu(cells[..], regs)), addr, val)
    {
      var page, reg := addr / 4 % 16, addr % 4;
      var row: seq<byte> := regs[page][reg := val];
      regs := regs[page := row];
      PageCovers(regs, page, 0);
      BusMap(PageMapping(regs, page));
    }

    /** mmu_reset_complete: load the registers of each page from its fifth cell. */
    method SyncMmu()
      requires cells.Length == CELLS
      modifies `regs
      ensures forall p :: 0 <= p < 16 ==> regs[p] == Sampled(cells[SAMPLE + CELLS_PER_PAGE * p], old(regs[p]))
    {
      var page := 0;
      while page < 16
        invariant page <= 16
        invariant forall p :: 0 <= p < 16 ==>
                    regs[p] == if p < page then Sampled(cells[SAMPLE + CELLS_PER_PAGE * p], old(regs[p])) else old(regs[p])
      {
        var row: seq<byte> := Sampled(cells[SAMPLE + CELLS_PER_PAGE * page], regs[page]);
        regs := regs[page := row];
        page := page + 1;
      }
    }
  }

  // ----- histories -----

  function MapAll(cs: seq<Cell>, h: seq<Mapping>): (r: seq<Cell>)
    ensures |r| == |cs|
  {
    if h == [] then cs else MapCells(MapAll(cs, h[..|h| - 1]), h[|h| - 1])
  }

  predicate CoversFixed(c: Mapping, k: nat) { Covers(c, k) && FixedFlag(c.flags) }

  /** Mapping `i` decides cell `k`: the first fixed one covering it, or with none, the last covering it. */
  predicate Decides(h: seq<Mapping>, k: nat, i: nat) {
    && i < |h| && Covers(h[i], k)
    && if FixedFlag(h[i].flags) then forall j :: 0 <= j < i ==> !CoversFixed(h[j], k)
       else (forall j :: 0 <= j < |h| ==> !CoversFixed(h[j], k)) && (forall j :: i < j < |h| ==> !Covers(h[j], k))
  }

  lemma {:induction false} FixedAfterHistory(cs: seq<Cell>, h: seq<Mapping>, k: nat)
    requires k < |cs| && !Fixed(cs[k])
    ensures Fixed(MapAll(cs, h)[k]) <==> exists j :: 0 <= j < |h| && CoversFixed(h[j], k)
    decreases |h|
  {
    hide Covers, FixedFlag;
    if h != [] {
      var n := |h| - 1;
      var g := h[..n];
      FixedAfterHistory(cs, g, k);
      assert forall j :: 0 <= j < n ==> g[j] == h[j];
      assert MapAll(cs, h)[k] == Remapped(h[n], k, MapAll(cs, g)[k]);
      if Fixed(MapAll(cs, g)[k]) {
        var j :| 0 <= j < |g| && CoversFixed(g[j], k);
        assert CoversFixed(h[j], k);
      } else if CoversFixed(h[n], k) {
        assert Fixed(MapAll(cs, h)[k]);
      } else {
        assert !Fixed(MapAll(cs, h)[k]);
        forall j | 0 <= j < |h| ensures !CoversFixed(h[j], k) {
          if j < n { assert !CoversFixed(g[j], k); }
        }
      }
    }
  }

  /** After any history of calls on a bus without fixed cells, a cell holds the entry of the first
      covering fixed mapping, or with none, of the last covering mapping. */
  lemma {:induction false} CellAfterHistory(cs: seq<Cell>, h: seq<Mapping>, k: nat, i: nat)
    requires k < |cs| && !Fixed(cs[k]) && Decides(h, k, i)
    ensures MapAll(cs, h)[k] == CellFor(h[i], k)
    decreases |h|
  {
    hide Covers, FixedFlag;
    var n := |h| - 1;
    var g := h[..n];
    assert MapAll(cs, h)[k] == Remapped(h[n], k, MapAll(cs, g)[k]);
    if i < n {
      assert Decides(g, k, i) && g[i] == h[i];
      CellAfterHistory(cs, g, k, i);
    } else {
      FixedAfterHistory(cs, g, k);
      forall j | 0 <= j < n ensures !CoversFixed(g[j], k) { assert !CoversFixed(h[j], k); }
    }
  }

  /** Cells nothing covers keep their initial entry. */
  lemma {:induction false} CellUntouched(cs: seq<Cell>, h: seq<Mapping>, k: nat)
    requires k < |cs| && forall j :: 0 <= j < |h| ==> !Covers(h[j], k)
    ensures MapAll(cs, h)[k] == cs[k]
    decreases |h|
  {
    hide Covers;
    if h != [] {
      var g := h[..|h| - 1];
      forall j | 0 <= j < |g| ensures !Covers(g[j], k) { assert g[j] == h[j]; }
      CellUntouched(cs, g, k);
    }
  }

  // ----- address translation -----

  /** Contents of the memory devices, by device number. */
  type Devices = seq<seq<byte>>

  const MAX_DEVICE := 0x1000_0000

  function CellAt(cs: seq<Cell>, a: word): Cell
    requires |cs| == CELLS
  {
    cs[a / CELL_SIZE]
  }

  function Physical(cs: seq<Cell>, a: word): nat
    requires |cs| == CELLS
  {
    CellAt(cs, a).offset + a % CELL_SIZE
  }

  /** to_absolute: device number in the high bits, offset in the device below. */
  function Absolute(cs: seq<Cell>, a: word): nat
    requires |cs| == CELLS
  {
    CellAt(cs, a).devid * MAX_DEVICE + Physical(cs, a)
  }

  const NULL_DEVICE := 0
  const INVALID_DEVICE := 0xff

  /** find_device knows the number; any other access faults and goes to the null device. */
  predicate Present(ds: Devices, devid: nat) { devid < |ds| && devid != INVALID_DEVICE }

  /** The access stays inside an existing memory device. */
  predicate Backed(cs: seq<Cell>, ds: Devices, a: word)
    requires |cs| == CELLS
  {
    var d := CellAt(cs, a).devid;
    Present(ds, d) && d != NULL_DEVICE && Physical(cs, a) < |ds[d]| <= MAX_DEVICE
  }

  /** An access that reaches memory stays inside it; nothing is asked of cells without a memory device. */
  predicate InBounds(cs: seq<Cell>, ds: Devices, a: word)
    requires |cs| == CELLS
  {
    Present(ds, CellAt(cs, a).devid) && CellAt(cs, a).devid != NULL_DEVICE ==> Backed(cs, ds, a)
  }

  function Read8(cs: seq<Cell>, ds: Devices, a: word): byte
    requires |cs| == CELLS && Backed(cs, ds, a)
  {
    ds[CellAt(cs, a).devid][Physical(cs, a)]
  }

  function Poke(ds: Devices, dev: nat, p: nat, v: byte): Devices
    requires dev < |ds| && p < |ds[dev]|
  {
    var d: seq<byte> := ds[dev][p := v];
    ds[dev := d]
  }

  /** Outcome of a CPU write: stored, silently dropped, or a fault. */
  datatype WriteOutcome = Written(ds: Devices) | Ignored | Faulted

  function Write8(cs: seq<Cell>, ds: Devices, running: bool, a: word, v: byte): WriteOutcome
    requires |cs| == CELLS && InBounds(cs, ds, a)
  {
    var c := CellAt(cs, a);
    if running && !Present(ds, c.devid) then Faulted
    else if !running || Writable(c) then
      if Present(ds, c.devid) && c.devid != NULL_DEVICE then Written(Poke(ds, c.devid, Physical(cs, a), v)) else Ignored
    else if IgnoresWrites(c) then Ignored
    else Faulted
  }

  /** Exactly when a write is stored, and when it faults: bit 1 of the flags permits it, bit 3 makes a
      forbidden one silent, and a running processor faults where no device answers. */
  lemma WriteOutcomes(cs: seq<Cell>, ds: Devices, running: bool, a: word, v: byte)
    requires |cs| == CELLS && InBounds(cs, ds, a)
    ensures var c := CellAt(cs, a); var o := Write8(cs, ds, running, a, v);
            && (o.Written? <==> c.devid < |ds| && c.devid != 0 && c.devid != 0xff && (!running || Bit(c.flags, 1)))
            && (o.Faulted? <==> running && (c.devid >= |ds| || c.devid == 0xff || (!Bit(c.flags, 1) && !Bit(c.flags, 3))))
  {
    hide Bit, Physical;
    var c := CellAt(cs, a);
    TwoBits(c.flags);
    LowBits(c.flags);
    var q, r := c.flags / 4, c.flags % 4;
    assert c.flags == 2 * (2 * q + r / 2) + r % 2 && c.flags / 2 == 2 * q + r / 2;
  }

  /** Lengths and addresses are rounded up to whole cells. */
  lemma UnitsRoundUp(n: nat)
    ensures n <= CELL_SIZE * Units(n) < n + CELL_SIZE
  {
  }

  /** Two addresses reach the same byte exactly when their absolute addresses are equal. */
  lemma AbsoluteIsInjective(cs: seq<Cell>, ds: Devices, a: word, b: word)
    requires |cs| == CELLS && Backed(cs, ds, a) && Backed(cs, ds, b)
    ensures Absolute(cs, a) == Absolute(cs, b)
            <==> CellAt(cs, a).devid == CellAt(cs, b).devid && Physical(cs, a) == Physical(cs, b)
  {
    hide CellAt, Physical;
    var d, e := CellAt(cs, a).devid, CellAt(cs, b).devid;
    if d < e {
      assert e * MAX_DEVICE >= (d + 1) * MAX_DEVICE;
    } else if e < d {
      assert d * MAX_DEVICE >= (e + 1) * MAX_DEVICE;
    }
  }

  /** Read over write through aliasing maps: the written byte shows at every alias and nowhere else. */
  lemma ReadOverWrite(cs: seq<Cell>, ds: Devices, running: bool, a: word, v: byte, b: word)
    requires |cs| == CELLS && Backed(cs, ds, a) && Backed(cs, ds, b)
    ensures match Write8(cs, ds, running, a, v)
            case Written(ds') => && Backed(cs, ds', b)
                                 && Read8(cs, ds', b) == if Absolute(cs, a) == Absolute(cs, b) then v else Read8(cs, ds, b)
            case _ => running && !Writable(CellAt(cs, a))
  {
    hide Absolute, CellAt, Physical;
    AbsoluteIsInjective(cs, ds, a, b);
  }

  // ----- the 16-bit fast path -----

  /** cpu_read16 translates once and reads two consecutive device bytes. */
  predicate Backed16(cs: seq<Cell>, ds: Devices, a: word)
    requires |cs| == CELLS
  {
    Backed(cs, ds, a) && Physical(cs, a) + 1 < |ds[CellAt(cs, a).devid]|
  }

  function Read16(cs: seq<Cell>, ds: Devices, a: word): word
    requires |cs| == CELLS && Backed16(cs, ds, a)
  {
    var d := ds[CellAt(cs, a).devid];
    Join(d[Physical(cs, a)], d[Physical(cs, a) + 1])
  }

  /** The next address stays in the cell, or the next cell continues the same device. */
  predicate Continues(cs: seq<Cell>, a: word)
    requires |cs| == CELLS && a < 0xffff
  {
    a % CELL_SIZE != 127
    || (CellAt(cs, a + 1).devid == CellAt(cs, a).devid && CellAt(cs, a + 1).offset == CellAt(cs, a).offset + CELL_SIZE)
  }

  lemma ContinuesMeans(cs: seq<Cell>, a: word)
    requires |cs| == CELLS && a < 0xffff
    ensures Continues(cs, a) <==> && CellAt(cs, a + 1).devid == CellAt(cs, a).devid
                                  && Physical(cs, a + 1) == Physical(cs, a) + 1
  {
    if a % CELL_SIZE != 127 {
      assert (a + 1) / CELL_SIZE == a / CELL_SIZE && (a + 1) % CELL_SIZE == a % CELL_SIZE + 1;
    } else {
      assert (a + 1) % CELL_SIZE == 0;
    }
  }

  /** Same devices, possibly different contents. */
  predicate SameShape(ds: Devices, ds': Devices) {
    |ds| == |ds'| && forall i :: 0 <= i < |ds| ==> |ds'[i]| == |ds[i]|
  }

  predicate FastReadRight(cs: seq<Cell>, ds: Devices, a: word)
    requires |cs| == CELLS && a < 0xffff && Backed16(cs, ds, a) && Backed(cs, ds, a) && Backed(cs, ds, a + 1)
  {
    Read16(cs, ds, a) == Join(Read8(cs, ds, a), Read8(cs, ds, a + 1))
  }

  /** The 16-bit read equals two 8-bit reads whatever the devices hold, exactly when the cells continue. */
  lemma FastReadExact(cs: seq<Cell>, ds: Devices, a: word)
    requires |cs| == CELLS && a < 0xffff && Backed16(cs, ds, a) && Backed(cs, ds, a + 1)
    ensures Continues(cs, a) <==>
            forall ds' :: SameShape(ds, ds') ==> FastReadRight(cs, ds', a)
  {
    hide CellAt, Physical, Continues;
    ContinuesMeans(cs, a);
    if !Continues(cs, a) {
      var d := CellAt(cs, a).devid;
      var p := Physical(cs, a) + 1;
      var v := (Read8(cs, ds, a + 1) + 1) % 256;
      var ds' := Poke(ds, d, p, v);
      assert SameShape(ds, ds');
      assert Read8(cs, ds', a + 1) == Read8(cs, ds, a + 1);
      assert !FastReadRight(cs, ds', a);
    }
  }

  // ----- the eon MMU -----

  const PAGE := 4096
  const CELLS_PER_PAGE := 32

  type MmuRegs = r: seq<seq<byte>> | |r| == 16 && forall p :: 0 <= p < 16 ==> |r[p]| == 4
    witness seq(16, _ => [0, 0, 0, 0])

  datatype Mmu = Mmu(cells: seq<Cell>, regs: MmuRegs)

  /** The map request for a page, from its registers; the flags keep only readable and writable. */
  function PageMapping(regs: MmuRegs, page: nat): Mapping
    requires page < 16
  {
    Mapping(page * PAGE, regs[page][0], PAGE * regs[page][1], PAGE, regs[page][2] % 4)
  }

  function MmuWrite(m: Mmu, addr: nat, val: byte): (r: Mmu)
    ensures |r.cells| == |m.cells|
  {
    var page, reg := addr / 4 % 16, addr % 4;
    var row: seq<byte> := m.regs[page][reg := val];
    var regs: MmuRegs := m.regs[page := row];
    Mmu(MapCells(m.cells, PageMapping(regs, page)), regs)
  }

  function MmuWrites(m: Mmu, ws: seq<(nat, byte)>): (r: Mmu)
    ensures |r.cells| == |m.cells|
    decreases |ws|
  {
    if ws == [] then m else MmuWrites(MmuWrite(m, ws[0].0, ws[0].1), ws[1..])
  }

  lemma PageCovers(regs: MmuRegs, page: nat, k: nat)
    requires page < 16
    ensures Fits(PageMapping(regs, page))
    ensures Covers(PageMapping(regs, page), k) <==> k / CELLS_PER_PAGE == page
    ensures !FixedFlag(PageMapping(regs, page).flags)
  {
  }

  /** The cells of the page that are not fixed hold exactly what its registers say. */
  predicate PageAgrees(m: Mmu, page: nat)
    requires page < 16 && |m.cells| == CELLS
  {
    forall k :: 0 <= k < CELLS && k / CELLS_PER_PAGE == page && !Fixed(m.cells[k]) ==>
      Covers(PageMapping(m.regs, page), k) && m.cells[k] == CellFor(PageMapping(m.regs, page), k)
  }

  lemma MmuWriteEffect(m: Mmu, addr: nat, val: byte)
    requires |m.cells| == CELLS
    ensures var m' := MmuWrite(m, addr, val);
            && |m'.cells| == CELLS
            && (forall k :: 0 <= k < CELLS ==> (Fixed(m'.cells[k]) == Fixed(m.cells[k])))
            && (forall k :: 0 <= k < CELLS && Fixed(m.cells[k]) ==> m'.cells[k] == m.cells[k])
            && PageAgrees(m', addr / 4 % 16)
            && forall p :: 0 <= p < 16 && p != addr / 4 % 16 && PageAgrees(m, p) ==> PageAgrees(m', p)
  {
    hide Covers, FixedFlag, PageMapping;
    var m' := MmuWrite(m, addr, val);
    var page := addr / 4 % 16;
    forall k | 0 <= k < CELLS
      ensures (Covers(PageMapping(m'.regs, page), k) <==> k / CELLS_PER_PAGE == page)
              && !FixedFlag(PageMapping(m'.regs, page).flags)
    {
      PageCovers(m'.regs, page, k);
    }
    forall p | 0 <= p < 16 && p != page && PageAgrees(m, p) ensures PageAgrees(m', p) {
      assert PageMapping(m'.regs, p) == PageMapping(m.regs, p) by { OtherPage(m.regs, m'.regs, p); }
    }
  }

  /** What the registers of a page mean for its unfixed cells: register 0 the device, register 1 the 4K
      block of it, bits 0 and 1 of register 2 the right to read and to write. */
  lemma PageRegisters(m: Mmu, addr: nat, val: byte, k: nat)
    requires |m.cells| == CELLS && k < CELLS && k / 32 == addr / 4 % 16 && !Fixed(m.cells[k])
    ensures var c := MmuWrite(m, addr, val).cells[k];
            var row := m.regs[addr / 4 % 16][addr % 4 := val];
            && c.devid == row[0] && c.offset == 4096 * row[1] + 128 * (k % 32)
            && (c.flags % 2 == 1 <==> Bit(row[2], 0)) && (Writable(c) <==> Bit(row[2], 1)) && !Fixed(c)
  {
    hide Bit;
    var page := addr / 4 % 16;
    var row: seq<byte> := m.regs[page][addr % 4 := val];
    var regs: MmuRegs := m.regs[page := row];
    PageCovers(regs, page, k);
    assert k == 32 * page + k % 32;
    var block: nat := row[1];
    assert Units(page * PAGE) == 32 * page && Units(PAGE * block) == 32 * block;
    TwoBits(row[2]);
  }

  lemma TwoBits(x: byte)
    ensures Bit(x, 0) == (x % 4 % 2 == 1) && Bit(x, 1) == (x % 4 / 2 % 2 == 1)
  {
    assert Bit(x, 1) == Bit(x / 2, 0);
    var q, r := x / 4, x % 4;
    assert x == 2 * (2 * q + r / 2) + r % 2 && x / 2 == 2 * q + r / 2;
  }

  lemma OtherPage(r: MmuRegs, r': MmuRegs, p: nat)
    requires p < 16 && r[p] == r'[p]
    ensures PageMapping(r', p) == PageMapping(r, p)
  {
  }

  /** Under any sequence of MMU register writes, fixed cells, the MMU's own window among them, are
      never remapped, and every page written agrees with its registers on all other cells. */
  lemma {:induction false} MmuInvariant(m: Mmu, ws: seq<(nat, byte)>, page: nat)
    requires |m.cells| == CELLS && page < 16
    ensures var m' := MmuWrites(m, ws);
            && |m'.cells| == CELLS
            && (forall k :: 0 <= k < CELLS && Fixed(m.cells[k]) ==> m'.cells[k] == m.cells[k])
            && (PageAgrees(m, page) || (exists i :: 0 <= i < |ws| && ws[i].0 / 4 % 16 == page) ==> PageAgrees(m', page))
    decreases |ws|
  {
    hide MmuWrite, PageAgrees, Fixed;
    if ws != [] {
      MmuWriteEffect(m, ws[0].0, ws[0].1);
      MmuInvariant(MmuWrite(m, ws[0].0, ws[0].1), ws[1..], page);
      if i :| 0 <= i < |ws| && ws[i].0 / 4 % 16 == page {
        if i > 0 { assert ws[1..][i - 1].0 / 4 % 16 == page; }
      }
    }
  }

  // ----- register synchronisation -----

  const SAMPLE := 4

  /** The registers mmu_reset_complete derives from a cell; the eight-bit casts truncate. */
  function Sampled(c: Cell, row: seq<byte>): (r: seq<byte>)
    requires |row| == 4
    ensures |r| == 4
  {
    [c.devid % 256, c.offset / PAGE % 256, c.flags % 4, row[3]]
  }

  /** A page mapped as a whole: some registers describe all its cells. */
  predicate PageWhole(cs: seq<Cell>, page: nat, regs: MmuRegs)
    requires page < 16 && |cs| == CELLS
  {
    forall k :: 0 <= k < CELLS && k / CELLS_PER_PAGE == page ==>
      Covers(PageMapping(regs, page), k) && cs[k] == CellFor(PageMapping(regs, page), k)
  }

  /** On such a page the sampled registers are the right ones. */
  lemma SampleAgrees(cs: seq<Cell>, page: nat, regs: MmuRegs, regs': MmuRegs)
    requires page < 16 && |cs| == CELLS && PageWhole(cs, page, regs)
    requires regs'[page] == Sampled(cs[SAMPLE + CELLS_PER_PAGE * page], regs'[page])
    ensures PageAgrees(Mmu(cs, regs'), page)
  {
    var k := SAMPLE + CELLS_PER_PAGE * page;
    assert k / CELLS_PER_PAGE == page;
    PageCovers(regs, page, k);
    assert cs[k] == CellFor(PageMapping(regs, page), k);
    assert cs[k].offset == PAGE * regs[page][1] + CELL_SIZE * SAMPLE;
    assert cs[k].offset / PAGE == regs[page][1];
    assert PageMapping(regs', page) == PageMapping(regs, page);
  }

  /** The eon machine: whatever was mapped before, its MMU window is fixed by the first call, survives
      the mapping of RAM over the whole address space, and survives every later register write. */
  lemma EonWindow(cs: seq<Cell>, regs: MmuRegs, mmu: nat, ram: nat, rom: nat, console: nat, disk: nat,
                  ws: seq<(nat, byte)>)
    requires |cs| == CELLS && !Fixed(cs[448])
    ensures
      var h := [Mapping(0xe000, mmu, 0, 128, 7), Mapping(0, ram, 0, 0x10000, READWRITE),
                Mapping(0xe400, rom, 0, 0x1c00, READABLE), Mapping(0xe100, console, 0, 128, READWRITE),
                Mapping(0xff00, console, 0, 128, READWRITE), Mapping(0xe200, disk, 0, 128, READWRITE)];
      MmuWrites(Mmu(MapAll(cs, h), regs), ws).cells[448] == Cell(mmu, 0, 7)
  {
    hide MmuWrites, MapAll;
    var h := [Mapping(0xe000, mmu, 0, 128, 7), Mapping(0, ram, 0, 0x10000, READWRITE),
              Mapping(0xe400, rom, 0, 0x1c00, READABLE), Mapping(0xe100, console, 0, 128, READWRITE),
              Mapping(0xff00, console, 0, 128, READWRITE), Mapping(0xe200, disk, 0, 128, READWRITE)];
    assert Decides(h, 448, 0);
    CellAfterHistory(cs, h, 448, 0);
    MmuInvariant(Mmu(MapAll(cs, h), regs), ws, 0);
  }
}
