/** The multicomp09 SD card controller: a polled protocol that moves 512-byte sectors to and from
    the card image one byte at a time. */
module SdCard {
  import opened Words

  const SECTOR := 512

  /** State of the controller, mc_state: no card, initialising, idle, in a read, in a write. */
  datatype Phase = NoCard | Initialising | Idle | Reading | Writing

  datatype Sd = Sd(phase: Phase, poll: nat, index: nat, data: seq<byte>, addr: nat,
                   lba0: byte, lba1: byte, lba2: byte, file: seq<byte>)

  /** Byte address of the sector the LBA registers name; 31 address bits, the low nine zero. */
  function Address(s: Sd): nat { s.lba2 % 128 * 0x200_0000 + s.lba1 * 0x2_0000 + s.lba0 * SECTOR }

  /** Addresses of 2^31 and more are negative as C `int`, and fseek refuses them. */
  predicate Seekable(a: nat) { a < 0x8000_0000 }

  lemma SeekableIff(s: Sd)
    ensures Seekable(Address(s)) <==> s.lba2 % 128 < 64
    ensures Address(s) % SECTOR == 0
  {
    assert Address(s) == SECTOR * (s.lba2 % 128 * 0x1_0000 + s.lba1 * 0x100 + s.lba0);
  }

  /** fread of one sector: bytes past the end of the image leave the buffer as it was. */
  function ReadSector(file: seq<byte>, a: nat, buf: seq<byte>): (r: seq<byte>)
    requires |buf| == SECTOR
    ensures |r| == SECTOR
  {
    seq(SECTOR, i requires 0 <= i < SECTOR => if a + i < |file| then file[a + i] else buf[i])
  }

  /** fwrite of one sector: the image grows if needed, a gap reads as zero. */
  function WriteSector(file: seq<byte>, a: nat, buf: seq<byte>): (r: seq<byte>)
    requires |buf| == SECTOR
    ensures |r| == if |file| < a + SECTOR then a + SECTOR else |file|
    ensures forall i :: 0 <= i < |r| ==>
              r[i] == if a <= i < a + SECTOR then buf[i - a] else if i < |file| then file[i] else 0
  {
    var n := if |file| < a + SECTOR then a + SECTOR else |file|;
    seq(n, i requires 0 <= i < n =>
      if a <= i < a + SECTOR then buf[i - a] else if i < |file| then file[i] else 0)
  }

  /** The end of a write transfer: after a failed seek nothing is written. */
  function Commit(file: seq<byte>, a: nat, buf: seq<byte>): seq<byte>
    requires |buf| == SECTOR
  {
    if Seekable(a) then WriteSector(file, a, buf) else file
  }

  // ----- register accesses -----

  datatype Op = ReadData | ReadStatus | WriteData(v: byte) | WriteControl(v: byte) | WriteLba(k: nat, v: byte)

  /** The data register gives a byte only when three polls have been made in a read. */
  function DataOut(s: Sd): byte
    requires |s.data| == SECTOR
  {
    if s.phase.Reading? && s.poll == 3 && s.index < SECTOR then s.data[s.index] else 0xff
  }

  function AfterReadData(s: Sd): Sd {
    if s.phase.Reading? && s.poll == 3 then
      s.(poll := 0, phase := if s.index == 511 then Idle else Reading,
         index := if s.index < SECTOR then s.index + 1 else s.index)
    else s
  }

  function AfterReadStatus(s: Sd): Sd {
    match s.phase
    case Initialising => s.(poll := s.poll + 1, phase := if s.poll + 1 == 16 then Idle else Initialising)
    case Reading | Writing => s.(poll := if s.poll < 3 then s.poll + 1 else s.poll)
    case _ => s
  }

  /** Bit 7: a byte can be written; bit 6: a byte can be read; bit 5: block busy; bit 4: initialising. */
  function StatusOut(s: Sd): byte {
    match s.phase
    case NoCard | Initialising => 0x90
    case Idle => 0x80
    case Reading => if AfterReadStatus(s).poll == 3 then 0xe0 else 0xa0
    case Writing => if AfterReadStatus(s).poll == 3 then 0xa0 else 0x20
  }

  function AfterWriteData(s: Sd, v: byte): Sd
    requires |s.data| == SECTOR
  {
    if s.phase.Writing? && s.poll == 3 then
      if s.index < SECTOR then
        var data := s.data[s.index := v];
        var t := s.(poll := 0, data := data, index := s.index + 1);
        if t.index == SECTOR then t.(phase := Idle, file := Commit(s.file, s.addr, data)) else t
      else s.(poll := 0)
    else s
  }

  /** A command is obeyed in the idle state only; the value always falls through into SDLBA0.  (A read
      command whose seek fails never returns and is not described.) */
  function AfterWriteControl(s: Sd, v: byte): Sd
    requires |s.data| == SECTOR
  {
    var t := if !s.phase.Idle? then s
             else
               var u := s.(addr := Address(s), poll := 0);
               if v == 0 then u.(index := 0, phase := Reading, data := ReadSector(s.file, u.addr, s.data))
               else if v == 1 then u.(index := 0, phase := Writing)
               else u;
    t.(lba0 := v)
  }

  function Step(s: Sd, op: Op): (t: Sd)
    requires |s.data| == SECTOR
    ensures |t.data| == SECTOR
  {
    match op
    case ReadData => AfterReadData(s)
    case ReadStatus => AfterReadStatus(s)
    case WriteData(v) => AfterWriteData(s, v)
    case WriteControl(v) => AfterWriteControl(s, v)
    case WriteLba(k, v) => if k == 0 then s.(lba0 := v) else if k == 1 then s.(lba1 := v) else s.(lba2 := v)
  }

  // ----- the imperative controller -----

  class Controller {
    var phase: Phase
    var poll: nat
    var index: nat
    const data: array<byte>
    var addr: nat
    var lba0: byte
    var lba1: byte
    var lba2: byte
    var file: seq<byte>

    constructor (image: seq<byte>, present: bool)
      ensures fresh(data) && data.Length == SECTOR
      ensures phase == (if present then Initialising else NoCard) && poll == 0 && index == 0 && file == image
    {
      phase := if present then Initialising else NoCard;
      poll, index, addr := 0, 0, 0;
      lba0, lba1, lba2 := 0, 0, 0;
      data := new byte[SECTOR](_ => 0);
      file := image;
    }

    ghost function Abs(): Sd
      reads this, data
    {
      Sd(phase, poll, index, data[..], addr, lba0, lba1, lba2, file)
    }

    method SdDataRead() returns (v: byte)
      requires data.Length == SECTOR
      modifies `poll, `phase, `index
      ensures v == DataOut(old(Abs())) && Abs() == Step(old(Abs()), ReadData)
    {
      v := 0xff;
      if phase.Reading? && poll == 3 {
        poll := 0;
        if index == 511 { phase := Idle; }
        if index < 512 {
          v := data[index];
          index := index + 1;
        }
      }
    }

    method SdStatusRead() returns (v: byte)
      requires data.Length == SECTOR
      modifies `poll, `phase
      ensures v == StatusOut(old(Abs())) && Abs() == Step(old(Abs()), ReadStatus)
    {
      match phase {
        case NoCard => v := 0x90;
        case Initialising =>
          poll := poll + 1;
          if poll == 16 { phase := Idle; }
          v := 0x90;
        case Idle => v := 0x80;
        case Reading =>
          if poll < 3 { poll := poll + 1; }
          v := if poll == 3 then 0xe0 else 0xa0;
        case Writing =>
          if poll < 3 { poll := poll + 1; }
          v := if poll == 3 then 0xa0 else 0x20;
      }
    }

    method SdDataWrite(v: byte)
      requires data.Length == SECTOR
      modifies `poll, `phase, `index, `file, data
      ensures Abs() == Step(old(Abs()), WriteData(v))
    {
      if phase.Writing? && poll == 3 {
        poll := 0;
        if index < 512 {
          data[index] := v;
          index := index + 1;
          if index == 512 {
            if Seekable(addr) { file := WriteSector(file, addr, data[..]); }
            phase := Idle;
          }
        }
      }
    }

    method SdControlWrite(v: byte)
      requires data.Length == SECTOR && (phase.Idle? && v == 0 ==> Seekable(Address(Abs())))
      modifies `addr, `poll, `index, `phase, `lba0, data
      ensures Abs() == Step(old(Abs()), WriteControl(v))
    {
      if phase.Idle? {
        addr := lba2 % 128 * 0x200_0000 + lba1 * 0x2_0000 + lba0 * SECTOR;
        poll := 0;
        if v == 0 {
          index := 0;
          phase := Reading;
          forall i | 0 <= i < SECTOR && addr + i < |file| { data[i] := file[addr + i]; }
        } else if v == 1 {
          index := 0;
          phase := Writing;
        }
      }
      lba0 := v;
    }

    method LbaWrite(k: nat, v: byte)
      requires data.Length == SECTOR
      modifies `lba0, `lba1, `lba2
      ensures Abs() == Step(old(Abs()), WriteLba(k, v))
    {
      if k == 0 { lba0 := v; } else if k == 1 { lba1 := v; } else { lba2 := v; }
    }
  }

  // ----- every reachable state -----

  /** The "too much data" branches need an index of 512 during a transfer: it never gets there. */
  predicate Sound(s: Sd) {
    && |s.data| == SECTOR
    && ((s.phase.Reading? || s.phase.Writing?) ==> s.index < SECTOR && s.poll <= 3)
    && (s.phase.Initialising? ==> s.poll < 16)
  }

  function Run(s: Sd, ops: seq<Op>): Sd
    requires |s.data| == SECTOR
    decreases |ops|
  {
    if ops == [] then s else Run(Step(s, ops[0]), ops[1..])
  }

  lemma {:induction false} AlwaysSound(s: Sd, ops: seq<Op>)
    requires Sound(s)
    ensures Sound(Run(s, ops))
    decreases |ops|
  {
    if ops != [] {
      StepSound(s, ops[0]);
      AlwaysSound(Step(s, ops[0]), ops[1..]);
    }
  }

  lemma StepSound(s: Sd, op: Op)
    requires Sound(s)
    ensures Sound(Step(s, op))
  {
  }

  // ----- writing a sector -----

  /** The accesses up to the end of the transfer. */
  function RunWrite(s: Sd, ops: seq<Op>): (t: Sd)
    requires |s.data| == SECTOR
    ensures |t.data| == SECTOR
    decreases |ops|
  {
    if ops == [] || !s.phase.Writing? then s else RunWrite(Step(s, ops[0]), ops[1..])
  }

  /** The bytes the controller takes during it: those written when the status allows. */
  function Accepted(s: Sd, ops: seq<Op>): seq<byte>
    requires |s.data| == SECTOR
    decreases |ops|
  {
    if ops == [] || !s.phase.Writing? then []
    else (if ops[0].WriteData? && s.poll == 3 then [ops[0].v] else []) + Accepted(Step(s, ops[0]), ops[1..])
  }

  /** Whatever else is polled, read or written meanwhile, the transfer takes exactly the accepted
      bytes in order; after the 512th the sector is in the image and the controller idle, and not
      a byte of the image has changed before. */
  lemma {:induction false} WriteStores(s: Sd, ops: seq<Op>)
    requires Sound(s) && s.phase.Writing?
    ensures var t := RunWrite(s, ops);
            var bytes := s.data[..s.index] + Accepted(s, ops);
            && |bytes| <= SECTOR
            && (|bytes| < SECTOR ==> && t.phase.Writing? && t.file == s.file && t.addr == s.addr
                                     && t.index < SECTOR && t.data[..t.index] == bytes)
            && (|bytes| == SECTOR ==> t.phase.Idle? && t.file == Commit(s.file, s.addr, bytes))
    decreases |ops|
  {
    hide Commit;
    if ops != [] {
      var op := ops[0];
      var t := Step(s, op);
      StepSound(s, op);
      if op.WriteData? && s.poll == 3 {
        assert s.data[s.index := op.v][..s.index + 1] == s.data[..s.index] + [op.v];
        if s.index == 511 {
          assert s.data[s.index := op.v] == s.data[..s.index] + [op.v];
          assert Accepted(t, ops[1..]) == [] && RunWrite(t, ops[1..]) == t;
          assert [op.v] + [] == [op.v];
        } else {
          WriteStores(t, ops[1..]);
          assert s.data[..s.index] + ([op.v] + Accepted(t, ops[1..])) == t.data[..t.index] + Accepted(t, ops[1..]);
        }
      } else {
        StepWhileWriting(s, op);
        WriteStores(t, ops[1..]);
        assert [] + Accepted(t, ops[1..]) == Accepted(t, ops[1..]);
      }
    } else {
      assert s.data[..s.index] + [] == s.data[..s.index];
    }
  }

  lemma StepWhileWriting(s: Sd, op: Op)
    requires Sound(s) && s.phase.Writing? && !(op.WriteData? && s.poll == 3)
    ensures var t := Step(s, op);
            t.phase.Writing? && t.index == s.index && t.data == s.data && t.file == s.file && t.addr == s.addr
  {
  }

  // ----- reading a sector -----

  function RunRead(s: Sd, ops: seq<Op>): Sd
    requires |s.data| == SECTOR
    decreases |ops|
  {
    if ops == [] || !s.phase.Reading? then s else RunRead(Step(s, ops[0]), ops[1..])
  }

  /** The bytes handed out by the data register when the status says one is available. */
  function Delivered(s: Sd, ops: seq<Op>): seq<byte>
    requires |s.data| == SECTOR
    decreases |ops|
  {
    if ops == [] || !s.phase.Reading? then []
    else (if ops[0].ReadData? && s.poll == 3 then [DataOut(s)] else []) + Delivered(Step(s, ops[0]), ops[1..])
  }

  lemma {:induction false} ReadDelivers(s: Sd, ops: seq<Op>)
    requires Sound(s) && s.phase.Reading?
    ensures var t := RunRead(s, ops);
            var n := s.index + |Delivered(s, ops)|;
            && n <= SECTOR && Delivered(s, ops) == s.data[s.index..n] && t.file == s.file
            && (n < SECTOR ==> t.phase.Reading? && t.index == n) && (n == SECTOR ==> t.phase.Idle?)
    decreases |ops|
  {
    hide Step, DataOut;
    if ops != [] {
      var op := ops[0];
      var t := Step(s, op);
      StepSound(s, op);
      if op.ReadData? && s.poll == 3 {
        StepDelivers(s);
        if s.index == 511 {
          assert Delivered(t, ops[1..]) == [] && RunRead(t, ops[1..]) == t;
          assert Delivered(s, ops) == [s.data[511]] == s.data[511..512];
        } else {
          ReadDelivers(t, ops[1..]);
          var rest := Delivered(t, ops[1..]);
          var n := t.index + |rest|;
          assert Delivered(s, ops) == [s.data[s.index]] + rest;
          assert s.data[s.index..n] == [s.data[s.index]] + s.data[s.index + 1..n];
        }
      } else {
        StepWhileReading(s, op);
        ReadDelivers(t, ops[1..]);
        assert Delivered(s, ops) == Delivered(t, ops[1..]);
      }
    }
  }

  /** Reading the data register when the status allows it hands out the next byte. */
  lemma StepDelivers(s: Sd)
    requires Sound(s) && s.phase.Reading? && s.poll == 3
    ensures var t := Step(s, ReadData);
            && DataOut(s) == s.data[s.index] && t.file == s.file
            && (if s.index == 511 then t.phase.Idle? else t.phase.Reading? && t.index == s.index + 1 && t.data == s.data)
  {
  }

  lemma StepWhileReading(s: Sd, op: Op)
    requires Sound(s) && s.phase.Reading? && !(op.ReadData? && s.poll == 3)
    ensures var t := Step(s, op);
            t.phase.Reading? && t.index == s.index && t.data == s.data && t.file == s.file
  {
  }

  // ----- write, then read back -----

  /** A command issued in the idle state. */
  function Command(s: Sd, v: byte): (t: Sd)
    requires |s.data| == SECTOR
    ensures |t.data| == SECTOR
  {
    Step(s, WriteControl(v))
  }

  function SetLba(s: Sd, l0: byte, l1: byte, l2: byte): (t: Sd)
    requires |s.data| == SECTOR
    ensures |t.data| == SECTOR
  {
    Step(Step(Step(s, WriteLba(0, l0)), WriteLba(1, l1)), WriteLba(2, l2))
  }

  /** A sector written through the registers is read back byte for byte, provided the LBA registers
      are loaded again before the second command; all other bytes of the image are untouched. */
  lemma RoundTrip(s: Sd, l0: byte, l1: byte, l2: byte, puts: seq<Op>, gets: seq<Op>)
    requires Sound(s) && s.phase.Idle? && Seekable(Address(SetLba(s, l0, l1, l2)))
    requires var w := Command(SetLba(s, l0, l1, l2), 1); |Accepted(w, puts)| == SECTOR
    requires var w := Command(SetLba(s, l0, l1, l2), 1);
             var r := Command(SetLba(RunWrite(w, puts), l0, l1, l2), 0); |Delivered(r, gets)| == SECTOR
    ensures var a := Address(SetLba(s, l0, l1, l2));
            var w := Command(SetLba(s, l0, l1, l2), 1);
            var t := RunWrite(w, puts);
            var r := Command(SetLba(t, l0, l1, l2), 0);
            && t.phase.Idle? && t.file == WriteSector(s.file, a, Accepted(w, puts))
            && Delivered(r, gets) == Accepted(w, puts)
            && RunRead(r, gets).phase.Idle? && RunRead(r, gets).file == t.file
  {
    hide Accepted, Delivered, RunWrite, RunRead;
    var a := Address(SetLba(s, l0, l1, l2));
    var w := Command(SetLba(s, l0, l1, l2), 1);
    StepSound(SetLba(s, l0, l1, l2), WriteControl(1));
    WriteStores(w, puts);
    var bytes := Accepted(w, puts);
    assert w.data[..0] + bytes == bytes;
    var t := RunWrite(w, puts);
    var r := Command(SetLba(t, l0, l1, l2), 0);
    StepSound(SetLba(t, l0, l1, l2), WriteControl(0));
    assert r.data == bytes by { SectorReadBack(s.file, a, bytes, t.data); }
    ReadDelivers(r, gets);
    assert r.data[0..SECTOR] == r.data;
  }

  lemma SectorReadBack(file: seq<byte>, a: nat, buf: seq<byte>, was: seq<byte>)
    requires |buf| == SECTOR && |was| == SECTOR
    ensures ReadSector(WriteSector(file, a, buf), a, was) == buf
  {
  }

  /** Another sector of the image is not affected by the write. */
  lemma OtherSectorsKept(file: seq<byte>, a: nat, buf: seq<byte>, i: nat)
    requires |buf| == SECTOR && i < |file| && i / SECTOR != a / SECTOR && a % SECTOR == 0
    ensures WriteSector(file, a, buf)[i] == file[i]
  {
  }

  /** The fall-through into SDLBA0: a second command without reloading the LBA registers goes to the
      same sector exactly when SDLBA0 already held the first command's code. */
  lemma CommandClobbersLba(s: Sd, v: byte)
    requires |s.data| == SECTOR
    ensures Address(Command(s, v)) == Address(s) <==> s.lba0 == v
  {
  }

  /** The three registers spell the sector number, SDLBA0 lowest; bit 7 of SDLBA2 is ignored. */
  lemma SectorNumber(s: Sd, l0: byte, l1: byte, l2: byte)
    requires |s.data| == SECTOR
    ensures Address(SetLba(s, l0, l1, l2)) == 512 * (65536 * (l2 % 128) + 256 * l1 + l0)
  {
  }

  // ----- reading again without reloading the LBA registers -----

  predicate DataOnly(ops: seq<Op>) { forall i :: 0 <= i < |ops| ==> ops[i].ReadData? || ops[i].ReadStatus? || ops[i].WriteData? }

  /** A write to the sector (l0, l1, l2), followed at once by a read command. */
  function Reread(s: Sd, l0: byte, l1: byte, l2: byte, puts: seq<Op>): (r: Sd)
    requires |s.data| == SECTOR
    ensures |r.data| == SECTOR
  {
    Command(RunWrite(Command(SetLba(s, l0, l1, l2), 1), puts), 0)
  }

  lemma {:induction false} WriteKeepsLba(s: Sd, ops: seq<Op>)
    requires |s.data| == SECTOR && DataOnly(ops)
    ensures var t := RunWrite(s, ops); t.lba0 == s.lba0 && t.lba1 == s.lba1 && t.lba2 == s.lba2
    decreases |ops|
  {
    if ops != [] && s.phase.Writing? {
      WriteKeepsLba(Step(s, ops[0]), ops[1..]);
    }
  }

  /** Which bytes are taken does not depend on the image. */
  lemma {:induction false} AcceptedIgnoresFile(s: Sd, file: seq<byte>, ops: seq<Op>)
    requires |s.data| == SECTOR
    ensures Accepted(s.(file := file), ops) == Accepted(s, ops)
    decreases |ops|
  {
    hide Commit;
    if ops != [] && s.phase.Writing? {
      var t := Step(s.(file := file), ops[0]);
      assert t == Step(s, ops[0]).(file := t.file);
      AcceptedIgnoresFile(Step(s, ops[0]), t.file, ops[1..]);
    }
  }

  /** The read goes to the sector (1, l1, l2), the code of the write command having become SDLBA0. */
  lemma RereadLoads(s: Sd, l0: byte, l1: byte, l2: byte, puts: seq<Op>)
    requires Sound(s) && s.phase.Idle? && l2 % 128 < 64 && DataOnly(puts)
    requires |Accepted(Command(SetLba(s, l0, l1, l2), 1), puts)| == SECTOR
    ensures var bytes := Accepted(Command(SetLba(s, l0, l1, l2), 1), puts);
            var r := Reread(s, l0, l1, l2, puts);
            && Sound(r) && r.phase.Reading? && r.index == 0 && r.poll == 0
            && exists buf :: |buf| == SECTOR
                 && r.data == ReadSector(WriteSector(s.file, Address(SetLba(s, l0, l1, l2)), bytes), Address(SetLba(s, 1, l1, l2)), buf)
  {
    hide Accepted, RunWrite, ReadSector, WriteSector;
    var s1 := SetLba(s, l0, l1, l2);
    var w := Command(s1, 1);
    SeekableIff(s1);
    StepSound(s1, WriteControl(1));
    WriteStores(w, puts);
    WriteKeepsLba(w, puts);
    var t := RunWrite(w, puts);
    assert w.data[..0] + Accepted(w, puts) == Accepted(w, puts);
    StepSound(t, WriteControl(0));
    assert Address(t) == Address(SetLba(s, 1, l1, l2));
    assert |t.data| == SECTOR;
  }

  /** The read returns what was written in this state. */
  predicate RereadRight(s: Sd, l0: byte, l1: byte, l2: byte, puts: seq<Op>, gets: seq<Op>)
    requires |s.data| == SECTOR
  {
    var got := Delivered(Reread(s, l0, l1, l2, puts), gets);
    |got| == SECTOR ==> got == Accepted(Command(SetLba(s, l0, l1, l2), 1), puts)
  }

  /** Reading back without reloading the LBA registers is right for every image and every way of
      polling if and only if SDLBA0 was 1, the code of the write command. */
  lemma RereadRightIff(s: Sd, l0: byte, l1: byte, l2: byte, puts: seq<Op>)
    requires Sound(s) && s.phase.Idle? && l2 % 128 < 64 && DataOnly(puts)
    requires |Accepted(Command(SetLba(s, l0, l1, l2), 1), puts)| == SECTOR
    ensures l0 == 1 <==> forall file, gets :: RereadRight(s.(file := file), l0, l1, l2, puts, gets)
  {
    hide RereadRight;
    if l0 == 1 {
      forall file, gets ensures RereadRight(s.(file := file), l0, l1, l2, puts, gets) {
        RereadSame(s, l1, l2, puts, file, gets);
      }
    } else {
      RereadOther(s, l0, l1, l2, puts);
    }
  }

  lemma AcceptedAnyFile(s: Sd, l0: byte, l1: byte, l2: byte, puts: seq<Op>, file: seq<byte>)
    requires Sound(s) && s.phase.Idle?
    ensures Accepted(Command(SetLba(s.(file := file), l0, l1, l2), 1), puts) == Accepted(Command(SetLba(s, l0, l1, l2), 1), puts)
  {
    hide Accepted;
    var w := Command(SetLba(s, l0, l1, l2), 1);
    AcceptedIgnoresFile(w, file, puts);
    assert Command(SetLba(s.(file := file), l0, l1, l2), 1) == w.(file := file);
  }

  lemma RereadSame(s: Sd, l1: byte, l2: byte, puts: seq<Op>, file: seq<byte>, gets: seq<Op>)
    requires Sound(s) && s.phase.Idle? && l2 % 128 < 64 && DataOnly(puts)
    requires |Accepted(Command(SetLba(s, 1, l1, l2), 1), puts)| == SECTOR
    ensures RereadRight(s.(file := file), 1, l1, l2, puts, gets)
  {
    hide Accepted, Delivered, Reread, Command, SetLba, ReadSector, WriteSector;
    var s' := s.(file := file);
    AcceptedAnyFile(s, 1, l1, l2, puts, file);
    RereadLoads(s', 1, l1, l2, puts);
    var r := Reread(s', 1, l1, l2, puts);
    var bytes := Accepted(Command(SetLba(s', 1, l1, l2), 1), puts);
    var a := Address(SetLba(s', 1, l1, l2));
    var buf :| |buf| == SECTOR && r.data == ReadSector(WriteSector(file, a, bytes), a, buf);
    SectorReadBack(file, a, bytes, buf);
    ReadDelivers(r, gets);
    assert r.data[0..SECTOR] == r.data;
  }

  /** For any other SDLBA0 an image full of a byte that was not written first shows the difference. */
  lemma RereadOther(s: Sd, l0: byte, l1: byte, l2: byte, puts: seq<Op>)
    requires Sound(s) && s.phase.Idle? && l2 % 128 < 64 && DataOnly(puts) && l0 != 1
    requires |Accepted(Command(SetLba(s, l0, l1, l2), 1), puts)| == SECTOR
    ensures exists file, gets :: !RereadRight(s.(file := file), l0, l1, l2, puts, gets)
  {
    hide Accepted, Delivered, Reread, ReadSector, WriteSector, Command, SetLba, Address, Gets;
    var bytes := Accepted(Command(SetLba(s, l0, l1, l2), 1), puts);
    var a, a1 := Address(SetLba(s, l0, l1, l2)), Address(SetLba(s, 1, l1, l2));
    TwoSectors(s, l0, l1, l2);
    var b: int := bytes[0];
    var v: byte := (b + 1) % 256;
    var file: seq<byte> := seq(a1 + SECTOR, _ => v);
    var s' := s.(file := file);
    SameAddress(s, l0, l1, l2, file); SameAddress(s, 1, l1, l2, file);
    AcceptedAnyFile(s, l0, l1, l2, puts, file);
    RereadLoads(s', l0, l1, l2, puts);
    var r := Reread(s', l0, l1, l2, puts);
    var buf :| |buf| == SECTOR && r.data == ReadSector(WriteSector(file, a, bytes), a1, buf);
    OtherByte(file, a, bytes, a1, buf);
    GetsDeliver(r, SECTOR);
    ReadDelivers(r, Gets(SECTOR));
    assert r.data[0..SECTOR] == r.data;
    assert !RereadRight(s', l0, l1, l2, puts, Gets(SECTOR));
  }

  lemma TwoSectors(s: Sd, l0: byte, l1: byte, l2: byte)
    requires |s.data| == SECTOR && l0 != 1
    ensures var a, b := Address(SetLba(s, l0, l1, l2)), Address(SetLba(s, 1, l1, l2));
            a != b && a % SECTOR == 0 && b % SECTOR == 0
  {
    SeekableIff(SetLba(s, l0, l1, l2)); SeekableIff(SetLba(s, 1, l1, l2));
  }

  lemma SameAddress(s: Sd, l0: byte, l1: byte, l2: byte, file: seq<byte>)
    requires |s.data| == SECTOR
    ensures Address(SetLba(s.(file := file), l0, l1, l2)) == Address(SetLba(s, l0, l1, l2))
  {
  }

  lemma OtherByte(file: seq<byte>, a: nat, bytes: seq<byte>, b: nat, buf: seq<byte>)
    requires |bytes| == SECTOR && |buf| == SECTOR && a % SECTOR == 0 && b % SECTOR == 0 && a != b && b < |file|
    ensures ReadSector(WriteSector(file, a, bytes), b, buf)[0] == file[b]
  {
    assert a / SECTOR != b / SECTOR;
  }

  // ----- a polling driver -----

  /** Poll until the status allows, then move a byte. */
  function Gets(n: nat): seq<Op> { if n == 0 then [] else [ReadStatus, ReadStatus, ReadStatus, ReadData] + Gets(n - 1) }

  function Puts(bytes: seq<byte>): seq<Op> {
    if bytes == [] then [] else [ReadStatus, ReadStatus, ReadStatus, WriteData(bytes[0])] + Puts(bytes[1..])
  }

  function Polled(s: Sd): Sd { s.(poll := 3) }

  lemma DeliveredPolls(s: Sd, rest: seq<Op>)
    requires Sound(s) && s.phase.Reading? && s.poll == 0
    ensures Delivered(s, [ReadStatus, ReadStatus, ReadStatus, ReadData] + rest)
            == [s.data[s.index]] + Delivered(Step(Polled(s), ReadData), rest)
  {
    var s1, s2, s3 := s.(poll := 1), s.(poll := 2), s.(poll := 3);
    var ops := [ReadStatus, ReadStatus, ReadStatus, ReadData] + rest;
    assert ops[1..] == [ReadStatus, ReadStatus, ReadData] + rest;
    assert ([ReadStatus, ReadStatus, ReadData] + rest)[1..] == [ReadStatus, ReadData] + rest;
    assert ([ReadStatus, ReadData] + rest)[1..] == [ReadData] + rest;
    assert ([ReadData] + rest)[1..] == rest;
    assert Delivered(s3, [ReadData] + rest) == [s.data[s.index]] + Delivered(Step(s3, ReadData), rest);
    assert Delivered(s2, [ReadStatus, ReadData] + rest) == Delivered(s3, [ReadData] + rest);
    assert Delivered(s1, [ReadStatus, ReadStatus, ReadData] + rest) == Delivered(s2, [ReadStatus, ReadData] + rest);
  }

  lemma {:induction false} GetsDeliver(s: Sd, n: nat)
    requires Sound(s) && s.phase.Reading? && s.poll == 0 && n == SECTOR - s.index
    ensures |Delivered(s, Gets(n))| == n
    decreases n
  {
    hide Delivered;
    DeliveredPolls(s, Gets(n - 1));
    var t := Step(Polled(s), ReadData);
    if n == 1 {
      assert Delivered(t, []) == [] by { NothingDelivered(t); }
    } else {
      GetsDeliver(t, n - 1);
    }
  }

  lemma NothingDelivered(s: Sd)
    requires |s.data| == SECTOR
    ensures Delivered(s, []) == [] && Accepted(s, []) == []
  {
  }

  lemma AcceptedPolls(s: Sd, v: byte, rest: seq<Op>)
    requires Sound(s) && s.phase.Writing? && s.poll == 0
    ensures Accepted(s, [ReadStatus, ReadStatus, ReadStatus, WriteData(v)] + rest)
            == [v] + Accepted(Step(Polled(s), WriteData(v)), rest)
  {
    hide Commit;
    var s1, s2, s3 := s.(poll := 1), s.(poll := 2), s.(poll := 3);
    var put := WriteData(v);
    var ops := [ReadStatus, ReadStatus, ReadStatus, put] + rest;
    assert ops[1..] == [ReadStatus, ReadStatus, put] + rest;
    assert ([ReadStatus, ReadStatus, put] + rest)[1..] == [ReadStatus, put] + rest;
    assert ([ReadStatus, put] + rest)[1..] == [put] + rest;
    assert ([put] + rest)[1..] == rest;
    assert Accepted(s3, [put] + rest) == [v] + Accepted(Step(s3, put), rest);
    assert Accepted(s2, [ReadStatus, put] + rest) == Accepted(s3, [put] + rest);
    assert Accepted(s1, [ReadStatus, ReadStatus, put] + rest) == Accepted(s2, [ReadStatus, put] + rest);
  }

  lemma {:induction false} PutsAccepted(s: Sd, bytes: seq<byte>)
    requires Sound(s) && s.phase.Writing? && s.poll == 0 && |bytes| == SECTOR - s.index
    ensures Accepted(s, Puts(bytes)) == bytes
    decreases |bytes|
  {
    hide Accepted, Commit;
    AcceptedPolls(s, bytes[0], Puts(bytes[1..]));
    var t := Step(Polled(s), WriteData(bytes[0]));
    if |bytes| == 1 {
      assert Accepted(t, []) == [] by { NothingDelivered(t); }
    } else {
      PutsAccepted(t, bytes[1..]);
    }
    assert bytes == [bytes[0]] + bytes[1..];
  }

  /** The polling driver writes any 512 bytes to any sector that can be sought and reads them back. */
  lemma DriverRoundTrip(s: Sd, l0: byte, l1: byte, l2: byte, bytes: seq<byte>)
    requires Sound(s) && s.phase.Idle? && l2 % 128 < 64 && |bytes| == SECTOR
    ensures var t := RunWrite(Command(SetLba(s, l0, l1, l2), 1), Puts(bytes));
            var r := Command(SetLba(t, l0, l1, l2), 0);
            t.phase.Idle? && Delivered(r, Gets(SECTOR)) == bytes && RunRead(r, Gets(SECTOR)).phase.Idle?
  {
    hide Accepted, Delivered, RunWrite, RunRead, Commit, ReadSector;
    var s1 := SetLba(s, l0, l1, l2);
    SeekableIff(s1);
    var w := Command(s1, 1);
    StepSound(s1, WriteControl(1));
    PutsAccepted(w, bytes);
    WriteStores(w, Puts(bytes));
    assert w.data[..0] + bytes == bytes;
    var t := RunWrite(w, Puts(bytes));
    var r := Command(SetLba(t, l0, l1, l2), 0);
    StepSound(SetLba(t, l0, l1, l2), WriteControl(0));
    GetsDeliver(r, SECTOR);
    RoundTrip(s, l0, l1, l2, Puts(bytes), Gets(SECTOR));
  }

  lemma {:induction false} PutsDataOnly(bytes: seq<byte>)
    ensures DataOnly(Puts(bytes))
  {
    if bytes != [] {
      PutsDataOnly(bytes[1..]);
    }
  }

  /** Any 512 bytes written to sector 0 and read back at once: the read goes to sector 1, and some
      image shows it. */
  lemma RereadMisled(s: Sd, bytes: seq<byte>)
    requires Sound(s) && s.phase.Idle? && |bytes| == SECTOR
    ensures exists file, gets :: !RereadRight(s.(file := file), 0, 0, 0, Puts(bytes), gets)
  {
    hide RereadRight, Accepted, Puts, DataOnly;
    var s1 := SetLba(s, 0, 0, 0);
    StepSound(s1, WriteControl(1));
    PutsAccepted(Command(s1, 1), bytes);
    PutsDataOnly(bytes);
    RereadOther(s, 0, 0, 0, Puts(bytes));
  }

  // ----- the status register -----

  lemma StatusBits()
    ensures Bit(0x90, 7) && !Bit(0x90, 6) && !Bit(0x90, 5) && Bit(0x90, 4)
    ensures Bit(0x80, 7) && !Bit(0x80, 6) && !Bit(0x80, 5) && !Bit(0x80, 4)
    ensures Bit(0xe0, 7) && Bit(0xe0, 6) && Bit(0xe0, 5) && !Bit(0xe0, 4)
    ensures Bit(0xa0, 7) && !Bit(0xa0, 6) && Bit(0xa0, 5) && !Bit(0xa0, 4)
    ensures !Bit(0x20, 7) && !Bit(0x20, 6) && Bit(0x20, 5) && !Bit(0x20, 4)
  {
    forall x: byte, k: nat | 4 <= k < 8 ensures Bit(x, k) == Bit(x / 16, k - 4) { BitDown4(x, k); }
  }

  /** What a status byte says is so at the next access: bit 6, that the data register hands out a byte of
      the sector; bit 7 during a write, that it takes one; bit 5, that a transfer is going on; bit 4,
      that the card is absent or was not ready. */
  lemma StatusMeans(s: Sd, v: byte)
    requires Sound(s)
    ensures var st, t := StatusOut(s), Step(s, ReadStatus);
            && (Bit(st, 6) <==> Step(t, ReadData).index == t.index + 1)
            && (Bit(st, 6) ==> DataOut(t) == s.data[s.index])
            && (s.phase.Writing? ==> (Bit(st, 7) <==> Step(t, WriteData(v)).index == t.index + 1))
            && (s.phase.Writing? && Bit(st, 7) ==> Step(t, WriteData(v)).data[s.index] == v)
            && (Bit(st, 5) <==> s.phase.Reading? || s.phase.Writing?)
            && (Bit(st, 4) <==> s.phase.NoCard? || s.phase.Initialising?)
  {
    hide Bit, Commit;
    StatusBits();
  }

  /** A card becomes ready with the sixteenth status read. */
  lemma {:induction false} ReadyAfterSixteen(s: Sd, n: nat)
    requires Sound(s) && s.phase.Initialising?
    ensures var t := Run(s, seq(n, _ => ReadStatus));
            if s.poll + n < 16 then t.phase.Initialising? && t.poll == s.poll + n else t.phase.Idle?
    decreases n
  {
    if n > 0 {
      var ops := seq(n, _ => ReadStatus);
      assert ops[1..] == seq(n - 1, _ => ReadStatus);
      StepSound(s, ReadStatus);
      var t := Step(s, ReadStatus);
      if t.phase.Initialising? { ReadyAfterSixteen(t, n - 1); } else { IdleStays(t, n - 1); }
    }
  }

  lemma {:induction false} IdleStays(s: Sd, n: nat)
    requires Sound(s) && s.phase.Idle?
    ensures Run(s, seq(n, _ => ReadStatus)).phase.Idle?
    decreases n
  {
    if n > 0 {
      var ops := seq(n, _ => ReadStatus);
      assert ops[1..] == seq(n - 1, _ => ReadStatus);
      IdleStays(s, n - 1);
    }
  }

  // ----- a driver that believes the status register -----

  /** Read the status until it shows bit `k`. */
  function Await(s: Sd, k: nat): (t: Sd)
    requires Sound(s) && ((s.phase.Reading? && k == 6) || (s.phase.Writing? && k == 7))
    ensures t == s.(poll := 3)
    decreases 3 - s.poll
  {
    StatusBits();
    var t := Step(s, ReadStatus);
    if Bit(StatusOut(s), k) then t else Await(t, k)
  }

  /** Read `n` bytes, each when the status shows it. */
  function Fetch(s: Sd, n: nat): (seq<byte>, Sd)
    requires Sound(s) && (n > 0 ==> s.phase.Reading? && s.index + n <= SECTOR)
    decreases n
  {
    if n == 0 then ([], s)
    else
      var t := Await(s, 6);
      var (rest, u) := Fetch(Step(t, ReadData), n - 1);
      ([DataOut(t)] + rest, u)
  }

  /** Write the bytes, each when the status shows room. */
  function Send(s: Sd, bytes: seq<byte>): Sd
    requires Sound(s) && (bytes != [] ==> s.phase.Writing? && s.index + |bytes| <= SECTOR)
    decreases |bytes|
  {
    if bytes == [] then s else Send(Step(Await(s, 7), WriteData(bytes[0])), bytes[1..])
  }

  lemma {:induction false} FetchReads(s: Sd, n: nat)
    requires Sound(s) && n > 0 && s.phase.Reading? && s.index + n <= SECTOR
    ensures var (got, t) := Fetch(s, n);
            && got == s.data[s.index..s.index + n] && t.file == s.file
            && (s.index + n == SECTOR ==> t.phase.Idle?)
    decreases n
  {
    var t := Step(s.(poll := 3), ReadData);
    if n > 1 { FetchReads(t, n - 1); }
    FirstOf(s.data, s.index, s.index + n);
    assert s.data[s.index + 1..s.index + 1] == [];
  }

  lemma FirstOf(d: seq<byte>, i: nat, n: nat)
    requires i < n <= |d|
    ensures d[i..n] == [d[i]] + d[i + 1..n]
  {
  }

  lemma {:induction false} SendStores(s: Sd, bytes: seq<byte>)
    requires Sound(s) && bytes != [] && s.phase.Writing? && s.index + |bytes| == SECTOR
    ensures var t := Send(s, bytes);
            Sound(t) && t.phase.Idle? && t.file == Commit(s.file, s.addr, s.data[..s.index] + bytes)
    decreases |bytes|
  {
    hide Commit;
    var data := s.data[s.index := bytes[0]];
    var t := Step(s.(poll := 3), WriteData(bytes[0]));
    assert bytes == [bytes[0]] + bytes[1..];
    assert data[..s.index + 1] == s.data[..s.index] + [bytes[0]];
    if |bytes| > 1 {
      SendStores(t, bytes[1..]);
      assert data[..s.index + 1] + bytes[1..] == s.data[..s.index] + bytes;
    } else {
      assert data == s.data[..s.index] + bytes;
    }
  }

  /** The two commands from the idle state. */
  lemma Commanded(s: Sd, l0: byte, l1: byte, l2: byte)
    requires Sound(s) && s.phase.Idle? && l2 % 128 < 64
    ensures |s.data| == SECTOR
    ensures var s1 := SetLba(s, l0, l1, l2); var w, r := Command(s1, 1), Command(s1, 0);
            && Sound(w) && w.phase.Writing? && w.index == 0 && w.file == s.file && w.addr == Address(s1)
            && Sound(r) && r.phase.Reading? && r.index == 0 && r.file == s.file
            && r.data == ReadSector(s.file, Address(s1), s.data)
            && Seekable(Address(s1))
  {
    hide ReadSector, WriteSector;
    var s1 := SetLba(s, l0, l1, l2);
    SeekableIff(s1);
    StepSound(s1, WriteControl(1));
    StepSound(s1, WriteControl(0));
  }

  /** Such a driver writes any 512 bytes to any sector that can be sought and reads them back. */
  lemma PollingRoundTrip(s: Sd, l0: byte, l1: byte, l2: byte, bytes: seq<byte>)
    requires Sound(s) && s.phase.Idle? && l2 % 128 < 64 && |bytes| == SECTOR
    ensures Sound(Command(SetLba(s, l0, l1, l2), 1)) && Command(SetLba(s, l0, l1, l2), 1).phase.Writing?
    ensures Command(SetLba(s, l0, l1, l2), 1).index == 0
    ensures var t := Send(Command(SetLba(s, l0, l1, l2), 1), bytes);
            && Sound(t) && t.phase.Idle? && t.file == WriteSector(s.file, Address(SetLba(s, l0, l1, l2)), bytes)
            && var r := Command(SetLba(t, l0, l1, l2), 0);
               && Sound(r) && r.phase.Reading? && r.index == 0
               && Fetch(r, SECTOR).0 == bytes && Fetch(r, SECTOR).1.phase.Idle?
  {
    hide Send, Fetch, ReadSector, WriteSector, Command, SetLba, Address, Step;
    Commanded(s, l0, l1, l2);
    DriverWrites(Command(SetLba(s, l0, l1, l2), 1), bytes);
    var t := Send(Command(SetLba(s, l0, l1, l2), 1), bytes);
    Commanded(t, l0, l1, l2);
    SectorNumber(s, l0, l1, l2); SectorNumber(t, l0, l1, l2);
    SectorReadBack(s.file, Address(SetLba(s, l0, l1, l2)), bytes, t.data);
    DriverReads(Command(SetLba(t, l0, l1, l2), 0));
  }

  lemma DriverWrites(w: Sd, bytes: seq<byte>)
    requires Sound(w) && w.phase.Writing? && w.index == 0 && |bytes| == SECTOR && Seekable(w.addr)
    ensures var t := Send(w, bytes); Sound(t) && t.phase.Idle? && t.file == WriteSector(w.file, w.addr, bytes)
  {
    hide Send, WriteSector;
    SendStores(w, bytes);
    assert w.data[..0] + bytes == bytes;
  }

  lemma DriverReads(r: Sd)
    requires Sound(r) && r.phase.Reading? && r.index == 0
    ensures Fetch(r, SECTOR).0 == r.data && Fetch(r, SECTOR).1.phase.Idle?
  {
    hide Fetch;
    FetchReads(r, SECTOR);
    assert r.data[0..SECTOR] == r.data;
  }

  // ----- every sector holds the last write to it -----

  /** A completed write. */
  datatype Sector = Sector(addr: nat, bytes: seq<byte>)

  /** What an observer of the registers writes down: the open transfer and the completed writes. */
  datatype Journal = Journal(addr: nat, bytes: seq<byte>, done: seq<Sector>)

  function Note(j: Journal, s: Sd, op: Op): Journal {
    if s.phase.Idle? && op == WriteControl(1) then j.(addr := Address(s), bytes := [])
    else if s.phase.Writing? && s.poll == 3 && op.WriteData? then
      var bytes := j.bytes + [op.v];
      if |bytes| < SECTOR then j.(bytes := bytes)
      else if Seekable(j.addr) then Journal(j.addr, [], j.done + [Sector(j.addr, bytes)])
      else j.(bytes := [])
    else j
  }

  function NoteAll(j: Journal, s: Sd, ops: seq<Op>): Journal
    requires |s.data| == SECTOR
    decreases |ops|
  {
    if ops == [] then j else NoteAll(Note(j, s, ops[0]), Step(s, ops[0]), ops[1..])
  }

  predicate WellFormed(done: seq<Sector>) { forall k :: 0 <= k < |done| ==> |done[k].bytes| == SECTOR && done[k].addr % SECTOR == 0 }

  /** Write `k` is the last one to its sector. */
  predicate LastOf(done: seq<Sector>, k: nat) { k < |done| && forall m :: k < m < |done| ==> done[m].addr != done[k].addr }

  /** No write went to the sector of byte `i`. */
  predicate Untouched(done: seq<Sector>, i: nat) { forall m :: 0 <= m < |done| ==> done[m].addr / SECTOR != i / SECTOR }

  /** The image after the completed writes, in order. */
  function Replay(file: seq<byte>, done: seq<Sector>): seq<byte>
    requires WellFormed(done)
  {
    if done == [] then file
    else var n := |done| - 1; WriteSector(Replay(file, done[..n]), done[n].addr, done[n].bytes)
  }

  /** The journal describes the controller, which began with image `first`. */
  predicate Linked(s: Sd, j: Journal, first: seq<byte>) {
    && Sound(s) && WellFormed(j.done) && s.file == Replay(first, j.done)
    && (s.phase.Writing? ==> s.addr == j.addr && s.addr % SECTOR == 0 && j.bytes == s.data[..s.index])
  }

  lemma StepLinked(s: Sd, j: Journal, op: Op, first: seq<byte>)
    requires Linked(s, j, first)
    ensures Linked(Step(s, op), Note(j, s, op), first)
  {
    hide Replay, ReadSector, WriteSector;
    StepSound(s, op);
    SeekableIff(s);
    if s.phase.Writing? && s.poll == 3 && op.WriteData? {
      var data := s.data[s.index := op.v];
      assert data[..s.index + 1] == s.data[..s.index] + [op.v];
      if s.index == 511 {
        assert data[..512] == data;
        if Seekable(j.addr) { ReplayMore(first, j.done, Sector(j.addr, data)); }
      }
    }
  }

  lemma ReplayMore(first: seq<byte>, done: seq<Sector>, d: Sector)
    requires WellFormed(done) && |d.bytes| == SECTOR && d.addr % SECTOR == 0
    ensures WellFormed(done + [d])
    ensures Replay(first, done + [d]) == WriteSector(Replay(first, done), d.addr, d.bytes)
  {
    assert (done + [d])[..|done|] == done;
  }

  lemma {:induction false} RunLinked(s: Sd, j: Journal, ops: seq<Op>, first: seq<byte>)
    requires Linked(s, j, first)
    ensures Linked(Run(s, ops), NoteAll(j, s, ops), first)
    decreases |ops|
  {
    hide Linked, Note;
    if ops != [] {
      StepLinked(s, j, ops[0], first);
      assert |s.data| == SECTOR by { LinkedData(s, j, first); }
      RunLinked(Step(s, ops[0]), Note(j, s, ops[0]), ops[1..], first);
    }
  }

  lemma LinkedData(s: Sd, j: Journal, first: seq<byte>)
    requires Linked(s, j, first)
    ensures |s.data| == SECTOR
  {
    hide Replay;
  }

  /** The last of several writes to a sector decides its contents. */
  lemma {:induction false} LastWriteWins(first: seq<byte>, done: seq<Sector>, k: nat)
    requires WellFormed(done) && LastOf(done, k)
    ensures var a := done[k].addr;
            a + SECTOR <= |Replay(first, done)| && Replay(first, done)[a..a + SECTOR] == done[k].bytes
    decreases |done|
  {
    hide WriteSector;
    var n := |done| - 1;
    var before := Replay(first, done[..n]);
    var a := done[k].addr;
    if k == n {
      WrittenSector(before, a, done[n].bytes);
    } else {
      assert forall m :: 0 <= m < n ==> done[..n][m] == done[m];
      LastWriteWins(first, done[..n], k);
      OtherSector(before, done[n].addr, done[n].bytes, a);
    }
  }

  lemma WrittenSector(file: seq<byte>, a: nat, bytes: seq<byte>)
    requires |bytes| == SECTOR
    ensures a + SECTOR <= |WriteSector(file, a, bytes)| && WriteSector(file, a, bytes)[a..a + SECTOR] == bytes
  {
  }

  lemma OtherSector(file: seq<byte>, a: nat, bytes: seq<byte>, b: nat)
    requires |bytes| == SECTOR && a % SECTOR == 0 && b % SECTOR == 0 && a != b && b + SECTOR <= |file|
    ensures b + SECTOR <= |WriteSector(file, a, bytes)| && WriteSector(file, a, bytes)[b..b + SECTOR] == file[b..b + SECTOR]
  {
    assert a >= b + SECTOR || b >= a + SECTOR;
  }

  /** Sectors nothing was written to are as they were. */
  lemma {:induction false} NeverWritten(first: seq<byte>, done: seq<Sector>, i: nat)
    requires WellFormed(done) && i < |first| && Untouched(done, i)
    ensures i < |Replay(first, done)| && Replay(first, done)[i] == first[i]
    decreases |done|
  {
    hide WriteSector;
    if done != [] {
      var n := |done| - 1;
      assert forall m :: 0 <= m < n ==> done[..n][m] == done[m];
      NeverWritten(first, done[..n], i);
      OneKept(Replay(first, done[..n]), done[n].addr, done[n].bytes, i);
    }
  }

  lemma OneKept(file: seq<byte>, a: nat, bytes: seq<byte>, i: nat)
    requires |bytes| == SECTOR && i < |file| && i / SECTOR != a / SECTOR && a % SECTOR == 0
    ensures i < |WriteSector(file, a, bytes)| && WriteSector(file, a, bytes)[i] == file[i]
  {
    OtherSectorsKept(file, a, bytes, i);
  }

  /** Byte for byte what the last write left, and what a read command will load. */
  predicate Holds(t: Sd, d: Sector)
    requires |t.data| == SECTOR
  {
    && d.addr + SECTOR <= |t.file| && t.file[d.addr..d.addr + SECTOR] == d.bytes
    && (t.phase.Idle? && Address(t) == d.addr ==> Command(t, 0).phase.Reading? && Command(t, 0).data == d.bytes)
  }

  /** After any register accesses at all, every sector holds the bytes of the last write completed to
      it, which a read command will return, and all other bytes of the image are as they were. */
  lemma SectorsHoldLastWrite(s: Sd, ops: seq<Op>)
    requires Sound(s) && !s.phase.Writing?
    ensures var t := Run(s, ops);
            var done := NoteAll(Journal(0, [], []), s, ops).done;
            && Sound(t) && WellFormed(done)
            && (forall k: nat :: LastOf(done, k) ==> Holds(t, done[k]))
            && (forall i: nat :: Untouched(done, i) && i < |s.file| ==> i < |t.file| && t.file[i] == s.file[i])
  {
    hide Replay, Run, NoteAll, LastOf, Untouched, Holds, WellFormed;
    var j := Journal(0, [], []);
    assert Linked(s, j, s.file) by { StartLinked(s); }
    RunLinked(s, j, ops, s.file);
    var t := Run(s, ops);
    var done := NoteAll(j, s, ops).done;
    forall k: nat | LastOf(done, k) ensures k < |done| && Holds(t, done[k]) {
      assert k < |done| by { LastInside(done, k); }
      LastWriteWins(s.file, done, k);
      HoldsSector(t, done[k]);
    }
    forall i: nat | Untouched(done, i) && i < |s.file| ensures i < |t.file| && t.file[i] == s.file[i] {
      NeverWritten(s.file, done, i);
    }
  }

  lemma StartLinked(s: Sd)
    requires Sound(s) && !s.phase.Writing?
    ensures Linked(s, Journal(0, [], []), s.file)
  {
  }

  lemma LastInside(done: seq<Sector>, k: nat)
    requires LastOf(done, k)
    ensures k < |done|
  {
  }

  lemma HoldsSector(t: Sd, d: Sector)
    requires Sound(t) && d.addr + SECTOR <= |t.file| && t.file[d.addr..d.addr + SECTOR] == d.bytes
    ensures Holds(t, d)
  {
    hide ReadSector;
    ReadsSector(t.file, d.addr, t.data);
  }

  lemma ReadsSector(file: seq<byte>, a: nat, buf: seq<byte>)
    requires |buf| == SECTOR && a + SECTOR <= |file|
    ensures ReadSector(file, a, buf) == file[a..a + SECTOR]
  {
  }
}
