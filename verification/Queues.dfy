/** The two receive queues, the 4096-byte ring of the serial port and the 8-byte FIFO of UART0, as
    implementations of one bounded queue. */
module Queues {
  import opened Words

  // ----- the bounded queue -----

  datatype Event = Arrive(v: byte) | Take

  /** A byte that arrives at a full queue is refused; taking from an empty queue gives nothing. */
  function After(q: seq<byte>, cap: nat, e: Event): seq<byte> {
    match e
    case Arrive(v) => if |q| < cap then q + [v] else q
    case Take => if q == [] then q else q[1..]
  }

  function Accepted(q: seq<byte>, cap: nat, e: Event): seq<byte> {
    if e.Arrive? && |q| < cap then [e.v] else []
  }

  function Taken(q: seq<byte>, e: Event): seq<byte> {
    if e.Take? && q != [] then [q[0]] else []
  }

  function AfterAll(q: seq<byte>, cap: nat, es: seq<Event>): seq<byte>
    decreases |es|
  {
    if es == [] then q else AfterAll(After(q, cap, es[0]), cap, es[1..])
  }

  function AllAccepted(q: seq<byte>, cap: nat, es: seq<Event>): seq<byte>
    decreases |es|
  {
    if es == [] then [] else Accepted(q, cap, es[0]) + AllAccepted(After(q, cap, es[0]), cap, es[1..])
  }

  function AllTaken(q: seq<byte>, cap: nat, es: seq<Event>): seq<byte>
    decreases |es|
  {
    if es == [] then [] else Taken(q, es[0]) + AllTaken(After(q, cap, es[0]), cap, es[1..])
  }

  /** No accepted byte is lost, repeated or overtaken: what was there and what came in is what went
      out, in order, followed by what is left. */
  lemma {:induction false} Conservation(q: seq<byte>, cap: nat, es: seq<Event>)
    requires |q| <= cap
    ensures q + AllAccepted(q, cap, es) == AllTaken(q, cap, es) + AfterAll(q, cap, es)
    ensures |AfterAll(q, cap, es)| <= cap
    decreases |es|
  {
    hide Accepted, Taken, After;
    if es == [] {
      assert q + [] == [] + q;
    } else {
      var e := es[0];
      var q' := After(q, cap, e);
      var acc, tak := AllAccepted(q', cap, es[1..]), AllTaken(q', cap, es[1..]);
      AfterBound(q, cap, e);
      Conservation(q', cap, es[1..]);
      OneEvent(q, cap, e);
      Glue(q, Accepted(q, cap, e), acc, Taken(q, e), q', tak, AfterAll(q', cap, es[1..]));
    }
  }

  lemma AfterBound(q: seq<byte>, cap: nat, e: Event)
    requires |q| <= cap
    ensures |After(q, cap, e)| <= cap
  {
  }

  lemma OneEvent(q: seq<byte>, cap: nat, e: Event)
    ensures q + Accepted(q, cap, e) == Taken(q, e) + After(q, cap, e)
  {
  }

  lemma Glue(q: seq<byte>, a: seq<byte>, acc: seq<byte>, t: seq<byte>, q': seq<byte>, tak: seq<byte>, rest: seq<byte>)
    requires q + a == t + q' && q' + acc == tak + rest
    ensures q + (a + acc) == (t + tak) + rest
  {
    assert q + (a + acc) == (q + a) + acc;
    assert (t + q') + acc == t + (q' + acc);
    assert t + (tak + rest) == (t + tak) + rest;
  }

  // ----- circular buffers -----

  /** `x % n` for the indices that occur, without division. */
  function Wrap(x: nat, n: nat): nat { if x < n then x else x - n }

  /** The `n` bytes of a circular buffer from index `rd` on. */
  function Circular(buf: seq<byte>, rd: nat, n: nat): (q: seq<byte>)
    requires rd < |buf| && n <= |buf|
    ensures |q| == n
    ensures forall i :: 0 <= i < n ==> q[i] == buf[Wrap(rd + i, |buf|)]
  {
    seq(n, i requires 0 <= i < n => buf[Wrap(rd + i, |buf|)])
  }

  lemma CircularPush(buf: seq<byte>, rd: nat, n: nat, v: byte)
    requires rd < |buf| && n < |buf|
    ensures Circular(buf[Wrap(rd + n, |buf|) := v], rd, n + 1) == Circular(buf, rd, n) + [v]
  {
    var l, r := Circular(buf[Wrap(rd + n, |buf|) := v], rd, n + 1), Circular(buf, rd, n) + [v];
    forall i | 0 <= i < n + 1 ensures l[i] == r[i] { }
  }

  lemma CircularPop(buf: seq<byte>, rd: nat, n: nat)
    requires rd < |buf| && 0 < n <= |buf|
    ensures Circular(buf, rd, n) == [buf[rd]] + Circular(buf, Wrap(rd + 1, |buf|), n - 1)
  {
    var l, r := Circular(buf, rd, n), [buf[rd]] + Circular(buf, Wrap(rd + 1, |buf|), n - 1);
    forall i | 0 <= i < n ensures l[i] == r[i] {
      if i > 0 { assert r[i] == Circular(buf, Wrap(rd + 1, |buf|), n - 1)[i - 1]; }
    }
  }

  lemma WrapIndex(x: nat, N: nat)
    requires N > 0 && x < 2 * N
    ensures x % N == Wrap(x, N)
  {
    if x >= N {
      assert x == N * 1 + (x - N);
    }
  }

  // ----- the serial port -----

  const RING := 4096

  class SerialPort {
    const buf: array<byte>
    var rd: nat
    var wr: nat
    var count: nat

    constructor ()
      ensures Ready() && Contents() == [] && fresh(buf)
    {
      buf := new byte[RING](_ => 0);
      rd, wr, count := 0, 0, 0;
    }

    ghost predicate Ready()
      reads this
    {
      buf.Length == RING && rd < RING && count <= RING && wr == Wrap(rd + count, RING)
    }

    ghost function Contents(): seq<byte>
      requires Ready()
      reads this, buf
    {
      Circular(buf[..], rd, count)
    }

    /** serial_queue_push. */
    method Push(v: byte) returns (ok: bool)
      requires Ready()
      modifies this, buf
      ensures Ready() && Contents() == After(old(Contents()), RING, Arrive(v))
      ensures ok <==> |old(Contents())| < RING
    {
      ok := count < RING;
      if ok {
        CircularPush(buf[..], rd, count, v);
        buf[wr] := v;
        WrapIndex(wr + 1, RING);
        wr := (wr + 1) % RING;
        count := count + 1;
      }
    }

    /** serial_queue_pop. */
    method Pop() returns (ok: bool, v: byte)
      requires Ready()
      modifies this
      ensures Ready() && Contents() == After(old(Contents()), RING, Take)
      ensures ok <==> old(Contents()) != []
      ensures ok ==> v == old(Contents())[0]
    {
      ok, v := count > 0, 0;
      if ok {
        v := buf[rd];
        CircularPop(buf[..], rd, count);
        WrapIndex(rd + 1, RING);
        rd := (rd + 1) % RING;
        count := count - 1;
      }
    }

    /** serial_inject_bytes: stops at the first byte the queue refuses. */
    method Inject(vals: seq<byte>) returns (ok: bool)
      requires Ready()
      modifies this, buf
      ensures Ready()
      ensures var room := RING - |old(Contents())|;
              && (ok <==> |vals| <= room)
              && Contents() == old(Contents()) + vals[..if |vals| <= room then |vals| else room]
    {
      var i := 0;
      assert vals[..0] == [];
      while i < |vals|
        invariant i <= |vals| && Ready()
        invariant Contents() == old(Contents()) + vals[..i]
      {
        var pushed := Push(vals[i]);
        if !pushed {
          return false;
        }
        assert vals[..i + 1] == vals[..i] + [vals[i]];
        i := i + 1;
      }
      assert vals[..|vals|] == vals;
      return true;
    }

    /** SER_DATA: injected bytes come before any byte the host has ready. */
    method ReadData(hostReady: bool, host: byte) returns (v: byte, usedHost: bool)
      requires Ready()
      modifies this
      ensures Ready() && Contents() == After(old(Contents()), RING, Take)
      ensures old(Contents()) != [] ==> v == old(Contents())[0] && !usedHost
      ensures old(Contents()) == [] ==> usedHost == hostReady && v == if hostReady then host else 0xff
    {
      var ok;
      ok, v := Pop();
      usedHost := false;
      if !ok {
        usedHost := hostReady;
        v := if hostReady then host else 0xff;
      }
    }
  }

  // ----- the UART0 receive FIFO -----

  const FIFO := 8

  datatype Fifo = Fifo(wr: nat, rd: nat, empty: bool, data: seq<byte>)

  predicate Shaped(f: Fifo) { f.wr < FIFO && f.rd < FIFO && |f.data| == FIFO }

  /** Equal indices mean empty or full, told apart by the flag; an empty FIFO has equal indices. */
  predicate Sane(f: Fifo) { Shaped(f) && (f.empty ==> f.wr == f.rd) }

  predicate IsFull(f: Fifo) { f.wr == f.rd && !f.empty }

  function Level(f: Fifo): nat
    requires Shaped(f)
  {
    if f.empty then 0 else if f.wr > f.rd then f.wr - f.rd else f.wr + FIFO - f.rd
  }

  function Queued(f: Fifo): seq<byte>
    requires Shaped(f)
  {
    Circular(f.data, f.rd, Level(f))
  }

  /** multicomp_console_rxpoll with a byte at hand. */
  function Receive(f: Fifo, v: byte): Fifo
    requires Shaped(f)
  {
    if IsFull(f) then f else f.(empty := false, data := f.data[f.wr := v], wr := (f.wr + 1) % FIFO)
  }

  /** The pop of a data register read. */
  function Drop(f: Fifo): Fifo
    requires Shaped(f)
  {
    if f.empty then f
    else var rd := (f.rd + 1) % FIFO; f.(rd := rd, empty := rd == f.wr)
  }

  /** Master reset clears the write index (twice) and never the read index. */
  function Reset(f: Fifo): Fifo { f.(wr := 0, empty := true) }

  lemma ReceiveIsArrive(f: Fifo, v: byte)
    requires Sane(f)
    ensures Sane(Receive(f, v)) && Queued(Receive(f, v)) == After(Queued(f), FIFO, Arrive(v))
    ensures IsFull(f) <==> |Queued(f)| == FIFO
  {
    if !IsFull(f) {
      var n := Level(f);
      WrapIndex(f.wr + 1, FIFO);
      CircularPush(f.data, f.rd, n, v);
      assert Level(Receive(f, v)) == n + 1;
    }
  }

  lemma DropIsTake(f: Fifo)
    requires Sane(f)
    ensures Sane(Drop(f)) && Queued(Drop(f)) == After(Queued(f), FIFO, Take)
    ensures !f.empty ==> Queued(f) != [] && f.data[f.rd] == Queued(f)[0]
  {
    if !f.empty {
      var n := Level(f);
      WrapIndex(f.rd + 1, FIFO);
      CircularPop(f.data, f.rd, n);
      assert Level(Drop(f)) == n - 1;
    }
  }

  function FifoStep(f: Fifo, e: Event): Fifo
    requires Shaped(f)
  {
    match e case Arrive(v) => Receive(f, v) case Take => Drop(f)
  }

  /** The byte a data register read takes out, before the key conversion. */
  function FifoOut(f: Fifo, e: Event): seq<byte>
    requires Shaped(f)
  {
    if e.Take? && !f.empty then [f.data[f.rd]] else []
  }

  function FifoRun(f: Fifo, es: seq<Event>): (Fifo, seq<byte>)
    requires Sane(f)
    decreases |es|
  {
    if es == [] then (f, [])
    else
      assert Sane(FifoStep(f, es[0])) by { StepSane(f, es[0]); }
      var (g, out) := FifoRun(FifoStep(f, es[0]), es[1..]);
      (g, FifoOut(f, es[0]) + out)
  }

  lemma StepSane(f: Fifo, e: Event)
    requires Sane(f)
    ensures Sane(FifoStep(f, e))
    ensures Queued(FifoStep(f, e)) == After(Queued(f), FIFO, e) && FifoOut(f, e) == Taken(Queued(f), e)
  {
    if e.Arrive? { ReceiveIsArrive(f, e.v); } else { DropIsTake(f); }
  }

  /** Over any run the UART0 FIFO is the bounded queue: same contents, same bytes out. */
  lemma {:induction false} FifoRefines(f: Fifo, es: seq<Event>)
    requires Sane(f)
    ensures var (g, out) := FifoRun(f, es);
            Sane(g) && Queued(g) == AfterAll(Queued(f), FIFO, es) && out == AllTaken(Queued(f), FIFO, es)
    decreases |es|
  {
    hide FifoStep, FifoOut, Queued, After, Taken;
    if es != [] {
      StepSane(f, es[0]);
      FifoRefines(FifoStep(f, es[0]), es[1..]);
    }
  }

  /** After a master reset the FIFO works again exactly when the read index happened to be zero:
      only then does the next byte received come out first, whatever it is. */
  lemma ResetWorksIff(f: Fifo)
    requires Shaped(f)
    ensures Sane(Reset(f)) <==> f.rd == 0
    ensures f.rd == 0 <==> forall v: byte :: var g := Receive(Reset(f), v); !g.empty && g.data[g.rd] == v
  {
    var r := Reset(f);
    if f.rd != 0 {
      var w: int := f.data[f.rd];
      var v: byte := (w + 1) % 256;
      var g := Receive(r, v);
      assert !IsFull(r) && g.data[g.rd] == f.data[f.rd] != v;
    } else {
      forall v: byte ensures var g := Receive(r, v); !g.empty && g.data[g.rd] == v { }
    }
  }

  /** One byte received and read, then a master reset: the read index is 1, the FIFO is broken, and a
      byte received next stays hidden behind a stale one. */
  lemma ResetBreaks(data: seq<byte>, b: byte, v: byte)
    requires |data| == FIFO
    ensures var f := Reset(Drop(Receive(Fifo(0, 0, true, data), b)));
            && Shaped(f) && f.rd == 1 && !Sane(f)
            && var g := Receive(f, v); !g.empty && g.data[g.rd] == data[1]
  {
  }
}
