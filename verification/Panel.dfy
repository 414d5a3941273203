/** The CO5300 display driver: commands, the drawing window and pixels streamed in chunks. */
module Panel {
  import opened Common
  import opened Mspi

  const MODE_SINGLE: nat := 0x02
  const MODE_QUAD_1_1_4: nat := 0x32
  const COLUMN_ADDRESS_SET: Byte := 0x2A
  const PAGE_ADDRESS_SET: Byte := 0x2B
  const MEMORY_WRITE: Byte := 0x2C
  const QUAD_1_1_4: Byte := 0x2C

  // ---------------------------------------------------------------- one transmission

  function XferFor(mode: IoMode, cmd: Option<Byte>, data: seq<Byte>, hold: bool): Xfer {
    match cmd
    case Some(c) =>
      Xfer([Tx(if mode == Single then MODE_SINGLE else MODE_QUAD_1_1_4, c * 0x100, data)], hold, 1, 3, false)
    case None => Xfer([Tx(0, 0, data)], hold, 0, 0, false)
  }

  function Transmitted(k: Config, b: Bus, mode: IoMode, cmd: Option<Byte>, data: seq<Byte>, hold: bool,
                       f: Fault): Effect {
    var b1 := b.(ioMode := mode);
    if cmd.Some? && mode != Single && mode != Quad114 then Effect(b1, NotSupported, [])
    else Transceived(k, b1, XferFor(mode, cmd, data, hold), f, true)
  }

  // ---------------------------------------------------------------- what the panel should see

  /** The bus with everything erased that one transmission sets for itself. */
  function Base(b: Bus): Bus {
    var d := b.device.(lsbFirst := false);
    b.(ioMode := Single, device := d, registers := d, dirty := false, dummyBits := 0, lines := Lines(0, 0, 0),
       csActive := false, asserted := false)
  }

  function On(k: Config, b: Bus): Event {
    if k.gpioCe then CeLevel(b.ceNum, Level(b.polarity, true))
    else CeLevel(b.registers.csPin, b.registers.positiveCs)
  }

  function Off(k: Config, b: Bus): Event {
    if k.gpioCe then CeLevel(b.ceNum, Level(b.polarity, false))
    else CeLevel(b.registers.csPin, !b.registers.positiveCs)
  }

  function Command(mode: IoMode, cmd: Option<Byte>): seq<Symbol> {
    match cmd
    case Some(c) => [Opcode(if mode == Single then MODE_SINGLE else MODE_QUAD_1_1_4, 8), Address(c * 0x100, 24)]
    case None => []
  }

  /** The symbols as clocked in this mode with the registers of the bus. */
  function Wire(b: Bus, mode: IoMode, symbols: seq<Symbol>): (e: seq<Event>)
    ensures |e| == |symbols|
  {
    ClockedOut(b.(lines := LineMode(mode)), symbols)
  }

  function Content(e: Event): seq<Event> {
    if e.Clocked? then [e] else []
  }

  /** What was clocked out, without chip-enable levels and alignment. */
  function Payload(events: seq<Event>): seq<Event> {
    if events == [] then [] else Content(events[0]) + Payload(events[1..])
  }

  lemma {:induction false} PayloadJoins(a: seq<Event>, b: seq<Event>)
    ensures Payload(a + b) == Payload(a) + Payload(b)
  {
    if a == [] {
      assert a + b == b;
    } else {
      PayloadJoins(a[1..], b);
      assert (a + b)[0] == a[0] && (a + b)[1..] == a[1..] + b;
      Appended(Content(a[0]), Payload(a[1..]), Payload(b));
    }
  }

  lemma {:induction false} PayloadOfClocked(events: seq<Event>)
    requires forall i :: 0 <= i < |events| ==> events[i].Clocked?
    ensures Payload(events) == events && Visible(events) == events
  {
    if events != [] {
      PayloadOfClocked(events[1..]);
      assert events == [events[0]] + events[1..];
    }
  }

  lemma WireJoins(b: Bus, mode: IoMode, s: seq<Symbol>, t: seq<Symbol>)
    ensures Wire(b, mode, s + t) == Wire(b, mode, s) + Wire(b, mode, t)
  {
  }

  lemma BytesJoin(s: seq<Byte>, t: seq<Byte>)
    ensures Bytes(s + t) == Bytes(s) + Bytes(t)
  {
  }

  // ---------------------------------------------------------------- one transmission on the wire

  /** The bytes that leave the controller: other ones when the DMA channel does not start. */
  function CarriedBytes(data: seq<Byte>, f: Fault): (r: seq<Byte>)
    ensures |r| == |data|
  {
    var outcome := OutcomeAt(f, 0);
    if outcome.Unfed? then Filler(outcome.junk, |data|) else data
  }

  lemma Prepared(k: Config, b: Bus, mode: IoMode)
    requires Current(b)
    ensures
      var (b1, aligned) := Updated(k, b.(ioMode := mode), true);
      Current(b1) && Base(b1) == Base(b) && b1.registers == Base(b).registers && b1.lines == LineMode(mode)
      && b1.csActive == b.csActive && b1.asserted == b.asserted && Visible(aligned) == [] && Payload(aligned) == []
  {
  }

  /** The packet of the driver's transfers is its command and what is carried of its data. */
  lemma PacketIs(b: Bus, mode: IoMode, cmd: Option<Byte>, data: seq<Byte>, hold: bool, f: Fault)
    requires cmd.Some? ==> mode == Single || mode == Quad114
    ensures
      var x := XferFor(mode, cmd, data, hold);
      |x.packets| == 1 && Size(x.packets[0]) == |data| && x.packets[0].Tx?
      && Symbols(b, x, Carried(x.packets[0], OutcomeAt(f, 0))) == Message(mode, cmd, CarriedBytes(data, f))
  {
  }

  /** The levels around a transfer: up unless the device was held already, down unless it is to be held. */
  function Window(k: Config, b: Bus, symbols: seq<Event>, held: bool, hold: bool): seq<Event> {
    (if held then [] else [On(k, b)]) + symbols + (if hold then [] else [Off(k, b)])
  }

  /** The driver believes the device selected only while its chip enable is asserted. */
  predicate Sound(b: Bus) {
    Current(b) && (b.csActive ==> b.asserted)
  }

  /**
   * No chip-enable edge comes before the next message: the device is held on purpose, or a hardware
   * chip enable was left asserted by a message that failed.
   */
  predicate Held(k: Config, b: Bus) {
    b.csActive || (!k.gpioCe && b.asserted)
  }

  /** The single packet of a transfer as it is clocked out. */
  function Sending(b: Bus, x: Xfer, f: Fault): seq<Event>
    requires |x.packets| == 1
  {
    ClockedOut(b, Symbols(b, x, Carried(x.packets[0], OutcomeAt(f, 0))))
  }

  /** A packet that was sent whole, seen by itself. */
  lemma SentWhole(k: Config, b: Bus, x: Xfer, f: Fault)
    requires |x.packets| == 1
    requires Transferred(k, b, x, 0, OutcomeAt(f, 0)).status == Success
    ensures
      var e := Transferred(k, b, x, 0, OutcomeAt(f, 0));
      e.bus == b.(asserted := if k.gpioCe then b.asserted else x.hold)
      && e.events == (if k.gpioCe then Sending(b, x, f) else Window(k, b, Sending(b, x, f), b.asserted, x.hold))
  {
    if k.gpioCe {
      assert [] + Sending(b, x, f) + [] == Sending(b, x, f);
    }
  }

  lemma ExchangedWhole(k: Config, b: Bus, x: Xfer, f: Fault)
    requires |x.packets| == 1 && (b.csActive ==> b.asserted)
    requires Exchanged(k, b, x, f).status == Success
    ensures
      var e := Exchanged(k, b, x, f);
      e.bus == b.(csActive := x.hold, asserted := x.hold)
      && e.events == Window(k, b, Sending(b, x, f), Held(k, b), x.hold)
  {
    if k.gpioCe {
      ExchangedByPin(k, b, x, f);
    } else {
      ExchangedByHardware(k, b, x, f);
    }
  }

  lemma ExchangedByPin(k: Config, b: Bus, x: Xfer, f: Fault)
    requires k.gpioCe && |x.packets| == 1 && (b.csActive ==> b.asserted)
    requires Exchanged(k, b, x, f).status == Success
    ensures Exchanged(k, b, x, f).bus == b.(csActive := x.hold, asserted := x.hold)
    ensures Exchanged(k, b, x, f).events == Window(k, b, Sending(b, x, f), b.csActive, x.hold)
  {
    var on := Selected(k, b, f.select);
    SinglePacket(k, on.bus, x, f);
    SentWhole(k, on.bus, x, f);
    assert Sending(on.bus, x, f) == Sending(b, x, f);
    ReleasedWhole(k, Transferred(k, on.bus, x, 0, OutcomeAt(f, 0)), x.hold, f.release);
    Appended(on.events, Sending(b, x, f), if x.hold then [] else [Off(k, b)]);
  }

  lemma ExchangedByHardware(k: Config, b: Bus, x: Xfer, f: Fault)
    requires !k.gpioCe && |x.packets| == 1 && (b.csActive ==> b.asserted)
    requires Exchanged(k, b, x, f).status == Success
    ensures Exchanged(k, b, x, f).bus == b.(csActive := x.hold, asserted := x.hold)
    ensures Exchanged(k, b, x, f).events == Window(k, b, Sending(b, x, f), b.asserted, x.hold)
  {
    var on := Selected(k, b, f.select);
    SinglePacket(k, on.bus, x, f);
    SentWhole(k, on.bus, x, f);
    assert Sending(on.bus, x, f) == Sending(b, x, f);
    var one := Transferred(k, on.bus, x, 0, OutcomeAt(f, 0));
    ReleasedWhole(k, one, x.hold, f.release);
    EventsEnd(one.events);
    assert [] + one.events == one.events;
  }

  lemma ReleasedWhole(k: Config, e: Effect, hold: bool, works: bool)
    requires e.status == Success && Released(k, e, hold, works).status == Success
    ensures
      var off := Released(k, e, hold, works);
      off.bus == (if hold then e.bus else if k.gpioCe then e.bus.(csActive := false, asserted := false)
                  else e.bus.(csActive := false))
      && off.events == e.events + (if hold || !k.gpioCe then [] else [Off(k, e.bus)])
  {
    EventsEnd(e.events);
  }

  lemma EventsEnd(events: seq<Event>)
    ensures events + [] == events
  {
  }

  lemma ShiftPayload(k: Config, b: Bus, symbols: seq<Symbol>, keep: bool)
    ensures Payload(Shifted(k, b, symbols, keep).1) == ClockedOut(b, symbols)
  {
    var clocked := ClockedOut(b, symbols);
    var on := if k.gpioCe || b.asserted then [] else [CeLevel(b.registers.csPin, b.registers.positiveCs)];
    var off := if k.gpioCe || keep then [] else [CeLevel(b.registers.csPin, !b.registers.positiveCs)];
    PayloadOfClocked(clocked);
    PayloadJoins(on, clocked);
    PayloadJoins(on + clocked, off);
  }

  /** The timeout stops a message of this many bytes. */
  predicate Stops(k: Config, f: Fault, size: nat) {
    StopOf(OutcomeAt(f, 0)).Some? && size <= k.maxBytes
  }

  /** Whatever happens to a packet, what is clocked out is a prefix of what is carried of it. */
  lemma TransferPayload(k: Config, b: Bus, x: Xfer, f: Fault)
    requires |x.packets| == 1
    ensures
      var e := Transferred(k, b, x, 0, OutcomeAt(f, 0));
      Payload(e.events) <= Sending(b, x, f)
      && (e.status != Success ==>
            e.status in {TooLong, NoMemory, TimedOut}
            && e.bus == b.(asserted := b.asserted || (!k.gpioCe && Stops(k, f, Size(x.packets[0])))))
  {
    var outcome := OutcomeAt(f, 0);
    var symbols := Symbols(b, x, Carried(x.packets[0], outcome));
    match StopOf(outcome) {
      case Some(n) =>
        ShiftPayload(k, b, UpTo(symbols, n), true);
        assert ClockedOut(b, UpTo(symbols, n)) == ClockedOut(b, symbols)[..|UpTo(symbols, n)|];
      case None =>
        ShiftPayload(k, b, symbols, x.hold);
    }
  }

  lemma SelectedIs(k: Config, b: Bus, works: bool)
    ensures
      var on := Selected(k, b, works);
      Payload(on.events) == []
      && (on.status == Success <==> b.csActive || !k.gpioCe || works)
      && on.bus == (if on.status != Success then b
                    else b.(csActive := true, asserted := b.asserted || (k.gpioCe && !b.csActive)))
  {
  }

  /**
   * When a chip enable is asserted after a message that failed: a pin that was set and could not be
   * released, or could not even be set again after an earlier failure; a hardware chip enable that was
   * asserted before or is because the timeout stopped the message.
   */
  predicate StillAsserted(k: Config, active: bool, asserted: bool, f: Fault, size: nat) {
    if k.gpioCe then (if active || f.select then !f.release else asserted)
    else asserted || Stops(k, f, size)
  }

  /** What is left of a device selected by its pin when the packet or the release fails. */
  lemma ReleasedInPart(k: Config, b: Bus, x: Xfer, f: Fault)
    requires |x.packets| == 1 && b.csActive && b.asserted && k.gpioCe
    requires Released(k, Transferred(k, b, x, 0, OutcomeAt(f, 0)), x.hold, f.release).status != Success
    ensures
      var off := Released(k, Transferred(k, b, x, 0, OutcomeAt(f, 0)), x.hold, f.release);
      off.bus == b.(csActive := false, asserted := !f.release) && Payload(off.events) <= Sending(b, x, f)
  {
    var one := Transferred(k, b, x, 0, OutcomeAt(f, 0));
    TransferPayload(k, b, x, f);
    if one.status == Success {
      SentWhole(k, b, x, f);
    }
    ReleasedPayload(k, one, x.hold, f.release);
  }

  /** The same for a hardware chip enable. */
  lemma ReleasedByHardware(k: Config, b: Bus, x: Xfer, f: Fault)
    requires |x.packets| == 1 && b.csActive && !k.gpioCe
    requires Released(k, Transferred(k, b, x, 0, OutcomeAt(f, 0)), x.hold, f.release).status != Success
    ensures
      var off := Released(k, Transferred(k, b, x, 0, OutcomeAt(f, 0)), x.hold, f.release);
      off.bus == b.(csActive := false, asserted := b.asserted || Stops(k, f, Size(x.packets[0])))
      && Payload(off.events) <= Sending(b, x, f)
  {
    var one := Transferred(k, b, x, 0, OutcomeAt(f, 0));
    TransferPayload(k, b, x, f);
    ReleasedPayload(k, one, x.hold, f.release);
  }

  /** A failed exchange sent a prefix and lets go of the device. */
  lemma ExchangedInPart(k: Config, b: Bus, x: Xfer, f: Fault)
    requires |x.packets| == 1 && (b.csActive ==> b.asserted)
    requires Exchanged(k, b, x, f).status != Success
    ensures
      var e := Exchanged(k, b, x, f);
      e.bus == b.(csActive := false, asserted := e.bus.asserted)
      && (e.bus.asserted <==> StillAsserted(k, b.csActive, b.asserted, f, Size(x.packets[0])))
      && Payload(e.events) <= Sending(b, x, f)
  {
    var on := Selected(k, b, f.select);
    SelectedIs(k, b, f.select);
    if on.status == Success {
      SinglePacket(k, on.bus, x, f);
      assert Sending(on.bus, x, f) == Sending(b, x, f);
      if k.gpioCe {
        ReleasedInPart(k, on.bus, x, f);
      } else {
        ReleasedByHardware(k, on.bus, x, f);
      }
      PayloadJoins(on.events, Released(k, PacketsFrom(k, on.bus, x, 0, f), x.hold, f.release).events);
    }
  }

  lemma ReleasedPayload(k: Config, e: Effect, hold: bool, works: bool)
    ensures Payload(Released(k, e, hold, works).events) == Payload(e.events)
  {
    PayloadJoins(e.events, CeSet(k, e.bus, false, works).events);
  }

  function Message(mode: IoMode, cmd: Option<Byte>, data: seq<Byte>): seq<Symbol> {
    Command(mode, cmd) + Bytes(data)
  }

  lemma VisibleWindow(k: Config, b: Bus, clocked: seq<Event>, held: bool, hold: bool)
    requires forall i :: 0 <= i < |clocked| ==> clocked[i].Clocked?
    ensures Visible(Window(k, b, clocked, held, hold)) == Window(k, b, clocked, held, hold)
  {
    var on, off := if held then [] else [On(k, b)], if hold then [] else [Off(k, b)];
    PayloadOfClocked(clocked);
    VisibleJoins(on, clocked);
    VisibleJoins(on + clocked, off);
  }

  /** A successful transmission is one message in one chip-enable window, or its part of a longer one. */
  lemma TransmittedWhole(k: Config, b: Bus, mode: IoMode, cmd: Option<Byte>, data: seq<Byte>, hold: bool, f: Fault)
    requires Sound(b) && Transmitted(k, b, mode, cmd, data, hold, f).status == Success
    ensures
      var e := Transmitted(k, b, mode, cmd, data, hold, f);
      Current(e.bus) && e.bus.csActive == e.bus.asserted == hold && Base(e.bus) == Base(b)
      && Visible(e.events)
         == Window(k, Base(b), Wire(Base(b), mode, Message(mode, cmd, CarriedBytes(data, f))), Held(k, b), hold)
  {
    var x := XferFor(mode, cmd, data, hold);
    var (b1, aligned) := Updated(k, b.(ioMode := mode), true);
    Prepared(k, b, mode);
    PacketIs(b1, mode, cmd, data, hold, f);
    ExchangedWhole(k, b1, x, f);
    VisibleJoins(aligned, Exchanged(k, b1, x, f).events);
    assert Sending(b1, x, f) == Wire(Base(b), mode, Message(mode, cmd, CarriedBytes(data, f)));
    VisibleWindow(k, b1, Sending(b1, x, f), Held(k, b), hold);
  }

  lemma TransmittedInPart(k: Config, b: Bus, mode: IoMode, cmd: Option<Byte>, data: seq<Byte>, hold: bool, f: Fault)
    requires Sound(b) && (cmd.Some? ==> mode == Single || mode == Quad114)
    requires Transmitted(k, b, mode, cmd, data, hold, f).status != Success
    ensures
      var e := Transmitted(k, b, mode, cmd, data, hold, f);
      !e.bus.csActive && Current(e.bus) && Base(e.bus) == Base(b)
      && (e.bus.asserted <==> StillAsserted(k, b.csActive, b.asserted, f, |data|))
      && Payload(e.events) <= Wire(Base(b), mode, Message(mode, cmd, CarriedBytes(data, f)))
  {
    var x := XferFor(mode, cmd, data, hold);
    var (b1, aligned) := Updated(k, b.(ioMode := mode), true);
    Prepared(k, b, mode);
    PacketIs(b1, mode, cmd, data, hold, f);
    ExchangedInPart(k, b1, x, f);
    PayloadJoins(aligned, Exchanged(k, b1, x, f).events);
    assert Sending(b1, x, f) == Wire(Base(b), mode, Message(mode, cmd, CarriedBytes(data, f)));
  }

  /** Messages that look alike on the wire carry the same bytes. */
  lemma WireSameIff(b: Bus, mode: IoMode, cmd: Option<Byte>, s: seq<Byte>, t: seq<Byte>)
    requires |s| == |t|
    ensures Wire(b, mode, Message(mode, cmd, s)) == Wire(b, mode, Message(mode, cmd, t)) <==> s == t
  {
    var u, v := Wire(b, mode, Message(mode, cmd, s)), Wire(b, mode, Message(mode, cmd, t));
    if u == v {
      var n := |Command(mode, cmd)|;
      forall i | 0 <= i < |s| ensures s[i] == t[i] {
        assert u[n + i].symbol == Data(s[i]) && v[n + i].symbol == Data(t[i]);
      }
    }
  }

  /** A successful transmission puts its own bytes on the wire if and only if those are what was carried. */
  lemma TransmittedExactlyIff(k: Config, b: Bus, mode: IoMode, cmd: Option<Byte>, data: seq<Byte>, hold: bool, f: Fault)
    requires Sound(b) && Transmitted(k, b, mode, cmd, data, hold, f).status == Success
    ensures Visible(Transmitted(k, b, mode, cmd, data, hold, f).events)
            == Window(k, Base(b), Wire(Base(b), mode, Message(mode, cmd, data)), Held(k, b), hold)
            <==> CarriedBytes(data, f) == data
  {
    TransmittedWhole(k, b, mode, cmd, data, hold, f);
    WireSameIff(Base(b), mode, cmd, CarriedBytes(data, f), data);
    WindowSameIff(k, Base(b), Wire(Base(b), mode, Message(mode, cmd, CarriedBytes(data, f))),
                  Wire(Base(b), mode, Message(mode, cmd, data)), Held(k, b), hold);
  }

  lemma WindowSameIff(k: Config, b: Bus, s: seq<Event>, t: seq<Event>, held: bool, hold: bool)
    requires |s| == |t|
    ensures Window(k, b, s, held, hold) == Window(k, b, t, held, hold) <==> s == t
  {
    var u, v := Window(k, b, s, held, hold), Window(k, b, t, held, hold);
    if u == v {
      var n := if held then 0 else 1;
      assert u[n..n + |s|] == s && v[n..n + |t|] == t;
    }
  }

  // ---------------------------------------------------------------- pixels in chunks

  /** What a run of transmissions did, and the index of the last fault it met. */
  datatype Burst = Burst(bus: Bus, status: Status, events: seq<Event>, last: nat)

  function Joined(e: Effect, rest: Burst): Burst {
    rest.(events := e.events + rest.events)
  }

  /** The first chunk of what is left; the device is held unless it is also the last. */
  function Chunk(k: Config, b: Bus, data: seq<Byte>, chunk: nat, first: bool, f: Fault): Effect {
    Transmitted(k, b, Quad114, if first then Some(QUAD_1_1_4) else None, data[..ChunkSize(data, chunk)],
                |data| > chunk, f)
  }

  function ChunkSize(data: seq<Byte>, chunk: nat): (n: nat)
    ensures n <= |data|
  {
    if |data| <= chunk then |data| else chunk
  }

  function Streamed(k: Config, b: Bus, data: seq<Byte>, chunk: nat, first: bool, faults: nat -> Fault, i: nat): Burst
    requires chunk >= 1
    decreases |data|
  {
    if data == [] then Burst(b, Success, [], i)
    else
      var e := Chunk(k, b, data, chunk, first, faults(i));
      if e.status != Success then Burst(e.bus, e.status, e.events, i)
      else Joined(e, Streamed(k, e.bus, data[ChunkSize(data, chunk)..], chunk, false, faults, i + 1))
  }

  /** What is carried of the data, chunk by chunk. */
  function CarriedStream(data: seq<Byte>, chunk: nat, faults: nat -> Fault, i: nat): (r: seq<Byte>)
    requires chunk >= 1
    ensures |r| == |data|
    decreases |data|
  {
    if data == [] then []
    else
      var n := ChunkSize(data, chunk);
      CarriedBytes(data[..n], faults(i)) + CarriedStream(data[n..], chunk, faults, i + 1)
  }

  /** The size of the n-th chunk. */
  function PieceSize(data: seq<Byte>, chunk: nat, n: nat): nat {
    if n == 0 then ChunkSize(data, chunk) else PieceSize(data[ChunkSize(data, chunk)..], chunk, n - 1)
  }

  /** Every chunk whose DMA channel does not start is clocked out as it is all the same. */
  predicate EachCarried(data: seq<Byte>, chunk: nat, faults: nat -> Fault, i: nat)
    requires chunk >= 1
    decreases |data|
  {
    data == [] ||
    (var n := ChunkSize(data, chunk);
     CarriedBytes(data[..n], faults(i)) == data[..n] && EachCarried(data[n..], chunk, faults, i + 1))
  }

  lemma {:induction false} CarriedStreamIsDataIff(data: seq<Byte>, chunk: nat, faults: nat -> Fault, i: nat)
    requires chunk >= 1
    ensures CarriedStream(data, chunk, faults, i) == data <==> EachCarried(data, chunk, faults, i)
    decreases |data|
  {
    if data != [] {
      var n := ChunkSize(data, chunk);
      CarriedStreamIsDataIff(data[n..], chunk, faults, i + 1);
      PartsSameIff(CarriedBytes(data[..n], faults(i)), CarriedStream(data[n..], chunk, faults, i + 1), data, n);
    }
  }

  lemma PartsSameIff(head: seq<Byte>, tail: seq<Byte>, data: seq<Byte>, n: nat)
    requires n <= |data| && |head| == n
    ensures head + tail == data <==> head == data[..n] && tail == data[n..]
  {
    assert (head + tail)[..n] == head && (head + tail)[n..] == tail;
    assert data[..n] + data[n..] == data;
  }

  /** Without such a fault everything is carried. */
  lemma {:induction false} FedIsCarried(data: seq<Byte>, chunk: nat, faults: nat -> Fault, i: nat)
    requires chunk >= 1 && forall j: nat :: !OutcomeAt(faults(j), 0).Unfed?
    ensures EachCarried(data, chunk, faults, i)
    decreases |data|
  {
    if data != [] {
      FedIsCarried(data[ChunkSize(data, chunk)..], chunk, faults, i + 1);
    }
  }

  /** The pixels left to send; the first chunk brings the command along. */
  function Pixels(first: bool, data: seq<Byte>): seq<Symbol> {
    Message(Quad114, if first then Some(QUAD_1_1_4) else None, data)
  }

  lemma PixelsJoin(b: Bus, first: bool, s: seq<Byte>, t: seq<Byte>)
    ensures Wire(b, Quad114, Pixels(first, s + t))
            == Wire(b, Quad114, Pixels(first, s)) + Wire(b, Quad114, Pixels(false, t))
  {
    BytesJoin(s, t);
    assert Pixels(first, s + t) == Pixels(first, s) + Pixels(false, t);
    WireJoins(b, Quad114, Pixels(first, s), Pixels(false, t));
  }

  /** What a stream should put on the wire. */
  function StreamWire(b: Bus, first: bool, data: seq<Byte>, chunk: nat, faults: nat -> Fault, i: nat): seq<Event>
    requires chunk >= 1
  {
    Wire(b, Quad114, Pixels(first, CarriedStream(data, chunk, faults, i)))
  }

  lemma StreamWireJoins(b: Bus, first: bool, data: seq<Byte>, chunk: nat, faults: nat -> Fault, i: nat)
    requires chunk >= 1 && data != []
    ensures
      var n := ChunkSize(data, chunk);
      StreamWire(b, first, data, chunk, faults, i)
      == Wire(b, Quad114, Pixels(first, CarriedBytes(data[..n], faults(i))))
         + (if |data| <= chunk then [] else StreamWire(b, false, data[n..], chunk, faults, i + 1))
  {
    var n := ChunkSize(data, chunk);
    PixelsJoin(b, first, CarriedBytes(data[..n], faults(i)), CarriedStream(data[n..], chunk, faults, i + 1));
  }

  /**
   * Chunks of any size are one transfer: a stream that succeeds puts its command and then exactly the
   * bytes carried of it into a single chip-enable window.
   */
  lemma {:induction false} StreamIsOneTransfer(k: Config, b: Bus, data: seq<Byte>, chunk: nat, first: bool,
                                               faults: nat -> Fault, i: nat)
    requires chunk >= 1 && data != [] && Sound(b) && b.csActive == !first
    requires Streamed(k, b, data, chunk, first, faults, i).status == Success
    ensures
      var s := Streamed(k, b, data, chunk, first, faults, i);
      Current(s.bus) && !s.bus.csActive && !s.bus.asserted && Base(s.bus) == Base(b)
      && Visible(s.events) == Window(k, Base(b), StreamWire(Base(b), first, data, chunk, faults, i), Held(k, b), false)
    decreases |data|
  {
    var n := ChunkSize(data, chunk);
    var e := Chunk(k, b, data, chunk, first, faults(i));
    ChunkSucceeds(k, b, data, chunk, first, faults(i));
    StreamWireJoins(Base(b), first, data, chunk, faults, i);
    var head := Wire(Base(b), Quad114, Pixels(first, CarriedBytes(data[..n], faults(i))));
    var rest := Streamed(k, e.bus, data[n..], chunk, false, faults, i + 1);
    VisibleJoins(e.events, rest.events);
    EventsEnd(head);
    if |data| <= chunk {
      assert rest.events == [];
      EventsEnd(Visible(e.events));
    } else {
      StreamIsOneTransfer(k, e.bus, data[n..], chunk, false, faults, i + 1);
      WindowsJoin(k, Base(b), head, StreamWire(Base(b), false, data[n..], chunk, faults, i + 1), Held(k, b));
    }
  }

  /** A successful stream is its own bytes if and only if every chunk was carried as it is. */
  lemma StreamIsExactIff(k: Config, b: Bus, data: seq<Byte>, chunk: nat, faults: nat -> Fault, i: nat)
    requires chunk >= 1 && data != [] && Sound(b) && !b.csActive
    requires Streamed(k, b, data, chunk, true, faults, i).status == Success
    ensures Visible(Streamed(k, b, data, chunk, true, faults, i).events)
            == Window(k, Base(b), Wire(Base(b), Quad114, Pixels(true, data)), Held(k, b), false)
            <==> EachCarried(data, chunk, faults, i)
  {
    StreamIsOneTransfer(k, b, data, chunk, true, faults, i);
    CarriedStreamIsDataIff(data, chunk, faults, i);
    WireSameIff(Base(b), Quad114, Some(QUAD_1_1_4), CarriedStream(data, chunk, faults, i), data);
    WindowSameIff(k, Base(b), StreamWire(Base(b), true, data, chunk, faults, i),
                  Wire(Base(b), Quad114, Pixels(true, data)), Held(k, b), false);
  }

  lemma WindowsJoin(k: Config, b: Bus, s: seq<Event>, t: seq<Event>, held: bool)
    ensures Window(k, b, s, held, true) + Window(k, b, t, true, false) == Window(k, b, s + t, held, false)
  {
  }

  /**
   * How a failed burst ends: the driver let go of the device, the chip enable is asserted exactly when
   * the transmission that met fault `f`, of `size` bytes, leaves it so, and what was clocked out is a
   * prefix of `full`.
   */
  predicate EndsInPart(k: Config, b: Bus, s: Burst, active: bool, asserted: bool, f: Fault, size: nat,
                       full: seq<Event>) {
    !s.bus.csActive && Current(s.bus) && Base(s.bus) == Base(b)
    && (s.bus.asserted <==> StillAsserted(k, active, asserted, f, size))
    && Payload(s.events) <= full
  }

  /** A whole message first and then a burst that ends in part. */
  lemma EndsLater(k: Config, b: Bus, e: Effect, rest: Burst, f: Fault, size: nat,
                  before: bool, head: seq<Event>, tail: seq<Event>)
    requires forall i :: 0 <= i < |head| ==> head[i].Clocked?
    requires Base(e.bus) == Base(b) && Visible(e.events) == Window(k, Base(b), head, before, true)
    requires EndsInPart(k, e.bus, rest, true, true, f, size, tail)
    ensures EndsInPart(k, b, Joined(e, rest), true, true, f, size, head + tail)
  {
    PayloadJoins(e.events, rest.events);
    VisiblePayload(e.events);
    WindowPayload(k, Base(b), head, before, true);
  }

  lemma {:induction false} VisiblePayload(events: seq<Event>)
    ensures Payload(Visible(events)) == Payload(events)
  {
    if events != [] {
      VisiblePayload(events[1..]);
      PayloadJoins(Shown(events[0]), Visible(events[1..]));
    }
  }

  lemma WindowPayload(k: Config, b: Bus, clocked: seq<Event>, held: bool, hold: bool)
    requires forall i :: 0 <= i < |clocked| ==> clocked[i].Clocked?
    ensures Payload(Window(k, b, clocked, held, hold)) == clocked
  {
    var on, off := if held then [] else [On(k, b)], if hold then [] else [Off(k, b)];
    PayloadOfClocked(clocked);
    PayloadJoins(on, clocked);
    PayloadJoins(on + clocked, off);
  }

  lemma ChunkFails(k: Config, b: Bus, data: seq<Byte>, chunk: nat, first: bool, faults: nat -> Fault, i: nat)
    requires chunk >= 1 && data != [] && Sound(b) && Chunk(k, b, data, chunk, first, faults(i)).status != Success
    ensures
      var e := Chunk(k, b, data, chunk, first, faults(i));
      EndsInPart(k, b, Burst(e.bus, e.status, e.events, i), b.csActive, b.asserted, faults(i), ChunkSize(data, chunk),
                 StreamWire(Base(b), first, data, chunk, faults, i))
  {
    var n := ChunkSize(data, chunk);
    StreamWireJoins(Base(b), first, data, chunk, faults, i);
    TransmittedInPart(k, b, Quad114, if first then Some(QUAD_1_1_4) else None, data[..n], |data| > chunk, faults(i));
  }

  lemma ChunkSucceeds(k: Config, b: Bus, data: seq<Byte>, chunk: nat, first: bool, f: Fault)
    requires Sound(b) && Chunk(k, b, data, chunk, first, f).status == Success
    ensures
      var e := Chunk(k, b, data, chunk, first, f);
      var head := Wire(Base(b), Quad114, Pixels(first, CarriedBytes(data[..ChunkSize(data, chunk)], f)));
      Current(e.bus) && e.bus.csActive == e.bus.asserted == (|data| > chunk) && Base(e.bus) == Base(b)
      && Visible(e.events) == Window(k, Base(b), head, Held(k, b), |data| > chunk)
  {
    TransmittedWhole(k, b, Quad114, if first then Some(QUAD_1_1_4) else None, data[..ChunkSize(data, chunk)],
                     |data| > chunk, f);
  }

  /** How a stream fails: at one of its chunks, where the chunks behind the first find the device held. */
  predicate StreamFails(k: Config, b: Bus, data: seq<Byte>, chunk: nat, first: bool, faults: nat -> Fault, i: nat,
                        s: Burst)
    requires chunk >= 1
  {
    s.last >= i
    && EndsInPart(k, b, s, b.csActive || s.last > i, b.asserted || s.last > i, faults(s.last),
                  PieceSize(data, chunk, s.last - i), StreamWire(Base(b), first, data, chunk, faults, i))
  }

  lemma FirstChunkFails(k: Config, b: Bus, data: seq<Byte>, chunk: nat, first: bool, faults: nat -> Fault, i: nat)
    requires chunk >= 1 && data != [] && Sound(b) && Chunk(k, b, data, chunk, first, faults(i)).status != Success
    ensures
      var e := Chunk(k, b, data, chunk, first, faults(i));
      StreamFails(k, b, data, chunk, first, faults, i, Burst(e.bus, e.status, e.events, i))
  {
    ChunkFails(k, b, data, chunk, first, faults, i);
  }

  /** The first chunk was sent and a later one failed. */
  lemma LaterChunkFails(k: Config, b: Bus, data: seq<Byte>, chunk: nat, first: bool, faults: nat -> Fault, i: nat,
                        rest: Burst)
    requires chunk >= 1 && |data| > chunk && Sound(b)
    requires Chunk(k, b, data, chunk, first, faults(i)).status == Success
    requires StreamFails(k, Chunk(k, b, data, chunk, first, faults(i)).bus, data[ChunkSize(data, chunk)..], chunk,
                         false, faults, i + 1, rest)
    ensures StreamFails(k, b, data, chunk, first, faults, i, Joined(Chunk(k, b, data, chunk, first, faults(i)), rest))
  {
    var n, size := ChunkSize(data, chunk), PieceSize(data, chunk, rest.last - i);
    assert size == PieceSize(data[n..], chunk, rest.last - (i + 1));
    ChunkSucceeds(k, b, data, chunk, first, faults(i));
    StreamWireJoins(Base(b), first, data, chunk, faults, i);
    EndsLater(k, b, Chunk(k, b, data, chunk, first, faults(i)), rest, faults(rest.last), size, Held(k, b),
              Wire(Base(b), Quad114, Pixels(first, CarriedBytes(data[..n], faults(i)))),
              StreamWire(Base(b), false, data[n..], chunk, faults, i + 1));
  }

  /** A stream that fails at any chunk ends in part. */
  lemma {:induction false} StreamEndsInPart(k: Config, b: Bus, data: seq<Byte>, chunk: nat, first: bool,
                                            faults: nat -> Fault, i: nat)
    requires chunk >= 1 && data != [] && Sound(b) && b.csActive == !first
    requires Streamed(k, b, data, chunk, first, faults, i).status != Success
    ensures StreamFails(k, b, data, chunk, first, faults, i, Streamed(k, b, data, chunk, first, faults, i))
    decreases |data|
  {
    var e := Chunk(k, b, data, chunk, first, faults(i));
    if e.status != Success {
      FirstChunkFails(k, b, data, chunk, first, faults, i);
    } else {
      var left := data[ChunkSize(data, chunk)..];
      ChunkSucceeds(k, b, data, chunk, first, faults(i));
      StreamEndsInPart(k, e.bus, left, chunk, false, faults, i + 1);
      LaterChunkFails(k, b, data, chunk, first, faults, i, Streamed(k, e.bus, left, chunk, false, faults, i + 1));
    }
  }

  // ---------------------------------------------------------------- writing a rectangle

  type Uint16 = x: int | 0 <= x < 0x1_0000

  datatype Orientation = Normal | Rotated90 | Rotated180 | Rotated270

  datatype Screen = Screen(width: Uint16, height: Uint16, xOffset: Uint16, yOffset: Uint16,
                           orientation: Orientation, bytesPerPixel: Byte, chunk: nat)

  function Resolution(p: Screen): (Uint16, Uint16) {
    if p.orientation == Normal || p.orientation == Rotated180 then (p.width, p.height) else (p.height, p.width)
  }

  /** The bytes of a rectangle of pixels. */
  function Total(p: Screen, w: Uint16, h: Uint16): (n: nat)
    ensures w > 0 && h > 0 && p.bytesPerPixel > 0 ==> n > 0
  {
    assert w > 0 && h > 0 ==> h * w > 0;
    h * w * p.bytesPerPixel
  }

  function BigEndian(v: Uint16): seq<Byte> {
    [v / 0x100, v % 0x100]
  }

  /** First and last address of a span, both cut to 16 bits. */
  function Span(from: nat, size: Uint16): (s: seq<Byte>)
    requires size > 0
    ensures |s| == 4
  {
    BigEndian(from % 0x1_0000) + BigEndian((from % 0x1_0000 + size - 1) % 0x1_0000)
  }

  function Number(high: Byte, low: Byte): Uint16 {
    high * 0x100 + low
  }

  lemma PairIsRead(v: Uint16)
    ensures Number(BigEndian(v)[0], BigEndian(v)[1]) == v
  {
  }

  /** What the panel reads from four address bytes. */
  predicate Addressed(s: seq<Byte>, from: nat, size: nat)
    requires |s| == 4
  {
    Number(s[0], s[1]) == from && Number(s[2], s[3]) == from + size - 1
  }

  lemma SpanIsCut(from: nat, size: Uint16)
    requires size > 0
    ensures
      var s := Span(from, size);
      Number(s[0], s[1]) == from % 0x1_0000 && Number(s[2], s[3]) == (from % 0x1_0000 + size - 1) % 0x1_0000
  {
    PairIsRead(from % 0x1_0000);
    PairIsRead((from % 0x1_0000 + size - 1) % 0x1_0000);
  }

  /** The panel reads back the first and the last address if and only if the span ends within 16 bits. */
  lemma SpanIsReadIff(from: nat, size: Uint16)
    requires size > 0
    ensures Addressed(Span(from, size), from, size) <==> from + size <= 0x1_0000
  {
    SpanIsCut(from, size);
    CutSameIff(from, size, from % 0x1_0000, (from % 0x1_0000 + size - 1) % 0x1_0000);
  }

  lemma CutSameIff(from: nat, size: Uint16, first: nat, last: nat)
    requires size > 0 && first == from % 0x1_0000 && last == (first + size - 1) % 0x1_0000
    ensures first == from && last == from + size - 1 <==> from + size <= 0x1_0000
  {
  }

  datatype Addresses = Addresses(columns: seq<Byte>, pages: seq<Byte>)

  /** The addresses of a rectangle, or nothing for one that is empty or starts outside the screen. */
  function AddressesOf(p: Screen, x: Uint16, y: Uint16, w: Uint16, h: Uint16): (at: Option<Addresses>)
    ensures at.Some? ==> |at.value.columns| == |at.value.pages| == 4
  {
    if w == 0 || h == 0 || x > Resolution(p).0 || y > Resolution(p).1 then None
    else Some(Addresses(Span(x + p.xOffset, w), Span(y + p.yOffset, h)))
  }

  /** An accepted rectangle reaches the panel as it is if and only if, offset, it ends within 16 bits both ways. */
  lemma RectangleIsReadIff(p: Screen, x: Uint16, y: Uint16, w: Uint16, h: Uint16)
    requires AddressesOf(p, x, y, w, h).Some?
    ensures
      var at := AddressesOf(p, x, y, w, h).value;
      Addressed(at.columns, x + p.xOffset, w) && Addressed(at.pages, y + p.yOffset, h)
      <==> x + p.xOffset + w <= 0x1_0000 && y + p.yOffset + h <= 0x1_0000
  {
    SpanIsReadIff(x + p.xOffset, w);
    SpanIsReadIff(y + p.yOffset, h);
  }

  lemma SpanWraps(from: nat, size: Uint16)
    requires size > 0 && 0x1_0000 <= from && from - 0x1_0000 + size <= 0x1_0000
    ensures Addressed(Span(from, size), from - 0x1_0000, size)
  {
    SpanIsCut(from, size);
  }

  /** A rectangle whose offset takes it beyond 16 bits is accepted, and drawn at the other edge. */
  lemma OffsetWrapsRound(p: Screen, x: Uint16, y: Uint16, w: Uint16, h: Uint16)
    requires AddressesOf(p, x, y, w, h).Some?
    requires 0x1_0000 <= x + p.xOffset && x + p.xOffset - 0x1_0000 + w <= 0x1_0000
    ensures Addressed(AddressesOf(p, x, y, w, h).value.columns, x + p.xOffset - 0x1_0000, w)
  {
    SpanWraps(x + p.xOffset, w);
  }

  /** One command in a transmission of its own. */
  function Commanded(k: Config, b: Bus, cmd: Byte, data: seq<Byte>, faults: nat -> Fault, i: nat): Burst {
    var e := Transmitted(k, b, Single, Some(cmd), data, false, faults(i));
    Burst(e.bus, e.status, e.events, i)
  }

  function AndThen(s: Burst, rest: Burst): Burst {
    if s.status != Success then s else rest.(events := s.events + rest.events)
  }

  function Windowed(k: Config, b: Bus, at: Addresses, faults: nat -> Fault): Burst {
    var columns := Commanded(k, b, COLUMN_ADDRESS_SET, at.columns, faults, 0);
    AndThen(columns, Commanded(k, columns.bus, PAGE_ADDRESS_SET, at.pages, faults, 1))
  }

  /** The memory-write command and then the pixels. */
  function Filled(k: Config, b: Bus, pixels: seq<Byte>, chunk: nat, faults: nat -> Fault): Burst
    requires chunk >= 1
  {
    var start := Commanded(k, b, MEMORY_WRITE, [], faults, 2);
    AndThen(start, Streamed(k, start.bus, pixels, chunk, true, faults, 3))
  }

  function Written(k: Config, b: Bus, at: Option<Addresses>, pixels: seq<Byte>, chunk: nat, faults: nat -> Fault): Burst
    requires chunk >= 1
  {
    match at
    case None => Burst(b, Invalid, [], 0)
    case Some(a) =>
      var window := Windowed(k, b, a, faults);
      AndThen(window, Filled(k, window.bus, pixels, chunk, faults))
  }

  /** The symbols of a command. */
  function CommandWire(b: Bus, cmd: Byte, data: seq<Byte>): seq<Event> {
    Wire(b, Single, Message(Single, Some(cmd), data))
  }

  /** A command in its window, which a chip enable that was left asserted has opened already. */
  function CommandFrame(k: Config, b: Bus, cmd: Byte, data: seq<Byte>, left: bool): seq<Event> {
    Window(k, b, CommandWire(b, cmd, data), left, false)
  }

  /** The pixels and the command before them; no pixels, no command. */
  function PixelFrame(k: Config, b: Bus, pixels: seq<Byte>): seq<Event> {
    if pixels == [] then [] else Window(k, b, Wire(b, Quad114, Pixels(true, pixels)), false, false)
  }

  /** The sizes of the messages of a write: two addresses, the bare command, the chunks. */
  function MessageSize(at: Addresses, pixels: seq<Byte>, chunk: nat, n: nat): nat {
    if n == 0 then |at.columns| else if n == 1 then |at.pages|
    else if n == 2 then 0 else PieceSize(pixels, chunk, n - 3)
  }

  /**
   * How a burst ends: whole, as these frames; or in part, as a prefix of `full`. Only chunks behind the
   * first, whose faults have numbers above 3, find the device held; only the very first message can find
   * the chip enable left asserted.
   */
  predicate Ends(k: Config, b: Bus, s: Burst, left: bool, sizes: nat -> nat, faults: nat -> Fault,
                 frames: seq<Event>, full: seq<Event>) {
    if s.status == Success then
      Current(s.bus) && !s.bus.csActive && !s.bus.asserted && Base(s.bus) == Base(b) && Visible(s.events) == frames
    else
      EndsInPart(k, b, s, s.last > 3, s.last > 3 || (s.last == 0 && left), faults(s.last), sizes(s.last), full)
  }

  lemma CommandEnds(k: Config, b: Bus, cmd: Byte, data: seq<Byte>, left: bool, sizes: nat -> nat,
                    faults: nat -> Fault, i: nat)
    requires Current(b) && !b.csActive && i <= 3 && sizes(i) == |data| && (b.asserted <==> i == 0 && left)
    ensures Ends(k, b, Commanded(k, b, cmd, data, faults, i), left, sizes, faults,
                 CommandFrame(k, Base(b), cmd, CarriedBytes(data, faults(i)), Held(k, b)),
                 CommandWire(Base(b), cmd, CarriedBytes(data, faults(i))))
  {
    if Commanded(k, b, cmd, data, faults, i).status == Success {
      TransmittedWhole(k, b, Single, Some(cmd), data, false, faults(i));
    } else {
      TransmittedInPart(k, b, Single, Some(cmd), data, false, faults(i));
    }
  }

  lemma StreamEnds(k: Config, b: Bus, pixels: seq<Byte>, chunk: nat, left: bool, sizes: nat -> nat,
                   faults: nat -> Fault)
    requires chunk >= 1 && Current(b) && !b.csActive && !b.asserted
    requires forall n: nat :: n >= 3 ==> sizes(n) == PieceSize(pixels, chunk, n - 3)
    ensures Ends(k, b, Streamed(k, b, pixels, chunk, true, faults, 3), left, sizes, faults,
                 PixelFrame(k, Base(b), CarriedStream(pixels, chunk, faults, 3)),
                 StreamWire(Base(b), true, pixels, chunk, faults, 3))
  {
    if pixels != [] {
      if Streamed(k, b, pixels, chunk, true, faults, 3).status == Success {
        StreamIsOneTransfer(k, b, pixels, chunk, true, faults, 3);
      } else {
        StreamEndsInPart(k, b, pixels, chunk, true, faults, 3);
      }
    }
  }

  lemma Sequence(k: Config, b: Bus, s: Burst, rest: Burst, left: bool, sizes: nat -> nat, faults: nat -> Fault,
                 frames: seq<Event>, full: seq<Event>, frames': seq<Event>, full': seq<Event>)
    requires Ends(k, b, s, left, sizes, faults, frames, full) && Payload(frames) == full
    requires s.status == Success ==> Ends(k, s.bus, rest, left, sizes, faults, frames', full')
    ensures Ends(k, b, AndThen(s, rest), left, sizes, faults, frames + frames', full + full')
  {
    if s.status == Success {
      VisibleJoins(s.events, rest.events);
      PayloadJoins(s.events, rest.events);
      VisiblePayload(s.events);
    }
  }

  function WindowFrames(k: Config, b: Bus, at: Addresses, left: bool): seq<Event> {
    CommandFrame(k, b, COLUMN_ADDRESS_SET, at.columns, left) + CommandFrame(k, b, PAGE_ADDRESS_SET, at.pages, false)
  }

  function WindowWire(b: Bus, at: Addresses): seq<Event> {
    CommandWire(b, COLUMN_ADDRESS_SET, at.columns) + CommandWire(b, PAGE_ADDRESS_SET, at.pages)
  }

  /** What is carried of the addresses. */
  function CarriedAddresses(at: Addresses, faults: nat -> Fault): Addresses {
    Addresses(CarriedBytes(at.columns, faults(0)), CarriedBytes(at.pages, faults(1)))
  }

  lemma WindowFramesPayload(k: Config, b: Bus, at: Addresses, left: bool)
    ensures Payload(WindowFrames(k, b, at, left)) == WindowWire(b, at)
  {
    WindowPayload(k, b, CommandWire(b, COLUMN_ADDRESS_SET, at.columns), left, false);
    WindowPayload(k, b, CommandWire(b, PAGE_ADDRESS_SET, at.pages), false, false);
    PayloadJoins(CommandFrame(k, b, COLUMN_ADDRESS_SET, at.columns, left),
                 CommandFrame(k, b, PAGE_ADDRESS_SET, at.pages, false));
  }

  lemma WindowEnds(k: Config, b: Bus, at: Addresses, sizes: nat -> nat, faults: nat -> Fault)
    requires Current(b) && !b.csActive && sizes(0) == |at.columns| && sizes(1) == |at.pages|
    ensures
      var carried := CarriedAddresses(at, faults);
      Ends(k, b, Windowed(k, b, at, faults), b.asserted, sizes, faults,
           WindowFrames(k, Base(b), carried, Held(k, b)), WindowWire(Base(b), carried))
  {
    var carried := CarriedAddresses(at, faults);
    var columns := Commanded(k, b, COLUMN_ADDRESS_SET, at.columns, faults, 0);
    WindowPayload(k, Base(b), CommandWire(Base(b), COLUMN_ADDRESS_SET, carried.columns), Held(k, b), false);
    CommandEnds(k, b, COLUMN_ADDRESS_SET, at.columns, b.asserted, sizes, faults, 0);
    if columns.status == Success {
      CommandEnds(k, columns.bus, PAGE_ADDRESS_SET, at.pages, b.asserted, sizes, faults, 1);
    }
    Sequence(k, b, columns, Commanded(k, columns.bus, PAGE_ADDRESS_SET, at.pages, faults, 1), b.asserted, sizes, faults,
             CommandFrame(k, Base(b), COLUMN_ADDRESS_SET, carried.columns, Held(k, b)),
             CommandWire(Base(b), COLUMN_ADDRESS_SET, carried.columns),
             CommandFrame(k, Base(b), PAGE_ADDRESS_SET, carried.pages, false),
             CommandWire(Base(b), PAGE_ADDRESS_SET, carried.pages));
  }

  function FillFrames(k: Config, b: Bus, pixels: seq<Byte>): seq<Event> {
    CommandFrame(k, b, MEMORY_WRITE, [], false) + PixelFrame(k, b, pixels)
  }

  function FillWire(b: Bus, pixels: seq<Byte>): seq<Event> {
    CommandWire(b, MEMORY_WRITE, []) + Wire(b, Quad114, Pixels(true, pixels))
  }

  lemma FillEnds(k: Config, b: Bus, pixels: seq<Byte>, chunk: nat, left: bool, sizes: nat -> nat,
                 faults: nat -> Fault)
    requires chunk >= 1 && Current(b) && !b.csActive && !b.asserted && sizes(2) == 0
    requires forall n: nat :: n >= 3 ==> sizes(n) == PieceSize(pixels, chunk, n - 3)
    ensures
      var carried := CarriedStream(pixels, chunk, faults, 3);
      Ends(k, b, Filled(k, b, pixels, chunk, faults), left, sizes, faults,
           FillFrames(k, Base(b), carried), FillWire(Base(b), carried))
  {
    var carried := CarriedStream(pixels, chunk, faults, 3);
    var start := Commanded(k, b, MEMORY_WRITE, [], faults, 2);
    assert CarriedBytes([], faults(2)) == [];
    WindowPayload(k, Base(b), CommandWire(Base(b), MEMORY_WRITE, []), false, false);
    CommandEnds(k, b, MEMORY_WRITE, [], left, sizes, faults, 2);
    if start.status == Success {
      StreamEnds(k, start.bus, pixels, chunk, left, sizes, faults);
    }
    Sequence(k, b, start, Streamed(k, start.bus, pixels, chunk, true, faults, 3), left, sizes, faults,
             CommandFrame(k, Base(b), MEMORY_WRITE, [], false), CommandWire(Base(b), MEMORY_WRITE, []),
             PixelFrame(k, Base(b), carried), Wire(Base(b), Quad114, Pixels(true, carried)));
  }

  /** The four messages of a write, each in a window of its own. */
  function Frames(k: Config, b: Bus, at: Addresses, pixels: seq<Byte>, left: bool): seq<Event> {
    WindowFrames(k, b, at, left) + FillFrames(k, b, pixels)
  }

  /**
   * From any state in which the driver holds no device, a write is refused for its rectangle without
   * touching the bus; or it puts four messages on the wire, each in a chip-enable window of its own, the
   * last being exactly the pixels, whatever the chunk size; or it ends in part: a prefix of the four was
   * sent and the driver let go of the device. All this is said of the bytes carried, and a hardware
   * chip enable that an earlier write left asserted takes the first message into the window of that one.
   */
  lemma WriteOnWire(k: Config, b: Bus, at: Option<Addresses>, pixels: seq<Byte>, chunk: nat, faults: nat -> Fault)
    requires chunk >= 1 && Current(b) && !b.csActive
    ensures
      var s := Written(k, b, at, pixels, chunk, faults);
      match at
      case None => s == Burst(b, Invalid, [], 0)
      case Some(a) =>
        var to, carried := CarriedAddresses(a, faults), CarriedStream(pixels, chunk, faults, 3);
        Ends(k, b, s, b.asserted, n => MessageSize(a, pixels, chunk, n), faults,
             Frames(k, Base(b), to, carried, Held(k, b)), WindowWire(Base(b), to) + FillWire(Base(b), carried))
  {
    if at.Some? {
      var a := at.value;
      var to, carried := CarriedAddresses(a, faults), CarriedStream(pixels, chunk, faults, 3);
      var sizes := (n: nat) => MessageSize(a, pixels, chunk, n);
      var window := Windowed(k, b, a, faults);
      WindowEnds(k, b, a, sizes, faults);
      WindowFramesPayload(k, Base(b), to, Held(k, b));
      if window.status == Success {
        FillEnds(k, window.bus, pixels, chunk, b.asserted, sizes, faults);
      }
      Sequence(k, b, window, Filled(k, window.bus, pixels, chunk, faults), b.asserted, sizes, faults,
               WindowFrames(k, Base(b), to, Held(k, b)), WindowWire(Base(b), to),
               FillFrames(k, Base(b), carried), FillWire(Base(b), carried));
    }
  }

  lemma JoinSameIff(s: seq<Event>, t: seq<Event>, s': seq<Event>, t': seq<Event>)
    requires |s| == |s'|
    ensures s + t == s' + t' <==> s == s' && t == t'
  {
    assert (s + t)[..|s|] == s && (s + t)[|s|..] == t;
    assert (s' + t')[..|s'|] == s' && (s' + t')[|s'|..] == t';
  }

  lemma CommandFrameSameIff(k: Config, b: Bus, cmd: Byte, s: seq<Byte>, t: seq<Byte>, left: bool)
    requires |s| == |t|
    ensures CommandFrame(k, b, cmd, s, left) == CommandFrame(k, b, cmd, t, left) <==> s == t
    ensures |CommandFrame(k, b, cmd, s, left)| == |CommandFrame(k, b, cmd, t, left)|
  {
    WireSameIff(b, Single, Some(cmd), s, t);
    WindowSameIff(k, b, CommandWire(b, cmd, s), CommandWire(b, cmd, t), left, false);
  }

  lemma WindowFramesSameIff(k: Config, b: Bus, at: Addresses, to: Addresses, left: bool)
    requires |at.columns| == |to.columns| && |at.pages| == |to.pages|
    ensures WindowFrames(k, b, to, left) == WindowFrames(k, b, at, left) <==> to == at
    ensures |WindowFrames(k, b, to, left)| == |WindowFrames(k, b, at, left)|
  {
    CommandFrameSameIff(k, b, COLUMN_ADDRESS_SET, to.columns, at.columns, left);
    CommandFrameSameIff(k, b, PAGE_ADDRESS_SET, to.pages, at.pages, false);
    JoinSameIff(CommandFrame(k, b, COLUMN_ADDRESS_SET, to.columns, left),
                CommandFrame(k, b, PAGE_ADDRESS_SET, to.pages, false),
                CommandFrame(k, b, COLUMN_ADDRESS_SET, at.columns, left),
                CommandFrame(k, b, PAGE_ADDRESS_SET, at.pages, false));
  }

  lemma FillFramesSameIff(k: Config, b: Bus, pixels: seq<Byte>, carried: seq<Byte>)
    requires |pixels| == |carried|
    ensures FillFrames(k, b, carried) == FillFrames(k, b, pixels) <==> carried == pixels
  {
    var command := CommandFrame(k, b, MEMORY_WRITE, [], false);
    JoinSameIff(command, PixelFrame(k, b, carried), command, PixelFrame(k, b, pixels));
    if pixels != [] {
      WireSameIff(b, Quad114, Some(QUAD_1_1_4), carried, pixels);
      WindowSameIff(k, b, Wire(b, Quad114, Pixels(true, carried)), Wire(b, Quad114, Pixels(true, pixels)),
                    false, false);
    }
  }

  /**
   * The driver reports success for bytes that never were on the wire exactly when a DMA channel did not
   * start: a successful write shows the panel its own addresses and pixels if and only if both address
   * messages and every chunk were carried as they are.
   */
  lemma WriteIsExactIff(k: Config, b: Bus, at: Addresses, pixels: seq<Byte>, chunk: nat, faults: nat -> Fault)
    requires chunk >= 1 && Current(b) && !b.csActive
    requires Written(k, b, Some(at), pixels, chunk, faults).status == Success
    ensures Visible(Written(k, b, Some(at), pixels, chunk, faults).events) == Frames(k, Base(b), at, pixels, Held(k, b))
            <==> CarriedAddresses(at, faults) == at && EachCarried(pixels, chunk, faults, 3)
  {
    var to, carried := CarriedAddresses(at, faults), CarriedStream(pixels, chunk, faults, 3);
    WriteOnWire(k, b, Some(at), pixels, chunk, faults);
    CarriedStreamIsDataIff(pixels, chunk, faults, 3);
    WindowFramesSameIff(k, Base(b), at, to, Held(k, b));
    FillFramesSameIff(k, Base(b), pixels, carried);
    JoinSameIff(WindowFrames(k, Base(b), to, Held(k, b)), FillFrames(k, Base(b), carried),
                WindowFrames(k, Base(b), at, Held(k, b)), FillFrames(k, Base(b), pixels));
  }

  // ---------------------------------------------------------------- when a write succeeds

  predicate Clean(f: Fault) {
    f.select && f.release && f.packets == []
  }

  lemma CleanTransmission(k: Config, b: Bus, mode: IoMode, cmd: Option<Byte>, data: seq<Byte>, hold: bool, f: Fault)
    requires Clean(f) && (cmd.Some? ==> mode == Single || mode == Quad114)
    ensures Transmitted(k, b, mode, cmd, data, hold, f).status == Success <==> |data| <= k.maxBytes
  {
    var x := XferFor(mode, cmd, data, hold);
    var (b1, aligned) := Updated(k, b.(ioMode := mode), true);
    var on := Selected(k, b1, f.select);
    PacketIs(b1, mode, cmd, data, hold, f);
    SinglePacket(k, on.bus, x, f);
  }

  lemma {:induction false} CleanStream(k: Config, b: Bus, data: seq<Byte>, chunk: nat, first: bool,
                                       faults: nat -> Fault, i: nat)
    requires chunk >= 1 && forall j: nat :: Clean(faults(j))
    ensures Streamed(k, b, data, chunk, first, faults, i).status == Success <==> ChunkSize(data, chunk) <= k.maxBytes
    decreases |data|
  {
    if data != [] {
      var n := ChunkSize(data, chunk);
      var e := Chunk(k, b, data, chunk, first, faults(i));
      CleanTransmission(k, b, Quad114, if first then Some(QUAD_1_1_4) else None, data[..n], |data| > chunk, faults(i));
      CleanStream(k, e.bus, data[n..], chunk, false, faults, i + 1);
    }
  }

  lemma CleanCommand(k: Config, b: Bus, cmd: Byte, data: seq<Byte>, faults: nat -> Fault, i: nat)
    requires Clean(faults(i))
    ensures Commanded(k, b, cmd, data, faults, i).status == Success <==> |data| <= k.maxBytes
  {
    CleanTransmission(k, b, Single, Some(cmd), data, false, faults(i));
  }

  lemma CleanWindow(k: Config, b: Bus, at: Addresses, faults: nat -> Fault)
    requires Clean(faults(0)) && Clean(faults(1)) && |at.columns| == |at.pages| == 4
    ensures Windowed(k, b, at, faults).status == Success <==> 4 <= k.maxBytes
  {
    CleanCommand(k, b, COLUMN_ADDRESS_SET, at.columns, faults, 0);
    CleanCommand(k, Commanded(k, b, COLUMN_ADDRESS_SET, at.columns, faults, 0).bus, PAGE_ADDRESS_SET, at.pages,
                 faults, 1);
  }

  lemma CleanFill(k: Config, b: Bus, pixels: seq<Byte>, chunk: nat, faults: nat -> Fault)
    requires chunk >= 1 && forall j: nat :: Clean(faults(j))
    ensures Filled(k, b, pixels, chunk, faults).status == Success <==> ChunkSize(pixels, chunk) <= k.maxBytes
  {
    CleanCommand(k, b, MEMORY_WRITE, [], faults, 2);
    CleanStream(k, Commanded(k, b, MEMORY_WRITE, [], faults, 2).bus, pixels, chunk, true, faults, 3);
  }

  /**
   * On a bus without faults a write succeeds exactly when its rectangle is not empty and starts on the
   * screen, and the bus takes its addresses and its largest chunk.
   */
  lemma WriteSucceedsIff(k: Config, b: Bus, p: Screen, x: Uint16, y: Uint16, w: Uint16, h: Uint16, pixels: seq<Byte>,
                         faults: nat -> Fault)
    requires p.chunk >= 1 && forall j: nat :: Clean(faults(j))
    ensures Written(k, b, AddressesOf(p, x, y, w, h), pixels, p.chunk, faults).status == Success
            <==> w > 0 && h > 0 && x <= Resolution(p).0 && y <= Resolution(p).1
                 && 4 <= k.maxBytes && ChunkSize(pixels, p.chunk) <= k.maxBytes
  {
    match AddressesOf(p, x, y, w, h) {
      case None =>
      case Some(a) =>
        CleanWindow(k, b, a, faults);
        CleanFill(k, Windowed(k, b, a, faults).bus, pixels, p.chunk, faults);
    }
  }

  // ---------------------------------------------------------------- which bytes of the buffer a write sends

  /** From `at` on: a command on one line, its code in the address, its bytes behind. */
  predicate CommandAt(e: seq<Event>, at: nat, code: nat, data: seq<Byte>) {
    && at + 2 + |data| <= |e| && OnLines(e[at..at + 2 + |data|], 1, 1, 1)
    && e[at].Clocked? && e[at].symbol == Opcode(0x02, 8)
    && e[at + 1].Clocked? && e[at + 1].symbol == Address(code * 256, 24)
    && forall i :: 0 <= i < |data| ==> e[at + 2 + i].Clocked? && e[at + 2 + i].symbol == Data(data[i])
  }

  /** The four bytes of the first and the last of `size` columns or pages, high bytes first, all in 16 bits. */
  function Corners(from: nat, size: nat): seq<Byte>
    requires size > 0
  {
    var first, last := from % 65536, (from + size - 1) % 65536;
    [first / 256, first % 256, last / 256, last % 256]
  }

  /** Byte `i` of the pixel in this row and column. */
  function Place(row: nat, column: nat, i: nat, w: nat, n: nat): nat { (row * w + column) * n + i }

  /**
   * Byte by byte what a write of `h` rows of `w` pixels of `n` bytes should clock out: the columns, the
   * pages and the memory write on one line, and on four lines every byte of every pixel at its place
   * in the buffer, the last one last.
   */
  predicate ShowsPicture(events: seq<Event>, left: nat, top: nat, w: nat, h: nat, n: nat, buffer: seq<Byte>)
    requires w > 0 && h > 0 && n > 0
  {
    var e := Payload(events);
    && CommandAt(e, 0, 0x2A, Corners(left, w)) && CommandAt(e, 6, 0x2B, Corners(top, h)) && CommandAt(e, 12, 0x2C, [])
    && |e| == 16 + Place(h - 1, w - 1, n - 1, w, n) + 1 && OnLines(e[14..], 1, 1, 4)
    && e[14].Clocked? && e[14].symbol == Opcode(0x32, 8)
    && e[15].Clocked? && e[15].symbol == Address(0x2C00, 24)
    && forall row, column, i :: 0 <= row < h && 0 <= column < w && 0 <= i < n ==>
         var at := Place(row, column, i, w, n);
         at < |buffer| && 16 + at < |e| && e[16 + at].Clocked? && e[16 + at].symbol == Data(buffer[at])
  }

  /** The refusals of a rectangle, by the orientation of the panel. */
  lemma RefusedIff(p: Screen, x: Uint16, y: Uint16, w: Uint16, h: Uint16)
    ensures AddressesOf(p, x, y, w, h).None?
            <==> w == 0 || h == 0
                 || match p.orientation
                    case Normal => x > p.width || y > p.height
                    case Rotated180 => x > p.width || y > p.height
                    case Rotated90 => x > p.height || y > p.width
                    case Rotated270 => x > p.height || y > p.width
  {
  }

  lemma PlaceIsInside(row: nat, column: nat, i: nat, w: nat, h: nat, n: nat)
    requires row < h && column < w && i < n
    ensures Place(row, column, i, w, n) < h * w * n
  {
    MulAtLeast(h - row, w);
    assert (h - row) * w == h * w - row * w;
    var pixel := row * w + column;
    MulAtLeast(h * w - pixel, n);
    assert (h * w - pixel) * n == h * w * n - pixel * n;
  }

  lemma LastPlace(w: nat, h: nat, n: nat)
    requires w > 0 && h > 0 && n > 0
    ensures Place(h - 1, w - 1, n - 1, w, n) + 1 == h * w * n
  {
    assert (h - 1) * w + (w - 1) == h * w - 1 by {
      assert (h - 1) * w == h * w - w;
    }
    assert (h * w - 1) * n == h * w * n - n;
  }

  /** On a bus without faults everything is carried as it is. */
  lemma CleanIsCarried(a: Addresses, pixels: seq<Byte>, chunk: nat, faults: nat -> Fault)
    requires chunk >= 1 && forall j: nat :: Clean(faults(j))
    ensures CarriedAddresses(a, faults) == a && CarriedStream(pixels, chunk, faults, 3) == pixels
  {
    assert Clean(faults(0)) && Clean(faults(1));
    FedIsCarried(pixels, chunk, faults, 3);
    CarriedStreamIsDataIff(pixels, chunk, faults, 3);
  }

  /** What a write clocks out on a bus without faults. */
  lemma CleanPayload(k: Config, b: Bus, a: Addresses, pixels: seq<Byte>, chunk: nat, faults: nat -> Fault)
    requires chunk >= 1 && Current(b) && !b.csActive && pixels != [] && forall j: nat :: Clean(faults(j))
    requires Written(k, b, Some(a), pixels, chunk, faults).status == Success
    ensures Payload(Written(k, b, Some(a), pixels, chunk, faults).events)
            == WindowWire(Base(b), a) + FillWire(Base(b), pixels)
  {
    var s := Written(k, b, Some(a), pixels, chunk, faults);
    CleanIsCarried(a, pixels, chunk, faults);
    WriteOnWire(k, b, Some(a), pixels, chunk, faults);
    VisiblePayload(s.events);
    WindowFramesPayload(k, Base(b), a, Held(k, b));
    WindowPayload(k, Base(b), CommandWire(Base(b), MEMORY_WRITE, []), false, false);
    WindowPayload(k, Base(b), Wire(Base(b), Quad114, Pixels(true, pixels)), false, false);
    PayloadJoins(CommandFrame(k, Base(b), MEMORY_WRITE, [], false), PixelFrame(k, Base(b), pixels));
    PayloadJoins(WindowFrames(k, Base(b), a, Held(k, b)), FillFrames(k, Base(b), pixels));
  }

  lemma CommandIsAt(b: Bus, before: seq<Event>, cmd: Byte, data: seq<Byte>, behind: seq<Event>)
    ensures CommandAt(before + CommandWire(b, cmd, data) + behind, |before|, cmd, data)
    ensures |CommandWire(b, cmd, data)| == 2 + |data|
  {
    var e := before + CommandWire(b, cmd, data) + behind;
    assert e[|before|..|before| + 2 + |data|] == CommandWire(b, cmd, data);
  }

  lemma WindowIsShown(b: Bus, e: seq<Event>, a: Addresses, pixels: seq<Byte>)
    requires |a.columns| == |a.pages| == 4 && e == WindowWire(b, a) + FillWire(b, pixels)
    ensures CommandAt(e, 0, 0x2A, a.columns) && CommandAt(e, 6, 0x2B, a.pages) && CommandAt(e, 12, 0x2C, [])
    ensures |e| >= 14 && e[14..] == Wire(b, Quad114, Pixels(true, pixels))
  {
    var columns, pages := CommandWire(b, 0x2A, a.columns), CommandWire(b, 0x2B, a.pages);
    var start, data := CommandWire(b, 0x2C, []), Wire(b, Quad114, Pixels(true, pixels));
    CommandIsAt(b, [], 0x2A, a.columns, pages + (start + data));
    CommandIsAt(b, columns, 0x2B, a.pages, start + data);
    CommandIsAt(b, columns + pages, 0x2C, [], data);
    assert e == [] + columns + (pages + (start + data));
    assert e == columns + pages + (start + data);
    assert e == columns + pages + start + data;
  }

  lemma PixelsAreShown(b: Bus, e: seq<Event>, w: nat, h: nat, n: nat, buffer: seq<Byte>, pixels: seq<Byte>)
    requires w > 0 && h > 0 && n > 0 && h * w * n == |pixels| <= |buffer| && pixels == buffer[..|pixels|]
    requires |e| >= 14 && e[14..] == Wire(b, Quad114, Pixels(true, pixels))
    ensures |e| == 16 + |pixels| && OnLines(e[14..], 1, 1, 4)
    ensures e[14].Clocked? && e[14].symbol == Opcode(0x32, 8) && e[15].Clocked? && e[15].symbol == Address(0x2C00, 24)
    ensures forall row, column, i :: 0 <= row < h && 0 <= column < w && 0 <= i < n ==>
              var at := Place(row, column, i, w, n);
              at < |buffer| && 16 + at < |e| && e[16 + at].Clocked? && e[16 + at].symbol == Data(buffer[at])
  {
    var data := e[14..];
    forall row, column, i | 0 <= row < h && 0 <= column < w && 0 <= i < n
      ensures
        var at := Place(row, column, i, w, n);
        at < |buffer| && 16 + at < |e| && e[16 + at].Clocked? && e[16 + at].symbol == Data(buffer[at])
    {
      PlaceIsInside(row, column, i, w, h, n);
      var at := Place(row, column, i, w, n);
      assert e[16 + at] == data[2 + at] && pixels[at] == buffer[at];
    }
    assert e[14] == data[0] && e[15] == data[1];
  }

  lemma CornersAre(from: nat, size: Uint16)
    requires size > 0
    ensures Span(from, size) == Corners(from, size)
  {
    assert (from % 0x1_0000 + size - 1) % 0x1_0000 == (from + size - 1) % 0x1_0000;
  }

  lemma PictureFrom(b: Bus, events: seq<Event>, p: Screen, x: Uint16, y: Uint16, w: Uint16, h: Uint16,
                    buffer: seq<Byte>)
    requires AddressesOf(p, x, y, w, h).Some? && p.bytesPerPixel > 0 && h * w * p.bytesPerPixel <= |buffer|
    requires
      Payload(events)
      == WindowWire(b, AddressesOf(p, x, y, w, h).value) + FillWire(b, buffer[..h * w * p.bytesPerPixel])
    ensures ShowsPicture(events, x + p.xOffset, y + p.yOffset, w, h, p.bytesPerPixel, buffer)
  {
    CornersAre(x + p.xOffset, w);
    CornersAre(y + p.yOffset, h);
    PictureOf(b, events, AddressesOf(p, x, y, w, h).value, x + p.xOffset, y + p.yOffset, w, h, p.bytesPerPixel, buffer,
              buffer[..h * w * p.bytesPerPixel]);
  }

  lemma PictureOf(b: Bus, events: seq<Event>, a: Addresses, left: nat, top: nat, w: Uint16, h: Uint16, n: nat,
                  buffer: seq<Byte>, pixels: seq<Byte>)
    requires w > 0 && h > 0 && n > 0 && h * w * n == |pixels| <= |buffer| && pixels == buffer[..|pixels|]
    requires a.columns == Corners(left, w) && a.pages == Corners(top, h)
    requires Payload(events) == WindowWire(b, a) + FillWire(b, pixels)
    ensures ShowsPicture(events, left, top, w, h, n, buffer)
  {
    LastPlace(w, h, n);
    WindowIsShown(b, Payload(events), a, pixels);
    PixelsAreShown(b, Payload(events), w, h, n, buffer, pixels);
  }

  /** The rectangle as the driver writes it; the source asks that the buffer holds it. */
  function DrawnFrom(k: Config, b: Bus, p: Screen, x: Uint16, y: Uint16, w: Uint16, h: Uint16, buffer: seq<Byte>,
                     faults: nat -> Fault): Burst
    requires p.chunk >= 1 && Total(p, w, h) <= |buffer|
  {
    Written(k, b, AddressesOf(p, x, y, w, h), buffer[..Total(p, w, h)], p.chunk, faults)
  }

  /** Nothing fails, no device is held, and the bus takes a chunk and the addresses. */
  ghost predicate Undisturbed(k: Config, b: Bus, p: Screen, faults: nat -> Fault) {
    Current(b) && !b.csActive && 4 <= k.maxBytes && p.chunk <= k.maxBytes && forall j: nat :: Clean(faults(j))
  }

  /**
   * Undisturbed, an accepted write succeeds and shows the picture: every byte of every pixel of the
   * buffer, at its place, and nothing behind it.
   */
  lemma WriteShowsPicture(k: Config, b: Bus, p: Screen, x: Uint16, y: Uint16, w: Uint16, h: Uint16, buffer: seq<Byte>,
                          faults: nat -> Fault)
    requires p.chunk >= 1 && Undisturbed(k, b, p, faults) && AddressesOf(p, x, y, w, h).Some?
    requires p.bytesPerPixel > 0 && h * w * p.bytesPerPixel <= |buffer|
    ensures
      var s := DrawnFrom(k, b, p, x, y, w, h, buffer, faults);
      s.status == Success && ShowsPicture(s.events, x + p.xOffset, y + p.yOffset, w, h, p.bytesPerPixel, buffer)
  {
    var pixels := buffer[..Total(p, w, h)];
    WriteSucceedsIff(k, b, p, x, y, w, h, pixels, faults);
    LastPlace(w, h, p.bytesPerPixel);
    var s := DrawnFrom(k, b, p, x, y, w, h, buffer, faults);
    CleanPayload(k, b, AddressesOf(p, x, y, w, h).value, pixels, p.chunk, faults);
    PictureFrom(Base(b), s.events, p, x, y, w, h, buffer);
  }

  /** A write that starts beside the screen succeeds: its corner is the first column behind the last. */
  lemma WriteBesideScreenSucceeds(k: Config, b: Bus, p: Screen, y: Uint16, w: Uint16, h: Uint16, pixels: seq<Byte>,
                                  faults: nat -> Fault)
    requires p.chunk >= 1 && 4 <= k.maxBytes && ChunkSize(pixels, p.chunk) <= k.maxBytes
    requires w > 0 && h > 0 && y <= Resolution(p).1 && forall j: nat :: Clean(faults(j))
    requires Resolution(p).0 + p.xOffset + w <= 0x1_0000
    ensures
      var at := AddressesOf(p, Resolution(p).0, y, w, h);
      Written(k, b, at, pixels, p.chunk, faults).status == Success
      && at.Some? && Addressed(at.value.columns, Resolution(p).0 + p.xOffset, w)
  {
    WriteSucceedsIff(k, b, p, Resolution(p).0, y, w, h, pixels, faults);
    SpanIsReadIff(Resolution(p).0 + p.xOffset, w);
  }

  /** A hardware chip enable stays asserted when a chunk behind the first has no buffer. */
  lemma HardwareEnableIsLeft(k: Config, b: Bus, faults: nat -> Fault)
    requires !k.gpioCe && k.maxBytes >= 1 && Sound(b) && !b.csActive
    requires faults(3) == Fault(true, true, []) && faults(4) == Fault(true, true, [NoBuffer])
    ensures
      var s := Streamed(k, b, [1, 2], 1, true, faults, 3);
      s.status == NoMemory && !s.bus.csActive && s.bus.asserted
  {
    var data: seq<Byte> := [1, 2];
    var e := Chunk(k, b, data, 1, true, faults(3));
    assert data[..ChunkSize(data, 1)] == [1] && data[ChunkSize(data, 1)..] == [2];
    CleanTransmission(k, b, Quad114, Some(QUAD_1_1_4), [1], true, faults(3));
    ChunkSucceeds(k, b, data, 1, true, faults(3));
    var rest: seq<Byte> := [2];
    assert rest[..ChunkSize(rest, 1)] == [2];
    NoBufferNoChange(k, e.bus, faults(4));
  }

  lemma NoBufferNoChange(k: Config, b: Bus, f: Fault)
    requires !k.gpioCe && k.maxBytes >= 1 && f.packets == [NoBuffer]
    ensures
      var e := Transmitted(k, b, Quad114, None, [2], false, f);
      e.status == NoMemory && !e.bus.csActive && e.bus.asserted == b.asserted
  {
    var x := XferFor(Quad114, None, [2], false);
    SinglePacket(k, Selected(k, Updated(k, b.(ioMode := Quad114), true).0, f.select).bus, x, f);
  }

  /** A DMA channel that does not start: the driver reports success and the panel gets another byte. */
  lemma UnfedGoesUnnoticed(k: Config, b: Bus, f: Fault)
    requires k.maxBytes >= 1 && Sound(b) && f == Fault(true, true, [Unfed([2], None)])
    ensures
      var e := Transmitted(k, b, Quad114, None, [1], true, f);
      e.status == Success
      && Visible(e.events) != Window(k, Base(b), Wire(Base(b), Quad114, Message(Quad114, None, [1])), Held(k, b), true)
  {
    var x := XferFor(Quad114, None, [1], true);
    SinglePacket(k, Selected(k, Updated(k, b.(ioMode := Quad114), true).0, f.select).bus, x, f);
    assert CarriedBytes([1], f)[0] == 2;
    TransmittedExactlyIff(k, b, Quad114, None, [1], true, f);
  }

  // ---------------------------------------------------------------- the driver

  class Co5300 {
    const bus: MspiController
    var screen: Screen

    constructor (bus: MspiController, screen: Screen)
      ensures this.bus == bus && this.screen == screen
    {
      this.bus, this.screen := bus, screen;
    }

    method Transmit(mode: IoMode, cmd: Option<Byte>, data: seq<Byte>, hold: bool, f: Fault) returns (status: Status)
      modifies bus
      ensures
        var e := Transmitted(bus.config, old(bus.Value()), mode, cmd, data, hold, f);
        bus.Value() == e.bus && status == e.status && bus.trace == old(bus.trace) + e.events
    {
      var onlyMode := Mask(true, false, false, false, false, false);
      var _ := bus.DevConfig(onlyMode, DevCfg(mode, 0, 0, ActiveLow, 0), Failed(Timing(0, 0)));
      var opcode, address, cmdLength, addrLength := 0, 0, 1, 3;
      if cmd.Some? {
        if mode == Single {
          opcode := MODE_SINGLE;
        } else if mode == Quad114 {
          opcode := MODE_QUAD_1_1_4;
        } else {
          return NotSupported;
        }
        address := cmd.value * 0x100;
      } else {
        cmdLength, addrLength := 0, 0;
      }
      status := bus.Transceive(Xfer([Tx(opcode, address, data)], hold, cmdLength, addrLength, false), f);
    }

    method SendCommand(cmd: Byte, data: seq<Byte>, ghost faults: nat -> Fault, ghost i: nat, f: Fault)
      returns (status: Status)
      requires f == faults(i)
      modifies bus
      ensures
        var s := Commanded(bus.config, old(bus.Value()), cmd, data, faults, i);
        bus.Value() == s.bus && status == s.status && bus.trace == old(bus.trace) + s.events
    {
      status := Transmit(Single, Some(cmd), data, false, f);
    }

    method SendAddresses(at: Addresses, faults: nat -> Fault) returns (status: Status)
      modifies bus
      ensures
        var s := Windowed(bus.config, old(bus.Value()), at, faults);
        bus.Value() == s.bus && status == s.status && bus.trace == old(bus.trace) + s.events
    {
      ghost var columns := Commanded(bus.config, bus.Value(), COLUMN_ADDRESS_SET, at.columns, faults, 0);
      status := SendCommand(COLUMN_ADDRESS_SET, at.columns, faults, 0, faults(0));
      if status != Success {
        return;
      }
      status := SendCommand(PAGE_ADDRESS_SET, at.pages, faults, 1, faults(1));
      Appended(old(bus.trace), columns.events,
               Commanded(bus.config, columns.bus, PAGE_ADDRESS_SET, at.pages, faults, 1).events);
    }

    method SendChunk(data: seq<Byte>, first: bool, last: bool, ghost rest: seq<Byte>, f: Fault) returns (status: Status)
      requires data == rest[..ChunkSize(rest, screen.chunk)] && last == (|rest| <= screen.chunk)
      modifies bus
      ensures
        var e := Chunk(bus.config, old(bus.Value()), rest, screen.chunk, first, f);
        bus.Value() == e.bus && status == e.status && bus.trace == old(bus.trace) + e.events
    {
      status := Transmit(Quad114, if first then Some(QUAD_1_1_4) else None, data, !last, f);
    }

    /** The loop over the chunks, up to the first that fails. */
    method Stream(pixels: seq<Byte>, faults: nat -> Fault) returns (status: Status)
      requires screen.chunk >= 1
      modifies bus
      ensures
        var s := Streamed(bus.config, old(bus.Value()), pixels, screen.chunk, true, faults, 3);
        bus.Value() == s.bus && status == s.status && bus.trace == old(bus.trace) + s.events
    {
      var remaining, offset, first, isLast := |pixels|, 0, true, false;
      var i: nat := 3;
      status := Success;
      ghost var all := Streamed(bus.config, bus.Value(), pixels, screen.chunk, true, faults, 3);
      ghost var done: seq<Event>, left := [], pixels;
      while remaining > 0
        invariant remaining == |pixels| - offset && 0 <= offset <= |pixels| && status == Success
        invariant isLast ==> remaining == 0
        invariant left == pixels[offset..] && bus.trace == old(bus.trace) + done
        invariant Continues(all, done, Streamed(bus.config, bus.Value(), left, screen.chunk, first, faults, i))
      {
        var size := screen.chunk;
        if remaining <= screen.chunk {
          isLast := true;
          size := remaining;
        }
        NextChunk(bus.config, bus.Value(), left, screen.chunk, first, faults, i, all, done);
        ghost var e := Chunk(bus.config, bus.Value(), left, screen.chunk, first, faults(i));
        Appended(old(bus.trace), done, e.events);
        NextPixels(pixels, offset, size);
        status := SendChunk(pixels[offset..offset + size], first, isLast, left, faults(i));
        if status != Success {
          return;
        }
        done, left := done + e.events, left[ChunkSize(left, screen.chunk)..];
        offset, remaining, first, i := offset + size, remaining - size, false, i + 1;
      }
      EventsEnd(done);
    }

    method Write(x: Uint16, y: Uint16, w: Uint16, h: Uint16, buffer: seq<Byte>, faults: nat -> Fault)
      returns (status: Status)
      requires screen.chunk >= 1 && Total(screen, w, h) <= |buffer|
      modifies bus
      ensures
        var s := DrawnFrom(bus.config, old(bus.Value()), screen, x, y, w, h, buffer, faults);
        bus.Value() == s.bus && status == s.status && bus.trace == old(bus.trace) + s.events
    {
      var at := AddressesOf(screen, x, y, w, h);
      if at.None? {
        return Invalid;
      }
      status := Draw(at.value, buffer[..Total(screen, w, h)], faults);
    }

    method Draw(at: Addresses, pixels: seq<Byte>, faults: nat -> Fault) returns (status: Status)
      requires screen.chunk >= 1
      modifies bus
      ensures
        var s := Written(bus.config, old(bus.Value()), Some(at), pixels, screen.chunk, faults);
        bus.Value() == s.bus && status == s.status && bus.trace == old(bus.trace) + s.events
    {
      ghost var window := Windowed(bus.config, bus.Value(), at, faults);
      status := SendAddresses(at, faults);
      if status != Success {
        return;
      }
      status := Fill(pixels, faults);
      Appended(old(bus.trace), window.events, Filled(bus.config, window.bus, pixels, screen.chunk, faults).events);
    }

    method Fill(pixels: seq<Byte>, faults: nat -> Fault) returns (status: Status)
      requires screen.chunk >= 1
      modifies bus
      ensures
        var s := Filled(bus.config, old(bus.Value()), pixels, screen.chunk, faults);
        bus.Value() == s.bus && status == s.status && bus.trace == old(bus.trace) + s.events
    {
      ghost var start := Commanded(bus.config, bus.Value(), MEMORY_WRITE, [], faults, 2);
      status := SendCommand(MEMORY_WRITE, [], faults, 2, faults(2));
      if status != Success {
        return;
      }
      status := Stream(pixels, faults);
      Appended(old(bus.trace), start.events,
               Streamed(bus.config, start.bus, pixels, screen.chunk, true, faults, 3).events);
    }
  }

  lemma NextPixels(pixels: seq<Byte>, offset: nat, size: nat)
    requires offset + size <= |pixels|
    ensures pixels[offset..offset + size] == pixels[offset..][..size]
    ensures pixels[offset..][size..] == pixels[offset + size..]
  {
  }

  /** The burst is what was done so far and then the rest. */
  predicate Continues(all: Burst, done: seq<Event>, rest: Burst) {
    all == rest.(events := done + rest.events)
  }

  lemma NextChunk(k: Config, b: Bus, data: seq<Byte>, chunk: nat, first: bool, faults: nat -> Fault, i: nat,
                  all: Burst, done: seq<Event>)
    requires chunk >= 1 && data != [] && Continues(all, done, Streamed(k, b, data, chunk, first, faults, i))
    ensures
      var e := Chunk(k, b, data, chunk, first, faults(i));
      if e.status == Success then
        Continues(all, done + e.events, Streamed(k, e.bus, data[ChunkSize(data, chunk)..], chunk, false, faults, i + 1))
      else
        all == Burst(e.bus, e.status, done + e.events, i)
  {
    var e := Chunk(k, b, data, chunk, first, faults(i));
    if e.status == Success {
      Appended(done, e.events, Streamed(k, e.bus, data[ChunkSize(data, chunk)..], chunk, false, faults, i + 1).events);
    }
  }
}
