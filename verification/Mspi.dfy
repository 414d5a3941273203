/** The ESP32 serial bus driver: its device configuration, its transfers and what they put on the wire. */
module Mspi {
  import opened Common

  datatype IoMode =
    | Single | Dual | Dual112 | Dual122 | Quad | Quad114 | Quad144 | Octal | Octal118 | Octal188 | OtherMode

  /** Lines for the command, the address and the data phase. */
  datatype Lines = Lines(cmd: nat, addr: nat, data: nat)

  datatype Polarity = ActiveLow | ActiveHigh

  datatype Timing = Timing(dummy: nat, clock: nat)

  /** spi_hal_dev_config_t: what spi_hal_setup_device writes to the device registers. */
  datatype Device = Device(mode: nat, csPin: int, positiveCs: bool, lsbFirst: bool, timing: Timing)

  /** What the build and the device tree fix. `gpioCe`: there is a group of chip-enable pins. */
  datatype Config = Config(gpioCe: bool, maxFrequency: nat, maxBytes: nat, alignsClock: bool)

  /**
   * The driver's data and, in `registers` and `asserted`, the device registers and the physical level
   * of the chip enable.
   */
  datatype Bus = Bus(ioMode: IoMode, ceNum: nat, polarity: Polarity, device: Device, dirty: bool, csActive: bool,
                     dummyBits: nat, lines: Lines, registers: Device, asserted: bool)

  datatype Symbol = Opcode(opcode: nat, bits: nat) | Address(address: nat, bits: nat) | Data(byte: Byte)
                  | Dummy(bits: nat) | Read(count: nat)

  /** What a probe on the bus sees. Every symbol carries the registers it is clocked with. */
  datatype Event =
    | CeLevel(ce: int, high: bool)
    | Clocked(registers: Device, lines: Lines, symbol: Symbol)
    | Align(registers: Device)

  datatype Packet = Tx(cmd: nat, address: nat, data: seq<Byte>) | Rx(cmd: nat, address: nat, count: nat)

  datatype Xfer = Xfer(packets: seq<Packet>, hold: bool, cmdLength: nat, addrLength: nat, isAsync: bool)

  /**
   * What the hardware makes of a packet: sent, no bounce buffer, stopped by the timeout after `n`
   * symbols, or clocked out, and perhaps stopped, while the DMA channel that should feed it did not
   * start. Then as many bytes go out, but other ones.
   */
  datatype Outcome = Sent | NoBuffer | Stopped(n: nat) | Unfed(junk: seq<Byte>, stops: Option<nat>)

  /** After how many symbols the timeout stops the packet. */
  function StopOf(outcome: Outcome): Option<nat> {
    match outcome
    case Stopped(n) => Some(n)
    case Unfed(_, stops) => stops
    case _ => None
  }

  /** The first `n` bytes, filled up with zeros. */
  function Filler(junk: seq<Byte>, n: nat): (r: seq<Byte>)
    ensures |r| == n
  {
    seq(n, i requires 0 <= i < n => if i < |junk| then junk[i] else 0)
  }

  /** The packet as it leaves the controller. */
  function Carried(p: Packet, outcome: Outcome): Packet {
    if outcome.Unfed? && p.Tx? then p.(data := Filler(outcome.junk, |p.data|)) else p
  }

  /** Whether the chip-enable pin can be set and released, and what happens to each packet. */
  datatype Fault = Fault(select: bool, release: bool, packets: seq<Outcome>)

  datatype Effect = Effect(bus: Bus, status: Status, events: seq<Event>)

  // ---------------------------------------------------------------- device configuration

  datatype Mask = Mask(ioMode: bool, cpp: bool, ceNum: bool, cePolarity: bool, frequency: bool, other: bool)

  datatype DevCfg = DevCfg(ioMode: IoMode, cpp: nat, ceNum: nat, cePolarity: Polarity, freq: nat)

  /** The clock calculation: its result, or what a failure leaves of the old timing. */
  datatype Clock = Computed(timing: Timing) | Failed(leftover: Timing)

  function LineMode(mode: IoMode): Lines {
    match mode
    case Dual | Dual112 => Lines(1, 1, 2)
    case Dual122 => Lines(1, 2, 2)
    case Quad | Quad114 => Lines(1, 1, 4)
    case Quad144 => Lines(1, 4, 4)
    case Octal | Octal118 => Lines(1, 1, 8)
    case Octal188 => Lines(1, 8, 8)
    case _ => Lines(1, 1, 1)
  }

  function WithFrequency(k: Config, b: Bus, freq: nat, clock: Clock): (Bus, Status) {
    if freq > k.maxFrequency then (b, Invalid)
    else match clock
      case Computed(t) => (b.(device := b.device.(timing := t)), Success)
      case Failed(t) => (b.(device := b.device.(timing := t)), Invalid)
  }

  function WithChipEnable(k: Config, b: Bus, mask: Mask, c: DevCfg): Bus {
    var b1 := if mask.ceNum then
                b.(ceNum := c.ceNum, csActive := false,
                   device := b.device.(csPin := if k.gpioCe then -1 else c.ceNum))
              else b;
    if mask.cePolarity then
      b1.(polarity := c.cePolarity, csActive := false, device := b1.device.(positiveCs := c.cePolarity == ActiveHigh))
    else b1
  }

  /** A refusal part-way keeps what was stored before it. */
  function Configured(k: Config, b: Bus, mask: Mask, c: DevCfg, clock: Clock): (Bus, Status) {
    if mask.other then (b, NotSupported)
    else
      var b1 := b.(dirty := b.dirty || mask.cpp || mask.ceNum || mask.cePolarity || mask.frequency,
                   ioMode := if mask.ioMode then c.ioMode else b.ioMode);
      if mask.cpp && c.cpp > 3 then (b1, NotSupported)
      else
        var b2 := if mask.cpp then b1.(device := b1.device.(mode := c.cpp)) else b1;
        var b3 := WithChipEnable(k, b2, mask, c);
        if mask.frequency then WithFrequency(k, b3, c.freq, clock) else (b3, Success)
  }

  // ---------------------------------------------------------------- transfers

  /** What every transceive does first; `lazily` skips the registers unless they are marked dirty. */
  function Updated(k: Config, b: Bus, lazily: bool): (Bus, seq<Event>) {
    var b1 := b.(dummyBits := b.device.timing.dummy, lines := LineMode(b.ioMode),
                 device := b.device.(lsbFirst := false));
    if lazily && !b.dirty then (b1, [])
    else (b1.(registers := b1.device, dirty := false),
          if k.alignsClock && k.gpioCe && b1.device.mode == 3 then [Align(b1.device)] else [])
  }

  /** The level that means asserted or not, by the polarity. */
  function Level(polarity: Polarity, active: bool): bool {
    if polarity == ActiveHigh then active else !active
  }

  /** Sets the chip-enable pin; without a group of pins the hardware does it and there is nothing to do. */
  function CeSet(k: Config, b: Bus, active: bool, works: bool): Effect {
    if !k.gpioCe then Effect(b, Success, [])
    else if !works then Effect(b, IoError, [])
    else Effect(b.(asserted := active), Success, [CeLevel(b.ceNum, Level(b.polarity, active))])
  }

  function Size(p: Packet): nat {
    match p case Tx(_, _, data) => |data| case Rx(_, _, count) => count
  }

  function Bytes(data: seq<Byte>): (s: seq<Symbol>)
    ensures |s| == |data|
  {
    seq(|data|, i requires 0 <= i < |data| => Data(data[i]))
  }

  function Header(x: Xfer, p: Packet): seq<Symbol> {
    (if x.cmdLength > 0 then [Opcode(p.cmd % 0x10000, 8 * x.cmdLength)] else [])
    + (if x.addrLength > 0 then [Address(p.address, 8 * x.addrLength)] else [])
  }

  function Symbols(b: Bus, x: Xfer, p: Packet): seq<Symbol> {
    Header(x, p)
    + match p
      case Tx(_, _, data) => Bytes(data)
      case Rx(_, _, count) =>
        (if b.dummyBits > 0 then [Dummy(b.dummyBits)] else []) + (if count > 0 then [Read(count)] else [])
  }

  function ClockedOut(b: Bus, symbols: seq<Symbol>): (e: seq<Event>)
    ensures |e| == |symbols|
  {
    seq(|symbols|, i requires 0 <= i < |symbols| => Clocked(b.registers, b.lines, symbols[i]))
  }

  /** One hardware transaction. A chip enable of the hardware's own frames it, unless it is kept. */
  function Shifted(k: Config, b: Bus, symbols: seq<Symbol>, keep: bool): (Bus, seq<Event>) {
    var on := if k.gpioCe || b.asserted then [] else [CeLevel(b.registers.csPin, b.registers.positiveCs)];
    var off := if k.gpioCe || keep then [] else [CeLevel(b.registers.csPin, !b.registers.positiveCs)];
    (b.(asserted := if k.gpioCe then b.asserted else keep), on + ClockedOut(b, symbols) + off)
  }

  function UpTo(symbols: seq<Symbol>, n: nat): seq<Symbol> {
    symbols[..if n < |symbols| then n else |symbols|]
  }

  function Transferred(k: Config, b: Bus, x: Xfer, i: nat, outcome: Outcome): Effect
    requires i < |x.packets|
  {
    var p := x.packets[i];
    var keep := x.hold || i < |x.packets| - 1;
    if Size(p) > k.maxBytes then Effect(b, TooLong, [])
    else if outcome.NoBuffer? && Size(p) > 0 then Effect(b, NoMemory, [])
    else
      var symbols := Symbols(b, x, Carried(p, outcome));
      match StopOf(outcome)
      case Some(n) =>
        var (b1, events) := Shifted(k, b, UpTo(symbols, n), true);
        Effect(b1, TimedOut, events)
      case None =>
        var (b1, events) := Shifted(k, b, symbols, keep);
        Effect(b1, Success, events)
  }

  function OutcomeAt(f: Fault, i: nat): Outcome {
    if i < |f.packets| then f.packets[i] else Sent
  }

  /** The packets from the i-th on, up to the first that fails. */
  function PacketsFrom(k: Config, b: Bus, x: Xfer, i: nat, f: Fault): Effect
    requires i <= |x.packets|
    decreases |x.packets| - i
  {
    if i == |x.packets| then Effect(b, Success, [])
    else
      var one := Transferred(k, b, x, i, OutcomeAt(f, i));
      if one.status != Success then one
      else
        var rest := PacketsFrom(k, one.bus, x, i + 1, f);
        Effect(rest.bus, rest.status, one.events + rest.events)
  }

  /** Lets go of the chip enable unless a transfer that succeeded asked to keep it. */
  function Released(k: Config, e: Effect, hold: bool, works: bool): Effect {
    if hold && e.status == Success then e
    else
      var off := CeSet(k, e.bus, false, works);
      Effect(off.bus.(csActive := false), if e.status == Success then off.status else e.status, e.events + off.events)
  }

  function Selected(k: Config, b: Bus, works: bool): Effect {
    if b.csActive then Effect(b, Success, [])
    else
      var on := CeSet(k, b, true, works);
      if on.status == Success then on.(bus := on.bus.(csActive := true)) else on
  }

  /** Selects the device, sends the packets and lets go of the device. */
  function Exchanged(k: Config, b: Bus, x: Xfer, f: Fault): Effect {
    var on := Selected(k, b, f.select);
    if on.status != Success then on
    else
      var off := Released(k, PacketsFrom(k, on.bus, x, 0, f), x.hold, f.release);
      off.(events := on.events + off.events)
  }

  function Transceived(k: Config, b: Bus, x: Xfer, f: Fault, lazily: bool): Effect {
    if x.packets == [] then Effect(b, Invalid, [])
    else if x.isAsync then Effect(b, NotSupported, [])
    else
      var (b1, aligned) := Updated(k, b, lazily);
      var e := Exchanged(k, b1, x, f);
      e.(events := aligned + e.events)
  }

  // ---------------------------------------------------------------- lazy and eager programming

  datatype Call = Configure(mask: Mask, cfg: DevCfg, clock: Clock) | Transceive(xfer: Xfer, fault: Fault)

  function Performed(k: Config, b: Bus, call: Call, lazily: bool): Effect {
    match call
    case Configure(mask, cfg, clock) =>
      var (b1, status) := Configured(k, b, mask, cfg, clock);
      Effect(b1, status, [])
    case Transceive(x, f) => Transceived(k, b, x, f, lazily)
  }

  datatype Run = Run(bus: Bus, statuses: seq<Status>, events: seq<Event>)

  function RunOf(k: Config, b: Bus, calls: seq<Call>, lazily: bool): Run
    decreases |calls|
  {
    if calls == [] then Run(b, [], [])
    else
      var first := Performed(k, b, calls[0], lazily);
      var rest := RunOf(k, first.bus, calls[1..], lazily);
      Run(rest.bus, [first.status] + rest.statuses, first.events + rest.events)
  }

  /** Registers that are not marked dirty are the current device configuration. */
  predicate Current(b: Bus) {
    !b.dirty ==> b.registers == b.device && !b.device.lsbFirst
  }

  function Shown(e: Event): seq<Event> {
    if e.Align? then [] else [e]
  }

  /** The events without the bytes that only align the clock. */
  function Visible(events: seq<Event>): seq<Event> {
    if events == [] then [] else Shown(events[0]) + Visible(events[1..])
  }

  lemma {:induction false} VisibleJoins(a: seq<Event>, b: seq<Event>)
    ensures Visible(a + b) == Visible(a) + Visible(b)
  {
    if a == [] {
      assert a + b == b;
    } else {
      VisibleJoins(a[1..], b);
      assert (a + b)[0] == a[0] && (a + b)[1..] == a[1..] + b;
      Appended(Shown(a[0]), Visible(a[1..]), Visible(b));
    }
  }

  predicate ClockedWith(events: seq<Event>, d: Device) {
    forall i :: 0 <= i < |events| && !events[i].CeLevel? ==> events[i].registers == d
  }

  lemma ShiftUsesRegisters(k: Config, b: Bus, symbols: seq<Symbol>, keep: bool)
    ensures
      var (after, events) := Shifted(k, b, symbols, keep);
      after == b.(asserted := after.asserted) && ClockedWith(events, b.registers)
  {
  }

  lemma TransferUsesRegisters(k: Config, b: Bus, x: Xfer, i: nat, outcome: Outcome)
    requires i < |x.packets|
    ensures
      var e := Transferred(k, b, x, i, outcome);
      e.bus == b.(asserted := e.bus.asserted) && ClockedWith(e.events, b.registers)
  {
    var symbols := Symbols(b, x, Carried(x.packets[i], outcome));
    match StopOf(outcome) {
      case Some(n) => ShiftUsesRegisters(k, b, UpTo(symbols, n), true);
      case None => ShiftUsesRegisters(k, b, symbols, x.hold || i < |x.packets| - 1);
    }
  }

  lemma {:induction false} PacketsUseRegisters(k: Config, b: Bus, x: Xfer, i: nat, f: Fault)
    requires i <= |x.packets|
    ensures ClockedWith(PacketsFrom(k, b, x, i, f).events, b.registers)
    ensures
      var after := PacketsFrom(k, b, x, i, f).bus;
      after == b.(asserted := after.asserted)
    decreases |x.packets| - i
  {
    if i < |x.packets| {
      var one := Transferred(k, b, x, i, OutcomeAt(f, i));
      TransferUsesRegisters(k, b, x, i, OutcomeAt(f, i));
      if one.status == Success {
        PacketsUseRegisters(k, one.bus, x, i + 1, f);
      }
    }
  }

  /**
   * At every transfer the device registers are the device configuration of that moment, whatever
   * calls came before, including configurations that failed part-way.
   */
  lemma TransceiveUsesConfiguration(k: Config, b: Bus, x: Xfer, f: Fault)
    requires Current(b)
    ensures ClockedWith(Transceived(k, b, x, f, true).events, b.device.(lsbFirst := false))
    ensures Current(Transceived(k, b, x, f, true).bus)
  {
    if x.packets != [] && !x.isAsync {
      ExchangeUsesRegisters(k, Updated(k, b, true).0, x, f);
    }
  }

  lemma ExchangeUsesRegisters(k: Config, b: Bus, x: Xfer, f: Fault)
    ensures ClockedWith(Exchanged(k, b, x, f).events, b.registers)
    ensures
      var after := Exchanged(k, b, x, f).bus;
      after == b.(asserted := after.asserted, csActive := after.csActive)
  {
    PacketsUseRegisters(k, Selected(k, b, f.select).bus, x, 0, f);
  }

  lemma ConfigureKeepsCurrent(k: Config, b: Bus, mask: Mask, c: DevCfg, clock: Clock)
    requires Current(b)
    ensures Current(Configured(k, b, mask, c, clock).0)
  {
  }

  // ---------------------------------------------------------------- what a call puts on the wire

  /** Everything is clocked out on so many lines for the command, the address and the data. */
  predicate OnLines(events: seq<Event>, cmd: nat, addr: nat, data: nat) {
    forall i :: 0 <= i < |events| && events[i].Clocked? ==>
      events[i].lines.cmd == cmd && events[i].lines.addr == addr && events[i].lines.data == data
  }

  lemma TransferOnLines(k: Config, b: Bus, x: Xfer, i: nat, outcome: Outcome)
    requires i < |x.packets|
    ensures OnLines(Transferred(k, b, x, i, outcome).events, b.lines.cmd, b.lines.addr, b.lines.data)
  {
  }

  lemma {:induction false} PacketsOnLines(k: Config, b: Bus, x: Xfer, i: nat, f: Fault)
    requires i <= |x.packets|
    ensures OnLines(PacketsFrom(k, b, x, i, f).events, b.lines.cmd, b.lines.addr, b.lines.data)
    decreases |x.packets| - i
  {
    if i < |x.packets| {
      var one := Transferred(k, b, x, i, OutcomeAt(f, i));
      TransferOnLines(k, b, x, i, OutcomeAt(f, i));
      TransferUsesRegisters(k, b, x, i, OutcomeAt(f, i));
      if one.status == Success {
        PacketsOnLines(k, one.bus, x, i + 1, f);
      }
    }
  }

  lemma ExchangeOnLines(k: Config, b: Bus, x: Xfer, f: Fault)
    ensures OnLines(Exchanged(k, b, x, f).events, b.lines.cmd, b.lines.addr, b.lines.data)
  {
    PacketsOnLines(k, Selected(k, b, f.select).bus, x, 0, f);
  }

  /** The I/O mode says on how many lines command, address and data go out, whatever becomes of the call. */
  lemma ModeIsOnTheWire(k: Config, b: Bus, x: Xfer, f: Fault, lazily: bool)
    ensures
      var events := Transceived(k, b, x, f, lazily).events;
      match b.ioMode
      case Single => OnLines(events, 1, 1, 1)
      case Dual => OnLines(events, 1, 1, 2)
      case Dual112 => OnLines(events, 1, 1, 2)
      case Dual122 => OnLines(events, 1, 2, 2)
      case Quad => OnLines(events, 1, 1, 4)
      case Quad114 => OnLines(events, 1, 1, 4)
      case Quad144 => OnLines(events, 1, 4, 4)
      case Octal => OnLines(events, 1, 1, 8)
      case Octal118 => OnLines(events, 1, 1, 8)
      case Octal188 => OnLines(events, 1, 8, 8)
      case OtherMode => OnLines(events, 1, 1, 1)
  {
    if x.packets != [] && !x.isAsync {
      ExchangeOnLines(k, Updated(k, b, lazily).0, x, f);
    }
  }

  /** A configuration succeeds exactly when the hardware has what it asks for. */
  lemma ConfigureSucceedsIff(k: Config, b: Bus, mask: Mask, c: DevCfg, clock: Clock)
    ensures Configured(k, b, mask, c, clock).1 == Success
            <==> !mask.other && (mask.cpp ==> c.cpp in {0, 1, 2, 3})
                 && (mask.frequency ==> c.freq <= k.maxFrequency && clock.Computed?)
  {
  }

  /**
   * After a configuration that succeeded the next transfer is clocked, on every symbol, with what it asked
   * for, field by field, and with what was set before where it asked for nothing.
   */
  lemma ConfigurationIsOnTheWire(k: Config, b: Bus, mask: Mask, c: DevCfg, clock: Clock, x: Xfer, f: Fault)
    requires Current(b) && Configured(k, b, mask, c, clock).1 == Success
    ensures
      var events := Transceived(k, Configured(k, b, mask, c, clock).0, x, f, true).events;
      forall i :: 0 <= i < |events| && !events[i].CeLevel? ==>
        var r := events[i].registers;
        && r.mode == (if mask.cpp then c.cpp else b.device.mode)
        && (mask.ceNum && k.gpioCe ==> r.csPin == -1)
        && (mask.ceNum && !k.gpioCe ==> r.csPin == c.ceNum)
        && (!mask.ceNum ==> r.csPin == b.device.csPin)
        && (mask.cePolarity && c.cePolarity.ActiveHigh? ==> r.positiveCs)
        && (mask.cePolarity && c.cePolarity.ActiveLow? ==> !r.positiveCs)
        && (!mask.cePolarity ==> r.positiveCs == b.device.positiveCs)
        && r.timing == (if mask.frequency then clock.timing else b.device.timing)
        && !r.lsbFirst
  {
    var b1 := Configured(k, b, mask, c, clock).0;
    ConfigureKeepsCurrent(k, b, mask, c, clock);
    TransceiveUsesConfiguration(k, b1, x, f);
  }

  /** What the driver itself remembers of a configuration, and that a change of the target lets go of a held device. */
  lemma ConfigurationIsRemembered(k: Config, b: Bus, mask: Mask, c: DevCfg, clock: Clock)
    requires Configured(k, b, mask, c, clock).1 == Success
    ensures
      var b1 := Configured(k, b, mask, c, clock).0;
      && b1.ioMode == (if mask.ioMode then c.ioMode else b.ioMode)
      && b1.ceNum == (if mask.ceNum then c.ceNum else b.ceNum)
      && b1.polarity == (if mask.cePolarity then c.cePolarity else b.polarity)
      && (b1.csActive <==> b.csActive && !mask.ceNum && !mask.cePolarity)
      && b1.registers == b.registers && b1.asserted == b.asserted && b1.lines == b.lines
  {
  }

  /**
   * A configuration that is refused part-way is as if only what comes before had been asked for: nothing
   * for a setting the driver does not know, the I/O mode alone for a clock mode there is not, and all but
   * the frequency for one that is too high or cannot be derived.
   */
  lemma RefusedConfiguration(k: Config, b: Bus, mask: Mask, c: DevCfg, clock: Clock)
    ensures
      var (b1, status) := Configured(k, b, mask, c, clock);
      && (mask.other ==> status == NotSupported && b1 == b)
      && (!mask.other && mask.cpp && c.cpp > 3 ==>
            status == NotSupported && b1 == b.(dirty := true, ioMode := b1.ioMode)
            && b1.ioMode == (if mask.ioMode then c.ioMode else b.ioMode))
      && (status == Invalid ==>
            mask.frequency && (c.freq > k.maxFrequency || clock.Failed?)
            && b1 == Configured(k, b, mask.(frequency := false), c, clock).0.(dirty := true, device := b1.device)
            && b1.device == Configured(k, b, mask.(frequency := false), c, clock).0.device.(timing := b1.device.timing)
            && b1.device.timing == (if c.freq > k.maxFrequency then b.device.timing else clock.leftover))
  {
  }

  /** Before a transfer the clock is aligned only when it is programmed, with a pin for the chip enable, in mode 3. */
  lemma AlignsIff(k: Config, b: Bus, lazily: bool)
    ensures Updated(k, b, lazily).1 != []
            <==> (b.dirty || !lazily) && k.alignsClock && k.gpioCe && b.device.mode == 3
    ensures |Updated(k, b, lazily).1| <= 1
  {
  }

  /** What becomes of one packet, by its size and what the hardware makes of it. */
  lemma TransferFailsIff(k: Config, b: Bus, x: Xfer, i: nat, outcome: Outcome)
    requires i < |x.packets|
    ensures
      var e, p := Transferred(k, b, x, i, outcome), x.packets[i];
      var size := if p.Tx? then |p.data| else p.count;
      && (e.status == TooLong <==> size > k.maxBytes)
      && (e.status == NoMemory <==> size <= k.maxBytes && size > 0 && outcome.NoBuffer?)
      && (e.status in {TooLong, NoMemory} ==> e.bus == b && e.events == [])
      && (e.status == TimedOut <==>
            size <= k.maxBytes && (outcome.Stopped? || (outcome.Unfed? && outcome.stops.Some?)))
      && e.status in {Success, TooLong, NoMemory, TimedOut}
  {
  }

  /** Chip-enable levels only at the ends: `on` first if the window is opened here, `off` last if it is closed here. */
  predicate Framed(events: seq<Event>, opens: bool, on: Event, closes: bool, off: Event) {
    && (opens && closes ==> |events| >= 2) && (opens || closes ==> |events| >= 1)
    && (opens ==> events[0] == on) && (closes ==> events[|events| - 1] == off)
    && forall i :: (if opens then 1 else 0) <= i < |events| - (if closes then 1 else 0) ==> events[i].Clocked?
  }

  lemma {:induction false} PacketsAreFramed(k: Config, b: Bus, x: Xfer, i: nat, f: Fault)
    requires i < |x.packets| && PacketsFrom(k, b, x, i, f).status == Success
    ensures
      var r := b.registers;
      Framed(PacketsFrom(k, b, x, i, f).events, !k.gpioCe && !b.asserted, CeLevel(r.csPin, r.positiveCs),
             !k.gpioCe && !x.hold, CeLevel(r.csPin, !r.positiveCs))
    decreases |x.packets| - i
  {
    var one := Transferred(k, b, x, i, OutcomeAt(f, i));
    TransferIsFramed(k, b, x, i, OutcomeAt(f, i));
    if i + 1 < |x.packets| {
      PacketsAreFramed(k, one.bus, x, i + 1, f);
    }
    var r := b.registers;
    FramedJoins(one.events, PacketsFrom(k, one.bus, x, i + 1, f).events, i + 1 == |x.packets|,
                !k.gpioCe && !b.asserted, CeLevel(r.csPin, r.positiveCs), !k.gpioCe && !x.hold,
                CeLevel(r.csPin, !r.positiveCs));
  }

  lemma TransferIsFramed(k: Config, b: Bus, x: Xfer, i: nat, outcome: Outcome)
    requires i < |x.packets| && Transferred(k, b, x, i, outcome).status == Success
    ensures
      var e, r, keep := Transferred(k, b, x, i, outcome), b.registers, x.hold || i + 1 < |x.packets|;
      && e.bus == b.(asserted := if k.gpioCe then b.asserted else keep)
      && Framed(e.events, !k.gpioCe && !b.asserted, CeLevel(r.csPin, r.positiveCs),
                !k.gpioCe && !keep, CeLevel(r.csPin, !r.positiveCs))
  {
  }

  lemma FramedJoins(a: seq<Event>, b: seq<Event>, last: bool, opens: bool, on: Event, closes: bool, off: Event)
    requires Framed(a, opens, on, closes && last, off)
    requires if last then b == [] else Framed(b, false, on, closes, off)
    ensures Framed(a + b, opens, on, closes, off)
  {
    if last {
      assert a + b == a;
    }
  }

  /**
   * A transfer that succeeds has its chip enable around it, at the level the polarity says: a pin goes to
   * the level of its configuration before the first symbol and back behind the last, and so does a chip
   * enable of the hardware, unless the device was held before or is to be held.
   */
  lemma WindowIsByPolarity(k: Config, b: Bus, x: Xfer, f: Fault)
    requires Current(b) && Transceived(k, b, x, f, true).status == Success
    ensures
      var events := Visible(Transceived(k, b, x, f, true).events);
      if k.gpioCe then
        Framed(events, !b.csActive, CeLevel(b.ceNum, b.polarity.ActiveHigh?), !x.hold,
               CeLevel(b.ceNum, b.polarity.ActiveLow?))
      else
        Framed(events, !b.asserted, CeLevel(b.device.csPin, b.device.positiveCs), !x.hold,
               CeLevel(b.device.csPin, !b.device.positiveCs))
  {
    TransceiveShows(k, b, x, f);
    if k.gpioCe {
      PinIsFramed(k, Updated(k, b, true).0, x, f);
    } else {
      HardwareIsFramed(k, Updated(k, b, true).0, x, f);
    }
  }

  /** Nothing of a transfer is seen before the exchange itself. */
  lemma TransceiveShows(k: Config, b: Bus, x: Xfer, f: Fault)
    requires Current(b) && Transceived(k, b, x, f, true).status == Success
    ensures
      var b1 := Updated(k, b, true).0;
      && x.packets != [] && Exchanged(k, b1, x, f).status == Success
      && Visible(Transceived(k, b, x, f, true).events) == Visible(Exchanged(k, b1, x, f).events)
      && b1.ceNum == b.ceNum && b1.polarity == b.polarity && b1.csActive == b.csActive && b1.asserted == b.asserted
      && b1.registers.csPin == b.device.csPin && b1.registers.positiveCs == b.device.positiveCs
  {
    var (b1, aligned) := Updated(k, b, true);
    var e := Exchanged(k, b1, x, f);
    UpdateKeepsTarget(k, b);
    VisibleJoins(aligned, e.events);
    assert [] + Visible(e.events) == Visible(e.events);
  }

  lemma UpdateKeepsTarget(k: Config, b: Bus)
    requires Current(b)
    ensures
      var (b1, aligned) := Updated(k, b, true);
      b1.ceNum == b.ceNum && b1.polarity == b.polarity && b1.csActive == b.csActive && b1.asserted == b.asserted
      && b1.registers.csPin == b.device.csPin && b1.registers.positiveCs == b.device.positiveCs
      && Visible(aligned) == []
  {
  }

  lemma PinIsFramed(k: Config, b: Bus, x: Xfer, f: Fault)
    requires k.gpioCe && x.packets != [] && Exchanged(k, b, x, f).status == Success
    ensures Framed(Visible(Exchanged(k, b, x, f).events), !b.csActive, CeLevel(b.ceNum, b.polarity.ActiveHigh?),
                   !x.hold, CeLevel(b.ceNum, b.polarity.ActiveLow?))
  {
    var on := Selected(k, b, f.select);
    PacketsAreFramed(k, on.bus, x, 0, f);
    PacketsUseRegisters(k, on.bus, x, 0, f);
    var e := PacketsFrom(k, on.bus, x, 0, f);
    var off := Released(k, e, x.hold, f.release);
    assert off.events == e.events + if x.hold then [] else [CeLevel(b.ceNum, b.polarity.ActiveLow?)];
    FramedIsSeen(on.events + off.events, !b.csActive, CeLevel(b.ceNum, b.polarity.ActiveHigh?), !x.hold,
                 CeLevel(b.ceNum, b.polarity.ActiveLow?));
  }

  lemma HardwareIsFramed(k: Config, b: Bus, x: Xfer, f: Fault)
    requires !k.gpioCe && x.packets != [] && Exchanged(k, b, x, f).status == Success
    ensures
      var r := b.registers;
      Framed(Visible(Exchanged(k, b, x, f).events), !b.asserted, CeLevel(r.csPin, r.positiveCs), !x.hold,
             CeLevel(r.csPin, !r.positiveCs))
  {
    var b1, r := b.(csActive := true), b.registers;
    HardwareAlone(k, b, x, f);
    PacketsAreFramed(k, b1, x, 0, f);
    FramedIsSeen(PacketsFrom(k, b1, x, 0, f).events, !b.asserted, CeLevel(r.csPin, r.positiveCs), !x.hold,
                 CeLevel(r.csPin, !r.positiveCs));
  }

  /** Without pins nothing is sent but the packets. */
  lemma HardwareAlone(k: Config, b: Bus, x: Xfer, f: Fault)
    requires !k.gpioCe
    ensures
      var e, packets := Exchanged(k, b, x, f), PacketsFrom(k, b.(csActive := true), x, 0, f);
      e.events == packets.events && e.status == packets.status
  {
    var packets := PacketsFrom(k, b.(csActive := true), x, 0, f);
    assert Selected(k, b, f.select).bus == b.(csActive := true);
    assert packets.events + [] == packets.events && [] + packets.events == packets.events;
  }

  lemma FramedIsSeen(events: seq<Event>, opens: bool, on: Event, closes: bool, off: Event)
    requires Framed(events, opens, on, closes, off) && on.CeLevel? && off.CeLevel?
    ensures Visible(events) == events
  {
    NothingHidden(events);
  }

  lemma {:induction false} NothingHidden(events: seq<Event>)
    requires forall i :: 0 <= i < |events| ==> !events[i].Align?
    ensures Visible(events) == events
  {
    if events != [] {
      NothingHidden(events[1..]);
      assert events == [events[0]] + events[1..];
    }
  }

  /** The symbols on the wire, without the chip enable. */
  function SymbolsOf(events: seq<Event>): seq<Symbol> {
    if events == [] then []
    else (if events[0].Clocked? then [events[0].symbol] else []) + SymbolsOf(events[1..])
  }

  lemma {:induction false} SymbolsOfJoins(a: seq<Event>, b: seq<Event>)
    ensures SymbolsOf(a + b) == SymbolsOf(a) + SymbolsOf(b)
  {
    if a == [] {
      assert a + b == b;
    } else {
      SymbolsOfJoins(a[1..], b);
      assert (a + b)[0] == a[0] && (a + b)[1..] == a[1..] + b;
    }
  }

  lemma {:induction false} SymbolsOfClocked(b: Bus, symbols: seq<Symbol>)
    ensures SymbolsOf(ClockedOut(b, symbols)) == symbols
  {
    if symbols != [] {
      SymbolsOfClocked(b, symbols[1..]);
      assert ClockedOut(b, symbols)[1..] == ClockedOut(b, symbols[1..]);
      assert symbols == [symbols[0]] + symbols[1..];
    }
  }

  lemma NoSymbols(e: Event)
    requires !e.Clocked?
    ensures SymbolsOf([e]) == []
  {
  }

  lemma SymbolsOfShift(k: Config, b: Bus, symbols: seq<Symbol>, keep: bool)
    ensures SymbolsOf(Shifted(k, b, symbols, keep).1) == symbols
  {
    var on := if k.gpioCe || b.asserted then [] else [CeLevel(b.registers.csPin, b.registers.positiveCs)];
    var off := if k.gpioCe || keep then [] else [CeLevel(b.registers.csPin, !b.registers.positiveCs)];
    SymbolsOfJoins(on, ClockedOut(b, symbols));
    SymbolsOfJoins(on + ClockedOut(b, symbols), off);
    SymbolsOfClocked(b, symbols);
    NoSymbols(CeLevel(b.registers.csPin, b.registers.positiveCs));
    NoSymbols(CeLevel(b.registers.csPin, !b.registers.positiveCs));
  }

  /**
   * A packet by itself on the wire: the low 16 bits of its opcode and its address in as many whole bytes as
   * the transfer says, if any, and then its bytes; or, for a packet to be read, the dummy bits of the
   * timing in force, if there are any, and as many bytes as are asked for.
   */
  lemma PacketOnTheWire(k: Config, b: Bus, x: Xfer, f: Fault)
    requires |x.packets| == 1 && Transceived(k, b, x, f, true).status == Success && !OutcomeAt(f, 0).Unfed?
    ensures
      var p := x.packets[0];
      var behind :=
        if p.Tx? then Bytes(p.data)
        else (if b.device.timing.dummy == 0 then [] else [Dummy(b.device.timing.dummy)])
             + (if p.count == 0 then [] else [Read(p.count)]);
      SymbolsOf(Transceived(k, b, x, f, true).events)
      == (if x.cmdLength == 0 then [] else [Opcode(p.cmd % 65536, x.cmdLength * 8)])
         + (if x.addrLength == 0 then [] else [Address(p.address, x.addrLength * 8)]) + behind
  {
    PacketSymbols(k, b, x, f);
    SameDummies(k, b, f);
  }

  lemma PacketSymbols(k: Config, b: Bus, x: Xfer, f: Fault)
    requires |x.packets| == 1 && Transceived(k, b, x, f, true).status == Success && !OutcomeAt(f, 0).Unfed?
    ensures
      var on := Selected(k, Updated(k, b, true).0, f.select);
      SymbolsOf(Transceived(k, b, x, f, true).events) == Symbols(on.bus, x, x.packets[0])
  {
    var (b1, aligned) := Updated(k, b, true);
    var on := Selected(k, b1, f.select);
    var packets := PacketsFrom(k, on.bus, x, 0, f);
    SinglePacket(k, on.bus, x, f);
    TransferSymbols(k, on.bus, x, OutcomeAt(f, 0));
    SymbolsOfJoins(aligned, Exchanged(k, b1, x, f).events);
    SymbolsOfJoins(on.events, Released(k, packets, x.hold, f.release).events);
    NoSymbolsAround(k, b, b1, packets, x.hold, f);
  }

  lemma SameDummies(k: Config, b: Bus, f: Fault)
    ensures Selected(k, Updated(k, b, true).0, f.select).bus.dummyBits == b.device.timing.dummy
  {
  }

  lemma SinglePacket(k: Config, b: Bus, x: Xfer, f: Fault)
    requires |x.packets| == 1
    ensures PacketsFrom(k, b, x, 0, f) == Transferred(k, b, x, 0, OutcomeAt(f, 0))
  {
    var one := Transferred(k, b, x, 0, OutcomeAt(f, 0));
    assert one.events + [] == one.events;
  }

  lemma TransferSymbols(k: Config, b: Bus, x: Xfer, outcome: Outcome)
    requires |x.packets| == 1 && Transferred(k, b, x, 0, outcome).status == Success && !outcome.Unfed?
    ensures SymbolsOf(Transferred(k, b, x, 0, outcome).events) == Symbols(b, x, x.packets[0])
  {
    SymbolsOfShift(k, b, Symbols(b, x, x.packets[0]), x.hold);
  }

  lemma NoSymbolsAround(k: Config, b: Bus, b1: Bus, packets: Effect, hold: bool, f: Fault)
    ensures SymbolsOf(Updated(k, b, true).1) == [] && SymbolsOf(Selected(k, b1, f.select).events) == []
    ensures SymbolsOf(Released(k, packets, hold, f.release).events) == SymbolsOf(packets.events)
  {
    var off := CeSet(k, packets.bus, false, f.release);
    SymbolsOfJoins(packets.events, off.events);
  }

  // ---------------------------------------------------------------- lazy against eager

  /** One call, programmed lazily or eagerly: the same bus, the same answer, the same events but for alignment. */
  lemma CallsAgree(k: Config, b: Bus, call: Call)
    requires Current(b)
    ensures
      var lazy, eager := Performed(k, b, call, true), Performed(k, b, call, false);
      lazy.bus == eager.bus && lazy.status == eager.status && Visible(lazy.events) == Visible(eager.events)
      && Current(lazy.bus)
  {
    match call {
      case Configure(mask, cfg, clock) =>
        ConfigureKeepsCurrent(k, b, mask, cfg, clock);
      case Transceive(x, f) =>
        TransceiveUsesConfiguration(k, b, x, f);
        if x.packets != [] && !x.isAsync {
          UpdatesAgree(k, b);
          var e := Exchanged(k, Updated(k, b, true).0, x, f);
          VisibleJoins(Updated(k, b, true).1, e.events);
          VisibleJoins(Updated(k, b, false).1, e.events);
        }
    }
  }

  lemma Appended(a: seq<Event>, b: seq<Event>, c: seq<Event>)
    ensures a + b + c == a + (b + c)
  {
  }

  lemma UpdatesAgree(k: Config, b: Bus)
    requires Current(b)
    ensures Updated(k, b, true).0 == Updated(k, b, false).0
    ensures Visible(Updated(k, b, true).1) == Visible(Updated(k, b, false).1) == []
  {
  }

  /** Over any calls, failing or not, lazy programming cannot be told from eager programming. */
  lemma {:induction false} LazyIsEager(k: Config, b: Bus, calls: seq<Call>)
    requires Current(b)
    ensures
      var lazy, eager := RunOf(k, b, calls, true), RunOf(k, b, calls, false);
      lazy.bus == eager.bus && lazy.statuses == eager.statuses && Visible(lazy.events) == Visible(eager.events)
      && Current(lazy.bus)
    decreases |calls|
  {
    if calls != [] {
      var lazy, eager := Performed(k, b, calls[0], true), Performed(k, b, calls[0], false);
      CallsAgree(k, b, calls[0]);
      LazyIsEager(k, lazy.bus, calls[1..]);
      VisibleJoins(lazy.events, RunOf(k, lazy.bus, calls[1..], true).events);
      VisibleJoins(eager.events, RunOf(k, lazy.bus, calls[1..], false).events);
    }
  }

  // ---------------------------------------------------------------- the driver

  /** The controller and, in its last three fields, the hardware behind it. */
  class MspiController {
    const config: Config
    var ioMode: IoMode
    var ceNum: nat
    var polarity: Polarity
    var device: Device
    var dirty: bool
    var csActive: bool
    var dummyBits: nat
    var lines: Lines
    var registers: Device
    var asserted: bool
    var trace: seq<Event>

    /** After a reset: everything is still to be programmed. */
    constructor (config: Config, timing: Timing)
      ensures this.config == config && trace == []
      ensures Current(Value()) && Value().dirty && !Value().csActive && !Value().asserted
    {
      this.config := config;
      ioMode, ceNum, polarity := Single, 0, ActiveLow;
      device := Device(0, if config.gpioCe then -1 else 0, false, false, timing);
      dirty, csActive, dummyBits, lines := true, false, 0, Lines(0, 0, 0);
      registers := Device(0, 0, false, false, Timing(0, 0));
      asserted, trace := false, [];
    }

    function Value(): Bus
      reads this
    {
      Bus(ioMode, ceNum, polarity, device, dirty, csActive, dummyBits, lines, registers, asserted)
    }

    method CsGpioSet(active: bool, works: bool) returns (status: Status)
      modifies this`asserted, this`trace
      ensures
        var e := CeSet(config, old(Value()), active, works);
        Value() == e.bus && status == e.status && trace == old(trace) + e.events
    {
      if !config.gpioCe {
        return Success;
      }
      if !works {
        return IoError;
      }
      var pinHigh := if polarity == ActiveHigh then active else !active;
      trace := trace + [CeLevel(ceNum, pinHigh)];
      asserted := active;
      status := Success;
    }

    /** One hardware transaction with the given symbols. */
    method Shift(symbols: seq<Symbol>, keep: bool)
      modifies this`asserted, this`trace
      ensures Value() == Shifted(config, old(Value()), symbols, keep).0
      ensures trace == old(trace) + Shifted(config, old(Value()), symbols, keep).1
    {
      if !config.gpioCe && !asserted {
        trace := trace + [CeLevel(registers.csPin, registers.positiveCs)];
      }
      trace := trace + ClockedOut(Value(), symbols);
      if !config.gpioCe {
        if !keep {
          trace := trace + [CeLevel(registers.csPin, !registers.positiveCs)];
        }
        asserted := keep;
      }
    }

    method Transfer(x: Xfer, i: nat, outcome: Outcome) returns (status: Status)
      requires i < |x.packets|
      modifies this`asserted, this`trace
      ensures
        var e := Transferred(config, old(Value()), x, i, outcome);
        Value() == e.bus && status == e.status && trace == old(trace) + e.events
    {
      var p := x.packets[i];
      if Size(p) > config.maxBytes {
        return TooLong;
      }
      if outcome.NoBuffer? && Size(p) > 0 {
        return NoMemory;
      }
      var symbols := Symbols(Value(), x, Carried(p, outcome));
      match StopOf(outcome) {
        case Some(n) =>
          Shift(UpTo(symbols, n), true);
          return TimedOut;
        case None =>
          Shift(symbols, x.hold || i < |x.packets| - 1);
      }
      status := Success;
    }

    method UpdateTransferConfig()
      modifies this`dummyBits, this`lines, this`device, this`registers, this`dirty, this`trace
      ensures Value() == Updated(config, old(Value()), true).0
      ensures trace == old(trace) + Updated(config, old(Value()), true).1
    {
      dummyBits := device.timing.dummy;
      lines := LineMode(ioMode);
      device := device.(lsbFirst := false);
      if !dirty {
        return;
      }
      registers := device;
      if config.alignsClock && config.gpioCe && device.mode == 3 {
        trace := trace + [Align(registers)];
      }
      dirty := false;
    }

    method DevConfig(mask: Mask, c: DevCfg, clock: Clock) returns (status: Status)
      modifies this`dirty, this`ioMode, this`device, this`ceNum, this`csActive, this`polarity
      ensures (Value(), status) == Configured(config, old(Value()), mask, c, clock)
    {
      if mask.other {
        return NotSupported;
      }
      if mask.cpp || mask.ceNum || mask.cePolarity || mask.frequency {
        dirty := true;
      }
      if mask.ioMode {
        ioMode := c.ioMode;
      }
      if mask.cpp {
        if c.cpp > 3 {
          return NotSupported;
        }
        device := device.(mode := c.cpp);
      }
      if mask.ceNum {
        ceNum := c.ceNum;
        device := device.(csPin := if config.gpioCe then -1 else c.ceNum);
        csActive := false;
      }
      if mask.cePolarity {
        polarity := c.cePolarity;
        device := device.(positiveCs := c.cePolarity == ActiveHigh);
        csActive := false;
      }
      if mask.frequency {
        if c.freq > config.maxFrequency {
          return Invalid;
        }
        match clock {
          case Computed(t) =>
            device := device.(timing := t);
          case Failed(t) =>
            device := device.(timing := t);
            return Invalid;
        }
      }
      status := Success;
    }

    method TransferAll(x: Xfer, f: Fault) returns (status: Status)
      modifies this`asserted, this`trace
      ensures
        var e := PacketsFrom(config, old(Value()), x, 0, f);
        Value() == e.bus && status == e.status && trace == old(trace) + e.events
    {
      status := Success;
      var i := 0;
      ghost var done: seq<Event> := [];
      while i < |x.packets|
        invariant 0 <= i <= |x.packets| && status == Success
        invariant trace == old(trace) + done
        invariant
          var all, rest := PacketsFrom(config, old(Value()), x, 0, f), PacketsFrom(config, Value(), x, i, f);
          all == rest.(events := done + rest.events)
      {
        ghost var before, one := Value(), Transferred(config, Value(), x, i, OutcomeAt(f, i));
        status := Transfer(x, i, OutcomeAt(f, i));
        NextPacket(config, before, x, i, f, done);
        Appended(old(trace), done, one.events);
        done := done + one.events;
        if status != Success {
          return;
        }
        i := i + 1;
      }
    }

    method Transceive(x: Xfer, f: Fault) returns (status: Status)
      modifies this
      ensures
        var e := Transceived(config, old(Value()), x, f, true);
        Value() == e.bus && status == e.status && trace == old(trace) + e.events
    {
      if x.packets == [] {
        return Invalid;
      }
      if x.isAsync {
        return NotSupported;
      }
      ghost var (updated, aligned) := Updated(config, Value(), true);
      UpdateTransferConfig();
      status := Exchange(x, f);
      Appended(old(trace), aligned, Exchanged(config, updated, x, f).events);
    }

    method Exchange(x: Xfer, f: Fault) returns (status: Status)
      modifies this`asserted, this`csActive, this`trace
      ensures
        var e := Exchanged(config, old(Value()), x, f);
        Value() == e.bus && status == e.status && trace == old(trace) + e.events
    {
      ghost var on := Selected(config, Value(), f.select);
      status := SelectDevice(f.select);
      if status != Success {
        return;
      }
      ghost var sent := PacketsFrom(config, on.bus, x, 0, f);
      status := TransferAll(x, f);
      status := ReleaseDevice(x.hold, f.release, status);
      ReleaseAppends(config, sent, x.hold, f.release);
      ghost var off := Released(config, Effect(sent.bus, sent.status, []), x.hold, f.release);
      Appended(old(trace) + on.events, sent.events, off.events);
      Appended(old(trace), on.events, sent.events + off.events);
    }

    method SelectDevice(works: bool) returns (status: Status)
      modifies this`asserted, this`csActive, this`trace
      ensures
        var e := Selected(config, old(Value()), works);
        Value() == e.bus && status == e.status && trace == old(trace) + e.events
    {
      if csActive {
        return Success;
      }
      status := CsGpioSet(true, works);
      if status == Success {
        csActive := true;
      }
    }

    method ReleaseDevice(hold: bool, works: bool, before: Status) returns (status: Status)
      modifies this`asserted, this`csActive, this`trace
      ensures
        var e := Released(config, Effect(old(Value()), before, []), hold, works);
        Value() == e.bus && status == e.status && trace == old(trace) + e.events
    {
      status := before;
      if !hold || status != Success {
        var released := CsGpioSet(false, works);
        csActive := false;
        if status == Success {
          status := released;
        }
      }
    }
  }

  /** Letting go does not look at what was sent before. */
  lemma ReleaseAppends(k: Config, e: Effect, hold: bool, works: bool)
    ensures
      var off := Released(k, Effect(e.bus, e.status, []), hold, works);
      Released(k, e, hold, works) == Effect(off.bus, off.status, e.events + off.events)
  {
  }

  /** What the packets from the i-th on do is what the i-th does, followed by the others if it succeeds. */
  lemma NextPacket(k: Config, b: Bus, x: Xfer, i: nat, f: Fault, done: seq<Event>)
    requires i < |x.packets|
    ensures
      var one, rest := Transferred(k, b, x, i, OutcomeAt(f, i)), PacketsFrom(k, b, x, i, f);
      if one.status == Success then
        var more := PacketsFrom(k, one.bus, x, i + 1, f);
        rest.(events := done + rest.events) == more.(events := done + one.events + more.events)
      else
        rest == one
  {
    var one := Transferred(k, b, x, i, OutcomeAt(f, i));
    if one.status == Success {
      Appended(done, one.events, PacketsFrom(k, one.bus, x, i + 1, f).events);
    }
  }
}
