/**
 The persisted UI configuration: its records, the bytes they are written as and how they are read.

 Reading is a function from a decoder state to a result and the state behind it, failures included:
 the decoder's backtracking depends on what a failed attempt leaves behind.
 */
module CborConfig {
  import opened Cbor
  import opened Common
  import opened UiModel

  datatype Entry = Entry(key: Text, value: Text)

  datatype CborValue =
    | IntC(i: Int32)
    | FloatC(d: Float64)
    | TextC(t: Text)
    | BoolC(b: bool)
    | IntListC(ints: seq<Int32>)
    | TextListC(texts: seq<Text>)
    | MapC(entries: seq<Entry>)

  datatype Property = Property(key: Text, value: CborValue)

  datatype Grid = Grid(snap: bool, width: Uint32, height: Uint32, spacing: Uint32)

  datatype Position = Position(x: Int32, y: Int32)

  datatype Size = Size(width: Uint32, height: Uint32)

  datatype Binding = Binding(target: Uint32, channel: Uint32, eventType: Uint32, payloadKey: Uint32, direction: Uint32,
                             outboundEventType: Uint32, hasSelector: bool, selectorKey: Uint32,
                             selectorValue: CborValue)

  datatype Widget = Widget(kind: Uint32, id: Uint32, position: Position, size: Size, zIndex: Int32,
                           properties: Option<seq<Property>>, bindings: seq<Binding>)

  datatype Screen = Screen(id: Uint32, groupId: Uint32, kind: Uint32, zIndex: Int32, isVisible: bool, isOverlay: bool,
                           grid: Grid, widgets: seq<Widget>)

  datatype Ui = Ui(version: Uint32, activeGroup: Uint32, properties: Option<seq<Property>>, screens: seq<Screen>)

  // ---------------------------------------------------------------- writing

  function Joined<T>(xs: seq<T>, bytes: T -> seq<Byte>): seq<Byte> {
    if xs == [] then [] else bytes(xs[0]) + Joined(xs[1..], bytes)
  }

  /** Containers are written with indefinite length. */
  function ArrayBytes(content: seq<Byte>): seq<Byte> { [OPEN_ARRAY] + (content + [BREAK]) }

  function MapBytes(content: seq<Byte>): seq<Byte> { [OPEN_MAP] + (content + [BREAK]) }

  function EntryBytes(e: Entry): seq<Byte> { TextBytes(e.key) + TextBytes(e.value) }

  function ValueBytes(v: CborValue): seq<Byte> {
    match v
    case IntC(i) => Int32Bytes(i)
    case FloatC(d) => Float64Bytes(d)
    case TextC(t) => TextBytes(t)
    case BoolC(b) => BoolBytes(b)
    case IntListC(ints) => ArrayBytes(Joined(ints, Int32Bytes))
    case TextListC(texts) => ArrayBytes(Joined(texts, TextBytes))
    case MapC(entries) => MapBytes(Joined(entries, EntryBytes))
  }

  function PropertyBytes(x: Property): seq<Byte> { TextBytes(x.key) + ValueBytes(x.value) }

  function PropertiesBytes(x: Option<seq<Property>>): seq<Byte> {
    match x case Some(entries) => MapBytes(Joined(entries, PropertyBytes)) case None => []
  }

  function GridFields(g: Grid): seq<Byte> {
    BoolBytes(g.snap) + (Uint32Bytes(g.width) + (Uint32Bytes(g.height) + Uint32Bytes(g.spacing)))
  }

  function GridBytes(g: Grid): seq<Byte> { ArrayBytes(GridFields(g)) }

  function PositionBytes(x: Position): seq<Byte> { ArrayBytes(Int32Bytes(x.x) + Int32Bytes(x.y)) }

  function SizeBytes(x: Size): seq<Byte> { ArrayBytes(Uint32Bytes(x.width) + Uint32Bytes(x.height)) }

  function RouteBytes(x: Binding): seq<Byte> {
    Uint32Bytes(x.target) + (Uint32Bytes(x.channel) + (Uint32Bytes(x.eventType) + (Uint32Bytes(x.payloadKey)
    + (Uint32Bytes(x.direction) + Uint32Bytes(x.outboundEventType)))))
  }

  function SelectorBytes(x: Binding): seq<Byte> {
    BoolBytes(x.hasSelector) + (Uint32Bytes(x.selectorKey) + ValueBytes(x.selectorValue))
  }

  function BindingBytes(x: Binding): seq<Byte> { ArrayBytes(RouteBytes(x) + SelectorBytes(x)) }

  function WidgetHead(x: Widget): seq<Byte> {
    Uint32Bytes(x.kind) + (Uint32Bytes(x.id) + (PositionBytes(x.position) + (SizeBytes(x.size) + Int32Bytes(x.zIndex))))
  }

  function WidgetTail(x: Widget): seq<Byte> {
    PropertiesBytes(x.properties) + ArrayBytes(Joined(x.bindings, BindingBytes))
  }

  function WidgetBytes(x: Widget): seq<Byte> { ArrayBytes(WidgetHead(x) + WidgetTail(x)) }

  function ScreenHead(x: Screen): seq<Byte> {
    Uint32Bytes(x.id) + (Uint32Bytes(x.groupId) + (Uint32Bytes(x.kind) + (Int32Bytes(x.zIndex)
    + (BoolBytes(x.isVisible) + (BoolBytes(x.isOverlay) + GridBytes(x.grid))))))
  }

  function ScreenTail(x: Screen): seq<Byte> { ArrayBytes(Joined(x.widgets, WidgetBytes)) }

  function ScreenBytes(x: Screen): seq<Byte> { ArrayBytes(ScreenHead(x) + ScreenTail(x)) }

  function UiTail(x: Ui): seq<Byte> { PropertiesBytes(x.properties) + ArrayBytes(Joined(x.screens, ScreenBytes)) }

  function UiFields(x: Ui): seq<Byte> { Uint32Bytes(x.version) + (Uint32Bytes(x.activeGroup) + UiTail(x)) }

  function UiBytes(x: Ui): seq<Byte> { ArrayBytes(UiFields(x)) }

  // ---------------------------------------------------------------- what it looks like

  /** Section 3.2.2 of RFC 8949: the bytes that open and close arrays and maps of indefinite length. */
  lemma ContainersAreStandard(content: seq<Byte>)
    ensures ArrayBytes(content) == [0x9f] + content + [0xff]
    ensures MapBytes(content) == [0xbf] + content + [0xff]
  {
  }

  /** Small numbers are single bytes, so they show where each field of a record stands. */
  lemma Small(n: nat)
    requires n < 24
    ensures Uint32Bytes(n) == Int32Bytes(n) == [n]
  {
  }

  lemma BindingLayout(x: Binding)
    requires x.target < 24 && x.channel < 24 && x.eventType < 24 && x.payloadKey < 24 && x.direction < 24
    requires x.outboundEventType < 24 && x.selectorKey < 24
    ensures BindingBytes(x)
            == [0x9f, x.target, x.channel, x.eventType, x.payloadKey, x.direction, x.outboundEventType,
                if x.hasSelector then 0xf5 else 0xf4, x.selectorKey]
               + ValueBytes(x.selectorValue) + [0xff]
  {
    assert RouteBytes(x) == [x.target, x.channel, x.eventType, x.payloadKey, x.direction, x.outboundEventType] by {
      Small(x.target);
      Small(x.channel);
      Small(x.eventType);
      Small(x.payloadKey);
      Small(x.direction);
      Small(x.outboundEventType);
    }
    Small(x.selectorKey);
  }

  lemma PlaceLayout(x: Widget)
    requires 0 <= x.position.x < 24 && 0 <= x.position.y < 24 && x.size.width < 24 && x.size.height < 24
    ensures PositionBytes(x.position) == [0x9f, x.position.x, x.position.y, 0xff]
    ensures SizeBytes(x.size) == [0x9f, x.size.width, x.size.height, 0xff]
  {
    Small(x.position.x);
    Small(x.position.y);
    Small(x.size.width);
    Small(x.size.height);
  }

  lemma TwoSmall(a: nat, b: nat, rest: seq<Byte>)
    requires a < 24 && b < 24
    ensures Uint32Bytes(a) + (Uint32Bytes(b) + rest) == [a, b] + rest
  {
    Small(a);
    Small(b);
  }

  lemma WidgetLayout(x: Widget)
    requires x.kind < 24 && x.id < 24 && 0 <= x.zIndex < 24
    requires 0 <= x.position.x < 24 && 0 <= x.position.y < 24 && x.size.width < 24 && x.size.height < 24
    ensures WidgetBytes(x)
            == [0x9f] + [x.kind, x.id] + [0x9f, x.position.x, x.position.y, 0xff]
               + [0x9f, x.size.width, x.size.height, 0xff] + [x.zIndex]
               + PropertiesBytes(x.properties) + ArrayBytes(Joined(x.bindings, BindingBytes)) + [0xff]
  {
    var at, size := PositionBytes(x.position), SizeBytes(x.size);
    PlaceLayout(x);
    Small(x.zIndex);
    TwoSmall(x.kind, x.id, at + (size + [x.zIndex]));
    OutOfBrackets([0x9f], [x.kind, x.id], at, size, [x.zIndex], PropertiesBytes(x.properties),
                  ArrayBytes(Joined(x.bindings, BindingBytes)), [0xff]);
  }

  lemma OutOfBrackets(a: seq<Byte>, b: seq<Byte>, c: seq<Byte>, d: seq<Byte>, e: seq<Byte>, f: seq<Byte>,
                      g: seq<Byte>, h: seq<Byte>)
    ensures a + (((b + (c + (d + e))) + (f + g)) + h) == a + b + c + d + e + f + g + h
  {
  }

  lemma GridLayout(g: Grid)
    requires g.width < 24 && g.height < 24 && g.spacing < 24
    ensures GridBytes(g) == [0x9f, if g.snap then 0xf5 else 0xf4, g.width, g.height, g.spacing, 0xff]
  {
    Small(g.width);
    Small(g.height);
    Small(g.spacing);
  }

  lemma FourSmall(a: nat, b: nat, c: nat, d: nat, rest: seq<Byte>)
    requires a < 24 && b < 24 && c < 24 && d < 24
    ensures Uint32Bytes(a) + (Uint32Bytes(b) + (Uint32Bytes(c) + (Int32Bytes(d) + rest))) == [a, b, c, d] + rest
  {
    Small(a);
    Small(b);
    Small(c);
    Small(d);
  }

  lemma Flags(a: bool, b: bool, rest: seq<Byte>)
    ensures BoolBytes(a) + (BoolBytes(b) + rest) == [if a then 0xf5 else 0xf4, if b then 0xf5 else 0xf4] + rest
  {
  }

  lemma Unfolded(a: seq<Byte>, b: seq<Byte>, c: seq<Byte>, d: seq<Byte>, e: seq<Byte>, f: seq<Byte>)
    ensures a + (b + (c + d) + e + f) == a + b + c + d + e + f
  {
  }

  lemma ScreenLayout(x: Screen)
    requires x.id < 24 && x.groupId < 24 && x.kind < 24 && 0 <= x.zIndex < 24
    ensures ScreenBytes(x)
            == [0x9f] + [x.id, x.groupId, x.kind, x.zIndex]
               + [if x.isVisible then 0xf5 else 0xf4, if x.isOverlay then 0xf5 else 0xf4]
               + GridBytes(x.grid) + ArrayBytes(Joined(x.widgets, WidgetBytes)) + [0xff]
  {
    var flags := [if x.isVisible then 0xf5 else 0xf4, if x.isOverlay then 0xf5 else 0xf4];
    Flags(x.isVisible, x.isOverlay, GridBytes(x.grid));
    FourSmall(x.id, x.groupId, x.kind, x.zIndex, flags + GridBytes(x.grid));
    Unfolded([0x9f], [x.id, x.groupId, x.kind, x.zIndex], flags, GridBytes(x.grid), ScreenTail(x), [0xff]);
  }

  lemma UiLayout(x: Ui)
    requires x.version < 24 && x.activeGroup < 24
    ensures UiBytes(x) == [0x9f, x.version, x.activeGroup] + PropertiesBytes(x.properties)
                          + ArrayBytes(Joined(x.screens, ScreenBytes)) + [0xff]
  {
    Small(x.version);
    Small(x.activeGroup);
  }

  /** A value says by its initial byte which of the seven kinds it is, and a property has its key in front. */
  lemma ValueLayout(x: Property)
    ensures PropertyBytes(x) == TextBytes(x.key) + ValueBytes(x.value)
    ensures
      match x.value
      case IntC(i) => ValueBytes(x.value) == Int32Bytes(i)
      case FloatC(d) => ValueBytes(x.value) == [0xfb] + d
      case TextC(t) => ValueBytes(x.value) == TextBytes(t)
      case BoolC(b) => ValueBytes(x.value) == [if b then 0xf5 else 0xf4]
      case IntListC(_) => ValueBytes(x.value)[0] == 0x9f
      case TextListC(_) => ValueBytes(x.value)[0] == 0x9f
      case MapC(_) => ValueBytes(x.value)[0] == 0xbf
  {
  }

  // ---------------------------------------------------------------- reading

  /** Closes a record whose fields were read, or gives it up. */
  function Finished<T>(p: seq<Byte>, fields: Read<T>): (r: Read<T>)
    ensures r.value.Some? ==> fields.value.Some? && fields.state.pos <= r.state.pos
    ensures r.value.Some? && fields.state.pos <= |p| ==> r.state.pos <= |p|
  {
    if fields.value.None? then Read(None, ForceEnd(fields.state))
    else
      var end := End(p, fields.state);
      Read(if end.value.Some? then fields.value else None, end.state)
  }

  /** A container of items of one kind; an item that fails gives it up. */
  function Listed<T>(p: seq<Byte>, s: State, major: nat, one: State -> Read<T>): (r: Read<seq<T>>)
    requires forall t :: one(t).value.Some? ==> t.pos < one(t).state.pos <= |p|
    ensures r.value.Some? ==> s.pos < r.state.pos <= |p|
  {
    var start := Start(p, s, major);
    if start.value.None? then Read(None, start.state) else Finished(p, Many(p, start.state, one))
  }

  function IntReader(p: seq<Byte>): State -> Read<Int32> { t => ReadInt32(p, t) }

  function TextReader(p: seq<Byte>): State -> Read<Text> { t => ReadText(p, t) }

  function ReadEntry(p: seq<Byte>, s: State): (r: Read<Entry>)
    ensures r.value.Some? ==> s.pos < r.state.pos <= |p|
  {
    var (key, s1) :- ReadText(p, s);
    var (value, s2) :- ReadText(p, s1);
    Read(Some(Entry(key, value)), s2)
  }

  function EntryReader(p: seq<Byte>): State -> Read<Entry> { t => ReadEntry(p, t) }

  /** The alternatives in order, each from the same state; the first that succeeds is taken. */
  function ReadValue(p: seq<Byte>, s: State): (r: Read<CborValue>)
    ensures r.value.Some? ==> s.pos < r.state.pos <= |p|
  {
    var i := ReadInt32(p, s);
    if i.value.Some? then Read(Some(IntC(i.value.value)), i.state)
    else
      var d := ReadFloat64(p, s);
      if d.value.Some? then Read(Some(FloatC(d.value.value)), d.state)
      else
        var t := ReadText(p, s);
        if t.value.Some? then Read(Some(TextC(t.value.value)), t.state)
        else
          var b := ReadBool(p, s);
          if b.value.Some? then Read(Some(BoolC(b.value.value)), b.state)
          else ReadContainer(p, s)
  }

  function ReadContainer(p: seq<Byte>, s: State): (r: Read<CborValue>)
    ensures r.value.Some? ==> s.pos < r.state.pos <= |p|
  {
    var ints := Listed(p, s, ARRAY, IntReader(p));
    if ints.value.Some? then Read(Some(IntListC(ints.value.value)), ints.state)
    else
      var texts := Listed(p, s, ARRAY, TextReader(p));
      if texts.value.Some? then Read(Some(TextListC(texts.value.value)), texts.state)
      else
        var entries := Listed(p, s, MAP, EntryReader(p));
        Read(if entries.value.Some? then Some(MapC(entries.value.value)) else None, entries.state)
  }

  function ReadProperty(p: seq<Byte>, s: State): (r: Read<Property>)
    ensures r.value.Some? ==> s.pos < r.state.pos <= |p|
  {
    var (key, s1) :- ReadText(p, s);
    var (value, s2) :- ReadValue(p, s1);
    Read(Some(Property(key, value)), s2)
  }

  function PropertyReader(p: seq<Byte>): State -> Read<Property> { t => ReadProperty(p, t) }

  /** Properties that fail to open leave the cursor; properties that fail inside are given up and closed once more. */
  function ReadProperties(p: seq<Byte>, s: State): Read<seq<Property>> {
    var start := Start(p, s, MAP);
    if start.value.None? then Read(None, start.state)
    else
      var entries := Many(p, start.state, PropertyReader(p));
      if entries.value.None? then Read(None, End(p, ForceEnd(entries.state)).state)
      else
        var end := End(p, entries.state);
        Read(if end.value.Some? then entries.value else None, end.state)
  }

  function ReadGridFields(p: seq<Byte>, s: State): (r: Read<Grid>)
    ensures r.value.Some? ==> s.pos < r.state.pos <= |p|
  {
    var (snap, s1) :- ReadBool(p, s);
    var (width, s2) :- ReadUint32(p, s1);
    var (height, s3) :- ReadUint32(p, s2);
    var (spacing, s4) :- ReadUint32(p, s3);
    Read(Some(Grid(snap, width, height, spacing)), s4)
  }

  function ReadGrid(p: seq<Byte>, s: State): (r: Read<Grid>)
    ensures r.value.Some? ==> s.pos < r.state.pos <= |p|
  {
    var start := Start(p, s, ARRAY);
    if start.value.None? then Read(None, start.state) else Finished(p, ReadGridFields(p, start.state))
  }

  function ReadPositionFields(p: seq<Byte>, s: State): (r: Read<Position>)
    ensures r.value.Some? ==> s.pos < r.state.pos <= |p|
  {
    var (x, s1) :- ReadInt32(p, s);
    var (y, s2) :- ReadInt32(p, s1);
    Read(Some(Position(x, y)), s2)
  }

  function ReadPosition(p: seq<Byte>, s: State): (r: Read<Position>)
    ensures r.value.Some? ==> s.pos < r.state.pos <= |p|
  {
    var start := Start(p, s, ARRAY);
    if start.value.None? then Read(None, start.state) else Finished(p, ReadPositionFields(p, start.state))
  }

  function ReadSizeFields(p: seq<Byte>, s: State): (r: Read<Size>)
    ensures r.value.Some? ==> s.pos < r.state.pos <= |p|
  {
    var (width, s1) :- ReadUint32(p, s);
    var (height, s2) :- ReadUint32(p, s1);
    Read(Some(Size(width, height)), s2)
  }

  function ReadSize(p: seq<Byte>, s: State): (r: Read<Size>)
    ensures r.value.Some? ==> s.pos < r.state.pos <= |p|
  {
    var start := Start(p, s, ARRAY);
    if start.value.None? then Read(None, start.state) else Finished(p, ReadSizeFields(p, start.state))
  }

  /** The six numbers a binding begins with. */
  datatype Route = Route(target: Uint32, channel: Uint32, eventType: Uint32, payloadKey: Uint32, direction: Uint32,
                         outboundEventType: Uint32)

  function ReadRoute(p: seq<Byte>, s: State): (r: Read<Route>)
    ensures r.value.Some? ==> s.pos < r.state.pos <= |p|
  {
    var (target, s1) :- ReadUint32(p, s);
    var (channel, s2) :- ReadUint32(p, s1);
    var (eventType, s3) :- ReadUint32(p, s2);
    var (payloadKey, s4) :- ReadUint32(p, s3);
    var (direction, s5) :- ReadUint32(p, s4);
    var (outboundEventType, s6) :- ReadUint32(p, s5);
    Read(Some(Route(target, channel, eventType, payloadKey, direction, outboundEventType)), s6)
  }

  function ReadBindingFields(p: seq<Byte>, s: State): (r: Read<Binding>)
    ensures r.value.Some? ==> s.pos < r.state.pos <= |p|
  {
    var (route, s1) :- ReadRoute(p, s);
    var (hasSelector, s2) :- ReadBool(p, s1);
    var (selectorKey, s3) :- ReadUint32(p, s2);
    var (selectorValue, s4) :- ReadValue(p, s3);
    Read(Some(Binding(route.target, route.channel, route.eventType, route.payloadKey, route.direction,
                      route.outboundEventType, hasSelector, selectorKey, selectorValue)), s4)
  }

  function ReadBinding(p: seq<Byte>, s: State): (r: Read<Binding>)
    ensures r.value.Some? ==> s.pos < r.state.pos <= |p|
  {
    var start := Start(p, s, ARRAY);
    if start.value.None? then Read(None, start.state) else Finished(p, ReadBindingFields(p, start.state))
  }

  function BindingReader(p: seq<Byte>): State -> Read<Binding> { t => ReadBinding(p, t) }

  // ---------------------------------------------------------------- records with lists inside

  /** A field that fails closes the record it belongs to, as far as that works. */
  function Closing<T>(p: seq<Byte>, r: Read<T>): (c: Read<T>)
    ensures c.value == r.value && (r.value.Some? ==> c.state == r.state)
  {
    if r.value.None? then Read(None, End(p, r.state).state) else r
  }

  /** The list at the end of a record. An item that fails gives up the list and closes twice. */
  function Nested<T>(p: seq<Byte>, s: State, one: State -> Read<T>): (r: Read<seq<T>>)
    requires forall t :: one(t).value.Some? ==> t.pos < one(t).state.pos <= |p|
    ensures r.value.Some? ==> s.pos < r.state.pos <= |p|
  {
    var start := Start(p, s, ARRAY);
    if start.value.None? then Closing(p, Read(None, start.state))
    else
      var items := Many(p, start.state, one);
      if items.value.None? then Closing(p, Closing(p, Read(None, ForceEnd(items.state))))
      else
        var end := End(p, items.state);
        if end.value.None? then Closing(p, Read(None, end.state)) else Read(items.value, end.state)
  }

  /** The last close of a record. */
  function Closed<T>(p: seq<Byte>, r: Read<T>): (c: Read<T>)
    ensures c.value.Some? ==> r.value.Some? && r.state.pos <= c.state.pos
    ensures c.value.Some? && r.state.pos <= |p| ==> c.state.pos <= |p|
  {
    if r.value.None? then r
    else
      var end := End(p, r.state);
      Read(if end.value.Some? then r.value else None, end.state)
  }

  datatype WidgetStart = WidgetStart(kind: Uint32, id: Uint32, position: Position, size: Size, zIndex: Int32)

  function ReadWidgetStart(p: seq<Byte>, s: State): (r: Read<WidgetStart>)
    ensures r.value.Some? ==> s.pos < r.state.pos <= |p|
  {
    var (kind, s1) :- Closing(p, ReadUint32(p, s));
    var (id, s2) :- Closing(p, ReadUint32(p, s1));
    var (position, s3) :- Closing(p, ReadPosition(p, s2));
    var (size, s4) :- Closing(p, ReadSize(p, s3));
    var (zIndex, s5) :- Closing(p, ReadInt32(p, s4));
    Read(Some(WidgetStart(kind, id, position, size, zIndex)), s5)
  }

  function ReadWidgetFields(p: seq<Byte>, s: State): (r: Read<Widget>)
    ensures r.value.Some? ==> s.pos < r.state.pos <= |p|
  {
    var (start, s1) :- ReadWidgetStart(p, s);
    var properties := ReadProperties(p, s1);
    PropertiesMoveOn(p, s1);
    var (bindings, s2) :- Nested(p, properties.state, BindingReader(p));
    Read(Some(Widget(start.kind, start.id, start.position, start.size, start.zIndex, properties.value, bindings)), s2)
  }

  function ReadWidget(p: seq<Byte>, s: State): (r: Read<Widget>)
    ensures r.value.Some? ==> s.pos < r.state.pos <= |p|
  {
    var start := Start(p, s, ARRAY);
    if start.value.None? then Read(None, start.state) else Closed(p, ReadWidgetFields(p, start.state))
  }

  function WidgetReader(p: seq<Byte>): State -> Read<Widget> { t => ReadWidget(p, t) }

  datatype ScreenStart = ScreenStart(id: Uint32, groupId: Uint32, kind: Uint32, zIndex: Int32, isVisible: bool,
                                     isOverlay: bool)

  function ReadScreenStart(p: seq<Byte>, s: State): (r: Read<ScreenStart>)
    ensures r.value.Some? ==> s.pos < r.state.pos <= |p|
  {
    var (id, s1) :- Closing(p, ReadUint32(p, s));
    var (groupId, s2) :- Closing(p, ReadUint32(p, s1));
    var (kind, s3) :- Closing(p, ReadUint32(p, s2));
    var (zIndex, s4) :- Closing(p, ReadInt32(p, s3));
    var (isVisible, s5) :- Closing(p, ReadBool(p, s4));
    var (isOverlay, s6) :- Closing(p, ReadBool(p, s5));
    Read(Some(ScreenStart(id, groupId, kind, zIndex, isVisible, isOverlay)), s6)
  }

  function ReadScreenFields(p: seq<Byte>, s: State): (r: Read<Screen>)
    ensures r.value.Some? ==> s.pos < r.state.pos <= |p|
  {
    var (start, s1) :- ReadScreenStart(p, s);
    var (grid, s2) :- Closing(p, ReadGrid(p, s1));
    var (widgets, s3) :- Nested(p, s2, WidgetReader(p));
    Read(Some(Screen(start.id, start.groupId, start.kind, start.zIndex, start.isVisible, start.isOverlay, grid,
                     widgets)), s3)
  }

  function ReadScreen(p: seq<Byte>, s: State): (r: Read<Screen>)
    ensures r.value.Some? ==> s.pos < r.state.pos <= |p|
  {
    var start := Start(p, s, ARRAY);
    if start.value.None? then Read(None, start.state) else Closed(p, ReadScreenFields(p, start.state))
  }

  function ScreenReader(p: seq<Byte>): State -> Read<Screen> { t => ReadScreen(p, t) }

  function ReadUiFields(p: seq<Byte>, s: State): Read<Ui> {
    var (version, s1) :- Closing(p, ReadUint32(p, s));
    var (activeGroup, s2) :- Closing(p, ReadUint32(p, s1));
    var properties := ReadProperties(p, s2);
    var (screens, s3) :- Nested(p, properties.state, ScreenReader(p));
    Read(Some(Ui(version, activeGroup, properties.value, screens)), s3)
  }

  function ReadUi(p: seq<Byte>, s: State): Read<Ui> {
    var start := Start(p, s, ARRAY);
    if start.value.None? then Read(None, start.state) else Closed(p, ReadUiFields(p, start.state))
  }

  /** The whole payload: one item; the state says how much of it was read. */
  function Decode(p: seq<Byte>): Read<Ui> {
    ReadUi(p, State(0, Some(1), []))
  }

  // ---------------------------------------------------------------- properties never move the cursor back

  lemma {:induction false} ManyKeepsBackups<T>(p: seq<Byte>, s: State, one: State -> Read<T>)
    requires forall t :: one(t).value.Some? ==> t.pos < one(t).state.pos <= |p|
    requires KeepsBackups(one)
    ensures Many(p, s, one).state.backups == s.backups
    decreases |p| - s.pos
  {
    if !AtEnd(p, s) && one(s).value.Some? {
      ManyKeepsBackups(p, one(s).state, one);
    }
  }

  lemma ListedKeepsBackups<T>(p: seq<Byte>, s: State, major: nat, one: State -> Read<T>)
    requires forall t :: one(t).value.Some? ==> t.pos < one(t).state.pos <= |p|
    requires KeepsBackups(one)
    ensures Listed(p, s, major, one).state.backups == s.backups
  {
    var start := Start(p, s, major);
    if start.value.Some? {
      ManyKeepsBackups(p, start.state, one);
    }
  }

  lemma IntsKeepBackups(p: seq<Byte>, s: State)
    ensures Listed(p, s, ARRAY, IntReader(p)).state.backups == s.backups
  {
    ListedKeepsBackups(p, s, ARRAY, IntReader(p));
  }

  lemma TextsKeepBackups(p: seq<Byte>, s: State)
    ensures Listed(p, s, ARRAY, TextReader(p)).state.backups == s.backups
  {
    ListedKeepsBackups(p, s, ARRAY, TextReader(p));
  }

  lemma EntriesKeepBackups(p: seq<Byte>, s: State)
    ensures Listed(p, s, MAP, EntryReader(p)).state.backups == s.backups
  {
    ListedKeepsBackups(p, s, MAP, EntryReader(p));
  }

  lemma PropertyKeepsBackups(p: seq<Byte>, s: State)
    ensures ReadProperty(p, s).state.backups == s.backups
  {
    var key := ReadText(p, s);
    if key.value.Some? {
      IntsKeepBackups(p, key.state);
      TextsKeepBackups(p, key.state);
      EntriesKeepBackups(p, key.state);
    }
  }

  lemma PropertiesMoveOn(p: seq<Byte>, s: State)
    ensures s.pos <= |p| ==> s.pos <= ReadProperties(p, s).state.pos <= |p|
  {
    var start := Start(p, s, MAP);
    if start.value.Some? {
      forall t: State ensures ReadProperty(p, t).state.backups == t.backups {
        PropertyKeepsBackups(p, t);
      }
      ManyKeepsBackups(p, start.state, PropertyReader(p));
    }
  }
}
