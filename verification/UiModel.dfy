/** The UI configuration: screens of widgets with their properties and bindings. */
module UiModel {
  import opened Common

  /** A string of bytes; its length fits the 32-bit size type of the firmware. */
  type Text = t: seq<Byte> | |t| < 0x1_0000_0000

  /** A double by the eight bytes of its pattern, most significant first; nothing here computes with it. */
  type Float64 = b: seq<Byte> | |b| == 8 witness [0, 0, 0, 0, 0, 0, 0, 0]

  datatype ConfigValue =
    | Unset
    | IntValue(i: Int32)
    | DoubleValue(d: Float64)
    | TextValue(t: Text)
    | BoolValue(b: bool)
    | IntListValue(ints: seq<Int32>)
    | TextListValue(texts: seq<Text>)
    | TextMapValue(entries: map<Text, Text>)

  /** The place of a value's type in the variant. */
  function Alternative(v: ConfigValue): nat {
    match v
    case Unset => 0
    case IntValue(_) => 1
    case DoubleValue(_) => 2
    case TextValue(_) => 3
    case BoolValue(_) => 4
    case IntListValue(_) => 5
    case TextListValue(_) => 6
    case TextMapValue(_) => 7
  }

  /** No two kinds of value have one place. */
  lemma KindsHaveTheirPlaces(v: ConfigValue)
    ensures v == Unset <==> Alternative(v) == 0
    ensures v.IntValue? || v.DoubleValue? || v.TextValue? || v.BoolValue? <==> 1 <= Alternative(v) <= 4
    ensures v.IntListValue? <==> Alternative(v) == 5
    ensures v.TextListValue? <==> Alternative(v) == 6
    ensures v.TextMapValue? <==> Alternative(v) == 7
  {
  }

  type Uint16 = x: int | 0 <= x < 0x1_0000

  /** Enumerations are kept as their numbers, since nothing keeps a stored number in range. */
  datatype PropertyBinding = PropertyBinding(target: Uint16, channel: Uint32, eventType: Uint32, payloadKey: Uint32,
                                             direction: Uint32, outboundEventType: Uint32, selectorKey: Uint32,
                                             selectorValue: ConfigValue)

  datatype GridPosition = GridPosition(x: Int32, y: Int32)

  datatype GridSize = GridSize(width: Uint32, height: Uint32)

  datatype GridSettings = GridSettings(snapEnabled: bool, width: Uint32, height: Uint32, spacing: Uint32)

  datatype WidgetConfiguration = WidgetConfiguration(kind: Uint32, id: Uint32, position: GridPosition, size: GridSize,
                                                     zIndex: Int32, properties: map<Text, ConfigValue>,
                                                     bindings: seq<PropertyBinding>)

  datatype ScreenConfiguration = ScreenConfiguration(id: Uint32, groupId: Uint32, kind: Uint32, zIndex: Int32,
                                                     isVisible: bool, isOverlay: bool, grid: GridSettings,
                                                     widgets: seq<WidgetConfiguration>)

  datatype UiConfiguration = UiConfiguration(activeGroup: Uint32, properties: map<Text, ConfigValue>,
                                             screens: seq<ScreenConfiguration>)
}
