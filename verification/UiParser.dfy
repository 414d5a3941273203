/** UiConfigurationCborParser: from the model to the persisted records and back. */
module UiParser {
  import C = CborConfig
  import R = CborRoundTrip
  import opened Common
  import opened UiModel
  import opened UiValidator
  import opened WidgetOrder

  const CONFIGURATION_VERSION: Uint32 := 1

  /** A result, or what was thrown. */
  datatype Parsed<+T> = Ok(value: T) | Refused(problem: Problem) | UnsupportedVersion | UnsupportedValue

  // ---------------------------------------------------------------- to the records, in any order a map may have

  /** The entries are those of the map, each once. */
  ghost predicate IsEntries(es: seq<C.Entry>, m: map<Text, Text>) {
    if es == [] then m == map[]
    else es[0].key in m && m[es[0].key] == es[0].value && IsEntries(es[1..], m - {es[0].key})
  }

  ghost predicate Renders(v: ConfigValue, c: C.CborValue) {
    match v
    case Unset => false
    case IntValue(i) => c == C.IntC(i)
    case DoubleValue(d) => c == C.FloatC(d)
    case TextValue(t) => c == C.TextC(t)
    case BoolValue(b) => c == C.BoolC(b)
    case IntListValue(ints) => c == C.IntListC(ints)
    case TextListValue(texts) => c == C.TextListC(texts)
    case TextMapValue(m) => c.MapC? && IsEntries(c.entries, m)
  }

  ghost predicate IsProperties(ps: seq<C.Property>, m: map<Text, ConfigValue>) {
    if ps == [] then m == map[]
    else ps[0].key in m && Renders(m[ps[0].key], ps[0].value) && IsProperties(ps[1..], m - {ps[0].key})
  }

  /** No properties are absent properties. */
  ghost predicate RendersProperties(m: map<Text, ConfigValue>, x: Option<seq<C.Property>>) {
    if m == map[] then x == None else x.Some? && IsProperties(x.value, m)
  }

  /** An absent selector is written as the number 0, for want of a null. */
  ghost predicate RendersBinding(b: PropertyBinding, x: C.Binding) {
    x == C.Binding(b.target, b.channel, b.eventType, b.payloadKey, b.direction, b.outboundEventType,
                   !b.selectorValue.Unset?, b.selectorKey, x.selectorValue)
    && if b.selectorValue.Unset? then x.selectorValue == C.IntC(0) else Renders(b.selectorValue, x.selectorValue)
  }

  ghost predicate RendersBindings(bs: seq<PropertyBinding>, xs: seq<C.Binding>) {
    |xs| == |bs| && forall i :: 0 <= i < |bs| ==> RendersBinding(bs[i], xs[i])
  }

  ghost predicate RendersWidget(w: WidgetConfiguration, x: C.Widget) {
    x == C.Widget(w.kind, w.id, C.Position(w.position.x, w.position.y), C.Size(w.size.width, w.size.height), w.zIndex,
                  x.properties, x.bindings)
    && RendersProperties(w.properties, x.properties) && RendersBindings(w.bindings, x.bindings)
  }

  ghost predicate RendersWidgets(ws: seq<WidgetConfiguration>, xs: seq<C.Widget>) {
    |xs| == |ws| && forall i :: 0 <= i < |ws| ==> RendersWidget(ws[i], xs[i])
  }

  ghost predicate RendersScreen(s: ScreenConfiguration, x: C.Screen) {
    x == C.Screen(s.id, s.groupId, s.kind, s.zIndex, s.isVisible, s.isOverlay,
                  C.Grid(s.grid.snapEnabled, s.grid.width, s.grid.height, s.grid.spacing), x.widgets)
    && RendersWidgets(s.widgets, x.widgets)
  }

  ghost predicate RendersScreens(ss: seq<ScreenConfiguration>, xs: seq<C.Screen>) {
    |xs| == |ss| && forall i :: 0 <= i < |ss| ==> RendersScreen(ss[i], xs[i])
  }

  ghost predicate RendersUi(c: UiConfiguration, x: C.Ui) {
    x == C.Ui(CONFIGURATION_VERSION, c.activeGroup, x.properties, x.screens)
    && RendersProperties(c.properties, x.properties) && RendersScreens(c.screens, x.screens)
  }

  // ---------------------------------------------------------------- from the records

  /** Entries inserted one by one: the first of a key stays. */
  function EntryMap(es: seq<C.Entry>): map<Text, Text> {
    if es == [] then map[] else EntryMap(es[1..])[es[0].key := es[0].value]
  }

  function FromCborValue(c: C.CborValue): ConfigValue {
    match c
    case IntC(i) => IntValue(i)
    case FloatC(d) => DoubleValue(d)
    case TextC(t) => TextValue(t)
    case BoolC(b) => BoolValue(b)
    case IntListC(ints) => IntListValue(ints)
    case TextListC(texts) => TextListValue(texts)
    case MapC(entries) => TextMapValue(EntryMap(entries))
  }

  function PropertyMap(ps: seq<C.Property>): map<Text, ConfigValue> {
    if ps == [] then map[] else PropertyMap(ps[1..])[ps[0].key := FromCborValue(ps[0].value)]
  }

  function FromCborProperties(x: Option<seq<C.Property>>): map<Text, ConfigValue> {
    match x case Some(ps) => PropertyMap(ps) case None => map[]
  }

  /** The target is cast to its 16-bit type. */
  function FromCborBinding(x: C.Binding): PropertyBinding {
    PropertyBinding(x.target % 0x1_0000, x.channel, x.eventType, x.payloadKey, x.direction, x.outboundEventType,
                    x.selectorKey, if x.hasSelector then FromCborValue(x.selectorValue) else Unset)
  }

  function FromCborWidget(x: C.Widget): WidgetConfiguration {
    WidgetConfiguration(x.kind, x.id, GridPosition(x.position.x, x.position.y), GridSize(x.size.width, x.size.height),
                        x.zIndex, FromCborProperties(x.properties), R.Mapped(x.bindings, FromCborBinding))
  }

  function FromCborScreen(x: C.Screen): ScreenConfiguration {
    ScreenConfiguration(x.id, x.groupId, x.kind, x.zIndex, x.isVisible, x.isOverlay,
                        GridSettings(x.grid.snap, x.grid.width, x.grid.height, x.grid.spacing),
                        Added(R.Mapped(x.widgets, FromCborWidget)))
  }

  function FromCborUi(x: C.Ui): UiConfiguration {
    UiConfiguration(x.activeGroup, FromCborProperties(x.properties), R.Mapped(x.screens, FromCborScreen))
  }

  function Deserialized(x: C.Ui): Parsed<UiConfiguration> {
    if x.version != CONFIGURATION_VERSION then UnsupportedVersion
    else
      var c := FromCborUi(x);
      match Verdict(c) case Some(problem) => Refused(problem) case None => Ok(c)
  }

  // ---------------------------------------------------------------- field by field

  lemma BindingFields(b: PropertyBinding, x: C.Binding, y: C.Binding)
    requires RendersBinding(b, x)
    ensures x.target == b.target && x.channel == b.channel && x.eventType == b.eventType
    ensures x.payloadKey == b.payloadKey && x.direction == b.direction && x.outboundEventType == b.outboundEventType
    ensures x.selectorKey == b.selectorKey && (x.hasSelector <==> b.selectorValue != Unset)
    ensures
      var r := FromCborBinding(y);
      && (y.target < 65536 ==> r.target == y.target) && r.channel == y.channel && r.eventType == y.eventType
      && r.payloadKey == y.payloadKey && r.direction == y.direction && r.outboundEventType == y.outboundEventType
      && r.selectorKey == y.selectorKey && (!y.hasSelector ==> r.selectorValue == Unset)
  {
  }

  lemma WidgetFields(w: WidgetConfiguration, x: C.Widget, y: C.Widget)
    requires RendersWidget(w, x)
    ensures x.kind == w.kind && x.id == w.id && x.zIndex == w.zIndex
    ensures x.position.x == w.position.x && x.position.y == w.position.y
    ensures x.size.width == w.size.width && x.size.height == w.size.height
    ensures
      var r := FromCborWidget(y);
      && r.kind == y.kind && r.id == y.id && r.zIndex == y.zIndex
      && r.position.x == y.position.x && r.position.y == y.position.y
      && r.size.width == y.size.width && r.size.height == y.size.height
  {
  }

  lemma ScreenFields(s: ScreenConfiguration, x: C.Screen, y: C.Screen)
    requires RendersScreen(s, x)
    ensures x.id == s.id && x.groupId == s.groupId && x.kind == s.kind && x.zIndex == s.zIndex
    ensures x.isVisible == s.isVisible && x.isOverlay == s.isOverlay && x.grid.snap == s.grid.snapEnabled
    ensures x.grid.width == s.grid.width && x.grid.height == s.grid.height && x.grid.spacing == s.grid.spacing
    ensures
      var r := FromCborScreen(y);
      && r.id == y.id && r.groupId == y.groupId && r.kind == y.kind && r.zIndex == y.zIndex
      && r.isVisible == y.isVisible && r.isOverlay == y.isOverlay && r.grid.snapEnabled == y.grid.snap
      && r.grid.width == y.grid.width && r.grid.height == y.grid.height && r.grid.spacing == y.grid.spacing
  {
  }

  /** What is written says version 1, and nothing else is read. */
  lemma UiFields(c: UiConfiguration, x: C.Ui, y: C.Ui)
    requires RendersUi(c, x)
    ensures x.version == 1 && x.activeGroup == c.activeGroup && FromCborUi(y).activeGroup == y.activeGroup
    ensures Deserialized(y).UnsupportedVersion? <==> y.version != 1
    ensures forall p :: y.version == 1 && Verdict(FromCborUi(y)) == Some(p) ==> Deserialized(y) == Refused(p)
  {
  }

  /** Of several entries with one key the first stays. */
  lemma {:induction false} FirstOfKeyStays(ps: seq<C.Property>, i: nat)
    requires i < |ps| && forall j :: 0 <= j < i ==> ps[j].key != ps[i].key
    ensures ps[i].key in PropertyMap(ps) && PropertyMap(ps)[ps[i].key] == FromCborValue(ps[i].value)
  {
    if i > 0 {
      FirstOfKeyStays(ps[1..], i - 1);
    }
  }

  lemma {:induction false} FirstEntryStays(es: seq<C.Entry>, i: nat)
    requires i < |es| && forall j :: 0 <= j < i ==> es[j].key != es[i].key
    ensures es[i].key in EntryMap(es) && EntryMap(es)[es[i].key] == es[i].value
  {
    if i > 0 {
      FirstEntryStays(es[1..], i - 1);
    }
  }

  // ---------------------------------------------------------------- there and back

  lemma {:induction false} EntriesComeBack(es: seq<C.Entry>, m: map<Text, Text>)
    requires IsEntries(es, m)
    ensures EntryMap(es) == m
  {
    if es != [] {
      EntriesComeBack(es[1..], m - {es[0].key});
    }
  }

  lemma ValueComesBack(v: ConfigValue, c: C.CborValue)
    requires Renders(v, c)
    ensures FromCborValue(c) == v
  {
    if v.TextMapValue? {
      EntriesComeBack(c.entries, v.entries);
    }
  }

  lemma {:induction false} PropertyMapComesBack(ps: seq<C.Property>, m: map<Text, ConfigValue>)
    requires IsProperties(ps, m)
    ensures PropertyMap(ps) == m
  {
    if ps != [] {
      ValueComesBack(m[ps[0].key], ps[0].value);
      PropertyMapComesBack(ps[1..], m - {ps[0].key});
    }
  }

  lemma PropertiesComeBack(m: map<Text, ConfigValue>, x: Option<seq<C.Property>>)
    requires RendersProperties(m, x)
    ensures FromCborProperties(x) == m
  {
    if x.Some? {
      PropertyMapComesBack(x.value, m);
    }
  }

  /** An absent selector survives its placeholder. */
  lemma BindingComesBack(b: PropertyBinding, x: C.Binding)
    requires RendersBinding(b, x)
    ensures FromCborBinding(x) == b
  {
    if !b.selectorValue.Unset? {
      ValueComesBack(b.selectorValue, x.selectorValue);
    }
  }

  lemma BindingsComeBack(bs: seq<PropertyBinding>, xs: seq<C.Binding>)
    requires RendersBindings(bs, xs)
    ensures R.Mapped(xs, FromCborBinding) == bs
  {
    forall i | 0 <= i < |bs| ensures FromCborBinding(xs[i]) == bs[i] {
      BindingComesBack(bs[i], xs[i]);
    }
  }

  lemma WidgetComesBack(w: WidgetConfiguration, x: C.Widget)
    requires RendersWidget(w, x)
    ensures FromCborWidget(x) == w
  {
    PropertiesComeBack(w.properties, x.properties);
    BindingsComeBack(w.bindings, x.bindings);
  }

  lemma WidgetsComeBack(ws: seq<WidgetConfiguration>, xs: seq<C.Widget>)
    requires RendersWidgets(ws, xs)
    ensures R.Mapped(xs, FromCborWidget) == ws
  {
    forall i | 0 <= i < |ws| ensures FromCborWidget(xs[i]) == ws[i] {
      WidgetComesBack(ws[i], xs[i]);
    }
  }

  function SortedScreen(s: ScreenConfiguration): ScreenConfiguration { s.(widgets := Added(s.widgets)) }

  /** The configuration with the widgets of every screen in z-order. */
  function Sorted(c: UiConfiguration): UiConfiguration { c.(screens := R.Mapped(c.screens, SortedScreen)) }

  lemma ScreensComeBack(ss: seq<ScreenConfiguration>, xs: seq<C.Screen>)
    requires RendersScreens(ss, xs)
    ensures R.Mapped(xs, FromCborScreen) == R.Mapped(ss, SortedScreen)
  {
    forall i | 0 <= i < |ss| ensures FromCborScreen(xs[i]) == SortedScreen(ss[i]) {
      assert RendersScreen(ss[i], xs[i]);
      WidgetsComeBack(ss[i].widgets, xs[i].widgets);
    }
  }

  lemma SortedIsReordered(c: UiConfiguration)
    ensures WidgetsReordered(c, Sorted(c))
  {
    forall i | 0 <= i < |c.screens| ensures Reordered(c.screens[i], Sorted(c).screens[i]) {
      AddedIsSorted(c.screens[i].widgets);
    }
  }

  /** Whatever order the maps were written in, a valid configuration comes back with its widgets sorted. */
  lemma SerializedComesBack(c: UiConfiguration, x: C.Ui)
    requires Verdict(c) == None && RendersUi(c, x)
    ensures Deserialized(x) == Ok(Sorted(c))
  {
    PropertiesComeBack(c.properties, x.properties);
    ScreensComeBack(c.screens, x.screens);
    SortedIsReordered(c);
    VerdictInAnyOrder(c, Sorted(c));
  }

  predicate WidgetsInOrder(c: UiConfiguration) {
    forall i :: 0 <= i < |c.screens| ==> InOrder(c.screens[i].widgets)
  }

  lemma SortedSameIff(c: UiConfiguration)
    ensures Sorted(c) == c <==> WidgetsInOrder(c)
  {
    R.MappedFixedIff(c.screens, SortedScreen);
    forall i | 0 <= i < |c.screens|
      ensures SortedScreen(c.screens[i]) == c.screens[i] <==> InOrder(c.screens[i].widgets)
    {
      AddedSameIff(c.screens[i].widgets);
    }
  }

  /** A valid configuration comes back unchanged if and only if its widgets were in z-order. */
  lemma ModelRoundTripIff(c: UiConfiguration, x: C.Ui)
    requires Verdict(c) == None && RendersUi(c, x)
    ensures Deserialized(x) == Ok(c) <==> WidgetsInOrder(c)
  {
    SerializedComesBack(c, x);
    SortedSameIff(c);
  }

  /** What was loaded once is valid and in z-order, so from then on storing and loading changes nothing. */
  lemma LoadedIsStable(x: C.Ui, y: C.Ui)
    requires Deserialized(x).Ok? && RendersUi(Deserialized(x).value, y)
    ensures Deserialized(y) == Deserialized(x)
  {
    var c := Deserialized(x).value;
    forall i | 0 <= i < |c.screens| ensures InOrder(c.screens[i].widgets) {
      AddedIsSorted(R.Mapped(x.screens[i].widgets, FromCborWidget));
    }
    ModelRoundTripIff(c, y);
  }

  // ---------------------------------------------------------------- through the bytes

  /** Where a valid configuration can hold an empty list of texts: among its own properties. */
  predicate HasEmptyTextList(c: UiConfiguration) {
    exists key :: key in c.properties && c.properties[key] == TextListValue([])
  }

  lemma {:induction false} FaithfulIff(ps: seq<C.Property>, m: map<Text, ConfigValue>)
    requires IsProperties(ps, m)
    ensures R.FaithfulProperties(Some(ps)) <==> forall key :: key in m ==> m[key] != TextListValue([])
  {
    if ps != [] {
      var rest := m - {ps[0].key};
      FaithfulIff(ps[1..], rest);
      assert forall i :: 1 <= i < |ps| ==> ps[i] == ps[1..][i - 1];
      assert forall key :: key in m <==> key == ps[0].key || key in rest;
    }
  }

  lemma ValidPropertiesAreFaithful(w: WidgetConfiguration, x: Option<seq<C.Property>>)
    requires RendersProperties(w.properties, x) && PropertiesOk(w)
    ensures R.FaithfulProperties(x)
  {
    if x.Some? {
      forall key | key in w.properties ensures w.properties[key] != TextListValue([]) {
        assert PropertyOk(key, w.properties[key]);
      }
      FaithfulIff(x.value, w.properties);
    }
  }

  lemma ValidBindingsAreFaithful(bs: seq<PropertyBinding>, xs: seq<C.Binding>)
    requires RendersBindings(bs, xs) && forall i :: 0 <= i < |bs| ==> BindingOk(bs[i])
    ensures forall i :: 0 <= i < |xs| ==> xs[i].selectorValue != C.TextListC([])
  {
    forall i | 0 <= i < |xs| ensures xs[i].selectorValue != C.TextListC([]) {
      assert RendersBinding(bs[i], xs[i]) && BindingOk(bs[i]);
    }
  }

  /** The properties and bindings of a valid widget hold no lists at all. */
  lemma ValidWidgetIsFaithful(w: WidgetConfiguration, x: C.Widget)
    requires RendersWidget(w, x) && PropertiesOk(w) && BindingsOk(w)
    ensures R.FaithfulWidget(x)
  {
    ValidPropertiesAreFaithful(w, x.properties);
    ValidBindingsAreFaithful(w.bindings, x.bindings);
  }

  lemma {:induction false} NoProblemAnywhere(screens: seq<ScreenConfiguration>, i: nat)
    requires WidgetsProblem(screens) == None && i < |screens|
    ensures ScreenProblem(screens[i]) == None
  {
    if i > 0 {
      NoProblemAnywhere(screens[1..], i - 1);
    }
  }

  lemma ValidWidgets(s: ScreenConfiguration, i: nat)
    requires ScreenProblem(s) == None && i < |s.widgets|
    ensures PropertiesOk(s.widgets[i]) && BindingsOk(s.widgets[i])
  {
  }

  lemma ValidScreenIsFaithful(s: ScreenConfiguration, x: C.Screen)
    requires RendersScreen(s, x) && ScreenProblem(s) == None
    ensures R.FaithfulScreen(x)
  {
    forall i | 0 <= i < |x.widgets| ensures R.FaithfulWidget(x.widgets[i]) {
      assert RendersWidget(s.widgets[i], x.widgets[i]);
      ValidWidgets(s, i);
      ValidWidgetIsFaithful(s.widgets[i], x.widgets[i]);
    }
  }

  lemma ValidIsFaithfulIff(c: UiConfiguration, x: C.Ui)
    requires Verdict(c) == None && RendersUi(c, x)
    ensures R.Faithful(x) <==> !HasEmptyTextList(c)
  {
    forall i | 0 <= i < |x.screens| ensures R.FaithfulScreen(x.screens[i]) {
      NoProblemAnywhere(c.screens, i);
      ValidScreenIsFaithful(c.screens[i], x.screens[i]);
    }
    if x.properties.Some? {
      FaithfulIff(x.properties.value, c.properties);
    }
  }

  /** What is read from records that were canonised: no empty list of texts anywhere. */
  lemma {:induction false} CanonMapHasNone(ps: seq<C.Property>, key: Text)
    requires key in PropertyMap(R.Mapped(ps, R.CanonProperty))
    ensures PropertyMap(R.Mapped(ps, R.CanonProperty))[key] != TextListValue([])
  {
    if ps != [] && key != ps[0].key {
      CanonMapHasNone(ps[1..], key);
    }
  }

  lemma CanonHasNone(x: C.Ui)
    ensures !HasEmptyTextList(FromCborUi(R.CanonUi(x)))
  {
    if x.properties.Some? {
      forall key | key in PropertyMap(R.Mapped(x.properties.value, R.CanonProperty))
        ensures PropertyMap(R.Mapped(x.properties.value, R.CanonProperty))[key] != TextListValue([])
      {
        CanonMapHasNone(x.properties.value, key);
      }
    }
  }

  /**
   * From the model to bytes and back: the decoder reads every byte, and a valid configuration is
   * unchanged if and only if its widgets were in z-order and it holds no empty list of texts.
   */
  lemma StoredAndLoadedIff(c: UiConfiguration, x: C.Ui)
    requires Verdict(c) == None && RendersUi(c, x)
    ensures C.Decode(C.UiBytes(x)).value.Some? && C.Decode(C.UiBytes(x)).state.pos == |C.UiBytes(x)|
    ensures Deserialized(C.Decode(C.UiBytes(x)).value.value) == Ok(c) <==> WidgetsInOrder(c) && !HasEmptyTextList(c)
  {
    R.DecodeEncode(x);
    R.RoundTripIff(x);
    ValidIsFaithfulIff(c, x);
    ModelRoundTripIff(c, x);
    if HasEmptyTextList(c) {
      CanonIsOther(c, x);
    }
  }

  lemma CanonIsOther(c: UiConfiguration, x: C.Ui)
    requires HasEmptyTextList(c)
    ensures Deserialized(R.CanonUi(x)) != Ok(c)
  {
    CanonHasNone(x);
  }

  // ---------------------------------------------------------------- the parser

  lemma {:induction false} EntryAppended(es: seq<C.Entry>, m: map<Text, Text>, key: Text, value: Text)
    requires IsEntries(es, m) && key !in m
    ensures IsEntries(es + [C.Entry(key, value)], m[key := value])
  {
    var e := C.Entry(key, value);
    if es == [] {
      assert es + [e] == [e];
      assert m[key := value] - {key} == map[];
    } else {
      var head := es[0].key;
      EntryAppended(es[1..], m - {head}, key, value);
      assert (es + [e])[1..] == es[1..] + [e];
      assert m[key := value] - {head} == (m - {head})[key := value];
    }
  }

  lemma {:induction false} PropertyAppended(ps: seq<C.Property>, m: map<Text, ConfigValue>, p: C.Property,
                                            v: ConfigValue)
    requires IsProperties(ps, m) && p.key !in m && Renders(v, p.value)
    ensures IsProperties(ps + [p], m[p.key := v])
  {
    if ps == [] {
      assert ps + [p] == [p];
      assert m[p.key := v] - {p.key} == map[];
    } else {
      var head := ps[0].key;
      PropertyAppended(ps[1..], m - {head}, p, v);
      assert (ps + [p])[1..] == ps[1..] + [p];
      assert m[p.key := v] - {head} == (m - {head})[p.key := v];
    }
  }

  /** Nothing stands for the exception thrown for a value that was never set. */
  method ToCborPropertyValue(v: ConfigValue) returns (c: Option<C.CborValue>)
    ensures if v.Unset? then c == None else c.Some? && Renders(v, c.value)
  {
    match v {
      case Unset => c := None;
      case IntValue(i) => c := Some(C.IntC(i));
      case DoubleValue(d) => c := Some(C.FloatC(d));
      case TextValue(t) => c := Some(C.TextC(t));
      case BoolValue(b) => c := Some(C.BoolC(b));
      case IntListValue(ints) => c := Some(C.IntListC(ints));
      case TextListValue(texts) => c := Some(C.TextListC(texts));
      case TextMapValue(m) =>
        var entries := ToCborEntries(m);
        c := Some(C.MapC(entries));
    }
  }

  /** The map's entries in whatever order it gives them. */
  method ToCborEntries(m: map<Text, Text>) returns (es: seq<C.Entry>)
    ensures IsEntries(es, m)
  {
    es := [];
    var left := m.Keys;
    while left != {}
      invariant left <= m.Keys && IsEntries(es, m - left)
      decreases |left|
    {
      var key :| key in left;
      EntryAppended(es, m - left, key, m[key]);
      assert (m - left)[key := m[key]] == m - (left - {key});
      es, left := es + [C.Entry(key, m[key])], left - {key};
    }
    assert m - left == m;
  }

  method ToCborProperties(m: map<Text, ConfigValue>) returns (ps: Option<seq<C.Property>>)
    ensures ps.None? <==> exists key :: key in m && m[key].Unset?
    ensures ps.Some? ==> IsProperties(ps.value, m)
  {
    var done: seq<C.Property> := [];
    var left := m.Keys;
    while left != {}
      invariant left <= m.Keys && IsProperties(done, m - left)
      invariant forall key :: key in m && key !in left ==> !m[key].Unset?
      decreases |left|
    {
      var key :| key in left;
      var v := ToCborPropertyValue(m[key]);
      if v.None? {
        return None;
      }
      PropertyAppended(done, m - left, C.Property(key, v.value), m[key]);
      assert (m - left)[key := m[key]] == m - (left - {key});
      done, left := done + [C.Property(key, v.value)], left - {key};
    }
    assert m - left == m;
    ps := Some(done);
  }

  method ToCborBindings(bs: seq<PropertyBinding>) returns (xs: seq<C.Binding>)
    ensures RendersBindings(bs, xs)
  {
    xs := [];
    while |xs| < |bs|
      invariant |xs| <= |bs| && RendersBindings(bs[..|xs|], xs)
    {
      var b := bs[|xs|];
      var selector := C.IntC(0);
      if !b.selectorValue.Unset? {
        var v := ToCborPropertyValue(b.selectorValue);
        selector := v.value;
      }
      xs := xs + [C.Binding(b.target, b.channel, b.eventType, b.payloadKey, b.direction, b.outboundEventType,
                            !b.selectorValue.Unset?, b.selectorKey, selector)];
    }
    assert bs[..|xs|] == bs;
  }

  predicate AllSet(m: map<Text, ConfigValue>) {
    forall key :: key in m ==> !m[key].Unset?
  }

  lemma ValidPropertiesAreSet(w: WidgetConfiguration)
    requires PropertiesOk(w)
    ensures AllSet(w.properties)
  {
    forall key | key in w.properties ensures !w.properties[key].Unset? {
      assert PropertyOk(key, w.properties[key]);
    }
  }

  lemma ValidScreenIsSet(s: ScreenConfiguration)
    requires ScreenProblem(s) == None
    ensures forall i :: 0 <= i < |s.widgets| ==> AllSet(s.widgets[i].properties)
  {
    forall i | 0 <= i < |s.widgets| ensures AllSet(s.widgets[i].properties) {
      ValidWidgets(s, i);
      ValidPropertiesAreSet(s.widgets[i]);
    }
  }

  method ToCborWidget(w: WidgetConfiguration) returns (x: C.Widget)
    requires AllSet(w.properties)
    ensures RendersWidget(w, x)
  {
    var properties := None;
    if |w.properties| > 0 {
      properties := ToCborProperties(w.properties);
    }
    var bindings := ToCborBindings(w.bindings);
    x := C.Widget(w.kind, w.id, C.Position(w.position.x, w.position.y), C.Size(w.size.width, w.size.height), w.zIndex,
                  properties, bindings);
  }

  method ToCborWidgets(ws: seq<WidgetConfiguration>) returns (xs: seq<C.Widget>)
    requires forall i :: 0 <= i < |ws| ==> AllSet(ws[i].properties)
    ensures RendersWidgets(ws, xs)
  {
    xs := [];
    while |xs| < |ws|
      invariant |xs| <= |ws| && RendersWidgets(ws[..|xs|], xs)
    {
      var x := ToCborWidget(ws[|xs|]);
      xs := xs + [x];
    }
    assert ws[..|xs|] == ws;
  }

  method ToCborScreens(ss: seq<ScreenConfiguration>) returns (xs: seq<C.Screen>)
    requires WidgetsProblem(ss) == None
    ensures RendersScreens(ss, xs)
  {
    xs := [];
    while |xs| < |ss|
      invariant |xs| <= |ss| && RendersScreens(ss[..|xs|], xs)
    {
      var s := ss[|xs|];
      NoProblemAnywhere(ss, |xs|);
      ValidScreenIsSet(s);
      var widgets := ToCborWidgets(s.widgets);
      xs := xs + [C.Screen(s.id, s.groupId, s.kind, s.zIndex, s.isVisible, s.isOverlay,
                           C.Grid(s.grid.snapEnabled, s.grid.width, s.grid.height, s.grid.spacing), widgets)];
    }
    assert ss[..|xs|] == ss;
  }

  method Serialize(c: UiConfiguration) returns (r: Parsed<C.Ui>)
    ensures match Verdict(c)
            case Some(problem) => r == Refused(problem)
            case None =>
              if exists key :: key in c.properties && c.properties[key].Unset? then r == UnsupportedValue
              else r.Ok? && RendersUi(c, r.value)
  {
    var problem := Validate(c);
    if problem.Some? {
      return Refused(problem.value);
    }
    var properties := None;
    if |c.properties| > 0 {
      properties := ToCborProperties(c.properties);
      if properties.None? {
        return UnsupportedValue;
      }
    }
    var screens := ToCborScreens(c.screens);
    r := Ok(C.Ui(CONFIGURATION_VERSION, c.activeGroup, properties, screens));
  }

  method FromCborEntries(es: seq<C.Entry>) returns (m: map<Text, Text>)
    ensures m == EntryMap(es)
  {
    m := map[];
    var i := 0;
    while i < |es|
      invariant 0 <= i <= |es| && EntryMap(es) == EntryMap(es[i..]) + m
    {
      if es[i].key !in m {
        m := m[es[i].key := es[i].value];
      }
      i := i + 1;
    }
  }

  method FromCborPropertyValue(c: C.CborValue) returns (v: ConfigValue)
    ensures v == FromCborValue(c)
  {
    match c {
      case IntC(i) => v := IntValue(i);
      case FloatC(d) => v := DoubleValue(d);
      case TextC(t) => v := TextValue(t);
      case BoolC(b) => v := BoolValue(b);
      case IntListC(ints) => v := IntListValue(ints);
      case TextListC(texts) => v := TextListValue(texts);
      case MapC(entries) =>
        var m := FromCborEntries(entries);
        v := TextMapValue(m);
    }
  }

  method FromCborPropertyMap(ps: seq<C.Property>) returns (m: map<Text, ConfigValue>)
    ensures m == PropertyMap(ps)
  {
    m := map[];
    var i := 0;
    while i < |ps|
      invariant 0 <= i <= |ps| && PropertyMap(ps) == PropertyMap(ps[i..]) + m
    {
      var v := FromCborPropertyValue(ps[i].value);
      if ps[i].key !in m {
        m := m[ps[i].key := v];
      }
      i := i + 1;
    }
  }

  method FromCborBindings(xs: seq<C.Binding>) returns (bs: seq<PropertyBinding>)
    ensures bs == R.Mapped(xs, FromCborBinding)
  {
    bs := [];
    while |bs| < |xs|
      invariant |bs| <= |xs| && forall i :: 0 <= i < |bs| ==> bs[i] == FromCborBinding(xs[i])
    {
      var x := xs[|bs|];
      var selector := Unset;
      if x.hasSelector {
        selector := FromCborPropertyValue(x.selectorValue);
      }
      bs := bs + [PropertyBinding(x.target % 0x1_0000, x.channel, x.eventType, x.payloadKey, x.direction,
                                  x.outboundEventType, x.selectorKey, selector)];
    }
  }

  method DeserializeWidget(x: C.Widget) returns (w: WidgetConfiguration)
    ensures w == FromCborWidget(x)
  {
    var properties := map[];
    if x.properties.Some? {
      properties := FromCborPropertyMap(x.properties.value);
    }
    var bindings := FromCborBindings(x.bindings);
    w := WidgetConfiguration(x.kind, x.id, GridPosition(x.position.x, x.position.y),
                             GridSize(x.size.width, x.size.height),
                             x.zIndex, properties, bindings);
  }

  lemma AddedNext(ws: seq<WidgetConfiguration>, k: nat)
    requires k < |ws|
    ensures Added(ws[..k + 1]) == Inserted(Added(ws[..k]), ws[k])
  {
    assert ws[..k + 1][..k] == ws[..k];
  }

  method DeserializeScreen(x: C.Screen) returns (s: ScreenConfiguration)
    ensures s == FromCborScreen(x)
  {
    var screen := new Screen();
    ghost var all := R.Mapped(x.widgets, FromCborWidget);
    var i := 0;
    while i < |x.widgets|
      invariant 0 <= i <= |x.widgets| && screen.widgets == Added(all[..i]) && InOrder(screen.widgets)
      modifies screen
    {
      var w := DeserializeWidget(x.widgets[i]);
      AddedNext(all, i);
      screen.AddWidget(w);
      i := i + 1;
    }
    assert all[..i] == all;
    s := ScreenConfiguration(x.id, x.groupId, x.kind, x.zIndex, x.isVisible, x.isOverlay,
                             GridSettings(x.grid.snap, x.grid.width, x.grid.height, x.grid.spacing), screen.widgets);
  }

  method DeserializeScreens(xs: seq<C.Screen>) returns (screens: seq<ScreenConfiguration>)
    ensures screens == R.Mapped(xs, FromCborScreen)
  {
    screens := [];
    while |screens| < |xs|
      invariant |screens| <= |xs|
      invariant forall i :: 0 <= i < |screens| ==> screens[i] == FromCborScreen(xs[i])
    {
      var s := DeserializeScreen(xs[|screens|]);
      screens := screens + [s];
    }
  }

  method Deserialize(x: C.Ui) returns (r: Parsed<UiConfiguration>)
    ensures r == Deserialized(x)
  {
    if x.version != CONFIGURATION_VERSION {
      return UnsupportedVersion;
    }
    var properties := map[];
    if x.properties.Some? {
      properties := FromCborPropertyMap(x.properties.value);
    }
    var screens := DeserializeScreens(x.screens);
    var c := UiConfiguration(x.activeGroup, properties, screens);
    var problem := Validate(c);
    r := if problem.Some? then Refused(problem.value) else Ok(c);
  }
}
