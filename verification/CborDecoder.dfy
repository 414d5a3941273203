/** The decoder: it moves a cursor over the payload and fills lists in place. */
module CborDecoder {
  import opened Cbor
  import opened CborConfig
  import opened Common
  import opened UiModel

  /** A value or a failure, and the state behind it, as the specification reads them. */
  predicate Matches<T(==)>(r: Option<T>, after: State, spec: Read<T>) {
    Read(r, after) == spec
  }

  /** Reading the whole list is what was read so far and then the rest. */
  predicate Continues<T(==)>(all: Read<seq<T>>, done: seq<T>, rest: Read<seq<T>>) {
    all == Read(if rest.value.Some? then Some(done + rest.value.value) else None, rest.state)
  }

  lemma NothingDone<T>(all: Read<seq<T>>)
    ensures Continues(all, [], all)
  {
    if all.value.Some? {
      assert [] + all.value.value == all.value.value;
    }
  }

  lemma ManyDone<T>(p: seq<Byte>, s: State, one: State -> Read<T>, all: Read<seq<T>>, done: seq<T>)
    requires forall t :: one(t).value.Some? ==> t.pos < one(t).state.pos <= |p|
    requires AtEnd(p, s) && Continues(all, done, Many(p, s, one))
    ensures Matches(Some(done), s, all)
  {
    assert done + [] == done;
  }

  lemma ManyNext<T>(p: seq<Byte>, s: State, one: State -> Read<T>, all: Read<seq<T>>, done: seq<T>)
    requires forall t :: one(t).value.Some? ==> t.pos < one(t).state.pos <= |p|
    requires !AtEnd(p, s) && Continues(all, done, Many(p, s, one))
    ensures
      var first := one(s);
      if first.value.Some? then Continues(all, done + [first.value.value], Many(p, first.state, one))
      else all == Read(None, first.state)
  {
    var first := one(s);
    if first.value.Some? {
      var rest := Many(p, first.state, one);
      if rest.value.Some? {
        assert done + ([first.value.value] + rest.value.value) == done + [first.value.value] + rest.value.value;
      }
    }
  }

  class Decoder {
    const payload: seq<Byte>
    var pos: nat
    var count: Option<nat>
    var backups: seq<Backup>

    constructor (payload: seq<Byte>)
      ensures this.payload == payload && Value() == State(0, Some(1), [])
    {
      this.payload, pos, count, backups := payload, 0, Some(1), [];
    }

    function Value(): State
      reads this
    {
      State(pos, count, backups)
    }

    /** Moves behind an item of the innermost container. */
    method Take(next: nat)
      requires CanTake(Value())
      modifies this`pos, this`count
      ensures Value() == Taken(old(Value()), next)
    {
      pos := next;
      if count.Some? {
        count := Some(count.value - 1);
      }
    }

    method DecodeUint32() returns (r: Option<Uint32>)
      modifies this
      ensures Matches(r, Value(), ReadUint32(payload, old(Value())))
    {
      var h := HeadAt(payload, pos);
      if count != Some(0) && h.Some? && h.value.major == UNSIGNED
         && h.value.arg.Some? && h.value.arg.value <= 0xffff_ffff {
        Take(h.value.next);
        return Some(h.value.arg.value);
      }
      r := None;
    }

    method DecodeInt32() returns (r: Option<Int32>)
      modifies this
      ensures Matches(r, Value(), ReadInt32(payload, old(Value())))
    {
      var h := HeadAt(payload, pos);
      if count != Some(0) && h.Some? && h.value.arg.Some? && h.value.arg.value <= 0x7fff_ffff {
        if h.value.major == UNSIGNED {
          Take(h.value.next);
          return Some(h.value.arg.value);
        }
        if h.value.major == NEGATIVE {
          Take(h.value.next);
          return Some(-1 - h.value.arg.value);
        }
      }
      r := None;
    }

    method DecodeBool() returns (r: Option<bool>)
      modifies this
      ensures Matches(r, Value(), ReadBool(payload, old(Value())))
    {
      if count != Some(0) && pos < |payload| && (payload[pos] == TRUE || payload[pos] == FALSE) {
        r := Some(payload[pos] == TRUE);
        Take(pos + 1);
        return;
      }
      r := None;
    }

    method DecodeFloat64() returns (r: Option<Float64>)
      modifies this
      ensures Matches(r, Value(), ReadFloat64(payload, old(Value())))
    {
      if count != Some(0) && pos + 9 <= |payload| && payload[pos] == DOUBLE {
        r := Some(payload[pos + 1..pos + 9]);
        Take(pos + 9);
        return;
      }
      r := None;
    }

    method DecodeText() returns (r: Option<Text>)
      modifies this
      ensures Matches(r, Value(), ReadText(payload, old(Value())))
    {
      var h := HeadAt(payload, pos);
      if count != Some(0) && h.Some? && h.value.major == TEXT && h.value.arg.Some? && h.value.arg.value <= 0xffff_ffff
         && h.value.next + h.value.arg.value <= |payload| {
        r := Some(payload[h.value.next..h.value.next + h.value.arg.value]);
        Take(h.value.next + h.value.arg.value);
        return;
      }
      r := None;
    }

    method StartContainer(major: nat) returns (ok: bool)
      modifies this
      ensures Matches(if ok then Some(()) else None, Value(), Start(payload, old(Value()), major))
    {
      var h := HeadAt(payload, pos);
      if count == Some(0) || h.None? || h.value.major != major {
        return false;
      }
      Take(h.value.next);
      backups := backups + [Backup(pos, count)];
      count := match h.value.arg case Some(n) => Some(if major == MAP then 2 * n else n) case None => None;
      ok := true;
    }

    method EndContainer() returns (ok: bool)
      modifies this
      ensures Matches(if ok then Some(()) else None, Value(), End(payload, old(Value())))
    {
      if backups == [] || !AtEnd(payload, Value()) {
        return false;
      }
      if count.None? {
        pos := pos + 1;
      }
      count := backups[|backups| - 1].count;
      backups := backups[..|backups| - 1];
      ok := true;
    }

    /** Closes the innermost container if it can be closed. */
    method CloseQuietly()
      modifies this
      ensures Value() == End(payload, old(Value())).state
    {
      var _ := EndContainer();
    }

    method ForceEndContainer()
      modifies this
      ensures Value() == ForceEnd(old(Value()))
    {
      if backups != [] {
        var top := backups[|backups| - 1];
        pos, count := top.pos, top.count;
        backups := backups[..|backups| - 1];
      }
    }

    /** Back to a state taken earlier. */
    method Restore(s: State)
      modifies this
      ensures Value() == s
    {
      pos, count, backups := s.pos, s.count, s.backups;
    }

    method ManyInts() returns (r: Option<seq<Int32>>)
      modifies this
      ensures Matches(r, Value(), Many(payload, old(Value()), IntReader(payload)))
    {
      ghost var all := Many(payload, Value(), IntReader(payload));
      var xs: seq<Int32> := [];
      NothingDone(all);
      while !AtEnd(payload, Value())
        invariant Continues(all, xs, Many(payload, Value(), IntReader(payload)))
        decreases |payload| - pos
      {
        ManyNext(payload, Value(), IntReader(payload), all, xs);
        var x := DecodeInt32();
        if x.None? {
          return None;
        }
        xs := xs + [x.value];
      }
      ManyDone(payload, Value(), IntReader(payload), all, xs);
      r := Some(xs);
    }

    method DecodeInts() returns (r: Option<seq<Int32>>)
      modifies this
      ensures Matches(r, Value(), Listed(payload, old(Value()), ARRAY, IntReader(payload)))
    {
      var start := StartContainer(ARRAY);
      if !start {
        return None;
      }
      r := ManyInts();
      if r.None? {
        ForceEndContainer();
        return;
      }
      var end := EndContainer();
      if !end {
        r := None;
      }
    }

    method ManyTexts() returns (r: Option<seq<Text>>)
      modifies this
      ensures Matches(r, Value(), Many(payload, old(Value()), TextReader(payload)))
    {
      ghost var all := Many(payload, Value(), TextReader(payload));
      var xs: seq<Text> := [];
      NothingDone(all);
      while !AtEnd(payload, Value())
        invariant Continues(all, xs, Many(payload, Value(), TextReader(payload)))
        decreases |payload| - pos
      {
        ManyNext(payload, Value(), TextReader(payload), all, xs);
        var x := DecodeText();
        if x.None? {
          return None;
        }
        xs := xs + [x.value];
      }
      ManyDone(payload, Value(), TextReader(payload), all, xs);
      r := Some(xs);
    }

    method DecodeTexts() returns (r: Option<seq<Text>>)
      modifies this
      ensures Matches(r, Value(), Listed(payload, old(Value()), ARRAY, TextReader(payload)))
    {
      var start := StartContainer(ARRAY);
      if !start {
        return None;
      }
      r := ManyTexts();
      if r.None? {
        ForceEndContainer();
        return;
      }
      var end := EndContainer();
      if !end {
        r := None;
      }
    }

    method DecodeEntry() returns (r: Option<Entry>)
      modifies this
      ensures Matches(r, Value(), ReadEntry(payload, old(Value())))
    {
      var key := DecodeText();
      if key.None? {
        return None;
      }
      var value := DecodeText();
      if value.None? {
        return None;
      }
      r := Some(Entry(key.value, value.value));
    }

    method ManyEntries() returns (r: Option<seq<Entry>>)
      modifies this
      ensures Matches(r, Value(), Many(payload, old(Value()), EntryReader(payload)))
    {
      ghost var all := Many(payload, Value(), EntryReader(payload));
      var xs: seq<Entry> := [];
      NothingDone(all);
      while !AtEnd(payload, Value())
        invariant Continues(all, xs, Many(payload, Value(), EntryReader(payload)))
        decreases |payload| - pos
      {
        ManyNext(payload, Value(), EntryReader(payload), all, xs);
        var x := DecodeEntry();
        if x.None? {
          return None;
        }
        xs := xs + [x.value];
      }
      ManyDone(payload, Value(), EntryReader(payload), all, xs);
      r := Some(xs);
    }

    method DecodeEntries() returns (r: Option<seq<Entry>>)
      modifies this
      ensures Matches(r, Value(), Listed(payload, old(Value()), MAP, EntryReader(payload)))
    {
      var start := StartContainer(MAP);
      if !start {
        return None;
      }
      r := ManyEntries();
      if r.None? {
        ForceEndContainer();
        return;
      }
      var end := EndContainer();
      if !end {
        r := None;
      }
    }

    /** Ordered choice: every alternative starts from the state the first one started from. */
    method DecodeValue() returns (r: Option<CborValue>)
      modifies this
      ensures Matches(r, Value(), ReadValue(payload, old(Value())))
    {
      var backup := Value();
      var i := DecodeInt32();
      if i.Some? {
        return Some(IntC(i.value));
      }
      Restore(backup);
      var d := DecodeFloat64();
      if d.Some? {
        return Some(FloatC(d.value));
      }
      Restore(backup);
      var t := DecodeText();
      if t.Some? {
        return Some(TextC(t.value));
      }
      Restore(backup);
      var b := DecodeBool();
      if b.Some? {
        return Some(BoolC(b.value));
      }
      Restore(backup);
      r := DecodeContainer();
    }

    method DecodeContainer() returns (r: Option<CborValue>)
      modifies this
      ensures Matches(r, Value(), ReadContainer(payload, old(Value())))
    {
      var backup := Value();
      var ints := DecodeInts();
      if ints.Some? {
        return Some(IntListC(ints.value));
      }
      Restore(backup);
      var texts := DecodeTexts();
      if texts.Some? {
        return Some(TextListC(texts.value));
      }
      Restore(backup);
      var entries := DecodeEntries();
      if entries.Some? {
        return Some(MapC(entries.value));
      }
      r := None;
    }

    method DecodeProperty() returns (r: Option<Property>)
      modifies this
      ensures Matches(r, Value(), ReadProperty(payload, old(Value())))
    {
      var key := DecodeText();
      if key.None? {
        return None;
      }
      var value := DecodeValue();
      if value.None? {
        return None;
      }
      r := Some(Property(key.value, value.value));
    }

    method ManyProperties() returns (r: Option<seq<Property>>)
      modifies this
      ensures Matches(r, Value(), Many(payload, old(Value()), PropertyReader(payload)))
    {
      ghost var all := Many(payload, Value(), PropertyReader(payload));
      var xs: seq<Property> := [];
      NothingDone(all);
      while !AtEnd(payload, Value())
        invariant Continues(all, xs, Many(payload, Value(), PropertyReader(payload)))
        decreases |payload| - pos
      {
        ManyNext(payload, Value(), PropertyReader(payload), all, xs);
        var x := DecodeProperty();
        if x.None? {
          return None;
        }
        xs := xs + [x.value];
      }
      ManyDone(payload, Value(), PropertyReader(payload), all, xs);
      r := Some(xs);
    }

    method DecodeProperties() returns (r: Option<seq<Property>>)
      modifies this
      ensures Matches(r, Value(), ReadProperties(payload, old(Value())))
    {
      var start := StartContainer(MAP);
      if !start {
        return None;
      }
      r := ManyProperties();
      if r.None? {
        ForceEndContainer();
        CloseQuietly();
        return;
      }
      var end := EndContainer();
      if !end {
        r := None;
      }
    }

    method DecodeGridFields() returns (r: Option<Grid>)
      modifies this
      ensures Matches(r, Value(), ReadGridFields(payload, old(Value())))
    {
      var snap := DecodeBool();
      if snap.None? {
        return None;
      }
      var width := DecodeUint32();
      if width.None? {
        return None;
      }
      var height := DecodeUint32();
      if height.None? {
        return None;
      }
      var spacing := DecodeUint32();
      if spacing.None? {
        return None;
      }
      r := Some(Grid(snap.value, width.value, height.value, spacing.value));
    }

    method DecodeGrid() returns (r: Option<Grid>)
      modifies this
      ensures Matches(r, Value(), ReadGrid(payload, old(Value())))
    {
      var start := StartContainer(ARRAY);
      if !start {
        return None;
      }
      r := DecodeGridFields();
      if r.None? {
        ForceEndContainer();
        return;
      }
      var end := EndContainer();
      if !end {
        r := None;
      }
    }

    method DecodePositionFields() returns (r: Option<Position>)
      modifies this
      ensures Matches(r, Value(), ReadPositionFields(payload, old(Value())))
    {
      var x := DecodeInt32();
      if x.None? {
        return None;
      }
      var y := DecodeInt32();
      if y.None? {
        return None;
      }
      r := Some(Position(x.value, y.value));
    }

    method DecodePosition() returns (r: Option<Position>)
      modifies this
      ensures Matches(r, Value(), ReadPosition(payload, old(Value())))
    {
      var start := StartContainer(ARRAY);
      if !start {
        return None;
      }
      r := DecodePositionFields();
      if r.None? {
        ForceEndContainer();
        return;
      }
      var end := EndContainer();
      if !end {
        r := None;
      }
    }

    method DecodeSizeFields() returns (r: Option<Size>)
      modifies this
      ensures Matches(r, Value(), ReadSizeFields(payload, old(Value())))
    {
      var width := DecodeUint32();
      if width.None? {
        return None;
      }
      var height := DecodeUint32();
      if height.None? {
        return None;
      }
      r := Some(Size(width.value, height.value));
    }

    method DecodeSize() returns (r: Option<Size>)
      modifies this
      ensures Matches(r, Value(), ReadSize(payload, old(Value())))
    {
      var start := StartContainer(ARRAY);
      if !start {
        return None;
      }
      r := DecodeSizeFields();
      if r.None? {
        ForceEndContainer();
        return;
      }
      var end := EndContainer();
      if !end {
        r := None;
      }
    }

    method DecodeRoute() returns (r: Option<Route>)
      modifies this
      ensures Matches(r, Value(), ReadRoute(payload, old(Value())))
    {
      var target := DecodeUint32();
      if target.None? {
        return None;
      }
      var channel := DecodeUint32();
      if channel.None? {
        return None;
      }
      var eventType := DecodeUint32();
      if eventType.None? {
        return None;
      }
      var payloadKey := DecodeUint32();
      if payloadKey.None? {
        return None;
      }
      var direction := DecodeUint32();
      if direction.None? {
        return None;
      }
      var outboundEventType := DecodeUint32();
      if outboundEventType.None? {
        return None;
      }
      r := Some(Route(target.value, channel.value, eventType.value, payloadKey.value, direction.value,
                      outboundEventType.value));
    }

    method DecodeBindingFields() returns (r: Option<Binding>)
      modifies this
      ensures Matches(r, Value(), ReadBindingFields(payload, old(Value())))
    {
      var route := DecodeRoute();
      if route.None? {
        return None;
      }
      var hasSelector := DecodeBool();
      if hasSelector.None? {
        return None;
      }
      var selectorKey := DecodeUint32();
      if selectorKey.None? {
        return None;
      }
      var selectorValue := DecodeValue();
      if selectorValue.None? {
        return None;
      }
      r := Some(Binding(route.value.target, route.value.channel, route.value.eventType, route.value.payloadKey,
                        route.value.direction, route.value.outboundEventType, hasSelector.value, selectorKey.value,
                        selectorValue.value));
    }

    method DecodeBinding() returns (r: Option<Binding>)
      modifies this
      ensures Matches(r, Value(), ReadBinding(payload, old(Value())))
    {
      var start := StartContainer(ARRAY);
      if !start {
        return None;
      }
      r := DecodeBindingFields();
      if r.None? {
        ForceEndContainer();
        return;
      }
      var end := EndContainer();
      if !end {
        r := None;
      }
    }

    method ManyBindings() returns (r: Option<seq<Binding>>)
      modifies this
      ensures Matches(r, Value(), Many(payload, old(Value()), BindingReader(payload)))
    {
      ghost var all := Many(payload, Value(), BindingReader(payload));
      var xs: seq<Binding> := [];
      NothingDone(all);
      while !AtEnd(payload, Value())
        invariant Continues(all, xs, Many(payload, Value(), BindingReader(payload)))
        decreases |payload| - pos
      {
        ManyNext(payload, Value(), BindingReader(payload), all, xs);
        var x := DecodeBinding();
        if x.None? {
          return None;
        }
        xs := xs + [x.value];
      }
      ManyDone(payload, Value(), BindingReader(payload), all, xs);
      r := Some(xs);
    }

    method DecodeBindings() returns (r: Option<seq<Binding>>)
      modifies this
      ensures Matches(r, Value(), Nested(payload, old(Value()), BindingReader(payload)))
    {
      var start := StartContainer(ARRAY);
      if !start {
        CloseQuietly();
        return None;
      }
      r := ManyBindings();
      if r.None? {
        ForceEndContainer();
        CloseQuietly();
        CloseQuietly();
        return;
      }
      var end := EndContainer();
      if !end {
        CloseQuietly();
        r := None;
      }
    }

    method DecodeWidgetStart() returns (r: Option<WidgetStart>)
      modifies this
      ensures Matches(r, Value(), ReadWidgetStart(payload, old(Value())))
    {
      var kind := DecodeUint32();
      if kind.None? {
        CloseQuietly();
        return None;
      }
      var id := DecodeUint32();
      if id.None? {
        CloseQuietly();
        return None;
      }
      var position := DecodePosition();
      if position.None? {
        CloseQuietly();
        return None;
      }
      var size := DecodeSize();
      if size.None? {
        CloseQuietly();
        return None;
      }
      var zIndex := DecodeInt32();
      if zIndex.None? {
        CloseQuietly();
        return None;
      }
      r := Some(WidgetStart(kind.value, id.value, position.value, size.value, zIndex.value));
    }

    method DecodeWidgetFields() returns (r: Option<Widget>)
      modifies this
      ensures Matches(r, Value(), ReadWidgetFields(payload, old(Value())))
    {
      var start := DecodeWidgetStart();
      if start.None? {
        return None;
      }
      var properties := DecodeProperties();
      var bindings := DecodeBindings();
      if bindings.None? {
        return None;
      }
      r := Some(Widget(start.value.kind, start.value.id, start.value.position, start.value.size, start.value.zIndex,
                       properties, bindings.value));
    }

    method DecodeWidget() returns (r: Option<Widget>)
      modifies this
      ensures Matches(r, Value(), ReadWidget(payload, old(Value())))
    {
      var start := StartContainer(ARRAY);
      if !start {
        return None;
      }
      r := DecodeWidgetFields();
      if r.None? {
        return;
      }
      var end := EndContainer();
      if !end {
        r := None;
      }
    }

    method ManyWidgets() returns (r: Option<seq<Widget>>)
      modifies this
      ensures Matches(r, Value(), Many(payload, old(Value()), WidgetReader(payload)))
    {
      ghost var all := Many(payload, Value(), WidgetReader(payload));
      var xs: seq<Widget> := [];
      NothingDone(all);
      while !AtEnd(payload, Value())
        invariant Continues(all, xs, Many(payload, Value(), WidgetReader(payload)))
        decreases |payload| - pos
      {
        ManyNext(payload, Value(), WidgetReader(payload), all, xs);
        var x := DecodeWidget();
        if x.None? {
          return None;
        }
        xs := xs + [x.value];
      }
      ManyDone(payload, Value(), WidgetReader(payload), all, xs);
      r := Some(xs);
    }

    method DecodeWidgets() returns (r: Option<seq<Widget>>)
      modifies this
      ensures Matches(r, Value(), Nested(payload, old(Value()), WidgetReader(payload)))
    {
      var start := StartContainer(ARRAY);
      if !start {
        CloseQuietly();
        return None;
      }
      r := ManyWidgets();
      if r.None? {
        ForceEndContainer();
        CloseQuietly();
        CloseQuietly();
        return;
      }
      var end := EndContainer();
      if !end {
        CloseQuietly();
        r := None;
      }
    }

    method DecodeScreenStart() returns (r: Option<ScreenStart>)
      modifies this
      ensures Matches(r, Value(), ReadScreenStart(payload, old(Value())))
    {
      var id := DecodeUint32();
      if id.None? {
        CloseQuietly();
        return None;
      }
      var groupId := DecodeUint32();
      if groupId.None? {
        CloseQuietly();
        return None;
      }
      var kind := DecodeUint32();
      if kind.None? {
        CloseQuietly();
        return None;
      }
      var zIndex := DecodeInt32();
      if zIndex.None? {
        CloseQuietly();
        return None;
      }
      var isVisible := DecodeBool();
      if isVisible.None? {
        CloseQuietly();
        return None;
      }
      var isOverlay := DecodeBool();
      if isOverlay.None? {
        CloseQuietly();
        return None;
      }
      r := Some(ScreenStart(id.value, groupId.value, kind.value, zIndex.value, isVisible.value, isOverlay.value));
    }

    method DecodeScreenFields() returns (r: Option<Screen>)
      modifies this
      ensures Matches(r, Value(), ReadScreenFields(payload, old(Value())))
    {
      var start := DecodeScreenStart();
      if start.None? {
        return None;
      }
      var grid := DecodeGrid();
      if grid.None? {
        CloseQuietly();
        return None;
      }
      var widgets := DecodeWidgets();
      if widgets.None? {
        return None;
      }
      r := Some(Screen(start.value.id, start.value.groupId, start.value.kind, start.value.zIndex, start.value.isVisible,
                       start.value.isOverlay, grid.value, widgets.value));
    }

    method DecodeScreen() returns (r: Option<Screen>)
      modifies this
      ensures Matches(r, Value(), ReadScreen(payload, old(Value())))
    {
      var start := StartContainer(ARRAY);
      if !start {
        return None;
      }
      r := DecodeScreenFields();
      if r.None? {
        return;
      }
      var end := EndContainer();
      if !end {
        r := None;
      }
    }

    method ManyScreens() returns (r: Option<seq<Screen>>)
      modifies this
      ensures Matches(r, Value(), Many(payload, old(Value()), ScreenReader(payload)))
    {
      ghost var all := Many(payload, Value(), ScreenReader(payload));
      var xs: seq<Screen> := [];
      NothingDone(all);
      while !AtEnd(payload, Value())
        invariant Continues(all, xs, Many(payload, Value(), ScreenReader(payload)))
        decreases |payload| - pos
      {
        ManyNext(payload, Value(), ScreenReader(payload), all, xs);
        var x := DecodeScreen();
        if x.None? {
          return None;
        }
        xs := xs + [x.value];
      }
      ManyDone(payload, Value(), ScreenReader(payload), all, xs);
      r := Some(xs);
    }

    method DecodeScreens() returns (r: Option<seq<Screen>>)
      modifies this
      ensures Matches(r, Value(), Nested(payload, old(Value()), ScreenReader(payload)))
    {
      var start := StartContainer(ARRAY);
      if !start {
        CloseQuietly();
        return None;
      }
      r := ManyScreens();
      if r.None? {
        ForceEndContainer();
        CloseQuietly();
        CloseQuietly();
        return;
      }
      var end := EndContainer();
      if !end {
        CloseQuietly();
        r := None;
      }
    }

    method DecodeUiFields() returns (r: Option<Ui>)
      modifies this
      ensures Matches(r, Value(), ReadUiFields(payload, old(Value())))
    {
      var version := DecodeUint32();
      if version.None? {
        CloseQuietly();
        return None;
      }
      var activeGroup := DecodeUint32();
      if activeGroup.None? {
        CloseQuietly();
        return None;
      }
      var properties := DecodeProperties();
      var screens := DecodeScreens();
      if screens.None? {
        return None;
      }
      r := Some(Ui(version.value, activeGroup.value, properties, screens.value));
    }

    method DecodeUi() returns (r: Option<Ui>)
      modifies this
      ensures Matches(r, Value(), ReadUi(payload, old(Value())))
    {
      var start := StartContainer(ARRAY);
      if !start {
        return None;
      }
      r := DecodeUiFields();
      if r.None? {
        return;
      }
      var end := EndContainer();
      if !end {
        r := None;
      }
    }
  }

  /** Decodes a payload; the length says how much of it was read. */
  method DecodePayload(payload: seq<Byte>) returns (r: Option<Ui>, length: nat)
    ensures r == Decode(payload).value && length == Decode(payload).state.pos
  {
    var decoder := new Decoder(payload);
    r := decoder.DecodeUi();
    length := decoder.pos;
  }
}
