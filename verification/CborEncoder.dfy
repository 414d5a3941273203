/**
 The encoder: it fills a payload buffer and stops where the next piece does not fit. Every method
 appends the bytes of its record, all of them or as many whole pieces as there was room for.
 */
module CborEncoder {
  import opened Cbor
  import opened CborConfig
  import opened Common
  import opened UiModel

  /**
   * What writing `bytes` behind `before` left behind: exactly that, or, if it failed, something
   * behind `before` and the certainty that they do not fit.
   */
  predicate Adds(before: seq<Byte>, bytes: seq<Byte>, after: seq<Byte>, capacity: nat, ok: bool) {
    |after| <= capacity && before <= after
    && (if ok then after == before + bytes else |before| + |bytes| > capacity)
  }

  lemma AddsIffFits(before: seq<Byte>, bytes: seq<Byte>, after: seq<Byte>, capacity: nat, ok: bool)
    requires Adds(before, bytes, after, capacity, ok)
    ensures ok <==> |before| + |bytes| <= capacity
  {
  }

  /** The same with what is still to be written: what there is and the rest make up the whole. */
  predicate Progress(before: seq<Byte>, full: seq<Byte>, rest: seq<Byte>, after: seq<Byte>, capacity: nat, ok: bool) {
    |after| <= capacity && before <= after
    && (if ok then after + rest == before + full else |before| + |full| > capacity)
  }

  lemma First(before: seq<Byte>, field: seq<Byte>, rest: seq<Byte>, after: seq<Byte>, capacity: nat, ok: bool)
    requires Adds(before, field, after, capacity, ok)
    ensures Progress(before, field + rest, rest, after, capacity, ok)
  {
    assert before + field + rest == before + (field + rest);
  }

  lemma Next(before: seq<Byte>, full: seq<Byte>, mid: seq<Byte>, field: seq<Byte>, rest: seq<Byte>, after: seq<Byte>,
             capacity: nat, ok: bool)
    requires Progress(before, full, field + rest, mid, capacity, true) && Adds(mid, field, after, capacity, ok)
    ensures Progress(before, full, rest, after, capacity, ok)
  {
    assert mid + field + rest == mid + (field + rest);
  }

  lemma Last(before: seq<Byte>, full: seq<Byte>, mid: seq<Byte>, field: seq<Byte>, after: seq<Byte>,
             capacity: nat, ok: bool)
    requires Progress(before, full, field, mid, capacity, true) && Adds(mid, field, after, capacity, ok)
    ensures Adds(before, full, after, capacity, ok)
  {
  }

  /** The items of an open list and the break behind them. */
  function ToBreak<T>(xs: seq<T>, bytes: T -> seq<Byte>): seq<Byte> { Joined(xs, bytes) + [BREAK] }

  /** The items left are the next one and then the rest. */
  lemma NextItem<T>(xs: seq<T>, bytes: T -> seq<Byte>, i: nat)
    requires i < |xs|
    ensures ToBreak(xs[i..], bytes) == bytes(xs[i]) + ToBreak(xs[i + 1..], bytes)
  {
    assert xs[i..][1..] == xs[i + 1..];
  }

  class Encoder {
    const buffer: array<Byte>
    var pos: nat

    constructor (buffer: array<Byte>)
      ensures this.buffer == buffer && Valid() && Written() == []
    {
      this.buffer, pos := buffer, 0;
    }

    ghost predicate Valid()
      reads this
    {
      pos <= buffer.Length
    }

    ghost function Written(): seq<Byte>
      requires Valid()
      reads this, buffer
    {
      buffer[..pos]
    }

    /** One piece, whole or not at all. */
    method Put(bytes: seq<Byte>) returns (ok: bool)
      requires Valid()
      modifies this, buffer
      ensures Valid() && Adds(old(Written()), bytes, Written(), buffer.Length, ok)
    {
      if |bytes| > buffer.Length - pos {
        return false;
      }
      ghost var before := Written();
      var i := 0;
      while i < |bytes|
        invariant 0 <= i <= |bytes| && pos == old(pos)
        invariant buffer[..pos + i] == before + bytes[..i]
      {
        buffer[pos + i] := bytes[i];
        assert bytes[..i + 1] == bytes[..i] + [bytes[i]];
        assert buffer[..pos + i + 1] == buffer[..pos + i] + [bytes[i]];
        i := i + 1;
      }
      assert bytes[..i] == bytes;
      pos := pos + |bytes|;
      ok := true;
    }

    method EncodeUint32(v: Uint32) returns (ok: bool)
      requires Valid()
      modifies this, buffer
      ensures Valid() && Adds(old(Written()), Uint32Bytes(v), Written(), buffer.Length, ok)
    {
      ok := Put(Head(UNSIGNED, v));
    }

    method EncodeInt32(v: Int32) returns (ok: bool)
      requires Valid()
      modifies this, buffer
      ensures Valid() && Adds(old(Written()), Int32Bytes(v), Written(), buffer.Length, ok)
    {
      if v >= 0 {
        ok := Put(Head(UNSIGNED, v));
      } else {
        ok := Put(Head(NEGATIVE, -1 - v));
      }
    }

    method EncodeBool(v: bool) returns (ok: bool)
      requires Valid()
      modifies this, buffer
      ensures Valid() && Adds(old(Written()), BoolBytes(v), Written(), buffer.Length, ok)
    {
      ok := Put([if v then TRUE else FALSE]);
    }

    method EncodeFloat64(v: Float64) returns (ok: bool)
      requires Valid()
      modifies this, buffer
      ensures Valid() && Adds(old(Written()), Float64Bytes(v), Written(), buffer.Length, ok)
    {
      ok := Put([DOUBLE] + v);
    }

    method EncodeText(v: Text) returns (ok: bool)
      requires Valid()
      modifies this, buffer
      ensures Valid() && Adds(old(Written()), TextBytes(v), Written(), buffer.Length, ok)
    {
      ok := Put(Head(TEXT, |v|) + v);
    }

    method EncodeInts(xs: seq<Int32>) returns (ok: bool)
      requires Valid()
      modifies this, buffer
      ensures Valid() && Adds(old(Written()), ArrayBytes(Joined(xs, Int32Bytes)), Written(), buffer.Length, ok)
    {
      ghost var before, full := Written(), ArrayBytes(Joined(xs, Int32Bytes));
      ok := Put([OPEN_ARRAY]);
      First(before, [OPEN_ARRAY], ToBreak(xs, Int32Bytes), Written(), buffer.Length, ok);
      var i := 0;
      while ok && i < |xs|
        invariant 0 <= i <= |xs| && Valid()
        invariant Progress(before, full, ToBreak(xs[i..], Int32Bytes), Written(), buffer.Length, ok)
      {
        ghost var mid := Written();
        NextItem(xs, Int32Bytes, i);
        ok := EncodeInt32(xs[i]);
        Next(before, full, mid, Int32Bytes(xs[i]), ToBreak(xs[i + 1..], Int32Bytes), Written(), buffer.Length, ok);
        i := i + 1;
      }
      if ok {
        ghost var mid := Written();
        ok := Put([BREAK]);
        Last(before, full, mid, [BREAK], Written(), buffer.Length, ok);
      }
    }

    method EncodeTexts(xs: seq<Text>) returns (ok: bool)
      requires Valid()
      modifies this, buffer
      ensures Valid() && Adds(old(Written()), ArrayBytes(Joined(xs, TextBytes)), Written(), buffer.Length, ok)
    {
      ghost var before, full := Written(), ArrayBytes(Joined(xs, TextBytes));
      ok := Put([OPEN_ARRAY]);
      First(before, [OPEN_ARRAY], ToBreak(xs, TextBytes), Written(), buffer.Length, ok);
      var i := 0;
      while ok && i < |xs|
        invariant 0 <= i <= |xs| && Valid()
        invariant Progress(before, full, ToBreak(xs[i..], TextBytes), Written(), buffer.Length, ok)
      {
        ghost var mid := Written();
        NextItem(xs, TextBytes, i);
        ok := EncodeText(xs[i]);
        Next(before, full, mid, TextBytes(xs[i]), ToBreak(xs[i + 1..], TextBytes), Written(), buffer.Length, ok);
        i := i + 1;
      }
      if ok {
        ghost var mid := Written();
        ok := Put([BREAK]);
        Last(before, full, mid, [BREAK], Written(), buffer.Length, ok);
      }
    }

    method EncodeEntry(e: Entry) returns (ok: bool)
      requires Valid()
      modifies this, buffer
      ensures Valid() && Adds(old(Written()), EntryBytes(e), Written(), buffer.Length, ok)
    {
      ghost var rest1 := TextBytes(e.value);
      ghost var before, full := Written(), TextBytes(e.key) + rest1;
      ok := EncodeText(e.key);
      First(before, TextBytes(e.key), rest1, Written(), buffer.Length, ok);
      if ok {
        ghost var mid := Written();
        ok := EncodeText(e.value);
        Last(before, full, mid, TextBytes(e.value), Written(), buffer.Length, ok);
      }
    }

    method EncodeEntries(xs: seq<Entry>) returns (ok: bool)
      requires Valid()
      modifies this, buffer
      ensures Valid() && Adds(old(Written()), MapBytes(Joined(xs, EntryBytes)), Written(), buffer.Length, ok)
    {
      ghost var before, full := Written(), MapBytes(Joined(xs, EntryBytes));
      ok := Put([OPEN_MAP]);
      First(before, [OPEN_MAP], ToBreak(xs, EntryBytes), Written(), buffer.Length, ok);
      var i := 0;
      while ok && i < |xs|
        invariant 0 <= i <= |xs| && Valid()
        invariant Progress(before, full, ToBreak(xs[i..], EntryBytes), Written(), buffer.Length, ok)
      {
        ghost var mid := Written();
        NextItem(xs, EntryBytes, i);
        ok := EncodeEntry(xs[i]);
        Next(before, full, mid, EntryBytes(xs[i]), ToBreak(xs[i + 1..], EntryBytes), Written(), buffer.Length, ok);
        i := i + 1;
      }
      if ok {
        ghost var mid := Written();
        ok := Put([BREAK]);
        Last(before, full, mid, [BREAK], Written(), buffer.Length, ok);
      }
    }

    method EncodeValue(v: CborValue) returns (ok: bool)
      requires Valid()
      modifies this, buffer
      ensures Valid() && Adds(old(Written()), ValueBytes(v), Written(), buffer.Length, ok)
    {
      match v {
        case IntC(i) => ok := EncodeInt32(i);
        case FloatC(d) => ok := EncodeFloat64(d);
        case TextC(t) => ok := EncodeText(t);
        case BoolC(b) => ok := EncodeBool(b);
        case IntListC(ints) => ok := EncodeInts(ints);
        case TextListC(texts) => ok := EncodeTexts(texts);
        case MapC(entries) => ok := EncodeEntries(entries);
      }
    }

    method EncodeProperty(x: Property) returns (ok: bool)
      requires Valid()
      modifies this, buffer
      ensures Valid() && Adds(old(Written()), PropertyBytes(x), Written(), buffer.Length, ok)
    {
      ghost var rest1 := ValueBytes(x.value);
      ghost var before, full := Written(), TextBytes(x.key) + rest1;
      ok := EncodeText(x.key);
      First(before, TextBytes(x.key), rest1, Written(), buffer.Length, ok);
      if ok {
        ghost var mid := Written();
        ok := EncodeValue(x.value);
        Last(before, full, mid, ValueBytes(x.value), Written(), buffer.Length, ok);
      }
    }

    method EncodePropertyMap(xs: seq<Property>) returns (ok: bool)
      requires Valid()
      modifies this, buffer
      ensures Valid() && Adds(old(Written()), MapBytes(Joined(xs, PropertyBytes)), Written(), buffer.Length, ok)
    {
      ghost var before, full := Written(), MapBytes(Joined(xs, PropertyBytes));
      ok := Put([OPEN_MAP]);
      First(before, [OPEN_MAP], ToBreak(xs, PropertyBytes), Written(), buffer.Length, ok);
      var i := 0;
      while ok && i < |xs|
        invariant 0 <= i <= |xs| && Valid()
        invariant Progress(before, full, ToBreak(xs[i..], PropertyBytes), Written(), buffer.Length, ok)
      {
        ghost var mid := Written();
        NextItem(xs, PropertyBytes, i);
        ok := EncodeProperty(xs[i]);
        Next(before, full, mid, PropertyBytes(xs[i]), ToBreak(xs[i + 1..], PropertyBytes), Written(), buffer.Length,
             ok);
        i := i + 1;
      }
      if ok {
        ghost var mid := Written();
        ok := Put([BREAK]);
        Last(before, full, mid, [BREAK], Written(), buffer.Length, ok);
      }
    }

    /** Absent properties are left out altogether. */
    method EncodeProperties(x: Option<seq<Property>>) returns (ok: bool)
      requires Valid()
      modifies this, buffer
      ensures Valid() && Adds(old(Written()), PropertiesBytes(x), Written(), buffer.Length, ok)
    {
      match x {
        case None => ok := true;
        case Some(entries) => ok := EncodePropertyMap(entries);
      }
    }

    method EncodeGridFields(g: Grid) returns (ok: bool)
      requires Valid()
      modifies this, buffer
      ensures Valid() && Adds(old(Written()), GridFields(g), Written(), buffer.Length, ok)
    {
      ghost var rest3 := Uint32Bytes(g.spacing);
      ghost var rest2 := Uint32Bytes(g.height) + rest3;
      ghost var rest1 := Uint32Bytes(g.width) + rest2;
      ghost var before, full := Written(), BoolBytes(g.snap) + rest1;
      ok := EncodeBool(g.snap);
      First(before, BoolBytes(g.snap), rest1, Written(), buffer.Length, ok);
      if ok {
        ghost var mid := Written();
        ok := EncodeUint32(g.width);
        Next(before, full, mid, Uint32Bytes(g.width), rest2, Written(), buffer.Length, ok);
      }
      if ok {
        ghost var mid := Written();
        ok := EncodeUint32(g.height);
        Next(before, full, mid, Uint32Bytes(g.height), rest3, Written(), buffer.Length, ok);
      }
      if ok {
        ghost var mid := Written();
        ok := EncodeUint32(g.spacing);
        Last(before, full, mid, Uint32Bytes(g.spacing), Written(), buffer.Length, ok);
      }
    }

    method EncodeGrid(g: Grid) returns (ok: bool)
      requires Valid()
      modifies this, buffer
      ensures Valid() && Adds(old(Written()), GridBytes(g), Written(), buffer.Length, ok)
    {
      ghost var rest2 := [BREAK];
      ghost var rest1 := GridFields(g) + rest2;
      ghost var before, full := Written(), [OPEN_ARRAY] + rest1;
      ok := Put([OPEN_ARRAY]);
      First(before, [OPEN_ARRAY], rest1, Written(), buffer.Length, ok);
      if ok {
        ghost var mid := Written();
        ok := EncodeGridFields(g);
        Next(before, full, mid, GridFields(g), rest2, Written(), buffer.Length, ok);
      }
      if ok {
        ghost var mid := Written();
        ok := Put([BREAK]);
        Last(before, full, mid, [BREAK], Written(), buffer.Length, ok);
      }
    }

    method EncodePosition(x: Position) returns (ok: bool)
      requires Valid()
      modifies this, buffer
      ensures Valid() && Adds(old(Written()), PositionBytes(x), Written(), buffer.Length, ok)
    {
      ghost var rest3 := [BREAK];
      ghost var rest2 := Int32Bytes(x.y) + rest3;
      ghost var rest1 := Int32Bytes(x.x) + rest2;
      ghost var before, full := Written(), [OPEN_ARRAY] + rest1;
      ok := Put([OPEN_ARRAY]);
      First(before, [OPEN_ARRAY], rest1, Written(), buffer.Length, ok);
      if ok {
        ghost var mid := Written();
        ok := EncodeInt32(x.x);
        Next(before, full, mid, Int32Bytes(x.x), rest2, Written(), buffer.Length, ok);
      }
      if ok {
        ghost var mid := Written();
        ok := EncodeInt32(x.y);
        Next(before, full, mid, Int32Bytes(x.y), rest3, Written(), buffer.Length, ok);
      }
      if ok {
        ghost var mid := Written();
        ok := Put([BREAK]);
        Last(before, full, mid, [BREAK], Written(), buffer.Length, ok);
      }
    }

    method EncodeSize(x: Size) returns (ok: bool)
      requires Valid()
      modifies this, buffer
      ensures Valid() && Adds(old(Written()), SizeBytes(x), Written(), buffer.Length, ok)
    {
      ghost var rest3 := [BREAK];
      ghost var rest2 := Uint32Bytes(x.height) + rest3;
      ghost var rest1 := Uint32Bytes(x.width) + rest2;
      ghost var before, full := Written(), [OPEN_ARRAY] + rest1;
      ok := Put([OPEN_ARRAY]);
      First(before, [OPEN_ARRAY], rest1, Written(), buffer.Length, ok);
      if ok {
        ghost var mid := Written();
        ok := EncodeUint32(x.width);
        Next(before, full, mid, Uint32Bytes(x.width), rest2, Written(), buffer.Length, ok);
      }
      if ok {
        ghost var mid := Written();
        ok := EncodeUint32(x.height);
        Next(before, full, mid, Uint32Bytes(x.height), rest3, Written(), buffer.Length, ok);
      }
      if ok {
        ghost var mid := Written();
        ok := Put([BREAK]);
        Last(before, full, mid, [BREAK], Written(), buffer.Length, ok);
      }
    }

    method EncodeRoute(x: Binding) returns (ok: bool)
      requires Valid()
      modifies this, buffer
      ensures Valid() && Adds(old(Written()), RouteBytes(x), Written(), buffer.Length, ok)
    {
      ghost var rest5 := Uint32Bytes(x.outboundEventType);
      ghost var rest4 := Uint32Bytes(x.direction) + rest5;
      ghost var rest3 := Uint32Bytes(x.payloadKey) + rest4;
      ghost var rest2 := Uint32Bytes(x.eventType) + rest3;
      ghost var rest1 := Uint32Bytes(x.channel) + rest2;
      ghost var before, full := Written(), Uint32Bytes(x.target) + rest1;
      ok := EncodeUint32(x.target);
      First(before, Uint32Bytes(x.target), rest1, Written(), buffer.Length, ok);
      if ok {
        ghost var mid := Written();
        ok := EncodeUint32(x.channel);
        Next(before, full, mid, Uint32Bytes(x.channel), rest2, Written(), buffer.Length, ok);
      }
      if ok {
        ghost var mid := Written();
        ok := EncodeUint32(x.eventType);
        Next(before, full, mid, Uint32Bytes(x.eventType), rest3, Written(), buffer.Length, ok);
      }
      if ok {
        ghost var mid := Written();
        ok := EncodeUint32(x.payloadKey);
        Next(before, full, mid, Uint32Bytes(x.payloadKey), rest4, Written(), buffer.Length, ok);
      }
      if ok {
        ghost var mid := Written();
        ok := EncodeUint32(x.direction);
        Next(before, full, mid, Uint32Bytes(x.direction), rest5, Written(), buffer.Length, ok);
      }
      if ok {
        ghost var mid := Written();
        ok := EncodeUint32(x.outboundEventType);
        Last(before, full, mid, Uint32Bytes(x.outboundEventType), Written(), buffer.Length, ok);
      }
    }

    method EncodeSelector(x: Binding) returns (ok: bool)
      requires Valid()
      modifies this, buffer
      ensures Valid() && Adds(old(Written()), SelectorBytes(x), Written(), buffer.Length, ok)
    {
      ghost var rest2 := ValueBytes(x.selectorValue);
      ghost var rest1 := Uint32Bytes(x.selectorKey) + rest2;
      ghost var before, full := Written(), BoolBytes(x.hasSelector) + rest1;
      ok := EncodeBool(x.hasSelector);
      First(before, BoolBytes(x.hasSelector), rest1, Written(), buffer.Length, ok);
      if ok {
        ghost var mid := Written();
        ok := EncodeUint32(x.selectorKey);
        Next(before, full, mid, Uint32Bytes(x.selectorKey), rest2, Written(), buffer.Length, ok);
      }
      if ok {
        ghost var mid := Written();
        ok := EncodeValue(x.selectorValue);
        Last(before, full, mid, ValueBytes(x.selectorValue), Written(), buffer.Length, ok);
      }
    }

    method EncodeBindingFields(x: Binding) returns (ok: bool)
      requires Valid()
      modifies this, buffer
      ensures Valid() && Adds(old(Written()), RouteBytes(x) + SelectorBytes(x), Written(), buffer.Length, ok)
    {
      ghost var rest1 := SelectorBytes(x);
      ghost var before, full := Written(), RouteBytes(x) + rest1;
      ok := EncodeRoute(x);
      First(before, RouteBytes(x), rest1, Written(), buffer.Length, ok);
      if ok {
        ghost var mid := Written();
        ok := EncodeSelector(x);
        Last(before, full, mid, SelectorBytes(x), Written(), buffer.Length, ok);
      }
    }

    method EncodeBinding(x: Binding) returns (ok: bool)
      requires Valid()
      modifies this, buffer
      ensures Valid() && Adds(old(Written()), BindingBytes(x), Written(), buffer.Length, ok)
    {
      ghost var rest2 := [BREAK];
      ghost var rest1 := (RouteBytes(x) + SelectorBytes(x)) + rest2;
      ghost var before, full := Written(), [OPEN_ARRAY] + rest1;
      ok := Put([OPEN_ARRAY]);
      First(before, [OPEN_ARRAY], rest1, Written(), buffer.Length, ok);
      if ok {
        ghost var mid := Written();
        ok := EncodeBindingFields(x);
        Next(before, full, mid, RouteBytes(x) + SelectorBytes(x), rest2, Written(), buffer.Length, ok);
      }
      if ok {
        ghost var mid := Written();
        ok := Put([BREAK]);
        Last(before, full, mid, [BREAK], Written(), buffer.Length, ok);
      }
    }

    method EncodeBindings(xs: seq<Binding>) returns (ok: bool)
      requires Valid()
      modifies this, buffer
      ensures Valid() && Adds(old(Written()), ArrayBytes(Joined(xs, BindingBytes)), Written(), buffer.Length, ok)
    {
      ghost var before, full := Written(), ArrayBytes(Joined(xs, BindingBytes));
      ok := Put([OPEN_ARRAY]);
      First(before, [OPEN_ARRAY], ToBreak(xs, BindingBytes), Written(), buffer.Length, ok);
      var i := 0;
      while ok && i < |xs|
        invariant 0 <= i <= |xs| && Valid()
        invariant Progress(before, full, ToBreak(xs[i..], BindingBytes), Written(), buffer.Length, ok)
      {
        ghost var mid := Written();
        NextItem(xs, BindingBytes, i);
        ok := EncodeBinding(xs[i]);
        Next(before, full, mid, BindingBytes(xs[i]), ToBreak(xs[i + 1..], BindingBytes), Written(), buffer.Length, ok);
        i := i + 1;
      }
      if ok {
        ghost var mid := Written();
        ok := Put([BREAK]);
        Last(before, full, mid, [BREAK], Written(), buffer.Length, ok);
      }
    }

    method EncodeWidgetHead(x: Widget) returns (ok: bool)
      requires Valid()
      modifies this, buffer
      ensures Valid() && Adds(old(Written()), WidgetHead(x), Written(), buffer.Length, ok)
    {
      ghost var rest4 := Int32Bytes(x.zIndex);
      ghost var rest3 := SizeBytes(x.size) + rest4;
      ghost var rest2 := PositionBytes(x.position) + rest3;
      ghost var rest1 := Uint32Bytes(x.id) + rest2;
      ghost var before, full := Written(), Uint32Bytes(x.kind) + rest1;
      ok := EncodeUint32(x.kind);
      First(before, Uint32Bytes(x.kind), rest1, Written(), buffer.Length, ok);
      if ok {
        ghost var mid := Written();
        ok := EncodeUint32(x.id);
        Next(before, full, mid, Uint32Bytes(x.id), rest2, Written(), buffer.Length, ok);
      }
      if ok {
        ghost var mid := Written();
        ok := EncodePosition(x.position);
        Next(before, full, mid, PositionBytes(x.position), rest3, Written(), buffer.Length, ok);
      }
      if ok {
        ghost var mid := Written();
        ok := EncodeSize(x.size);
        Next(before, full, mid, SizeBytes(x.size), rest4, Written(), buffer.Length, ok);
      }
      if ok {
        ghost var mid := Written();
        ok := EncodeInt32(x.zIndex);
        Last(before, full, mid, Int32Bytes(x.zIndex), Written(), buffer.Length, ok);
      }
    }

    method EncodeWidgetFields(x: Widget) returns (ok: bool)
      requires Valid()
      modifies this, buffer
      ensures Valid() && Adds(old(Written()), WidgetHead(x) + WidgetTail(x), Written(), buffer.Length, ok)
    {
      ghost var rest2 := ArrayBytes(Joined(x.bindings, BindingBytes));
      ghost var rest1 := PropertiesBytes(x.properties) + rest2;
      ghost var before, full := Written(), WidgetHead(x) + rest1;
      ok := EncodeWidgetHead(x);
      First(before, WidgetHead(x), rest1, Written(), buffer.Length, ok);
      if ok {
        ghost var mid := Written();
        ok := EncodeProperties(x.properties);
        Next(before, full, mid, PropertiesBytes(x.properties), rest2, Written(), buffer.Length, ok);
      }
      if ok {
        ghost var mid := Written();
        ok := EncodeBindings(x.bindings);
        Last(before, full, mid, ArrayBytes(Joined(x.bindings, BindingBytes)), Written(), buffer.Length, ok);
      }
    }

    method EncodeWidget(x: Widget) returns (ok: bool)
      requires Valid()
      modifies this, buffer
      ensures Valid() && Adds(old(Written()), WidgetBytes(x), Written(), buffer.Length, ok)
    {
      ghost var rest2 := [BREAK];
      ghost var rest1 := (WidgetHead(x) + WidgetTail(x)) + rest2;
      ghost var before, full := Written(), [OPEN_ARRAY] + rest1;
      ok := Put([OPEN_ARRAY]);
      First(before, [OPEN_ARRAY], rest1, Written(), buffer.Length, ok);
      if ok {
        ghost var mid := Written();
        ok := EncodeWidgetFields(x);
        Next(before, full, mid, WidgetHead(x) + WidgetTail(x), rest2, Written(), buffer.Length, ok);
      }
      if ok {
        ghost var mid := Written();
        ok := Put([BREAK]);
        Last(before, full, mid, [BREAK], Written(), buffer.Length, ok);
      }
    }

    method EncodeWidgets(xs: seq<Widget>) returns (ok: bool)
      requires Valid()
      modifies this, buffer
      ensures Valid() && Adds(old(Written()), ArrayBytes(Joined(xs, WidgetBytes)), Written(), buffer.Length, ok)
    {
      ghost var before, full := Written(), ArrayBytes(Joined(xs, WidgetBytes));
      ok := Put([OPEN_ARRAY]);
      First(before, [OPEN_ARRAY], ToBreak(xs, WidgetBytes), Written(), buffer.Length, ok);
      var i := 0;
      while ok && i < |xs|
        invariant 0 <= i <= |xs| && Valid()
        invariant Progress(before, full, ToBreak(xs[i..], WidgetBytes), Written(), buffer.Length, ok)
      {
        ghost var mid := Written();
        NextItem(xs, WidgetBytes, i);
        ok := EncodeWidget(xs[i]);
        Next(before, full, mid, WidgetBytes(xs[i]), ToBreak(xs[i + 1..], WidgetBytes), Written(), buffer.Length, ok);
        i := i + 1;
      }
      if ok {
        ghost var mid := Written();
        ok := Put([BREAK]);
        Last(before, full, mid, [BREAK], Written(), buffer.Length, ok);
      }
    }

    method EncodeScreenHead(x: Screen) returns (ok: bool)
      requires Valid()
      modifies this, buffer
      ensures Valid() && Adds(old(Written()), ScreenHead(x), Written(), buffer.Length, ok)
    {
      ghost var rest6 := GridBytes(x.grid);
      ghost var rest5 := BoolBytes(x.isOverlay) + rest6;
      ghost var rest4 := BoolBytes(x.isVisible) + rest5;
      ghost var rest3 := Int32Bytes(x.zIndex) + rest4;
      ghost var rest2 := Uint32Bytes(x.kind) + rest3;
      ghost var rest1 := Uint32Bytes(x.groupId) + rest2;
      ghost var before, full := Written(), Uint32Bytes(x.id) + rest1;
      ok := EncodeUint32(x.id);
      First(before, Uint32Bytes(x.id), rest1, Written(), buffer.Length, ok);
      if ok {
        ghost var mid := Written();
        ok := EncodeUint32(x.groupId);
        Next(before, full, mid, Uint32Bytes(x.groupId), rest2, Written(), buffer.Length, ok);
      }
      if ok {
        ghost var mid := Written();
        ok := EncodeUint32(x.kind);
        Next(before, full, mid, Uint32Bytes(x.kind), rest3, Written(), buffer.Length, ok);
      }
      if ok {
        ghost var mid := Written();
        ok := EncodeInt32(x.zIndex);
        Next(before, full, mid, Int32Bytes(x.zIndex), rest4, Written(), buffer.Length, ok);
      }
      if ok {
        ghost var mid := Written();
        ok := EncodeBool(x.isVisible);
        Next(before, full, mid, BoolBytes(x.isVisible), rest5, Written(), buffer.Length, ok);
      }
      if ok {
        ghost var mid := Written();
        ok := EncodeBool(x.isOverlay);
        Next(before, full, mid, BoolBytes(x.isOverlay), rest6, Written(), buffer.Length, ok);
      }
      if ok {
        ghost var mid := Written();
        ok := EncodeGrid(x.grid);
        Last(before, full, mid, GridBytes(x.grid), Written(), buffer.Length, ok);
      }
    }

    method EncodeScreenFields(x: Screen) returns (ok: bool)
      requires Valid()
      modifies this, buffer
      ensures Valid() && Adds(old(Written()), ScreenHead(x) + ScreenTail(x), Written(), buffer.Length, ok)
    {
      ghost var rest1 := ArrayBytes(Joined(x.widgets, WidgetBytes));
      ghost var before, full := Written(), ScreenHead(x) + rest1;
      ok := EncodeScreenHead(x);
      First(before, ScreenHead(x), rest1, Written(), buffer.Length, ok);
      if ok {
        ghost var mid := Written();
        ok := EncodeWidgets(x.widgets);
        Last(before, full, mid, ArrayBytes(Joined(x.widgets, WidgetBytes)), Written(), buffer.Length, ok);
      }
    }

    method EncodeScreen(x: Screen) returns (ok: bool)
      requires Valid()
      modifies this, buffer
      ensures Valid() && Adds(old(Written()), ScreenBytes(x), Written(), buffer.Length, ok)
    {
      ghost var rest2 := [BREAK];
      ghost var rest1 := (ScreenHead(x) + ScreenTail(x)) + rest2;
      ghost var before, full := Written(), [OPEN_ARRAY] + rest1;
      ok := Put([OPEN_ARRAY]);
      First(before, [OPEN_ARRAY], rest1, Written(), buffer.Length, ok);
      if ok {
        ghost var mid := Written();
        ok := EncodeScreenFields(x);
        Next(before, full, mid, ScreenHead(x) + ScreenTail(x), rest2, Written(), buffer.Length, ok);
      }
      if ok {
        ghost var mid := Written();
        ok := Put([BREAK]);
        Last(before, full, mid, [BREAK], Written(), buffer.Length, ok);
      }
    }

    method EncodeScreens(xs: seq<Screen>) returns (ok: bool)
      requires Valid()
      modifies this, buffer
      ensures Valid() && Adds(old(Written()), ArrayBytes(Joined(xs, ScreenBytes)), Written(), buffer.Length, ok)
    {
      ghost var before, full := Written(), ArrayBytes(Joined(xs, ScreenBytes));
      ok := Put([OPEN_ARRAY]);
      First(before, [OPEN_ARRAY], ToBreak(xs, ScreenBytes), Written(), buffer.Length, ok);
      var i := 0;
      while ok && i < |xs|
        invariant 0 <= i <= |xs| && Valid()
        invariant Progress(before, full, ToBreak(xs[i..], ScreenBytes), Written(), buffer.Length, ok)
      {
        ghost var mid := Written();
        NextItem(xs, ScreenBytes, i);
        ok := EncodeScreen(xs[i]);
        Next(before, full, mid, ScreenBytes(xs[i]), ToBreak(xs[i + 1..], ScreenBytes), Written(), buffer.Length, ok);
        i := i + 1;
      }
      if ok {
        ghost var mid := Written();
        ok := Put([BREAK]);
        Last(before, full, mid, [BREAK], Written(), buffer.Length, ok);
      }
    }

    method EncodeUiFields(x: Ui) returns (ok: bool)
      requires Valid()
      modifies this, buffer
      ensures Valid() && Adds(old(Written()), UiFields(x), Written(), buffer.Length, ok)
    {
      ghost var rest3 := ArrayBytes(Joined(x.screens, ScreenBytes));
      ghost var rest2 := PropertiesBytes(x.properties) + rest3;
      ghost var rest1 := Uint32Bytes(x.activeGroup) + rest2;
      ghost var before, full := Written(), Uint32Bytes(x.version) + rest1;
      ok := EncodeUint32(x.version);
      First(before, Uint32Bytes(x.version), rest1, Written(), buffer.Length, ok);
      if ok {
        ghost var mid := Written();
        ok := EncodeUint32(x.activeGroup);
        Next(before, full, mid, Uint32Bytes(x.activeGroup), rest2, Written(), buffer.Length, ok);
      }
      if ok {
        ghost var mid := Written();
        ok := EncodeProperties(x.properties);
        Next(before, full, mid, PropertiesBytes(x.properties), rest3, Written(), buffer.Length, ok);
      }
      if ok {
        ghost var mid := Written();
        ok := EncodeScreens(x.screens);
        Last(before, full, mid, ArrayBytes(Joined(x.screens, ScreenBytes)), Written(), buffer.Length, ok);
      }
    }

    method EncodeUi(x: Ui) returns (ok: bool)
      requires Valid()
      modifies this, buffer
      ensures Valid() && Adds(old(Written()), UiBytes(x), Written(), buffer.Length, ok)
    {
      ghost var rest2 := [BREAK];
      ghost var rest1 := UiFields(x) + rest2;
      ghost var before, full := Written(), [OPEN_ARRAY] + rest1;
      ok := Put([OPEN_ARRAY]);
      First(before, [OPEN_ARRAY], rest1, Written(), buffer.Length, ok);
      if ok {
        ghost var mid := Written();
        ok := EncodeUiFields(x);
        Next(before, full, mid, UiFields(x), rest2, Written(), buffer.Length, ok);
      }
      if ok {
        ghost var mid := Written();
        ok := Put([BREAK]);
        Last(before, full, mid, [BREAK], Written(), buffer.Length, ok);
      }
    }
  }

  /** Encodes into the payload; it succeeds if and only if the configuration fits. */
  method Encode(payload: array<Byte>, x: Ui) returns (ok: bool, length: nat)
    modifies payload
    ensures ok <==> |UiBytes(x)| <= payload.Length
    ensures ok ==> length <= payload.Length && payload[..length] == UiBytes(x)
  {
    var encoder := new Encoder(payload);
    ok := encoder.EncodeUi(x);
    length := encoder.pos;
  }
}
