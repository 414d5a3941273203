/**
 What was written is read back, to the last byte.

 The proof follows the records from the inside out. For each of them there is a lemma that reads its
 bytes wherever they stand in a payload (`...IsRead`), and for each kind of list item one that puts
 this in the form a loop over items needs (`...ReadsBack`). `ManyReadsBack` is the loop, once for all
 item types. A record with many fields is cut into a few groups, each read by a lemma of its own and
 put together by one that knows nothing about bytes (`...Assembles`).

 The one thing that does not come back is an empty list of texts, which has the bytes of an empty
 list of integers. `CanonUi` says what it becomes, and `Faithful` says where there is none.
 */
module CborRoundTrip {
  import opened Cbor
  import opened CborConfig
  import opened Common
  import opened UiModel

  // ---------------------------------------------------------------- what comes back

  function Mapped<T, U>(xs: seq<T>, f: T -> U): (ys: seq<U>)
    ensures |ys| == |xs| && forall i :: 0 <= i < |xs| ==> ys[i] == f(xs[i])
  {
    if xs == [] then [] else [f(xs[0])] + Mapped(xs[1..], f)
  }

  /** An empty list of texts cannot be told from an empty list of integers. */
  function CanonValue(v: CborValue): CborValue {
    if v == TextListC([]) then IntListC([]) else v
  }

  function CanonProperty(x: Property): Property { x.(value := CanonValue(x.value)) }

  function CanonProperties(x: Option<seq<Property>>): Option<seq<Property>> {
    match x case Some(entries) => Some(Mapped(entries, CanonProperty)) case None => None
  }

  function CanonBinding(x: Binding): Binding { x.(selectorValue := CanonValue(x.selectorValue)) }

  function CanonWidget(x: Widget): Widget {
    x.(properties := CanonProperties(x.properties), bindings := Mapped(x.bindings, CanonBinding))
  }

  function CanonScreen(x: Screen): Screen { x.(widgets := Mapped(x.widgets, CanonWidget)) }

  function CanonUi(x: Ui): Ui {
    x.(properties := CanonProperties(x.properties), screens := Mapped(x.screens, CanonScreen))
  }

  /** The read succeeds with this value and leaves this state. */
  predicate Gives<T(==)>(r: Read<T>, value: T, after: State) {
    r == Read(Some(value), after)
  }

  // ---------------------------------------------------------------- first bytes

  predicate Begins(p: seq<Byte>, pos: nat, first: Byte) {
    pos < |p| && p[pos] == first
  }

  /** A byte of another major type is no argument and no container of this one. */
  lemma OtherMajor(p: seq<Byte>, s: State, major: nat, limit: nat)
    requires s.pos < |p| && p[s.pos] / 0x20 != major
    ensures Argument(p, s, major, limit) == Read(None, s)
    ensures Start(p, s, major) == Read(None, s)
  {
  }

  lemma HeadFirst(major: nat, arg: nat)
    requires major < 7 && arg < 0x1_0000_0000
    ensures Head(major, arg)[0] / 0x20 == major && Head(major, arg)[0] != BREAK
  {
    HeadIs(major, arg);
  }

  // ---------------------------------------------------------------- lists

  /** Wherever these bytes stand inside a container of indefinite length, `one` reads this value from them. */
  ghost predicate ReadsBack<T>(p: seq<Byte>, bytes: seq<Byte>, value: T, one: State -> Read<T>) {
    forall t: State :: t.count.None? && At(p, t.pos, bytes) ==> one(t) == Read(Some(value), t.(pos := t.pos + |bytes|))
  }

  predicate IsItem(bytes: seq<Byte>) {
    bytes != [] && bytes[0] != BREAK
  }

  /** Every item of a list is read back. */
  ghost predicate AllReadBack<T, U>(p: seq<Byte>, xs: seq<T>, bytes: T -> seq<Byte>, canon: T -> U,
                                    one: State -> Read<U>) {
    xs == []
    || (IsItem(bytes(xs[0])) && ReadsBack(p, bytes(xs[0]), canon(xs[0]), one)
        && AllReadBack(p, xs[1..], bytes, canon, one))
  }

  lemma JoinedSplits<T>(p: seq<Byte>, pos: nat, xs: seq<T>, bytes: T -> seq<Byte>)
    requires xs != [] && At(p, pos, Joined(xs, bytes) + [BREAK])
    ensures At(p, pos, bytes(xs[0])) && At(p, pos + |bytes(xs[0])|, Joined(xs[1..], bytes) + [BREAK])
    ensures |Joined(xs, bytes)| == |bytes(xs[0])| + |Joined(xs[1..], bytes)|
  {
    var first, rest := bytes(xs[0]), Joined(xs[1..], bytes) + [BREAK];
    assert Joined(xs, bytes) + [BREAK] == first + rest;
    AtSplits(p, pos, first, rest);
  }

  lemma ManyGoesOn<T>(p: seq<Byte>, s: State, one: State -> Read<T>, first: T, next: State)
    requires forall t :: one(t).value.Some? ==> t.pos < one(t).state.pos <= |p|
    requires !AtEnd(p, s) && one(s) == Read(Some(first), next) && Many(p, next, one).value.Some?
    ensures Many(p, s, one) == Read(Some([first] + Many(p, next, one).value.value), Many(p, next, one).state)
  {
  }

  lemma {:induction false} ManyReadsBack<T, U>(p: seq<Byte>, s: State, xs: seq<T>, bytes: T -> seq<Byte>,
                                               canon: T -> U, one: State -> Read<U>)
    requires forall t :: one(t).value.Some? ==> t.pos < one(t).state.pos <= |p|
    requires s.count.None? && At(p, s.pos, Joined(xs, bytes) + [BREAK])
    requires AllReadBack(p, xs, bytes, canon, one)
    ensures Many(p, s, one) == Read(Some(Mapped(xs, canon)), s.(pos := s.pos + |Joined(xs, bytes)|))
    decreases |xs|
  {
    if xs == [] {
      assert Joined(xs, bytes) + [BREAK] == [BREAK];
      AtFirst(p, s.pos, [BREAK]);
    } else {
      JoinedSplits(p, s.pos, xs, bytes);
      AtFirst(p, s.pos, bytes(xs[0]));
      var next := s.(pos := s.pos + |bytes(xs[0])|);
      ManyReadsBack(p, next, xs[1..], bytes, canon, one);
      ManyGoesOn(p, s, one, canon(xs[0]), next);
    }
  }

  /** The opening of a container of indefinite length. */
  lemma OpenIsRead(p: seq<Byte>, s: State, open: Byte, content: seq<Byte>)
    requires open == OPEN_ARRAY || open == OPEN_MAP
    requires CanTake(s) && At(p, s.pos, [open] + content)
    ensures
      var major := if open == OPEN_ARRAY then ARRAY else MAP;
      Start(p, s, major)
      == Read(Some(()), State(s.pos + 1, None, s.backups + [Backup(s.pos + 1, Taken(s, s.pos + 1).count)]))
    ensures At(p, s.pos + 1, content)
  {
    AtSplits(p, s.pos, [open], content);
    AtFirst(p, s.pos, [open]);
  }

  /** The break at the end goes back to the container outside. */
  lemma BreakIsRead(p: seq<Byte>, s: State, outside: State, start: nat)
    requires CanTake(outside) && s.count.None?
    requires s.backups == outside.backups + [Backup(start, Taken(outside, start).count)]
    requires At(p, s.pos, [BREAK])
    ensures End(p, s) == Read(Some(()), Taken(outside, s.pos + 1))
  {
    AtFirst(p, s.pos, [BREAK]);
  }

  /** Opening, items and break make up the list. */
  lemma ListedAssembles<T>(p: seq<Byte>, s: State, major: nat, one: State -> Read<T>, inside: State, items: seq<T>,
                           atEnd: State, after: State)
    requires forall t :: one(t).value.Some? ==> t.pos < one(t).state.pos <= |p|
    requires Start(p, s, major) == Read(Some(()), inside) && Many(p, inside, one) == Read(Some(items), atEnd)
    requires End(p, atEnd) == Read(Some(()), after)
    ensures Gives(Listed(p, s, major, one), items, after)
  {
  }

  lemma ListedReadsBack<T, U>(p: seq<Byte>, s: State, open: Byte, xs: seq<T>, bytes: T -> seq<Byte>,
                              canon: T -> U, one: State -> Read<U>)
    requires open == OPEN_ARRAY || open == OPEN_MAP
    requires forall t :: one(t).value.Some? ==> t.pos < one(t).state.pos <= |p|
    requires CanTake(s) && At(p, s.pos, [open] + (Joined(xs, bytes) + [BREAK]))
    requires AllReadBack(p, xs, bytes, canon, one)
    ensures Gives(Listed(p, s, if open == OPEN_ARRAY then ARRAY else MAP, one), Mapped(xs, canon),
                  Taken(s, s.pos + |[open] + (Joined(xs, bytes) + [BREAK])|))
  {
    OpenIsRead(p, s, open, Joined(xs, bytes) + [BREAK]);
    var inside := State(s.pos + 1, None, s.backups + [Backup(s.pos + 1, Taken(s, s.pos + 1).count)]);
    var atEnd := inside.(pos := inside.pos + |Joined(xs, bytes)|);
    ManyReadsBack(p, inside, xs, bytes, canon, one);
    AtSplits(p, s.pos + 1, Joined(xs, bytes), [BREAK]);
    BreakIsRead(p, atEnd, s, s.pos + 1);
    ListedAssembles(p, s, if open == OPEN_ARRAY then ARRAY else MAP, one, inside, Mapped(xs, canon), atEnd,
                    Taken(s, atEnd.pos + 1));
  }

  // ---------------------------------------------------------------- values

  lemma IntReadsBack(p: seq<Byte>, v: Int32)
    ensures IsItem(Int32Bytes(v)) && ReadsBack(p, Int32Bytes(v), v, IntReader(p))
  {
    HeadFirst(UNSIGNED, if v >= 0 then v else 0);
    HeadFirst(NEGATIVE, if v >= 0 then 0 else -1 - v);
    forall t: State | t.count.None? && At(p, t.pos, Int32Bytes(v))
      ensures ReadInt32(p, t) == Read(Some(v), t.(pos := t.pos + |Int32Bytes(v)|))
    {
      Int32IsRead(p, t, v);
    }
  }

  lemma TextReadsBack(p: seq<Byte>, v: Text)
    ensures IsItem(TextBytes(v)) && ReadsBack(p, TextBytes(v), v, TextReader(p))
  {
    HeadFirst(TEXT, |v|);
    forall t: State | t.count.None? && At(p, t.pos, TextBytes(v))
      ensures ReadText(p, t) == Read(Some(v), t.(pos := t.pos + |TextBytes(v)|))
    {
      TextIsRead(p, t, v);
    }
  }

  lemma EntryIsRead(p: seq<Byte>, s: State, e: Entry)
    requires s.count.None? && At(p, s.pos, EntryBytes(e))
    ensures Gives(ReadEntry(p, s), e, s.(pos := s.pos + |EntryBytes(e)|))
  {
    AtSplits(p, s.pos, TextBytes(e.key), TextBytes(e.value));
    TextIsRead(p, s, e.key);
    TextIsRead(p, s.(pos := s.pos + |TextBytes(e.key)|), e.value);
  }

  lemma EntryReadsBack(p: seq<Byte>, e: Entry)
    ensures IsItem(EntryBytes(e)) && ReadsBack(p, EntryBytes(e), e, EntryReader(p))
  {
    HeadFirst(TEXT, |e.key|);
    forall t: State | t.count.None? && At(p, t.pos, EntryBytes(e))
      ensures ReadEntry(p, t) == Read(Some(e), t.(pos := t.pos + |EntryBytes(e)|))
    {
      EntryIsRead(p, t, e);
    }
  }

  function Same<T>(x: T): T { x }

  /** A list of items that come back as they were. */
  lemma ListedReadsSame<T>(p: seq<Byte>, s: State, open: Byte, xs: seq<T>, bytes: T -> seq<Byte>, one: State -> Read<T>)
    requires open == OPEN_ARRAY || open == OPEN_MAP
    requires forall t :: one(t).value.Some? ==> t.pos < one(t).state.pos <= |p|
    requires CanTake(s) && At(p, s.pos, [open] + (Joined(xs, bytes) + [BREAK]))
    requires AllReadBack(p, xs, bytes, Same, one)
    ensures Gives(Listed(p, s, if open == OPEN_ARRAY then ARRAY else MAP, one), xs,
                  Taken(s, s.pos + |[open] + (Joined(xs, bytes) + [BREAK])|))
  {
    assert Mapped(xs, Same) == xs;
    ListedReadsBack(p, s, open, xs, bytes, Same, one);
  }

  lemma {:induction false} IntsReadBack(p: seq<Byte>, xs: seq<Int32>)
    ensures AllReadBack(p, xs, Int32Bytes, Same, IntReader(p))
  {
    if xs != [] {
      IntReadsBack(p, xs[0]);
      IntsReadBack(p, xs[1..]);
    }
  }

  lemma IntsAreRead(p: seq<Byte>, s: State, ints: seq<Int32>)
    requires CanTake(s) && At(p, s.pos, ArrayBytes(Joined(ints, Int32Bytes)))
    ensures Gives(Listed(p, s, ARRAY, IntReader(p)), ints, Taken(s, s.pos + |ArrayBytes(Joined(ints, Int32Bytes))|))
  {
    IntsReadBack(p, ints);
    ListedReadsSame(p, s, OPEN_ARRAY, ints, Int32Bytes, IntReader(p));
  }

  lemma {:induction false} TextsReadBack(p: seq<Byte>, xs: seq<Text>)
    ensures AllReadBack(p, xs, TextBytes, Same, TextReader(p))
  {
    if xs != [] {
      TextReadsBack(p, xs[0]);
      TextsReadBack(p, xs[1..]);
    }
  }

  lemma TextsAreRead(p: seq<Byte>, s: State, texts: seq<Text>)
    requires CanTake(s) && At(p, s.pos, ArrayBytes(Joined(texts, TextBytes)))
    ensures Gives(Listed(p, s, ARRAY, TextReader(p)), texts, Taken(s, s.pos + |ArrayBytes(Joined(texts, TextBytes))|))
  {
    TextsReadBack(p, texts);
    ListedReadsSame(p, s, OPEN_ARRAY, texts, TextBytes, TextReader(p));
  }

  lemma {:induction false} EntriesReadBack(p: seq<Byte>, xs: seq<Entry>)
    ensures AllReadBack(p, xs, EntryBytes, Same, EntryReader(p))
  {
    if xs != [] {
      EntryReadsBack(p, xs[0]);
      EntriesReadBack(p, xs[1..]);
    }
  }

  lemma EntriesAreRead(p: seq<Byte>, s: State, entries: seq<Entry>)
    requires CanTake(s) && At(p, s.pos, MapBytes(Joined(entries, EntryBytes)))
    ensures Gives(Listed(p, s, MAP, EntryReader(p)), entries, Taken(s, s.pos + |MapBytes(Joined(entries, EntryBytes))|))
  {
    EntriesReadBack(p, entries);
    ListedReadsSame(p, s, OPEN_MAP, entries, EntryBytes, EntryReader(p));
  }

  /** A list of texts that is not empty is no list of integers: its first item already fails. */
  lemma TextsAreNoInts(p: seq<Byte>, s: State, texts: seq<Text>)
    requires CanTake(s) && texts != [] && At(p, s.pos, ArrayBytes(Joined(texts, TextBytes)))
    ensures Listed(p, s, ARRAY, IntReader(p)).value.None?
  {
    var content := Joined(texts, TextBytes) + [BREAK];
    OpenIsRead(p, s, OPEN_ARRAY, content);
    JoinedSplits(p, s.pos + 1, texts, TextBytes);
    AtFirst(p, s.pos + 1, TextBytes(texts[0]));
    HeadFirst(TEXT, |texts[0]|);
    var inside := Start(p, s, ARRAY).state;
    OtherMajor(p, inside, UNSIGNED, 0x7fff_ffff);
    OtherMajor(p, inside, NEGATIVE, 0x7fff_ffff);
    assert ReadInt32(p, inside).value.None?;
  }

  /** The scalar alternatives fail on the first byte of a container. */
  lemma ContainerIsNoScalar(p: seq<Byte>, s: State)
    requires Begins(p, s.pos, OPEN_ARRAY) || Begins(p, s.pos, OPEN_MAP)
    ensures ReadValue(p, s) == ReadContainer(p, s)
  {
    OtherMajor(p, s, UNSIGNED, 0x7fff_ffff);
    OtherMajor(p, s, NEGATIVE, 0x7fff_ffff);
    OtherMajor(p, s, TEXT, 0xffff_ffff);
  }

  lemma ScalarIsRead(p: seq<Byte>, s: State, v: CborValue)
    requires v.IntC? || v.FloatC? || v.TextC? || v.BoolC?
    requires CanTake(s) && At(p, s.pos, ValueBytes(v))
    ensures Gives(ReadValue(p, s), v, Taken(s, s.pos + |ValueBytes(v)|))
  {
    match v {
      case IntC(i) =>
        Int32IsRead(p, s, i);
      case FloatC(d) =>
        AtFirst(p, s.pos, Float64Bytes(d));
        OtherMajor(p, s, UNSIGNED, 0x7fff_ffff);
        OtherMajor(p, s, NEGATIVE, 0x7fff_ffff);
        Float64IsRead(p, s, d);
      case TextC(t) =>
        AtFirst(p, s.pos, TextBytes(t));
        HeadFirst(TEXT, |t|);
        OtherMajor(p, s, UNSIGNED, 0x7fff_ffff);
        OtherMajor(p, s, NEGATIVE, 0x7fff_ffff);
        TextIsRead(p, s, t);
      case BoolC(b) =>
        AtFirst(p, s.pos, BoolBytes(b));
        OtherMajor(p, s, UNSIGNED, 0x7fff_ffff);
        OtherMajor(p, s, NEGATIVE, 0x7fff_ffff);
        OtherMajor(p, s, TEXT, 0xffff_ffff);
        BoolIsRead(p, s, b);
    }
  }

  lemma IntListIsRead(p: seq<Byte>, s: State, ints: seq<Int32>)
    requires CanTake(s) && At(p, s.pos, ValueBytes(IntListC(ints)))
    ensures Gives(ReadValue(p, s), IntListC(ints), Taken(s, s.pos + |ValueBytes(IntListC(ints))|))
  {
    AtFirst(p, s.pos, ValueBytes(IntListC(ints)));
    ContainerIsNoScalar(p, s);
    IntsAreRead(p, s, ints);
  }

  lemma TextListIsRead(p: seq<Byte>, s: State, texts: seq<Text>)
    requires CanTake(s) && texts != [] && At(p, s.pos, ValueBytes(TextListC(texts)))
    ensures Gives(ReadValue(p, s), TextListC(texts), Taken(s, s.pos + |ValueBytes(TextListC(texts))|))
  {
    AtFirst(p, s.pos, ValueBytes(TextListC(texts)));
    ContainerIsNoScalar(p, s);
    TextsAreNoInts(p, s, texts);
    TextsAreRead(p, s, texts);
  }

  lemma ListedNeedsStart<T>(p: seq<Byte>, s: State, major: nat, one: State -> Read<T>)
    requires forall t :: one(t).value.Some? ==> t.pos < one(t).state.pos <= |p|
    requires s.pos < |p| && p[s.pos] / 0x20 != major
    ensures Listed(p, s, major, one).value.None?
  {
    OtherMajor(p, s, major, 0);
  }

  lemma TextMapIsRead(p: seq<Byte>, s: State, entries: seq<Entry>)
    requires CanTake(s) && At(p, s.pos, ValueBytes(MapC(entries)))
    ensures Gives(ReadValue(p, s), MapC(entries), Taken(s, s.pos + |ValueBytes(MapC(entries))|))
  {
    AtFirst(p, s.pos, ValueBytes(MapC(entries)));
    ContainerIsNoScalar(p, s);
    ListedNeedsStart(p, s, ARRAY, IntReader(p));
    ListedNeedsStart(p, s, ARRAY, TextReader(p));
    EntriesAreRead(p, s, entries);
  }

  /** Trying the alternatives in order never picks a wrong one, but for the list that is empty. */
  lemma ValueIsRead(p: seq<Byte>, s: State, v: CborValue)
    requires CanTake(s) && At(p, s.pos, ValueBytes(v))
    ensures Gives(ReadValue(p, s), CanonValue(v), Taken(s, s.pos + |ValueBytes(v)|))
  {
    match v {
      case IntListC(ints) =>
        IntListIsRead(p, s, ints);
      case TextListC(texts) =>
        if texts == [] {
          EmptyListsLookAlike();
          IntListIsRead(p, s, []);
        } else {
          TextListIsRead(p, s, texts);
        }
      case MapC(entries) =>
        TextMapIsRead(p, s, entries);
      case _ =>
        ScalarIsRead(p, s, v);
    }
  }

  lemma EmptyListsLookAlike()
    ensures ValueBytes(TextListC([])) == ValueBytes(IntListC([]))
  {
  }

  // ---------------------------------------------------------------- records

  lemma PropertyIsRead(p: seq<Byte>, s: State, x: Property)
    requires s.count.None? && At(p, s.pos, PropertyBytes(x))
    ensures Gives(ReadProperty(p, s), CanonProperty(x), s.(pos := s.pos + |PropertyBytes(x)|))
  {
    AtSplits(p, s.pos, TextBytes(x.key), ValueBytes(x.value));
    TextIsRead(p, s, x.key);
    ValueIsRead(p, s.(pos := s.pos + |TextBytes(x.key)|), x.value);
  }

  lemma PropertyReadsBack(p: seq<Byte>, x: Property)
    ensures IsItem(PropertyBytes(x)) && ReadsBack(p, PropertyBytes(x), CanonProperty(x), PropertyReader(p))
  {
    HeadFirst(TEXT, |x.key|);
    forall t: State | t.count.None? && At(p, t.pos, PropertyBytes(x))
      ensures ReadProperty(p, t) == Read(Some(CanonProperty(x)), t.(pos := t.pos + |PropertyBytes(x)|))
    {
      PropertyIsRead(p, t, x);
    }
  }

  lemma {:induction false} PropertiesReadBack(p: seq<Byte>, xs: seq<Property>)
    ensures AllReadBack(p, xs, PropertyBytes, CanonProperty, PropertyReader(p))
  {
    if xs != [] {
      PropertyReadsBack(p, xs[0]);
      PropertiesReadBack(p, xs[1..]);
    }
  }

  lemma SomePropertiesAreRead(p: seq<Byte>, s: State, entries: seq<Property>)
    requires s.count.None? && At(p, s.pos, MapBytes(Joined(entries, PropertyBytes)))
    ensures Gives(Listed(p, s, MAP, PropertyReader(p)), Mapped(entries, CanonProperty),
                  Taken(s, s.pos + |MapBytes(Joined(entries, PropertyBytes))|))
  {
    PropertiesReadBack(p, entries);
    ListedReadsBack(p, s, OPEN_MAP, entries, PropertyBytes, CanonProperty, PropertyReader(p));
  }

  /** Where it succeeds, reading properties is reading a list of them. */
  lemma ListedIsProperties(p: seq<Byte>, s: State)
    ensures Listed(p, s, MAP, PropertyReader(p)).value.Some? ==>
              ReadProperties(p, s) == Listed(p, s, MAP, PropertyReader(p))
  {
  }

  /** Absent properties decode as absent: a list follows, and a list is no map. */
  lemma PropertiesAreRead(p: seq<Byte>, s: State, x: Option<seq<Property>>)
    requires s.count.None? && At(p, s.pos, PropertiesBytes(x))
    requires x.None? ==> Begins(p, s.pos, OPEN_ARRAY)
    ensures ReadProperties(p, s) == Read(CanonProperties(x), s.(pos := s.pos + |PropertiesBytes(x)|))
  {
    match x {
      case None =>
        OtherMajor(p, s, MAP, 0);
      case Some(entries) =>
        SomePropertiesAreRead(p, s, entries);
        ListedIsProperties(p, s);
    }
  }

  // A field at the cursor is read, and what follows it stands behind it.

  lemma Uint32Field(p: seq<Byte>, s: State, v: Uint32, rest: seq<Byte>)
    requires s.count.None? && At(p, s.pos, Uint32Bytes(v) + rest)
    ensures Gives(ReadUint32(p, s), v, s.(pos := s.pos + |Uint32Bytes(v)|))
    ensures At(p, s.pos + |Uint32Bytes(v)|, rest)
  {
    AtSplits(p, s.pos, Uint32Bytes(v), rest);
    Uint32IsRead(p, s, v);
  }

  lemma Int32Field(p: seq<Byte>, s: State, v: Int32, rest: seq<Byte>)
    requires s.count.None? && At(p, s.pos, Int32Bytes(v) + rest)
    ensures Gives(ReadInt32(p, s), v, s.(pos := s.pos + |Int32Bytes(v)|))
    ensures At(p, s.pos + |Int32Bytes(v)|, rest)
  {
    AtSplits(p, s.pos, Int32Bytes(v), rest);
    Int32IsRead(p, s, v);
  }

  lemma BoolField(p: seq<Byte>, s: State, v: bool, rest: seq<Byte>)
    requires s.count.None? && At(p, s.pos, BoolBytes(v) + rest)
    ensures Gives(ReadBool(p, s), v, s.(pos := s.pos + |BoolBytes(v)|))
    ensures At(p, s.pos + |BoolBytes(v)|, rest)
  {
    AtSplits(p, s.pos, BoolBytes(v), rest);
    BoolIsRead(p, s, v);
  }

  lemma AtNothing(p: seq<Byte>, pos: nat, b: seq<Byte>)
    ensures At(p, pos, b + []) <==> At(p, pos, b)
  {
    assert b + [] == b;
  }

  /** The cursor behind some bytes. */
  function Past(s: State, b: seq<Byte>): State { s.(pos := s.pos + |b|) }

  lemma GridFieldsAreRead(p: seq<Byte>, s: State, g: Grid)
    requires s.count.None? && At(p, s.pos, GridFields(g))
    ensures Gives(ReadGridFields(p, s), g, Past(s, GridFields(g)))
  {
    var height := Uint32Bytes(g.height) + Uint32Bytes(g.spacing);
    BoolField(p, s, g.snap, Uint32Bytes(g.width) + height);
    var s1 := Past(s, BoolBytes(g.snap));
    Uint32Field(p, s1, g.width, height);
    var s2 := Past(s1, Uint32Bytes(g.width));
    Uint32Field(p, s2, g.height, Uint32Bytes(g.spacing));
    var s3 := Past(s2, Uint32Bytes(g.height));
    AtNothing(p, s3.pos, Uint32Bytes(g.spacing));
    Uint32Field(p, s3, g.spacing, []);
  }

  /** A record between its opening and its break. */
  lemma RecordFrame(p: seq<Byte>, s: State, content: seq<Byte>)
    requires CanTake(s) && At(p, s.pos, ArrayBytes(content))
    ensures
      var inside := State(s.pos + 1, None, s.backups + [Backup(s.pos + 1, Taken(s, s.pos + 1).count)]);
      Start(p, s, ARRAY) == Read(Some(()), inside) && At(p, s.pos + 1, content)
      && End(p, Past(inside, content)) == Read(Some(()), Taken(s, s.pos + |ArrayBytes(content)|))
  {
    OpenIsRead(p, s, OPEN_ARRAY, content + [BREAK]);
    AtSplits(p, s.pos + 1, content, [BREAK]);
    var inside := State(s.pos + 1, None, s.backups + [Backup(s.pos + 1, Taken(s, s.pos + 1).count)]);
    BreakIsRead(p, Past(inside, content), s, s.pos + 1);
  }

  lemma GridIsRead(p: seq<Byte>, s: State, g: Grid)
    requires CanTake(s) && At(p, s.pos, GridBytes(g))
    ensures Gives(ReadGrid(p, s), g, Taken(s, s.pos + |GridBytes(g)|))
  {
    RecordFrame(p, s, GridFields(g));
    GridFieldsAreRead(p, Start(p, s, ARRAY).state, g);
  }

  lemma PositionFieldsAreRead(p: seq<Byte>, s: State, x: Position)
    requires s.count.None? && At(p, s.pos, Int32Bytes(x.x) + Int32Bytes(x.y))
    ensures Gives(ReadPositionFields(p, s), x, Past(s, Int32Bytes(x.x) + Int32Bytes(x.y)))
  {
    Int32Field(p, s, x.x, Int32Bytes(x.y));
    var s1 := Past(s, Int32Bytes(x.x));
    AtNothing(p, s1.pos, Int32Bytes(x.y));
    Int32Field(p, s1, x.y, []);
  }

  lemma PositionIsRead(p: seq<Byte>, s: State, x: Position)
    requires CanTake(s) && At(p, s.pos, PositionBytes(x))
    ensures Gives(ReadPosition(p, s), x, Taken(s, s.pos + |PositionBytes(x)|))
  {
    RecordFrame(p, s, Int32Bytes(x.x) + Int32Bytes(x.y));
    PositionFieldsAreRead(p, Start(p, s, ARRAY).state, x);
  }

  lemma SizeFieldsAreRead(p: seq<Byte>, s: State, x: Size)
    requires s.count.None? && At(p, s.pos, Uint32Bytes(x.width) + Uint32Bytes(x.height))
    ensures Gives(ReadSizeFields(p, s), x, Past(s, Uint32Bytes(x.width) + Uint32Bytes(x.height)))
  {
    Uint32Field(p, s, x.width, Uint32Bytes(x.height));
    var s1 := Past(s, Uint32Bytes(x.width));
    AtNothing(p, s1.pos, Uint32Bytes(x.height));
    Uint32Field(p, s1, x.height, []);
  }

  lemma SizeIsRead(p: seq<Byte>, s: State, x: Size)
    requires CanTake(s) && At(p, s.pos, SizeBytes(x))
    ensures Gives(ReadSize(p, s), x, Taken(s, s.pos + |SizeBytes(x)|))
  {
    RecordFrame(p, s, Uint32Bytes(x.width) + Uint32Bytes(x.height));
    SizeFieldsAreRead(p, Start(p, s, ARRAY).state, x);
  }

  // ---------------------------------------------------------------- bindings

  function RouteOf(x: Binding): Route {
    Route(x.target, x.channel, x.eventType, x.payloadKey, x.direction, x.outboundEventType)
  }

  lemma RouteAssembles(p: seq<Byte>, s: State, x: Route, s1: State, s2: State, s3: State, s4: State, s5: State,
                       s6: State)
    requires Gives(ReadUint32(p, s), x.target, s1) && Gives(ReadUint32(p, s1), x.channel, s2)
    requires Gives(ReadUint32(p, s2), x.eventType, s3) && Gives(ReadUint32(p, s3), x.payloadKey, s4)
    requires Gives(ReadUint32(p, s4), x.direction, s5) && Gives(ReadUint32(p, s5), x.outboundEventType, s6)
    ensures Gives(ReadRoute(p, s), x, s6)
  {
  }

  lemma ThreeAreRead(p: seq<Byte>, s: State, a: Uint32, b: Uint32, c: Uint32, rest: seq<Byte>)
    requires s.count.None? && At(p, s.pos, Uint32Bytes(a) + (Uint32Bytes(b) + (Uint32Bytes(c) + rest)))
    ensures
      var s1 := Past(s, Uint32Bytes(a));
      var s2 := Past(s1, Uint32Bytes(b));
      Gives(ReadUint32(p, s), a, s1) && Gives(ReadUint32(p, s1), b, s2)
      && Gives(ReadUint32(p, s2), c, Past(s2, Uint32Bytes(c))) && At(p, Past(s2, Uint32Bytes(c)).pos, rest)
  {
    Uint32Field(p, s, a, Uint32Bytes(b) + (Uint32Bytes(c) + rest));
    var s1 := Past(s, Uint32Bytes(a));
    Uint32Field(p, s1, b, Uint32Bytes(c) + rest);
    Uint32Field(p, Past(s1, Uint32Bytes(b)), c, rest);
  }

  /** The last three numbers of a route. */
  function RouteEnd(x: Binding): seq<Byte> {
    Uint32Bytes(x.payloadKey) + (Uint32Bytes(x.direction) + (Uint32Bytes(x.outboundEventType) + []))
  }

  function PastThree(s: State, a: Uint32, b: Uint32, c: Uint32): State {
    Past(Past(Past(s, Uint32Bytes(a)), Uint32Bytes(b)), Uint32Bytes(c))
  }

  lemma RouteSplits(s: State, x: Binding)
    ensures RouteBytes(x) == Uint32Bytes(x.target) + (Uint32Bytes(x.channel) + (Uint32Bytes(x.eventType) + RouteEnd(x)))
    ensures Past(s, RouteBytes(x))
            == PastThree(PastThree(s, x.target, x.channel, x.eventType), x.payloadKey, x.direction, x.outboundEventType)
  {
    assert Uint32Bytes(x.outboundEventType) + [] == Uint32Bytes(x.outboundEventType);
  }

  lemma RouteIsRead(p: seq<Byte>, s: State, x: Binding)
    requires s.count.None? && At(p, s.pos, RouteBytes(x))
    ensures Gives(ReadRoute(p, s), RouteOf(x), Past(s, RouteBytes(x)))
  {
    RouteSplits(s, x);
    ThreeAreRead(p, s, x.target, x.channel, x.eventType, RouteEnd(x));
    var s1 := Past(s, Uint32Bytes(x.target));
    var s2 := Past(s1, Uint32Bytes(x.channel));
    var s3 := Past(s2, Uint32Bytes(x.eventType));
    ThreeAreRead(p, s3, x.payloadKey, x.direction, x.outboundEventType, []);
    var s4 := Past(s3, Uint32Bytes(x.payloadKey));
    var s5 := Past(s4, Uint32Bytes(x.direction));
    RouteAssembles(p, s, RouteOf(x), s1, s2, s3, s4, s5, Past(s5, Uint32Bytes(x.outboundEventType)));
  }

  lemma SelectorIsRead(p: seq<Byte>, s: State, x: Binding)
    requires s.count.None? && At(p, s.pos, SelectorBytes(x))
    ensures
      var s1 := Past(s, BoolBytes(x.hasSelector));
      var s2 := Past(s1, Uint32Bytes(x.selectorKey));
      Gives(ReadBool(p, s), x.hasSelector, s1) && Gives(ReadUint32(p, s1), x.selectorKey, s2)
      && Gives(ReadValue(p, s2), CanonValue(x.selectorValue), Past(s, SelectorBytes(x)))
  {
    BoolField(p, s, x.hasSelector, Uint32Bytes(x.selectorKey) + ValueBytes(x.selectorValue));
    var s1 := Past(s, BoolBytes(x.hasSelector));
    Uint32Field(p, s1, x.selectorKey, ValueBytes(x.selectorValue));
    ValueIsRead(p, Past(s1, Uint32Bytes(x.selectorKey)), x.selectorValue);
  }

  lemma BindingFieldsAreRead(p: seq<Byte>, s: State, x: Binding)
    requires s.count.None? && At(p, s.pos, RouteBytes(x) + SelectorBytes(x))
    ensures Gives(ReadBindingFields(p, s), CanonBinding(x), Past(s, RouteBytes(x) + SelectorBytes(x)))
  {
    AtSplits(p, s.pos, RouteBytes(x), SelectorBytes(x));
    RouteIsRead(p, s, x);
    SelectorIsRead(p, Past(s, RouteBytes(x)), x);
  }

  lemma BindingIsRead(p: seq<Byte>, s: State, x: Binding)
    requires CanTake(s) && At(p, s.pos, BindingBytes(x))
    ensures Gives(ReadBinding(p, s), CanonBinding(x), Taken(s, s.pos + |BindingBytes(x)|))
  {
    RecordFrame(p, s, RouteBytes(x) + SelectorBytes(x));
    BindingFieldsAreRead(p, Start(p, s, ARRAY).state, x);
  }

  lemma BindingReadsBack(p: seq<Byte>, x: Binding)
    ensures IsItem(BindingBytes(x)) && ReadsBack(p, BindingBytes(x), CanonBinding(x), BindingReader(p))
  {
    forall t: State | t.count.None? && At(p, t.pos, BindingBytes(x))
      ensures ReadBinding(p, t) == Read(Some(CanonBinding(x)), t.(pos := t.pos + |BindingBytes(x)|))
    {
      BindingIsRead(p, t, x);
    }
  }

  lemma {:induction false} BindingsReadBack(p: seq<Byte>, xs: seq<Binding>)
    ensures AllReadBack(p, xs, BindingBytes, CanonBinding, BindingReader(p))
  {
    if xs != [] {
      BindingReadsBack(p, xs[0]);
      BindingsReadBack(p, xs[1..]);
    }
  }

  // ---------------------------------------------------------------- widgets, screens and the whole

  /** The list at the end of a record reads as any other list. */
  lemma NestedReadsBack<T, U>(p: seq<Byte>, s: State, xs: seq<T>, bytes: T -> seq<Byte>, canon: T -> U,
                              one: State -> Read<U>)
    requires forall t :: one(t).value.Some? ==> t.pos < one(t).state.pos <= |p|
    requires s.count.None? && At(p, s.pos, ArrayBytes(Joined(xs, bytes)))
    requires AllReadBack(p, xs, bytes, canon, one)
    ensures Gives(Nested(p, s, one), Mapped(xs, canon), Past(s, ArrayBytes(Joined(xs, bytes))))
  {
    ListedReadsBack(p, s, OPEN_ARRAY, xs, bytes, canon, one);
    ListedIsNested(p, s, one);
  }

  lemma ListedIsNested<T>(p: seq<Byte>, s: State, one: State -> Read<T>)
    requires forall t :: one(t).value.Some? ==> t.pos < one(t).state.pos <= |p|
    ensures Listed(p, s, ARRAY, one).value.Some? ==> Nested(p, s, one) == Listed(p, s, ARRAY, one)
  {
  }

  function StartOf(x: Widget): WidgetStart { WidgetStart(x.kind, x.id, x.position, x.size, x.zIndex) }

  lemma WidgetStartAssembles(p: seq<Byte>, s: State, x: WidgetStart, s1: State, s2: State, s3: State, s4: State,
                             s5: State)
    requires Gives(ReadUint32(p, s), x.kind, s1) && Gives(ReadUint32(p, s1), x.id, s2)
    requires Gives(ReadPosition(p, s2), x.position, s3) && Gives(ReadSize(p, s3), x.size, s4)
    requires Gives(ReadInt32(p, s4), x.zIndex, s5)
    ensures Gives(ReadWidgetStart(p, s), x, s5)
  {
  }

  function WidgetPlace(x: Widget): seq<Byte> {
    PositionBytes(x.position) + (SizeBytes(x.size) + Int32Bytes(x.zIndex))
  }

  lemma WidgetPlaceIsRead(p: seq<Byte>, s: State, x: Widget)
    requires s.count.None? && At(p, s.pos, WidgetPlace(x))
    ensures
      var s1 := Past(s, PositionBytes(x.position));
      var s2 := Past(s1, SizeBytes(x.size));
      Gives(ReadPosition(p, s), x.position, s1) && Gives(ReadSize(p, s1), x.size, s2)
      && Gives(ReadInt32(p, s2), x.zIndex, Past(s2, Int32Bytes(x.zIndex)))
  {
    AtSplits(p, s.pos, PositionBytes(x.position), SizeBytes(x.size) + Int32Bytes(x.zIndex));
    PositionIsRead(p, s, x.position);
    var s1 := Past(s, PositionBytes(x.position));
    AtSplits(p, s1.pos, SizeBytes(x.size), Int32Bytes(x.zIndex));
    SizeIsRead(p, s1, x.size);
    var s2 := Past(s1, SizeBytes(x.size));
    AtNothing(p, s2.pos, Int32Bytes(x.zIndex));
    Int32Field(p, s2, x.zIndex, []);
  }

  lemma PastWidgetHead(s: State, x: Widget)
    ensures WidgetHead(x) == Uint32Bytes(x.kind) + (Uint32Bytes(x.id) + WidgetPlace(x))
    ensures Past(s, WidgetHead(x))
            == Past(Past(Past(Past(Past(s, Uint32Bytes(x.kind)), Uint32Bytes(x.id)), PositionBytes(x.position)),
                         SizeBytes(x.size)), Int32Bytes(x.zIndex))
  {
  }

  lemma WidgetStartIsRead(p: seq<Byte>, s: State, x: Widget)
    requires s.count.None? && At(p, s.pos, WidgetHead(x))
    ensures Gives(ReadWidgetStart(p, s), StartOf(x), Past(s, WidgetHead(x)))
  {
    PastWidgetHead(s, x);
    Uint32Field(p, s, x.kind, Uint32Bytes(x.id) + WidgetPlace(x));
    var s1 := Past(s, Uint32Bytes(x.kind));
    Uint32Field(p, s1, x.id, WidgetPlace(x));
    var s2 := Past(s1, Uint32Bytes(x.id));
    WidgetPlaceIsRead(p, s2, x);
    var s3 := Past(s2, PositionBytes(x.position));
    var s4 := Past(s3, SizeBytes(x.size));
    WidgetStartAssembles(p, s, StartOf(x), s1, s2, s3, s4, Past(s4, Int32Bytes(x.zIndex)));
  }

  /** Properties that may be absent, and the list behind them. */
  lemma PropertiesThenList(p: seq<Byte>, s: State, x: Option<seq<Property>>, content: seq<Byte>)
    requires s.count.None? && At(p, s.pos, PropertiesBytes(x) + ArrayBytes(content))
    ensures ReadProperties(p, s) == Read(CanonProperties(x), Past(s, PropertiesBytes(x)))
    ensures Past(s, PropertiesBytes(x)).count.None? && At(p, Past(s, PropertiesBytes(x)).pos, ArrayBytes(content))
  {
    AtSplits(p, s.pos, PropertiesBytes(x), ArrayBytes(content));
    AtFirst(p, s.pos + |PropertiesBytes(x)|, ArrayBytes(content));
    PropertiesAreRead(p, s, x);
  }

  lemma WidgetAssembles(p: seq<Byte>, s: State, x: Widget, head: seq<Byte>, s2: State, tail: seq<Byte>)
    requires Gives(ReadWidgetStart(p, s), StartOf(x), Past(s, head))
    requires ReadProperties(p, Past(s, head)) == Read(CanonProperties(x.properties), s2)
    requires Gives(Nested(p, s2, BindingReader(p)), Mapped(x.bindings, CanonBinding), Past(Past(s, head), tail))
    ensures Gives(ReadWidgetFields(p, s), CanonWidget(x), Past(s, head + tail))
  {
    PastJoins(s, head, tail);
  }

  lemma PastJoins(s: State, a: seq<Byte>, b: seq<Byte>)
    ensures Past(s, a + b) == Past(Past(s, a), b)
  {
  }

  /** Two groups of fields, each where it stands. */
  lemma FieldsSplit(p: seq<Byte>, s: State, a: seq<Byte>, b: seq<Byte>)
    requires s.count.None? && At(p, s.pos, a + b)
    ensures At(p, s.pos, a) && Past(s, a).count.None? && At(p, Past(s, a).pos, b)
  {
    AtSplits(p, s.pos, a, b);
  }

  lemma WidgetFieldsAreRead(p: seq<Byte>, s: State, x: Widget)
    requires s.count.None? && At(p, s.pos, WidgetHead(x) + WidgetTail(x))
    ensures Gives(ReadWidgetFields(p, s), CanonWidget(x), Past(s, WidgetHead(x) + WidgetTail(x)))
  {
    FieldsSplit(p, s, WidgetHead(x), WidgetTail(x));
    var s1 := Past(s, WidgetHead(x));
    WidgetTailIsRead(p, s1, x);
    WidgetStartIsRead(p, s, x);
    WidgetAssembles(p, s, x, WidgetHead(x), Past(s1, PropertiesBytes(x.properties)), WidgetTail(x));
  }

  lemma WidgetTailIsRead(p: seq<Byte>, s: State, x: Widget)
    requires s.count.None? && At(p, s.pos, WidgetTail(x))
    ensures
      var s1 := Past(s, PropertiesBytes(x.properties));
      ReadProperties(p, s) == Read(CanonProperties(x.properties), s1)
      && Gives(Nested(p, s1, BindingReader(p)), Mapped(x.bindings, CanonBinding), Past(s, WidgetTail(x)))
  {
    PastJoins(s, PropertiesBytes(x.properties), ArrayBytes(Joined(x.bindings, BindingBytes)));
    BindingsReadBack(p, x.bindings);
    PropertiesThenList(p, s, x.properties, Joined(x.bindings, BindingBytes));
    NestedReadsBack(p, Past(s, PropertiesBytes(x.properties)), x.bindings, BindingBytes, CanonBinding,
                    BindingReader(p));
  }

  lemma WidgetIsRead(p: seq<Byte>, s: State, x: Widget)
    requires CanTake(s) && At(p, s.pos, WidgetBytes(x))
    ensures Gives(ReadWidget(p, s), CanonWidget(x), Taken(s, s.pos + |WidgetBytes(x)|))
  {
    RecordFrame(p, s, WidgetHead(x) + WidgetTail(x));
    WidgetFieldsAreRead(p, Start(p, s, ARRAY).state, x);
  }

  lemma WidgetReadsBack(p: seq<Byte>, x: Widget)
    ensures IsItem(WidgetBytes(x)) && ReadsBack(p, WidgetBytes(x), CanonWidget(x), WidgetReader(p))
  {
    forall t: State | t.count.None? && At(p, t.pos, WidgetBytes(x))
      ensures ReadWidget(p, t) == Read(Some(CanonWidget(x)), t.(pos := t.pos + |WidgetBytes(x)|))
    {
      WidgetIsRead(p, t, x);
    }
  }

  lemma {:induction false} WidgetsReadBack(p: seq<Byte>, xs: seq<Widget>)
    ensures AllReadBack(p, xs, WidgetBytes, CanonWidget, WidgetReader(p))
  {
    if xs != [] {
      WidgetReadsBack(p, xs[0]);
      WidgetsReadBack(p, xs[1..]);
    }
  }

  function ScreenStartOf(x: Screen): ScreenStart {
    ScreenStart(x.id, x.groupId, x.kind, x.zIndex, x.isVisible, x.isOverlay)
  }

  lemma ScreenStartAssembles(p: seq<Byte>, s: State, x: ScreenStart, s1: State, s2: State, s3: State, s4: State,
                             s5: State, s6: State)
    requires Gives(ReadUint32(p, s), x.id, s1) && Gives(ReadUint32(p, s1), x.groupId, s2)
    requires Gives(ReadUint32(p, s2), x.kind, s3) && Gives(ReadInt32(p, s3), x.zIndex, s4)
    requires Gives(ReadBool(p, s4), x.isVisible, s5) && Gives(ReadBool(p, s5), x.isOverlay, s6)
    ensures Gives(ReadScreenStart(p, s), x, s6)
  {
  }

  /** What a screen begins with, up to its grid. */
  function ScreenNumbers(x: Screen, rest: seq<Byte>): seq<Byte> {
    Uint32Bytes(x.id) + (Uint32Bytes(x.groupId) + (Uint32Bytes(x.kind) + (Int32Bytes(x.zIndex) + rest)))
  }

  function ScreenFlags(x: Screen): seq<Byte> {
    BoolBytes(x.isVisible) + (BoolBytes(x.isOverlay) + GridBytes(x.grid))
  }

  function PastNumbers(s: State, x: Screen): State {
    Past(Past(Past(Past(s, Uint32Bytes(x.id)), Uint32Bytes(x.groupId)), Uint32Bytes(x.kind)), Int32Bytes(x.zIndex))
  }

  lemma ScreenNumbersAreRead(p: seq<Byte>, s: State, x: Screen, rest: seq<Byte>)
    requires s.count.None? && At(p, s.pos, ScreenNumbers(x, rest))
    ensures
      var s1 := Past(s, Uint32Bytes(x.id));
      var s2 := Past(s1, Uint32Bytes(x.groupId));
      var s3 := Past(s2, Uint32Bytes(x.kind));
      Gives(ReadUint32(p, s), x.id, s1) && Gives(ReadUint32(p, s1), x.groupId, s2)
      && Gives(ReadUint32(p, s2), x.kind, s3) && Gives(ReadInt32(p, s3), x.zIndex, PastNumbers(s, x))
    ensures At(p, PastNumbers(s, x).pos, rest)
  {
    var b4 := Int32Bytes(x.zIndex) + rest;
    var b3 := Uint32Bytes(x.kind) + b4;
    Uint32Field(p, s, x.id, Uint32Bytes(x.groupId) + b3);
    var s1 := Past(s, Uint32Bytes(x.id));
    Uint32Field(p, s1, x.groupId, b3);
    var s2 := Past(s1, Uint32Bytes(x.groupId));
    Uint32Field(p, s2, x.kind, b4);
    Int32Field(p, Past(s2, Uint32Bytes(x.kind)), x.zIndex, rest);
  }

  lemma ScreenFlagsAreRead(p: seq<Byte>, s: State, x: Screen)
    requires s.count.None? && At(p, s.pos, ScreenFlags(x))
    ensures
      var s1 := Past(s, BoolBytes(x.isVisible));
      var s2 := Past(s1, BoolBytes(x.isOverlay));
      Gives(ReadBool(p, s), x.isVisible, s1) && Gives(ReadBool(p, s1), x.isOverlay, s2)
      && Gives(ReadGrid(p, s2), x.grid, Past(s, ScreenFlags(x)))
  {
    BoolField(p, s, x.isVisible, BoolBytes(x.isOverlay) + GridBytes(x.grid));
    var s1 := Past(s, BoolBytes(x.isVisible));
    BoolField(p, s1, x.isOverlay, GridBytes(x.grid));
    GridIsRead(p, Past(s1, BoolBytes(x.isOverlay)), x.grid);
  }

  lemma ScreenHeadSplits(s: State, x: Screen)
    ensures ScreenHead(x) == ScreenNumbers(x, ScreenFlags(x))
    ensures Past(s, ScreenHead(x)) == Past(PastNumbers(s, x), ScreenFlags(x))
  {
  }

  lemma ScreenStartIsRead(p: seq<Byte>, s: State, x: Screen)
    requires s.count.None? && At(p, s.pos, ScreenHead(x))
    ensures
      var s6 := Past(Past(PastNumbers(s, x), BoolBytes(x.isVisible)), BoolBytes(x.isOverlay));
      Gives(ReadScreenStart(p, s), ScreenStartOf(x), s6) && Gives(ReadGrid(p, s6), x.grid, Past(s, ScreenHead(x)))
  {
    ScreenHeadSplits(s, x);
    ScreenNumbersAreRead(p, s, x, ScreenFlags(x));
    var s1 := Past(s, Uint32Bytes(x.id));
    var s2 := Past(s1, Uint32Bytes(x.groupId));
    var s3 := Past(s2, Uint32Bytes(x.kind));
    var s4 := PastNumbers(s, x);
    ScreenFlagsAreRead(p, s4, x);
    var s5 := Past(s4, BoolBytes(x.isVisible));
    ScreenStartAssembles(p, s, ScreenStartOf(x), s1, s2, s3, s4, s5, Past(s5, BoolBytes(x.isOverlay)));
  }

  lemma ScreenAssembles(p: seq<Byte>, s: State, x: Screen, s1: State, head: seq<Byte>, tail: seq<Byte>)
    requires Gives(ReadScreenStart(p, s), ScreenStartOf(x), s1) && Gives(ReadGrid(p, s1), x.grid, Past(s, head))
    requires Gives(Nested(p, Past(s, head), WidgetReader(p)), Mapped(x.widgets, CanonWidget), Past(Past(s, head), tail))
    ensures Gives(ReadScreenFields(p, s), CanonScreen(x), Past(s, head + tail))
  {
    PastJoins(s, head, tail);
  }

  lemma ScreenTailIsRead(p: seq<Byte>, s: State, x: Screen)
    requires s.count.None? && At(p, s.pos, ScreenTail(x))
    ensures Gives(Nested(p, s, WidgetReader(p)), Mapped(x.widgets, CanonWidget), Past(s, ScreenTail(x)))
  {
    WidgetsReadBack(p, x.widgets);
    NestedReadsBack(p, s, x.widgets, WidgetBytes, CanonWidget, WidgetReader(p));
  }

  lemma ScreenFieldsAreRead(p: seq<Byte>, s: State, x: Screen)
    requires s.count.None? && At(p, s.pos, ScreenHead(x) + ScreenTail(x))
    ensures Gives(ReadScreenFields(p, s), CanonScreen(x), Past(s, ScreenHead(x) + ScreenTail(x)))
  {
    FieldsSplit(p, s, ScreenHead(x), ScreenTail(x));
    ScreenTailIsRead(p, Past(s, ScreenHead(x)), x);
    ScreenStartIsRead(p, s, x);
    ScreenAssembles(p, s, x, Past(Past(PastNumbers(s, x), BoolBytes(x.isVisible)), BoolBytes(x.isOverlay)),
                    ScreenHead(x), ScreenTail(x));
  }

  lemma ScreenIsRead(p: seq<Byte>, s: State, x: Screen)
    requires CanTake(s) && At(p, s.pos, ScreenBytes(x))
    ensures Gives(ReadScreen(p, s), CanonScreen(x), Taken(s, s.pos + |ScreenBytes(x)|))
  {
    RecordFrame(p, s, ScreenHead(x) + ScreenTail(x));
    ScreenFieldsAreRead(p, Start(p, s, ARRAY).state, x);
  }

  lemma ScreenReadsBack(p: seq<Byte>, x: Screen)
    ensures IsItem(ScreenBytes(x)) && ReadsBack(p, ScreenBytes(x), CanonScreen(x), ScreenReader(p))
  {
    forall t: State | t.count.None? && At(p, t.pos, ScreenBytes(x))
      ensures ReadScreen(p, t) == Read(Some(CanonScreen(x)), t.(pos := t.pos + |ScreenBytes(x)|))
    {
      ScreenIsRead(p, t, x);
    }
  }

  lemma {:induction false} ScreensReadBack(p: seq<Byte>, xs: seq<Screen>)
    ensures AllReadBack(p, xs, ScreenBytes, CanonScreen, ScreenReader(p))
  {
    if xs != [] {
      ScreenReadsBack(p, xs[0]);
      ScreensReadBack(p, xs[1..]);
    }
  }

  lemma UiAssembles(p: seq<Byte>, s: State, version: Uint32, s1: State, group: Uint32, s2: State,
                    properties: Option<seq<Property>>, s3: State, screens: seq<Screen>, s4: State)
    requires Gives(ReadUint32(p, s), version, s1) && Gives(ReadUint32(p, s1), group, s2)
    requires ReadProperties(p, s2) == Read(properties, s3) && Gives(Nested(p, s3, ScreenReader(p)), screens, s4)
    ensures Gives(ReadUiFields(p, s), Ui(version, group, properties, screens), s4)
  {
  }

  lemma UiTailIsRead(p: seq<Byte>, s: State, x: Ui)
    requires s.count.None? && At(p, s.pos, UiTail(x))
    ensures
      var s1 := Past(s, PropertiesBytes(x.properties));
      ReadProperties(p, s) == Read(CanonProperties(x.properties), s1)
      && Gives(Nested(p, s1, ScreenReader(p)), Mapped(x.screens, CanonScreen), Past(s, UiTail(x)))
  {
    PastJoins(s, PropertiesBytes(x.properties), ArrayBytes(Joined(x.screens, ScreenBytes)));
    ScreensReadBack(p, x.screens);
    PropertiesThenList(p, s, x.properties, Joined(x.screens, ScreenBytes));
    NestedReadsBack(p, Past(s, PropertiesBytes(x.properties)), x.screens, ScreenBytes, CanonScreen, ScreenReader(p));
  }

  function PastVersion(s: State, x: Ui): State { Past(Past(s, Uint32Bytes(x.version)), Uint32Bytes(x.activeGroup)) }

  lemma UiHeadIsRead(p: seq<Byte>, s: State, x: Ui)
    requires s.count.None? && At(p, s.pos, UiFields(x))
    ensures
      var s1 := Past(s, Uint32Bytes(x.version));
      Gives(ReadUint32(p, s), x.version, s1) && Gives(ReadUint32(p, s1), x.activeGroup, PastVersion(s, x))
    ensures PastVersion(s, x).count.None? && At(p, PastVersion(s, x).pos, UiTail(x))
  {
    Uint32Field(p, s, x.version, Uint32Bytes(x.activeGroup) + UiTail(x));
    Uint32Field(p, Past(s, Uint32Bytes(x.version)), x.activeGroup, UiTail(x));
  }

  lemma PastUiFields(s: State, x: Ui)
    ensures Past(s, UiFields(x)) == Past(PastVersion(s, x), UiTail(x))
  {
    PastJoins(s, Uint32Bytes(x.version), Uint32Bytes(x.activeGroup) + UiTail(x));
    PastJoins(Past(s, Uint32Bytes(x.version)), Uint32Bytes(x.activeGroup), UiTail(x));
  }

  lemma UiFieldsAreRead(p: seq<Byte>, s: State, x: Ui)
    requires s.count.None? && At(p, s.pos, UiFields(x))
    ensures Gives(ReadUiFields(p, s), CanonUi(x), Past(s, UiFields(x)))
  {
    UiHeadIsRead(p, s, x);
    PastUiFields(s, x);
    var s2 := PastVersion(s, x);
    UiTailIsRead(p, s2, x);
    UiAssembles(p, s, x.version, Past(s, Uint32Bytes(x.version)), x.activeGroup, s2, CanonProperties(x.properties),
                Past(s2, PropertiesBytes(x.properties)), Mapped(x.screens, CanonScreen), Past(s2, UiTail(x)));
  }

  lemma UiIsRead(p: seq<Byte>, s: State, x: Ui)
    requires CanTake(s) && At(p, s.pos, UiBytes(x))
    ensures Gives(ReadUi(p, s), CanonUi(x), Taken(s, s.pos + |UiBytes(x)|))
  {
    RecordFrame(p, s, UiFields(x));
    UiFieldsAreRead(p, Start(p, s, ARRAY).state, x);
  }

  /** Decoding what was encoded gives it back up to its empty lists of texts, and uses every byte. */
  lemma DecodeEncode(x: Ui)
    ensures Gives(Decode(UiBytes(x)), CanonUi(x), State(|UiBytes(x)|, Some(0), []))
  {
    UiIsRead(UiBytes(x), State(0, Some(1), []), x);
  }

  // ---------------------------------------------------------------- what does not come back as it was

  predicate FaithfulProperties(x: Option<seq<Property>>) {
    x.Some? ==> forall i :: 0 <= i < |x.value| ==> x.value[i].value != TextListC([])
  }

  predicate FaithfulWidget(x: Widget) {
    FaithfulProperties(x.properties)
    && forall i :: 0 <= i < |x.bindings| ==> x.bindings[i].selectorValue != TextListC([])
  }

  predicate FaithfulScreen(x: Screen) {
    forall i :: 0 <= i < |x.widgets| ==> FaithfulWidget(x.widgets[i])
  }

  /** No value of the configuration is an empty list of texts. */
  predicate Faithful(x: Ui) {
    FaithfulProperties(x.properties) && forall i :: 0 <= i < |x.screens| ==> FaithfulScreen(x.screens[i])
  }

  lemma MappedFixedIff<T>(xs: seq<T>, f: T -> T)
    ensures Mapped(xs, f) == xs <==> forall i :: 0 <= i < |xs| ==> f(xs[i]) == xs[i]
  {
  }

  lemma PropertiesFixedIff(x: Option<seq<Property>>)
    ensures CanonProperties(x) == x <==> FaithfulProperties(x)
  {
    if x.Some? {
      MappedFixedIff(x.value, CanonProperty);
    }
  }

  lemma WidgetFixedIff(x: Widget)
    ensures CanonWidget(x) == x <==> FaithfulWidget(x)
  {
    PropertiesFixedIff(x.properties);
    MappedFixedIff(x.bindings, CanonBinding);
  }

  lemma ScreenFixedIff(x: Screen)
    ensures CanonScreen(x) == x <==> FaithfulScreen(x)
  {
    MappedFixedIff(x.widgets, CanonWidget);
    forall i | 0 <= i < |x.widgets|
      ensures CanonWidget(x.widgets[i]) == x.widgets[i] <==> FaithfulWidget(x.widgets[i])
    {
      WidgetFixedIff(x.widgets[i]);
    }
  }

  /** Decoding gives back exactly what was encoded if and only if it holds no empty list of texts. */
  lemma RoundTripIff(x: Ui)
    ensures Decode(UiBytes(x)).value == Some(x) <==> Faithful(x)
  {
    DecodeEncode(x);
    PropertiesFixedIff(x.properties);
    MappedFixedIff(x.screens, CanonScreen);
    forall i | 0 <= i < |x.screens|
      ensures CanonScreen(x.screens[i]) == x.screens[i] <==> FaithfulScreen(x.screens[i])
    {
      ScreenFixedIff(x.screens[i]);
    }
  }
}
