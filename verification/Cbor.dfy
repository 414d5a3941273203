/**
 * Data items of RFC 8949 as the configuration codec uses them: how they are written and how a decoder
 * with a cursor, an element count and a stack of enclosing containers reads them.
 */
module Cbor {
  import opened Common
  import opened UiModel

  // ---------------------------------------------------------------- numbers of several bytes

  function Power(n: nat): (p: nat)
    ensures p >= 1
  {
    if n == 0 then 1 else 0x100 * Power(n - 1)
  }

  /** `n` bytes, most significant first. */
  function BigEndian(v: nat, n: nat): (b: seq<Byte>)
    ensures |b| == n
  {
    if n == 0 then [] else BigEndian(v / 0x100, n - 1) + [v % 0x100]
  }

  function Number(b: seq<Byte>): nat {
    if b == [] then 0 else 0x100 * Number(b[..|b| - 1]) + b[|b| - 1]
  }

  lemma {:induction false} NumberOfBigEndian(v: nat, n: nat)
    requires v < Power(n)
    ensures Number(BigEndian(v, n)) == v
    decreases n
  {
    if n > 0 {
      NumberOfBigEndian(v / 0x100, n - 1);
      var b := BigEndian(v, n);
      assert b[..n - 1] == BigEndian(v / 0x100, n - 1);
    }
  }

  lemma Powers()
    ensures Power(1) == 0x100 && Power(2) == 0x1_0000 && Power(4) == 0x1_0000_0000
  {
    assert Power(0) == 1;
    assert Power(3) == 0x100_0000;
  }

  // ---------------------------------------------------------------- writing, section 3 and 3.2.2

  const UNSIGNED: nat := 0
  const NEGATIVE: nat := 1
  const TEXT: nat := 3
  const ARRAY: nat := 4
  const MAP: nat := 5

  const DOUBLE: Byte := 0xfb
  const FALSE: Byte := 0xf4
  const TRUE: Byte := 0xf5
  const OPEN_ARRAY: Byte := 0x9f
  const OPEN_MAP: Byte := 0xbf
  const BREAK: Byte := 0xff

  /** The additional information that announces an argument of 1, 2, 4 or 8 bytes. */
  function Info(width: nat): nat {
    if width == 1 then 24 else if width == 2 then 25 else if width == 4 then 26 else 27
  }

  /** The narrowest head of at least this width: none, 1, 2 or 4 bytes behind the first. */
  function Narrowest(major: nat, arg: nat, width: nat): (b: seq<Byte>)
    requires major < 7 && arg < 0x1_0000_0000
    ensures b != []
    decreases 4 - width
  {
    if width == 0 then (if arg < 24 then [0x20 * major + arg] else Narrowest(major, arg, 1))
    else if width < 4 && arg >= Power(width) then Narrowest(major, arg, 2 * width)
    else [0x20 * major + Info(width)] + BigEndian(arg, width)
  }

  /** The shortest head of an item. */
  function Head(major: nat, arg: nat): (b: seq<Byte>)
    requires major < 7 && arg < 0x1_0000_0000
    ensures b != []
  {
    Narrowest(major, arg, 0)
  }

  /** Which head is the shortest. */
  lemma HeadIs(major: nat, arg: nat)
    requires major < 7 && arg < 0x1_0000_0000
    ensures Head(major, arg)
            == (if arg < 24 then [0x20 * major + arg]
                else if arg < 0x100 then [0x20 * major + 24] + BigEndian(arg, 1)
                else if arg < 0x1_0000 then [0x20 * major + 25] + BigEndian(arg, 2)
                else [0x20 * major + 26] + BigEndian(arg, 4))
  {
    Powers();
    assert Narrowest(major, arg, 4) == [0x20 * major + 26] + BigEndian(arg, 4);
    assert Narrowest(major, arg, 2)
           == if arg >= 0x1_0000 then Narrowest(major, arg, 4) else [0x20 * major + 25] + BigEndian(arg, 2);
    assert Narrowest(major, arg, 1)
           == if arg >= 0x100 then Narrowest(major, arg, 2) else [0x20 * major + 24] + BigEndian(arg, 1);
  }

  function Uint32Bytes(v: Uint32): seq<Byte> { Head(UNSIGNED, v) }

  function Int32Bytes(v: Int32): seq<Byte> {
    if v >= 0 then Head(UNSIGNED, v) else Head(NEGATIVE, -1 - v)
  }

  function BoolBytes(v: bool): seq<Byte> { [if v then TRUE else FALSE] }

  function Float64Bytes(v: Float64): seq<Byte> { [DOUBLE] + v }

  function TextBytes(v: Text): seq<Byte> { Head(TEXT, |v|) + v }

  // ---------------------------------------------------------------- the bytes of the standard

  lemma TwoBytes(v: nat)
    ensures BigEndian(v, 2) == [v / 0x100 % 0x100, v % 0x100]
  {
    assert BigEndian(v / 0x100, 1) == BigEndian(v / 0x100 / 0x100, 0) + [v / 0x100 % 0x100];
    assert BigEndian(v, 2) == BigEndian(v / 0x100, 1) + [v % 0x100];
  }

  lemma FourBytes(v: nat)
    ensures BigEndian(v, 4) == [v / 0x100_0000 % 0x100, v / 0x1_0000 % 0x100, v / 0x100 % 0x100, v % 0x100]
  {
    TwoBytes(v / 0x1_0000);
    assert BigEndian(v, 3) == BigEndian(v / 0x100, 2) + [v % 0x100];
    assert BigEndian(v / 0x100, 3) == BigEndian(v / 0x100 / 0x100, 2) + [v / 0x100 % 0x100];
    assert v / 0x100 / 0x100 == v / 0x1_0000 && v / 0x1_0000 / 0x100 == v / 0x100_0000;
  }

  /** Section 3: the initial byte of a major type, and its argument in the fewest bytes, most significant first. */
  predicate StandardHead(b: seq<Byte>, major: nat, arg: nat) {
    if arg < 24 then b == [major * 32 + arg]
    else if arg < 256 then b == [major * 32 + 24, arg]
    else if arg < 65536 then b == [major * 32 + 25, arg / 256, arg % 256]
    else b == [major * 32 + 26, arg / 16777216, arg / 65536 % 256, arg / 256 % 256, arg % 256]
  }

  lemma HeadIsStandard(major: nat, arg: nat)
    requires major < 7 && arg < 0x1_0000_0000
    ensures StandardHead(Head(major, arg), major, arg)
  {
    HeadIs(major, arg);
    if arg < 24 {
    } else if arg < 256 {
      assert BigEndian(arg, 1) == BigEndian(arg / 0x100, 0) + [arg % 0x100];
      assert arg % 0x100 == arg;
    } else if arg < 65536 {
      TwoBytes(arg);
      assert arg / 0x100 % 0x100 == arg / 256;
    } else {
      FourBytes(arg);
      assert arg / 0x100_0000 % 0x100 == arg / 16777216;
    }
  }

  /**
   * Sections 3.1 and 3.3: major types 0 and 1 for integers and 3 for texts, and the initial bytes of a
   * boolean and a double.
   */
  lemma ScalarsAreStandard(u: Uint32, i: Int32, flag: bool, d: Float64, t: Text)
    ensures StandardHead(Uint32Bytes(u), 0, u)
    ensures i >= 0 ==> StandardHead(Int32Bytes(i), 0, i)
    ensures i < 0 ==> StandardHead(Int32Bytes(i), 1, -1 - i)
    ensures BoolBytes(flag) == if flag then [0xf5] else [0xf4]
    ensures |Float64Bytes(d)| == 9 && Float64Bytes(d)[0] == 0xfb && Float64Bytes(d)[1..] == d
    ensures exists head :: StandardHead(head, 3, |t|) && TextBytes(t) == head + t
  {
    HeadIsStandard(0, u);
    HeadIsStandard(if i >= 0 then 0 else 1, if i >= 0 then i else -1 - i);
    HeadIsStandard(3, |t|);
  }

  // ---------------------------------------------------------------- reading

  /** What an open container goes back to: the cursor behind its head and the count outside it. */
  datatype Backup = Backup(pos: nat, count: Option<nat>)

  /** `count` is how many items are left in the container, absent in one of indefinite length. */
  datatype State = State(pos: nat, count: Option<nat>, backups: seq<Backup>)

  /** What a read returns, with the state behind it; an operand of `:-`. */
  datatype Read<+T> = Read(value: Option<T>, state: State) {
    predicate IsFailure() { value.None? }

    function PropagateFailure<U>(): Read<U>
      requires IsFailure()
    {
      Read(None, state)
    }

    function Extract(): (T, State)
      requires !IsFailure()
    {
      (value.value, state)
    }
  }

  /** An item's head: its major type, its argument or none for indefinite length, and where it ends. */
  datatype ItemHead = ItemHead(major: nat, arg: Option<nat>, next: nat)

  function WideArgument(p: seq<Byte>, pos: nat, major: nat, width: nat): Option<ItemHead> {
    if pos + 1 + width <= |p| then
      Some(ItemHead(major, Some(Number(p[pos + 1..pos + 1 + width])), pos + 1 + width))
    else None
  }

  /** Sections 3 and 3.2.1: a head with an argument in any width, or of indefinite length. */
  function HeadAt(p: seq<Byte>, pos: nat): (h: Option<ItemHead>)
    ensures h.Some? ==> pos < h.value.next <= |p|
  {
    if pos >= |p| then None
    else
      var major, info := p[pos] / 0x20, p[pos] % 0x20;
      if info < 24 then Some(ItemHead(major, Some(info), pos + 1))
      else if info == 24 then WideArgument(p, pos, major, 1)
      else if info == 25 then WideArgument(p, pos, major, 2)
      else if info == 26 then WideArgument(p, pos, major, 4)
      else if info == 27 then WideArgument(p, pos, major, 8)
      else if info == 31 then Some(ItemHead(major, None, pos + 1))
      else None
  }

  predicate CanTake(s: State) {
    s.count != Some(0)
  }

  /** The cursor moved on by one item of the container. */
  function Taken(s: State, next: nat): State
    requires CanTake(s)
  {
    s.(pos := next, count := if s.count.Some? then Some(s.count.value - 1) else None)
  }

  /** The argument of the next item if it has this major type and an argument up to the limit. */
  function Argument(p: seq<Byte>, s: State, major: nat, limit: nat): (r: Read<nat>)
    ensures r.value.None? ==> r.state == s
    ensures r.value.Some? ==> s.pos < r.state.pos <= |p| && r.value.value <= limit
    ensures r.value.Some? ==> CanTake(s) && r.state == Taken(s, r.state.pos)
  {
    var h := HeadAt(p, s.pos);
    if CanTake(s) && h.Some? && h.value.major == major && h.value.arg.Some? && h.value.arg.value <= limit then
      Read(Some(h.value.arg.value), Taken(s, h.value.next))
    else Read(None, s)
  }

  /** Reads that never touch the enclosing containers. */
  ghost predicate KeepsBackups<T>(one: State -> Read<T>) {
    forall t :: one(t).state.backups == t.backups
  }

  function ReadUint32(p: seq<Byte>, s: State): (r: Read<Uint32>)
    ensures r.value.Some? ==> s.pos < r.state.pos <= |p|
  {
    Argument(p, s, UNSIGNED, 0xffff_ffff)
  }

  function ReadInt32(p: seq<Byte>, s: State): (r: Read<Int32>)
    ensures r.value.Some? ==> s.pos < r.state.pos <= |p|
  {
    var positive := Argument(p, s, UNSIGNED, 0x7fff_ffff);
    if positive.value.Some? then positive
    else
      var negative := Argument(p, s, NEGATIVE, 0x7fff_ffff);
      Read(if negative.value.Some? then Some(-1 - negative.value.value) else None, negative.state)
  }

  function ReadBool(p: seq<Byte>, s: State): (r: Read<bool>)
    ensures r.value.Some? ==> s.pos < r.state.pos <= |p|
  {
    if CanTake(s) && s.pos < |p| && (p[s.pos] == TRUE || p[s.pos] == FALSE) then
      Read(Some(p[s.pos] == TRUE), Taken(s, s.pos + 1))
    else Read(None, s)
  }

  function ReadFloat64(p: seq<Byte>, s: State): (r: Read<Float64>)
    ensures r.value.Some? ==> s.pos < r.state.pos <= |p|
  {
    if CanTake(s) && s.pos + 9 <= |p| && p[s.pos] == DOUBLE then
      Read(Some(p[s.pos + 1..s.pos + 9]), Taken(s, s.pos + 9))
    else Read(None, s)
  }

  function ReadText(p: seq<Byte>, s: State): (r: Read<Text>)
    ensures r.value.Some? ==> s.pos < r.state.pos <= |p|
  {
    var length := Argument(p, s, TEXT, 0xffff_ffff);
    if length.value.Some? && length.state.pos + length.value.value <= |p| then
      Read(Some(p[length.state.pos..length.state.pos + length.value.value]),
           length.state.(pos := length.state.pos + length.value.value))
    else Read(None, s)
  }

  /** Opens an array or a map; the value only says that it did. A map counts keys and values. */
  function Start(p: seq<Byte>, s: State, major: nat): (r: Read<()>)
    ensures r.value.Some? ==> s.pos < r.state.pos <= |p| && CanTake(s)
    ensures r.value.Some? ==> r.state.backups == s.backups + [Backup(r.state.pos, Taken(s, 0).count)]
  {
    var h := HeadAt(p, s.pos);
    if CanTake(s) && h.Some? && h.value.major == major then
      var outside := Taken(s, h.value.next);
      var inside := match h.value.arg case Some(n) => Some(if major == MAP then 2 * n else n) case None => None;
      Read(Some(()), State(h.value.next, inside, s.backups + [Backup(h.value.next, outside.count)]))
    else Read(None, s)
  }

  predicate AtEnd(p: seq<Byte>, s: State) {
    match s.count
    case Some(n) => n == 0
    case None => s.pos < |p| && p[s.pos] == BREAK
  }

  /** Closes the innermost container at its end. */
  function End(p: seq<Byte>, s: State): (r: Read<()>)
    ensures r.value.None? ==> r.state == s
    ensures r.value.Some? ==> s.pos <= r.state.pos && s.backups != [] && r.state.backups == s.backups[..|s.backups| - 1]
    ensures s.pos <= |p| ==> r.state.pos <= |p|
  {
    if s.backups != [] && AtEnd(p, s) then
      var top := s.backups[|s.backups| - 1];
      Read(Some(()), State(if s.count.None? then s.pos + 1 else s.pos, top.count, s.backups[..|s.backups| - 1]))
    else Read(None, s)
  }

  /** Gives up the innermost container and goes back to where it was opened. */
  function ForceEnd(s: State): State {
    if s.backups == [] then s
    else
      var top := s.backups[|s.backups| - 1];
      State(top.pos, top.count, s.backups[..|s.backups| - 1])
  }

  /** Reads items up to the end of the container or to the first that fails. */
  function Many<T>(p: seq<Byte>, s: State, one: State -> Read<T>): (r: Read<seq<T>>)
    requires forall t :: one(t).value.Some? ==> t.pos < one(t).state.pos <= |p|
    ensures r.value.Some? ==> AtEnd(p, r.state) && s.pos <= r.state.pos && (s.pos <= |p| ==> r.state.pos <= |p|)
    decreases |p| - s.pos
  {
    if AtEnd(p, s) then Read(Some([]), s)
    else
      var first := one(s);
      if first.value.None? then Read(None, first.state)
      else
        var rest := Many(p, first.state, one);
        Read(if rest.value.Some? then Some([first.value.value] + rest.value.value) else None, rest.state)
  }

  // ---------------------------------------------------------------- what was written is read back

  /** The bytes stand in the payload at the cursor. */
  predicate At(p: seq<Byte>, pos: nat, b: seq<Byte>) {
    pos + |b| <= |p| && p[pos..pos + |b|] == b
  }

  lemma AtSplits(p: seq<Byte>, pos: nat, a: seq<Byte>, b: seq<Byte>)
    requires At(p, pos, a + b)
    ensures At(p, pos, a) && At(p, pos + |a|, b)
  {
    assert p[pos..pos + |a|] == (a + b)[..|a|];
    assert p[pos + |a|..pos + |a| + |b|] == (a + b)[|a|..];
  }

  lemma AtFirst(p: seq<Byte>, pos: nat, b: seq<Byte>)
    requires At(p, pos, b) && b != []
    ensures pos < |p| && p[pos] == b[0]
  {
    assert p[pos] == p[pos..pos + |b|][0];
  }

  lemma FirstByte(major: nat, info: nat)
    requires info < 0x20
    ensures (0x20 * major + info) / 0x20 == major && (0x20 * major + info) % 0x20 == info
  {
  }

  lemma HeadIsWide(p: seq<Byte>, pos: nat, major: nat, width: nat)
    requires width in {1, 2, 4, 8}
    requires pos < |p| && p[pos] == 0x20 * major + Info(width)
    ensures HeadAt(p, pos) == WideArgument(p, pos, major, width)
  {
    FirstByte(major, Info(width));
  }

  lemma WideIsRead(p: seq<Byte>, pos: nat, major: nat, arg: nat, width: nat, first: Byte)
    requires major < 8 && width in {1, 2, 4, 8} && arg < Power(width)
    requires first == 0x20 * major + Info(width) && At(p, pos, [first] + BigEndian(arg, width))
    ensures HeadAt(p, pos) == Some(ItemHead(major, Some(arg), pos + 1 + width))
  {
    var argument := BigEndian(arg, width);
    NumberOfBigEndian(arg, width);
    AtFirst(p, pos, [first] + argument);
    AtSplits(p, pos, [first], argument);
    HeadIsWide(p, pos, major, width);
  }

  /** Heads of any width are read, the shortest or not, and those of indefinite length; 28 to 30 are reserved. */
  lemma AnyHeadIsRead(p: seq<Byte>, pos: nat, major: nat, arg: nat, info: nat, width: nat)
    requires major < 8 && pos < |p| && info < 32 && p[pos] == 32 * major + info
    ensures info == 31 ==> HeadAt(p, pos) == Some(ItemHead(major, None, pos + 1))
    ensures info < 24 ==> HeadAt(p, pos) == Some(ItemHead(major, Some(info), pos + 1))
    ensures (info, width) in {(24, 1), (25, 2), (26, 4), (27, 8)} && arg < Power(width)
            && At(p, pos, [p[pos]] + BigEndian(arg, width))
            ==> HeadAt(p, pos) == Some(ItemHead(major, Some(arg), pos + 1 + width))
    ensures 28 <= info <= 30 ==> HeadAt(p, pos) == None
  {
    FirstByte(major, info);
    if (info, width) in {(24, 1), (25, 2), (26, 4), (27, 8)} && arg < Power(width)
       && At(p, pos, [p[pos]] + BigEndian(arg, width)) {
      WideIsRead(p, pos, major, arg, width, p[pos]);
    }
  }

  lemma HeadIsRead(p: seq<Byte>, pos: nat, major: nat, arg: nat)
    requires major < 7 && arg < 0x1_0000_0000 && At(p, pos, Head(major, arg))
    ensures HeadAt(p, pos) == Some(ItemHead(major, Some(arg), pos + |Head(major, arg)|))
  {
    HeadIs(major, arg);
    Powers();
    if arg < 24 {
      AtFirst(p, pos, Head(major, arg));
    } else if arg < 0x100 {
      WideIsRead(p, pos, major, arg, 1, 0x20 * major + 24);
    } else if arg < 0x1_0000 {
      WideIsRead(p, pos, major, arg, 2, 0x20 * major + 25);
    } else {
      WideIsRead(p, pos, major, arg, 4, 0x20 * major + 26);
    }
  }

  lemma ArgumentIsRead(p: seq<Byte>, s: State, major: nat, arg: nat, limit: nat)
    requires major < 7 && arg < 0x1_0000_0000 && At(p, s.pos, Head(major, arg)) && CanTake(s)
    ensures arg <= limit ==> Argument(p, s, major, limit) == Read(Some(arg), Taken(s, s.pos + |Head(major, arg)|))
    ensures forall other :: other != major ==> Argument(p, s, other, limit) == Read(None, s)
  {
    HeadIsRead(p, s.pos, major, arg);
  }

  lemma Uint32IsRead(p: seq<Byte>, s: State, v: Uint32)
    requires At(p, s.pos, Uint32Bytes(v)) && CanTake(s)
    ensures ReadUint32(p, s) == Read(Some(v), Taken(s, s.pos + |Uint32Bytes(v)|))
  {
    ArgumentIsRead(p, s, UNSIGNED, v, 0xffff_ffff);
  }

  lemma Int32IsRead(p: seq<Byte>, s: State, v: Int32)
    requires At(p, s.pos, Int32Bytes(v)) && CanTake(s)
    ensures ReadInt32(p, s) == Read(Some(v), Taken(s, s.pos + |Int32Bytes(v)|))
  {
    if v >= 0 {
      ArgumentIsRead(p, s, UNSIGNED, v, 0x7fff_ffff);
    } else {
      ArgumentIsRead(p, s, NEGATIVE, -1 - v, 0x7fff_ffff);
    }
  }

  lemma BoolIsRead(p: seq<Byte>, s: State, v: bool)
    requires At(p, s.pos, BoolBytes(v)) && CanTake(s)
    ensures ReadBool(p, s) == Read(Some(v), Taken(s, s.pos + 1))
  {
    AtFirst(p, s.pos, BoolBytes(v));
  }

  lemma Float64IsRead(p: seq<Byte>, s: State, v: Float64)
    requires At(p, s.pos, Float64Bytes(v)) && CanTake(s)
    ensures ReadFloat64(p, s) == Read(Some(v), Taken(s, s.pos + 9))
  {
    AtFirst(p, s.pos, Float64Bytes(v));
    AtSplits(p, s.pos, [DOUBLE], v);
  }

  lemma TextIsRead(p: seq<Byte>, s: State, v: Text)
    requires At(p, s.pos, TextBytes(v)) && CanTake(s)
    ensures ReadText(p, s) == Read(Some(v), Taken(s, s.pos + |TextBytes(v)|))
  {
    AtSplits(p, s.pos, Head(TEXT, |v|), v);
    ArgumentIsRead(p, s, TEXT, |v|, 0xffff_ffff);
  }
}
