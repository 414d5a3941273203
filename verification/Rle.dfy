/** The run-length coder of the image tool. */
module Rle {
  import opened Common

  // Data is cut into blocks of one pixel; a packet is a control byte followed either by that many literal
  // blocks (high bit set) or by one block to repeat.

  type Block = seq<Byte>

  const THRESHOLD := 16
  const MAX_COUNT := 127

  // ---------------------------------------------------------------- blocks

  function Min(a: int, b: int): int { if a < b then a else b }

  /** data[a:b] as Python slices it: out-of-range bounds are cut to the length. */
  function Slice(data: seq<Byte>, a: nat, b: nat): seq<Byte>
    requires a <= b
  {
    data[Min(a, |data|)..Min(b, |data|)]
  }

  /** The data cut into blocks; the last one may be short. */
  function Chunks(data: seq<Byte>, blk: nat): (r: seq<Block>)
    requires blk > 0
    ensures data != [] ==> r != []
    decreases |data|
  {
    if data == [] then [] else [Slice(data, 0, blk)] + Chunks(data[Min(blk, |data|)..], blk)
  }

  function Flatten(bs: seq<Block>): seq<Byte> {
    if bs == [] then [] else bs[0] + Flatten(bs[1..])
  }

  predicate AllFull(bs: seq<Block>, blk: nat) {
    forall i :: 0 <= i < |bs| ==> |bs[i]| == blk
  }

  lemma {:induction false} FlattenAdds(a: seq<Block>, b: seq<Block>)
    ensures Flatten(a + b) == Flatten(a) + Flatten(b)
  {
    if a == [] {
      assert a + b == b;
    } else {
      assert (a + b)[1..] == a[1..] + b;
      FlattenAdds(a[1..], b);
    }
  }

  lemma FirstChunk(data: seq<Byte>, blk: nat)
    requires blk > 0 && data != []
    ensures
      var m := Min(blk, |data|);
      Chunks(data, blk) == [data[..m]] + Chunks(data[m..], blk)
  {
  }

  lemma FlattenFirst(b: Block, bs: seq<Block>)
    ensures Flatten([b] + bs) == b + Flatten(bs)
  {
    assert ([b] + bs)[1..] == bs;
  }

  lemma {:induction false} FlattenChunks(data: seq<Byte>, blk: nat)
    requires blk > 0
    ensures Flatten(Chunks(data, blk)) == data
    decreases |data|
  {
    if data != [] {
      var m := Min(blk, |data|);
      FlattenChunks(data[m..], blk);
      FirstChunk(data, blk);
      FlattenFirst(data[..m], Chunks(data[m..], blk));
    }
  }

  lemma {:induction false} AlignedChunksAreFull(data: seq<Byte>, blk: nat, k: nat)
    requires blk > 0 && |data| == k * blk
    ensures AllFull(Chunks(data, blk), blk) && |Chunks(data, blk)| == k
    decreases k
  {
    if k > 0 {
      assert k * blk == blk + (k - 1) * blk;
      MulNonNegative(k - 1, blk);
      AlignedChunksAreFull(data[blk..], blk, k - 1);
      assert Chunks(data, blk) == [data[..blk]] + Chunks(data[blk..], blk);
    } else {
      assert data == [];
    }
  }

  lemma MulNonNegative(a: int, b: int)
    requires a >= 0 && b >= 0
    ensures a * b >= 0
  {
  }

  /** Where block `n` starts, cut to the length of the data. */
  function Offset(data: seq<Byte>, blk: nat, n: nat): (r: nat)
    ensures r <= |data|
  {
    MulNonNegative(n, blk);
    Min(n * blk, |data|)
  }

  lemma OffsetStep(data: seq<Byte>, blk: nat, n: nat)
    requires blk > 0 && n > 0
    ensures Offset(data, blk, n) == Min(blk, |data|) + Offset(data[Min(blk, |data|)..], blk, n - 1)
  {
    MulNonNegative(n - 1, blk);
    assert n * blk == blk + (n - 1) * blk;
  }

  /** Skipping `n` blocks is skipping n * blk bytes. */
  lemma {:induction false} SkipBlocks(data: seq<Byte>, blk: nat, n: nat)
    requires blk > 0 && n <= |Chunks(data, blk)|
    ensures Chunks(data, blk)[n..] == Chunks(data[Offset(data, blk, n)..], blk)
    decreases n
  {
    if n > 0 {
      var tail := data[Min(blk, |data|)..];
      OffsetStep(data, blk, n);
      SkipBlocks(tail, blk, n - 1);
      assert tail[Offset(tail, blk, n - 1)..] == data[Offset(data, blk, n)..];
      assert Chunks(data, blk)[n..] == Chunks(tail, blk)[n - 1..];
    }
  }

  lemma JoinSlices(data: seq<Byte>, m: nat, k: nat)
    requires m + k <= |data|
    ensures data[..m] + data[m..][..k] == data[..m + k]
  {
  }

  lemma TakeFirst(b: Block, bs: seq<Block>, n: nat)
    requires 0 < n <= |bs| + 1
    ensures ([b] + bs)[..n] == [b] + bs[..n - 1]
  {
  }

  lemma {:induction false} TakeBlocks(data: seq<Byte>, blk: nat, n: nat)
    requires blk > 0 && n <= |Chunks(data, blk)|
    ensures Flatten(Chunks(data, blk)[..n]) == data[..Offset(data, blk, n)]
    decreases n
  {
    if n > 0 {
      var m := Min(blk, |data|);
      var tail := data[m..];
      FirstChunk(data, blk);
      TakeFirst(data[..m], Chunks(tail, blk), n);
      FlattenFirst(data[..m], Chunks(tail, blk)[..n - 1]);
      TakeBlocks(tail, blk, n - 1);
      OffsetStep(data, blk, n);
      JoinSlices(data, m, Offset(tail, blk, n - 1));
    }
  }

  // ---------------------------------------------------------------- counting

  function RunLength(bs: seq<Block>, b: Block): (n: nat)
    ensures n <= |bs|
  {
    if bs == [] || bs[0] != b then 0 else 1 + RunLength(bs[1..], b)
  }

  /** The run is exactly the leading blocks that are equal to `b`. */
  lemma {:induction false} RunIsMaximal(bs: seq<Block>, b: Block)
    ensures AllEqual(bs, 0, RunLength(bs, b), b)
    ensures RunLength(bs, b) < |bs| ==> bs[RunLength(bs, b)] != b
  {
    if bs != [] && bs[0] == b {
      RunIsMaximal(bs[1..], b);
      assert forall j :: 0 < j < |bs| ==> bs[j] == bs[1..][j - 1];
    }
  }

  /** How many leading blocks are equal, at most 127; 0 when not even one whole block is left. */
  function RepeatCount(bs: seq<Block>, blk: nat): nat {
    if bs == [] || |bs[0]| < blk then 0 else Min(MAX_COUNT, RunLength(bs, bs[0]))
  }

  /**
   How many blocks go into a literal packet: `n` are settled, followed by `r` more equal to `pre`.
   It stops before a run of more than 16 such blocks, at 127 blocks, or at the end of the data.
   */
  function LiteralFrom(bs: seq<Block>, pre: Block, n: nat, r: nat): nat {
    if bs == [] then n + r
    else if bs[0] == pre then
      if r + 1 > THRESHOLD then n else LiteralFrom(bs[1..], pre, n, r + 1)
    else
      if n + 1 + r >= MAX_COUNT then MAX_COUNT else LiteralFrom(bs[1..], bs[0], n + 1 + r, 0)
  }

  function LiteralCount(bs: seq<Block>): nat
    requires bs != []
  {
    LiteralFrom(bs, bs[0], 0, 0)
  }

  predicate AllEqual(bs: seq<Block>, from: nat, to: nat, b: Block) {
    to <= |bs| && forall j :: from <= j < to ==> bs[j] == b
  }

  /** Why a literal packet ends where it does. */
  predicate LiteralEnds(all: seq<Block>, m: nat) {
    || m == MAX_COUNT <= |all|
    || (m == |all| && m <= MAX_COUNT - 1 + THRESHOLD)
    || (m < MAX_COUNT && m + THRESHOLD + 1 <= |all| && AllEqual(all, m, m + THRESHOLD + 1, all[m]))
  }

  lemma {:induction false} LiteralOutcome(all: seq<Block>, pre: Block, n: nat, r: nat)
    requires n < MAX_COUNT && r <= THRESHOLD && n + r <= |all| && AllEqual(all, n, n + r, pre)
    ensures LiteralFrom(all[n + r..], pre, n, r) >= n
    ensures LiteralEnds(all, LiteralFrom(all[n + r..], pre, n, r))
    decreases |all| - n - r
  {
    var bs := all[n + r..];
    if bs != [] {
      assert bs[0] == all[n + r];
      if bs[0] == pre {
        if r < THRESHOLD {
          assert bs[1..] == all[n + r + 1..];
          LiteralOutcome(all, pre, n, r + 1);
        } else {
          assert AllEqual(all, n, n + r + 1, pre);
        }
      } else if n + 1 + r < MAX_COUNT {
        assert bs[1..] == all[n + r + 1..];
        LiteralOutcome(all, bs[0], n + r + 1, 0);
      }
    }
  }

  lemma LongRun(bs: seq<Block>, n: nat)
    requires 0 < n <= |bs| && AllEqual(bs, 0, n, bs[0])
    ensures RunLength(bs, bs[0]) >= n
  {
    RunIsMaximal(bs, bs[0]);
  }

  /** A literal packet is started only where the leading run is short, so it takes a block at least. */
  lemma LiteralCountBounds(bs: seq<Block>)
    requires bs != [] && RunLength(bs, bs[0]) < THRESHOLD
    ensures 1 <= LiteralCount(bs) <= |bs| && LiteralEnds(bs, LiteralCount(bs))
  {
    assert bs[0 + 0..] == bs;
    LiteralOutcome(bs, bs[0], 0, 0);
    if LiteralCount(bs) == 0 {
      LongRun(bs, THRESHOLD + 1);
    }
  }

  // ---------------------------------------------------------------- packets

  datatype Packet = Literal(blocks: seq<Block>) | Repeat(count: nat, block: Block)

  function Packets(bs: seq<Block>, blk: nat): seq<Packet>
    decreases |bs|
  {
    var repeats := RepeatCount(bs, blk);
    if bs == [] || repeats == 0 then []
    else if repeats < THRESHOLD then
      LiteralCountBounds(bs);
      var n := LiteralCount(bs);
      [Literal(bs[..n])] + Packets(bs[n..], blk)
    else
      [Repeat(repeats, bs[0])] + Packets(bs[repeats..], blk)
  }

  /** n | 0x80 in one byte. */
  function LiteralControl(n: nat): Byte
    requires n < 256
  {
    if n < 128 then n + 128 else n
  }

  predicate Emittable(p: Packet) {
    match p
    case Literal(blocks) => |blocks| < 256
    case Repeat(count, _) => count < 256
  }

  function Emit(p: Packet): seq<Byte>
    requires Emittable(p)
  {
    match p
    case Literal(blocks) => [LiteralControl(|blocks|)] + Flatten(blocks)
    case Repeat(count, block) => [count] + block
  }

  function EmitAll(ps: seq<Packet>): seq<Byte>
    requires forall i :: 0 <= i < |ps| ==> Emittable(ps[i])
  {
    if ps == [] then [] else Emit(ps[0]) + EmitAll(ps[1..])
  }

  /**
   What the packets look like: a repeat packet has 16 to 127 blocks; a literal packet that is not the
   last has at most 127, and when it has fewer a repeat packet of at least 17 follows; the last
   literal packet has at most 142.
   */
  predicate WellShaped(ps: seq<Packet>, i: nat)
    requires i < |ps|
  {
    match ps[i]
    case Repeat(count, _) => 16 <= count <= 127
    case Literal(blocks) =>
      if i == |ps| - 1 then 1 <= |blocks| <= 142
      else |blocks| == 127 || (1 <= |blocks| <= 126 && ps[i + 1].Repeat? && ps[i + 1].count >= 17)
  }

  lemma {:induction false} PacketsAreWellShaped(bs: seq<Block>, blk: nat)
    ensures forall i :: 0 <= i < |Packets(bs, blk)| ==> WellShaped(Packets(bs, blk), i)
    ensures forall i :: 0 <= i < |Packets(bs, blk)| ==> Emittable(Packets(bs, blk)[i])
    decreases |bs|
  {
    var ps := Packets(bs, blk);
    var repeats := RepeatCount(bs, blk);
    if bs != [] && repeats != 0 {
      var n := repeats;
      if repeats < THRESHOLD {
        LiteralCountBounds(bs);
        n := LiteralCount(bs);
        FirstLiteral(bs, blk);
      }
      PacketsAreWellShaped(bs[n..], blk);
      assert ps[1..] == Packets(bs[n..], blk);
      forall i | 0 <= i < |ps| ensures WellShaped(ps, i) && Emittable(ps[i]) {
        if i > 0 {
          assert ps[i] == ps[1..][i - 1];
          assert WellShaped(ps[1..], i - 1) && Emittable(ps[1..][i - 1]);
        }
      }
    }
  }

  /** The first packet when it is a literal one. */
  lemma FirstLiteral(bs: seq<Block>, blk: nat)
    requires bs != [] && 0 < RepeatCount(bs, blk) < THRESHOLD
    ensures WellShaped(Packets(bs, blk), 0)
  {
    LiteralCountBounds(bs);
    var n := LiteralCount(bs);
    var rest := bs[n..];
    if n < MAX_COUNT && n < |bs| {
      assert forall j :: 0 <= j <= THRESHOLD ==> rest[j] == bs[n + j];
      if |rest[0]| >= blk {
        LongRun(rest, THRESHOLD + 1);
      }
    }
  }

  // ---------------------------------------------------------------- decoding

  function Expand(p: Packet): seq<Block> {
    match p
    case Literal(blocks) => blocks
    case Repeat(count, block) => seq(count, _ => block)
  }

  function ExpandAll(ps: seq<Packet>): seq<Block> {
    if ps == [] then [] else Expand(ps[0]) + ExpandAll(ps[1..])
  }

  /** The first `n` blocks of the bytes and what is left, if there are that many. */
  function Cut(bytes: seq<Byte>, n: nat, blk: nat): Option<(seq<Block>, seq<Byte>)> {
    if n == 0 then Some(([], bytes))
    else if |bytes| < blk then None
    else
      match Cut(bytes[blk..], n - 1, blk)
      case None => None
      case Some((blocks, rest)) => Some(([bytes[..blk]] + blocks, rest))
  }

  lemma {:induction false} CutShrinks(bytes: seq<Byte>, n: nat, blk: nat)
    requires Cut(bytes, n, blk).Some?
    ensures |Cut(bytes, n, blk).value.1| <= |bytes|
    decreases n
  {
    if n > 0 {
      CutShrinks(bytes[blk..], n - 1, blk);
    }
  }

  /** Reading packets back: a control byte with its high bit set counts literals in its low seven bits. */
  function Parse(bytes: seq<Byte>, blk: nat): Option<seq<Packet>>
    decreases |bytes|
  {
    if bytes == [] then Some([])
    else if bytes[0] >= 128 then
      match Cut(bytes[1..], bytes[0] - 128, blk)
      case None => None
      case Some((blocks, rest)) =>
        CutShrinks(bytes[1..], bytes[0] - 128, blk);
        (match Parse(rest, blk)
         case None => None
         case Some(ps) => Some([Literal(blocks)] + ps))
    else if |bytes| < 1 + blk then None
    else
      match Parse(bytes[1 + blk..], blk)
      case None => None
      case Some(ps) => Some([Repeat(bytes[0], bytes[1..1 + blk])] + ps)
  }

  function Decode(bytes: seq<Byte>, blk: nat): Option<seq<Byte>> {
    match Parse(bytes, blk)
    case None => None
    case Some(ps) => Some(Flatten(ExpandAll(ps)))
  }

  predicate WholeBlocks(p: Packet, blk: nat) {
    match p
    case Literal(blocks) => AllFull(blocks, blk) && 0 < |blocks| <= MAX_COUNT - 1 + THRESHOLD
    case Repeat(count, block) => |block| == blk && count <= MAX_COUNT
  }

  /** The control byte can tell the packet's length. */
  predicate Tellable(p: Packet) {
    p.Literal? ==> |p.blocks| <= MAX_COUNT
  }

  lemma CutOne(b: Block, bytes: seq<Byte>, n: nat, blocks: seq<Block>, rest: seq<Byte>)
    requires Cut(bytes, n, |b|) == Some((blocks, rest))
    ensures Cut(b + bytes, n + 1, |b|) == Some(([b] + blocks, rest))
  {
    assert (b + bytes)[..|b|] == b && (b + bytes)[|b|..] == bytes;
  }

  lemma {:induction false} CutFlattened(bs: seq<Block>, blk: nat, rest: seq<Byte>)
    requires AllFull(bs, blk)
    ensures Cut(Flatten(bs) + rest, |bs|, blk) == Some((bs, rest))
  {
    if bs == [] {
      assert Flatten(bs) + rest == rest;
    } else {
      assert |bs[0]| == blk;
      CutFlattened(bs[1..], blk, rest);
      CutOne(bs[0], Flatten(bs[1..]) + rest, |bs[1..]|, bs[1..], rest);
      assert Flatten(bs) + rest == bs[0] + (Flatten(bs[1..]) + rest);
      assert [bs[0]] + bs[1..] == bs;
    }
  }

  lemma ParseLiteral(blocks: seq<Block>, blk: nat, rest: seq<Byte>)
    requires AllFull(blocks, blk) && |blocks| <= MAX_COUNT
    ensures Parse([|blocks| + 128] + (Flatten(blocks) + rest), blk) ==
            match Parse(rest, blk) case None => None case Some(ps) => Some([Literal(blocks)] + ps)
  {
    CutFlattened(blocks, blk, rest);
    assert ([|blocks| + 128] + (Flatten(blocks) + rest))[1..] == Flatten(blocks) + rest;
  }

  lemma ParseRepeat(count: nat, block: Block, rest: seq<Byte>)
    requires count <= MAX_COUNT
    ensures Parse([count] + (block + rest), |block|) ==
            match Parse(rest, |block|) case None => None case Some(ps) => Some([Repeat(count, block)] + ps)
  {
    var bytes := [count] + (block + rest);
    assert bytes[1..1 + |block|] == block && bytes[1 + |block|..] == rest;
  }

  lemma ParseFirst(p: Packet, blk: nat, rest: seq<Byte>)
    requires WholeBlocks(p, blk) && Tellable(p)
    ensures Parse(Emit(p) + rest, blk) ==
            match Parse(rest, blk) case None => None case Some(ps) => Some([p] + ps)
  {
    match p
    case Literal(blocks) =>
      ParseLiteral(blocks, blk, rest);
      AppendPacket([|blocks| + 128], Flatten(blocks), rest);
    case Repeat(count, block) =>
      ParseRepeat(count, block, rest);
      AppendPacket([count], block, rest);
  }

  /** A literal packet of more than 127 blocks is read back as a different packet, if at all. */
  lemma OverlongIsMisread(p: Packet, blk: nat, rest: seq<Byte>)
    requires WholeBlocks(p, blk) && !Tellable(p)
    ensures
      var r := Parse(Emit(p) + rest, blk);
      r.Some? ==> r.value != [] && r.value[0] != p
  {
    var bytes := Emit(p) + rest;
    var n := |p.blocks| - 128;
    assert bytes[0] == |p.blocks|;
    if Cut(bytes[1..], n, blk).Some? {
      CutLength(bytes[1..], n, blk);
    }
  }

  lemma {:induction false} CutLength(bytes: seq<Byte>, n: nat, blk: nat)
    requires Cut(bytes, n, blk).Some?
    ensures |Cut(bytes, n, blk).value.0| == n
    decreases n
  {
    if n > 0 {
      CutLength(bytes[blk..], n - 1, blk);
    }
  }

  predicate AllTellable(ps: seq<Packet>) {
    ps == [] || (Tellable(ps[0]) && AllTellable(ps[1..]))
  }

  /** The packets are read back as they were written exactly when none has more than 127 literals. */
  lemma {:induction false} ParseIff(ps: seq<Packet>, blk: nat)
    requires forall i :: 0 <= i < |ps| ==> WholeBlocks(ps[i], blk) && Emittable(ps[i])
    ensures Parse(EmitAll(ps), blk) == Some(ps) <==> AllTellable(ps)
  {
    if ps != [] {
      ParseIff(ps[1..], blk);
      assert [ps[0]] + ps[1..] == ps;
      if Tellable(ps[0]) {
        ParseFirst(ps[0], blk, EmitAll(ps[1..]));
        FirstMatches(ps, Parse(EmitAll(ps[1..]), blk));
      } else {
        OverlongIsMisread(ps[0], blk, EmitAll(ps[1..]));
      }
    }
  }

  lemma FirstMatches(ps: seq<Packet>, rest: Option<seq<Packet>>)
    requires ps != []
    ensures (match rest case None => None case Some(qs) => Some([ps[0]] + qs)) == Some(ps) <==> rest == Some(ps[1..])
  {
    if rest.Some? {
      assert ([ps[0]] + rest.value)[1..] == rest.value;
      if rest.value == ps[1..] {
        assert [ps[0]] + rest.value == ps;
      }
    }
  }

  /** In well-shaped packets only the last can be too long. */
  lemma {:induction false} OnlyTheLast(ps: seq<Packet>)
    requires forall i :: 0 <= i < |ps| ==> WellShaped(ps, i)
    ensures AllTellable(ps) <==> !OverlongTail(ps)
  {
    if |ps| > 1 {
      assert WellShaped(ps, 0);
      forall i | 0 <= i < |ps[1..]| ensures WellShaped(ps[1..], i) {
        assert WellShaped(ps, i + 1);
      }
      OnlyTheLast(ps[1..]);
    } else if |ps| == 1 {
      assert ps[1..] == [];
    }
  }

  // ---------------------------------------------------------------- the round trip

  lemma {:induction false} SameBlocks(bs: seq<Block>, n: nat)
    requires n <= |bs| && bs != [] && AllEqual(bs, 0, n, bs[0])
    ensures Expand(Repeat(n, bs[0])) == bs[..n]
  {
  }

  /** The packets of whole blocks stand for exactly those blocks, in order, all of them. */
  lemma {:induction false} PacketsExpand(bs: seq<Block>, blk: nat)
    requires blk > 0 && AllFull(bs, blk)
    ensures ExpandAll(Packets(bs, blk)) == bs
    decreases |bs|
  {
    if bs != [] {
      var n := FirstCovers(bs, blk);
      PacketsExpand(bs[n..], blk);
      ExpandFirst(Packets(bs, blk)[0], Packets(bs[n..], blk), bs[..n], bs[n..]);
      assert bs == bs[..n] + bs[n..];
    }
  }

  lemma ExpandFirst(p: Packet, ps: seq<Packet>, first: seq<Block>, others: seq<Block>)
    requires Expand(p) == first && ExpandAll(ps) == others
    ensures ExpandAll([p] + ps) == first + others
  {
    assert ([p] + ps)[1..] == ps;
  }

  lemma {:induction false} PacketsHaveWholeBlocks(bs: seq<Block>, blk: nat)
    requires blk > 0 && AllFull(bs, blk)
    ensures forall i :: 0 <= i < |Packets(bs, blk)| ==> WholeBlocks(Packets(bs, blk)[i], blk)
    decreases |bs|
  {
    if bs != [] {
      var n := FirstCovers(bs, blk);
      var ps := Packets(bs, blk);
      PacketsHaveWholeBlocks(bs[n..], blk);
      forall i | 0 <= i < |ps| ensures WholeBlocks(ps[i], blk) {
        if i > 0 {
          assert ps[i] == Packets(bs[n..], blk)[i - 1];
        }
      }
    }
  }

  /** The first packet covers the first `n` blocks, and the rest are coded on their own. */
  lemma FirstCovers(bs: seq<Block>, blk: nat) returns (n: nat)
    requires blk > 0 && AllFull(bs, blk) && bs != []
    ensures 0 < n <= |bs|
    ensures
      var ps := Packets(bs, blk);
      ps == [ps[0]] + Packets(bs[n..], blk) && Expand(ps[0]) == bs[..n] && WholeBlocks(ps[0], blk)
  {
    assert |bs[0]| == blk;
    n := RepeatCount(bs, blk);
    if n < THRESHOLD {
      LiteralCountBounds(bs);
      n := LiteralCount(bs);
    } else {
      RunIsMaximal(bs, bs[0]);
      SameBlocks(bs, n);
    }
  }

  /** The last packet is a literal one too long for its control byte. */
  predicate OverlongTail(ps: seq<Packet>) {
    ps != [] && !Tellable(ps[|ps| - 1])
  }

  function Coded(bs: seq<Block>, blk: nat): seq<Byte> {
    PacketsAreWellShaped(bs, blk);
    EmitAll(Packets(bs, blk))
  }

  function Compressed(data: seq<Byte>, blk: nat): seq<Byte>
    requires blk > 0
  {
    Coded(Chunks(data, blk), blk)
  }

  /**
   For data of whole blocks, the packets written are the packets read back exactly when the last
   literal packet has at most 127 blocks; and then decoding gives the data back.
   */
  lemma RoundTrip(data: seq<Byte>, blk: nat, k: nat)
    requires blk > 0 && |data| == k * blk
    ensures
      var ps := Packets(Chunks(data, blk), blk);
      && (Parse(Compressed(data, blk), blk) == Some(ps) <==> !OverlongTail(ps))
      && (!OverlongTail(ps) ==> Decode(Compressed(data, blk), blk) == Some(data))
  {
    var bs := Chunks(data, blk);
    var ps := Packets(bs, blk);
    AlignedChunksAreFull(data, blk, k);
    PacketsAreWellShaped(bs, blk);
    PacketsExpand(bs, blk);
    PacketsHaveWholeBlocks(bs, blk);
    ParseIff(ps, blk);
    OnlyTheLast(ps);
    FlattenChunks(data, blk);
  }

  /** Data is padded to whole blocks before it is compressed; the original length is kept beside it. */
  lemma PaddedRoundTrip(data: seq<Byte>, pad: seq<Byte>, blk: nat, k: nat)
    requires blk > 0 && |data| + |pad| == k * blk
    requires !OverlongTail(Packets(Chunks(data + pad, blk), blk))
    ensures
      var r := Decode(Compressed(data + pad, blk), blk);
      r.Some? && |r.value| >= |data| && r.value[..|data|] == data
  {
    RoundTrip(data + pad, blk, k);
  }

  // ---------------------------------------------------------------- the size

  /** n / 127 rounded up: what the control bytes of literal packets can cost. */
  function Extra(n: nat): nat {
    (n + 126) / 127
  }

  lemma {:induction false} FlattenAtLeast(bs: seq<Block>, blk: nat)
    requires blk > 0 && AllFull(bs, blk) && bs != []
    ensures |Flatten(bs)| >= blk + |bs| - 1
  {
    if |bs| > 1 {
      FlattenAtLeast(bs[1..], blk);
    } else {
      assert bs[1..] == [];
    }
  }

  lemma EmitSplit(bs: seq<Block>, blk: nat, n: nat)
    requires n <= |bs|
    ensures |Flatten(bs)| == |Flatten(bs[..n])| + |Flatten(bs[n..])|
  {
    assert bs == bs[..n] + bs[n..];
    FlattenAdds(bs[..n], bs[n..]);
  }

  function Size(bs: seq<Block>, blk: nat): nat {
    |Coded(bs, blk)|
  }

  /** A repeat packet saves at least two bytes over its blocks when it stands for 17 or more. */
  lemma RepeatSaves(bs: seq<Block>, blk: nat)
    requires blk > 0 && AllFull(bs, blk) && bs != [] && RepeatCount(bs, blk) >= THRESHOLD
    ensures
      var c := RepeatCount(bs, blk);
      Size(bs, blk) + c <= 2 + |Flatten(bs[..c])| + Size(bs[c..], blk)
  {
    var c := RepeatCount(bs, blk);
    FlattenAtLeast(bs[..c], blk);
    assert |bs[0]| == blk;
    assert Packets(bs, blk)[1..] == Packets(bs[c..], blk);
  }

  lemma LiteralCosts(bs: seq<Block>, blk: nat)
    requires blk > 0 && AllFull(bs, blk) && bs != [] && RepeatCount(bs, blk) < THRESHOLD
    ensures RunLength(bs, bs[0]) < THRESHOLD
    ensures 1 <= LiteralCount(bs) <= |bs| && LiteralEnds(bs, LiteralCount(bs))
    ensures
      var n := LiteralCount(bs);
      Size(bs, blk) == 1 + |Flatten(bs[..n])| + Size(bs[n..], blk)
  {
    assert |bs[0]| == blk && RunLength(bs, bs[0]) > 0;
    LiteralCountBounds(bs);
    assert Packets(bs, blk)[1..] == Packets(bs[LiteralCount(bs)..], blk);
  }

  lemma ExtraGrows(a: nat, b: nat)
    requires a <= b
    ensures Extra(a) <= Extra(b)
    ensures a + MAX_COUNT <= b ==> Extra(a) + 1 <= Extra(b)
    ensures a == 0 < b ==> Extra(a) + 1 <= Extra(b)
  {
  }

  /** `n` blocks and what is behind them: one byte is added only by 127 blocks or by all that are left. */
  predicate Saves(bs: seq<Block>, blk: nat, n: nat) {
    0 < n <= |bs|
    && Size(bs, blk) + |Flatten(bs[n..])|
       <= |Flatten(bs)| + Size(bs[n..], blk) + (if n >= MAX_COUNT || n == |bs| then 1 else 0)
  }

  lemma RepeatPart(bs: seq<Block>, blk: nat, n: nat)
    requires blk > 0 && AllFull(bs, blk) && bs != [] && THRESHOLD <= n == RepeatCount(bs, blk)
    ensures Saves(bs, blk, n)
  {
    RepeatSaves(bs, blk);
    EmitSplit(bs, blk, n);
  }

  lemma LongLiteralPart(bs: seq<Block>, blk: nat, n: nat)
    requires blk > 0 && AllFull(bs, blk) && bs != [] && RepeatCount(bs, blk) < THRESHOLD
    requires n == LiteralCount(bs) && (n >= MAX_COUNT || n >= |bs|)
    ensures Saves(bs, blk, n)
  {
    LiteralCosts(bs, blk);
    EmitSplit(bs, blk, n);
  }

  /** A short literal packet and the repeat packet behind it together cost nothing. */
  lemma ShortLiteralPart(bs: seq<Block>, blk: nat, n: nat, d: nat)
    requires blk > 0 && AllFull(bs, blk) && bs != [] && RepeatCount(bs, blk) < THRESHOLD
    requires n == LiteralCount(bs) < MAX_COUNT && n < |bs| && d == RepeatCount(bs[n..], blk)
    ensures Saves(bs, blk, n + d)
  {
    var rest := bs[n..];
    LiteralCosts(bs, blk);
    EmitSplit(bs, blk, n);
    assert forall j :: 0 <= j <= THRESHOLD ==> rest[j] == bs[n + j];
    LongRun(rest, THRESHOLD + 1);
    assert |rest[0]| == blk;
    RepeatSaves(rest, blk);
    EmitSplit(rest, blk, d);
    assert rest[d..] == bs[n + d..];
  }

  lemma FirstSaves(bs: seq<Block>, blk: nat) returns (n: nat)
    requires blk > 0 && AllFull(bs, blk) && bs != []
    ensures Saves(bs, blk, n)
  {
    n := RepeatCount(bs, blk);
    if n >= THRESHOLD {
      RepeatPart(bs, blk, n);
    } else {
      n := LiteralCount(bs);
      if n < MAX_COUNT && n < |bs| {
        var d := RepeatCount(bs[n..], blk);
        ShortLiteralPart(bs, blk, n, d);
        n := n + d;
      } else {
        LongLiteralPart(bs, blk, n);
      }
    }
  }

  /** Compressing n blocks never adds more than n / 127 bytes, rounded up. */
  lemma {:induction false} SizeBound(bs: seq<Block>, blk: nat)
    requires blk > 0 && AllFull(bs, blk)
    ensures Size(bs, blk) <= |Flatten(bs)| + Extra(|bs|)
    decreases |bs|
  {
    if bs != [] {
      var n := FirstSaves(bs, blk);
      SizeBound(bs[n..], blk);
      ExtraGrows(|bs[n..]|, |bs|);
    }
  }

  /** The worst case in bytes: one control byte for every 127 pixels started. */
  lemma WorstCase(data: seq<Byte>, blk: nat, k: nat)
    requires blk > 0 && |data| == k * blk
    ensures 127 * (|Compressed(data, blk)| - |data|) <= k + 126
  {
    AlignedChunksAreFull(data, blk, k);
    SizeBound(Chunks(data, blk), blk);
    FlattenChunks(data, blk);
  }

  // ---------------------------------------------------------------- where the round trip fails

  /** 0, 1, 0, 1, ..., 0, 1, 1, 1 with `m` pairs before the last two ones. */
  function Zigzag(m: nat): (r: seq<Byte>)
    ensures |r| == 2 * m + 2
  {
    if m == 0 then [1, 1] else [0, 1] + Zigzag(m - 1)
  }

  lemma {:induction false} ZigzagAt(m: nat, i: nat)
    requires i < 2 * m + 2
    ensures Zigzag(m)[i] == if i >= 2 * m then 1 else i % 2
  {
    if m > 0 && i >= 2 {
      ZigzagAt(m - 1, i - 2);
    }
  }

  lemma {:induction false} SingleByteChunks(data: seq<Byte>)
    ensures |Chunks(data, 1)| == |data|
    ensures forall i :: 0 <= i < |data| ==> Chunks(data, 1)[i] == [data[i]]
  {
    if data != [] {
      SingleByteChunks(data[1..]);
    }
  }

  /** From the n-th block on, the count goes one up per block until the tail of equal ones. */
  lemma {:induction false} ZigzagLiteral(bs: seq<Block>, n: nat)
    requires |bs| == 128 && 2 <= n <= 126
    requires forall i :: 0 <= i < 128 ==> bs[i] == [if i >= 126 then 1 else i % 2]
    ensures LiteralFrom(bs[n..], bs[n - 1], n, 0) == 128
    decreases 126 - n
  {
    if n < 126 {
      assert bs[n] != bs[n - 1];
      assert bs[n..][0] == bs[n] && bs[n..][1..] == bs[n + 1..];
      ZigzagLiteral(bs, n + 1);
    } else {
      var one: Block := [1];
      assert bs[126..] == [one, one] && bs[125] == one;
      assert [one, one][1..] == [one] && [one][1..] == [];
      assert LiteralFrom([one], one, 126, 1) == LiteralFrom([], one, 126, 2) == 128;
    }
  }

  lemma {:induction false} ZigzagParses(m: nat)
    ensures Parse(Zigzag(m), 1).Some? && ExpandAll(Parse(Zigzag(m), 1).value) == [[1]]
  {
    var z := Zigzag(m);
    if m == 0 {
      assert z == [1, 1] && z[2..] == [] && z[1..2] == [1];
      assert Parse(z[2..], 1) == Some([]);
      var ps := [Repeat(1, [1])];
      assert ps + [] == ps;
      assert Parse(z, 1) == Some(ps);
      assert ps[1..] == [] && Expand(ps[0]) == [[1]];
    } else {
      ZigzagParses(m - 1);
      assert z[2..] == Zigzag(m - 1) && z[1..2] == [1];
      var rest := Parse(Zigzag(m - 1), 1).value;
      var ps := [Repeat(0, [1])] + rest;
      assert Parse(z, 1) == Some(ps);
      assert ps[1..] == rest && Expand(ps[0]) == [];
    }
  }

  /**
   128 one-byte pixels that go into a single literal packet: the control byte says 0x80, which a
   decoder reads as no literals at all, and the 128 pixels come back as one.
   */
  lemma OverlongLosesData()
    ensures
      var data := Zigzag(63);
      && |data| == 128 && OverlongTail(Packets(Chunks(data, 1), 1))
      && Decode(Compressed(data, 1), 1) == Some([1])
  {
    var data := Zigzag(63);
    var bs := Chunks(data, 1);
    SingleByteChunks(data);
    forall i | 0 <= i < 128 ensures bs[i] == [if i >= 126 then 1 else i % 2] {
      ZigzagAt(63, i);
    }
    ZigzagIsOnePacket(bs);
    OneMisreadPacket(data);
    ZigzagMisread(63);
  }

  /** A control byte 0x80 stands for no literals, so the data behind it is read as packets. */
  lemma NoLiterals(data: seq<Byte>)
    ensures Decode([128] + data, 1) == Decode(data, 1)
  {
    var bytes := [128] + data;
    assert bytes[1..] == data;
    if Parse(data, 1).Some? {
      var ps := Parse(data, 1).value;
      var all := [Literal([])] + ps;
      assert Parse(bytes, 1) == Some(all);
      assert all[1..] == ps && ExpandAll(all) == [] + ExpandAll(ps) == ExpandAll(ps);
    }
  }

  /** One literal packet of 128 pixels: the control byte is dropped and the pixels are read as packets. */
  lemma OneMisreadPacket(data: seq<Byte>)
    requires |data| == 128 && Packets(Chunks(data, 1), 1) == [Literal(Chunks(data, 1))]
    ensures OverlongTail(Packets(Chunks(data, 1), 1))
    ensures Decode(Compressed(data, 1), 1) == Decode(data, 1)
  {
    SingleByteChunks(data);
    FlattenChunks(data, 1);
    var ps := [Literal(Chunks(data, 1))];
    assert Emittable(ps[0]) && Emit(ps[0]) == [128] + data;
    assert ps[1..] == [] && EmitAll(ps) == Emit(ps[0]) + [];
    assert Compressed(data, 1) == [128] + data;
    NoLiterals(data);
  }

  lemma ZigzagMisread(m: nat)
    ensures Decode(Zigzag(m), 1) == Some([1])
  {
    ZigzagParses(m);
    assert [[1]][1..] == [] && Flatten([[1]]) == [1];
  }

  lemma ZigzagIsOnePacket(bs: seq<Block>)
    requires |bs| == 128
    requires forall i :: 0 <= i < 128 ==> bs[i] == [if i >= 126 then 1 else i % 2]
    ensures Packets(bs, 1) == [Literal(bs)]
  {
    assert bs[0] == [0] && bs[1] == [1];
    assert RunLength(bs[1..], bs[0]) == 0;
    assert RepeatCount(bs, 1) == 1;
    ZigzagLiteral(bs, 2);
    assert bs[1..][1..] == bs[2..] && bs[1..][0] == bs[1];
    assert LiteralFrom(bs[1..], bs[0], 0, 1) == LiteralFrom(bs[2..], bs[1], 2, 0);
    assert LiteralCount(bs) == 128;
    OnePacket(bs);
  }

  lemma OnePacket(bs: seq<Block>)
    requires |bs| == 128 && 0 < RepeatCount(bs, 1) < THRESHOLD && LiteralCount(bs) == 128
    ensures Packets(bs, 1) == [Literal(bs)]
  {
    assert bs[..128] == bs && bs[128..] == [];
    assert Packets([], 1) == [];
  }

  // ---------------------------------------------------------------- where it holds by luck

  function Copies(n: nat, x: Byte): (r: seq<Byte>)
    ensures |r| == n
  {
    if n == 0 then [] else [x] + Copies(n - 1, x)
  }

  /** 3, 3, 3, 0, 0, 0, ..., and eight 2s at the end: read as packets, these bytes stand for themselves. */
  function Lucky(m: nat): (r: seq<Byte>)
    ensures |r| == 6 * m + 8
  {
    if m == 0 then Copies(8, 2) else [3, 3] + ([3, 0] + ([0, 0] + Lucky(m - 1)))
  }

  lemma {:induction false} FlattenRepeated(x: Byte, n: nat)
    ensures Flatten(seq(n, _ => [x])) == Copies(n, x)
    decreases n
  {
    if n > 0 {
      FlattenRepeated(x, n - 1);
      assert seq(n, _ => [x])[1..] == seq(n - 1, _ => [x]);
    }
  }

  /** Two bytes read as a repeat packet in front of anything that can be read. */
  lemma RepeatIsRead(n: Byte, x: Byte, rest: seq<Byte>, out: seq<Byte>)
    requires n < 128 && Decode(rest, 1) == Some(out)
    ensures Decode([n, x] + rest, 1) == Some(Copies(n, x) + out)
  {
    var bytes := [n, x] + rest;
    assert bytes[2..] == rest && bytes[1..2] == [x];
    var ps := Parse(rest, 1).value;
    var all := [Repeat(n, [x])] + ps;
    assert Parse(bytes, 1) == Some(all);
    assert all[1..] == ps;
    FlattenAdds(Expand(all[0]), ExpandAll(ps));
    FlattenRepeated(x, n);
  }

  lemma {:induction false} TwosAreRead(k: nat)
    ensures Decode(Copies(2 * k, 2), 1) == Some(Copies(2 * k, 2))
  {
    if k == 0 {
      assert Parse([], 1) == Some([]);
    } else {
      var rest := Copies(2 * k - 2, 2);
      TwosAreRead(k - 1);
      RepeatIsRead(2, 2, rest, rest);
      TwoCopies(2, rest);
      assert Copies(2 * k, 2) == [2] + Copies(2 * k - 1, 2) == [2] + ([2] + rest) == [2, 2] + rest;
    }
  }

  lemma TwoCopies(x: Byte, rest: seq<Byte>)
    ensures Copies(2, x) + rest == [x, x] + rest
  {
    assert Copies(2, x) == [x] + Copies(1, x) && Copies(1, x) == [x] + Copies(0, x);
  }

  lemma ThreeCopies(x: Byte, rest: seq<Byte>)
    ensures Copies(3, x) + rest == [x] + ([x] + ([x] + rest))
  {
    assert Copies(3, x) == [x] + Copies(2, x);
    TwoCopies(x, rest);
  }

  lemma {:induction false} LuckyIsRead(m: nat)
    ensures Decode(Lucky(m), 1) == Some(Lucky(m))
  {
    if m == 0 {
      TwosAreRead(4);
    } else {
      LuckyIsRead(m - 1);
      SixAreRead(Lucky(m - 1));
    }
  }

  lemma SixAreRead(rest: seq<Byte>)
    requires Decode(rest, 1) == Some(rest)
    ensures Decode([3, 3] + ([3, 0] + ([0, 0] + rest)), 1) == Some([3, 3] + ([3, 0] + ([0, 0] + rest)))
  {
    var zeros := [0] + ([0] + ([0] + rest));
    RepeatIsRead(0, 0, rest, rest);
    assert Copies(0, 0) + rest == rest;
    RepeatIsRead(3, 0, [0, 0] + rest, rest);
    ThreeCopies(0, rest);
    RepeatIsRead(3, 3, [3, 0] + ([0, 0] + rest), zeros);
    ThreeCopies(3, zeros);
    SixBytes(rest);
  }

  lemma SixBytes(rest: seq<Byte>)
    ensures [3, 3] + ([3, 0] + ([0, 0] + rest)) == [3] + ([3] + ([3] + ([0] + ([0] + ([0] + rest)))))
  {
  }

  lemma NextBlock(x: Byte, rest: seq<Byte>)
    ensures Chunks([x] + rest, 1) == [[x]] + Chunks(rest, 1)
  {
    assert ([x] + rest)[..1] == [x] && ([x] + rest)[1..] == rest;
  }

  lemma SameAgain(x: Byte, rest: seq<Byte>, n: nat, r: nat)
    requires r < THRESHOLD
    ensures LiteralFrom(Chunks([x] + rest, 1), [x], n, r) == LiteralFrom(Chunks(rest, 1), [x], n, r + 1)
  {
    NextBlock(x, rest);
    assert ([[x]] + Chunks(rest, 1))[1..] == Chunks(rest, 1);
  }

  lemma Different(x: Byte, y: Byte, rest: seq<Byte>, n: nat, r: nat)
    requires x != y && n + 1 + r < MAX_COUNT
    ensures LiteralFrom(Chunks([y] + rest, 1), [x], n, r) == LiteralFrom(Chunks(rest, 1), [y], n + 1 + r, 0)
  {
    NextBlock(y, rest);
    assert ([[y]] + Chunks(rest, 1))[1..] == Chunks(rest, 1);
  }

  lemma Triple(x: Byte, y: Byte, rest: seq<Byte>, n: nat, r: nat)
    requires x != y && n + 1 + r < MAX_COUNT
    ensures LiteralFrom(Chunks([y] + ([y] + ([y] + rest)), 1), [x], n, r) ==
            LiteralFrom(Chunks(rest, 1), [y], n + 1 + r, 2)
  {
    Different(x, y, [y] + ([y] + rest), n, r);
    SameAgain(y, [y] + rest, n + 1 + r, 0);
    SameAgain(y, rest, n + 1 + r, 1);
  }

  /** Behind three zeros, with 118 - 6 * m blocks settled, the count goes on to the very end. */
  lemma {:induction false} LuckyCount(m: nat)
    requires m <= 19
    ensures LiteralFrom(Chunks(Lucky(m), 1), [0], 118 - 6 * m, 2) == 128
  {
    if m == 0 {
      Different(0, 2, Copies(7, 2), 118, 2);
      TwosCount(7);
    } else {
      var rest := Lucky(m - 1);
      var zeros := [0] + ([0] + ([0] + rest));
      SixBytes(rest);
      Triple(0, 3, zeros, 118 - 6 * m, 2);
      Triple(3, 0, rest, 121 - 6 * m, 2);
      LuckyCount(m - 1);
    }
  }

  lemma {:induction false} TwosCount(k: nat)
    requires k <= 7
    ensures LiteralFrom(Chunks(Copies(k, 2), 1), [2], 121, 7 - k) == 128
  {
    if k > 0 {
      SameAgain(2, Copies(k - 1, 2), 121, 7 - k);
      TwosCount(k - 1);
    }
  }

  lemma ThreeThrees(rest: seq<Byte>)
    ensures LiteralFrom(Chunks([3] + ([3] + ([3] + rest)), 1), [3], 0, 0) == LiteralFrom(Chunks(rest, 1), [3], 0, 3)
  {
    SameAgain(3, [3] + ([3] + rest), 0, 0);
    SameAgain(3, [3] + rest, 0, 1);
    SameAgain(3, rest, 0, 2);
  }

  lemma LuckyWholeCount(zeros: seq<Byte>)
    requires zeros == [0] + ([0] + ([0] + Lucky(19)))
    ensures LiteralFrom(Chunks([3] + ([3] + ([3] + zeros)), 1), [3], 0, 0) == 128
  {
    ThreeThrees(zeros);
    Triple(3, 0, Lucky(19), 0, 3);
    LuckyCount(19);
  }

  lemma LuckyIsOnePacket(bs: seq<Block>)
    requires bs == Chunks(Lucky(20), 1) && |bs| == 128
    ensures Packets(bs, 1) == [Literal(bs)]
  {
    var zeros := [0] + ([0] + ([0] + Lucky(19)));
    SixBytes(Lucky(19));
    LuckyWholeCount(zeros);
    ThreeAndNoMore(zeros, bs);
    OnePacket(bs);
  }

  lemma ThreeAndNoMore(zeros: seq<Byte>, bs: seq<Block>)
    requires zeros != [] && zeros[0] == 0 && bs == Chunks([3] + ([3] + ([3] + zeros)), 1)
    ensures bs[0] == [3] && RepeatCount(bs, 1) == 3
  {
    SingleByteChunks([3] + ([3] + ([3] + zeros)));
    RunIsMaximal(bs, [3]);
    assert bs[0] == [3] && bs[1] == [3] && bs[2] == [3] && bs[3] == [0];
    LongRun(bs, 3);
  }

  /**
   Overlong does not mean wrong, which is why `RoundTrip` speaks of packets: these 128 bytes go into
   one literal packet as well, and what a decoder makes of it happens to be the same bytes.
   */
  lemma OverlongCanSurvive()
    ensures
      var data := Lucky(20);
      && |data| == 128 && OverlongTail(Packets(Chunks(data, 1), 1))
      && Decode(Compressed(data, 1), 1) == Some(data)
  {
    var data := Lucky(20);
    var bs := Chunks(data, 1);
    SingleByteChunks(data);
    LuckyIsOnePacket(bs);
    OneMisreadPacket(data);
    LuckyIsRead(20);
  }

  // ---------------------------------------------------------------- the loops themselves

  /** The blocks from byte `index` on. */
  function From(data: seq<Byte>, blk: nat, index: nat): seq<Block>
    requires blk > 0
  {
    Chunks(data[Min(index, |data|)..], blk)
  }

  lemma FromStart(data: seq<Byte>, blk: nat)
    requires blk > 0
    ensures From(data, blk, 0) == Chunks(data, blk)
  {
    assert data[0..] == data;
  }

  lemma FromStep(data: seq<Byte>, blk: nat, index: nat)
    requires blk > 0 && index < |data|
    ensures From(data, blk, index) == [Slice(data, index, index + blk)] + From(data, blk, index + blk)
  {
    var m := Min(blk, |data| - index);
    assert data[index..][..m] == Slice(data, index, index + blk);
    assert data[index..][m..] == data[Min(index + blk, |data|)..];
  }

  lemma FromSkip(data: seq<Byte>, blk: nat, index: nat, n: nat)
    requires blk > 0 && index <= |data| && n <= |From(data, blk, index)|
    ensures n * blk >= 0
    ensures From(data, blk, index)[n..] == From(data, blk, index + n * blk)
    ensures Flatten(From(data, blk, index)[..n]) == Slice(data, index, index + n * blk)
  {
    MulNonNegative(n, blk);
    var rest := data[index..];
    SkipBlocks(rest, blk, n);
    TakeBlocks(rest, blk, n);
    assert rest[Offset(rest, blk, n)..] == data[Min(index + n * blk, |data|)..];
    assert rest[..Offset(rest, blk, n)] == Slice(data, index, index + n * blk);
  }

  method GetRepeatCount(data: seq<Byte>, blk: nat) returns (count: nat)
    requires blk > 0
    ensures count == RepeatCount(Chunks(data, blk), blk)
  {
    FromStart(data, blk);
    ghost var all := Chunks(data, blk);
    if |data| < blk {
      return 0;
    }
    var start := Slice(data, 0, blk);
    assert all[0] == start;
    var index := 0;
    count := 0;
    ghost var rest := all;
    while index < |data|
      invariant count < MAX_COUNT
      invariant rest == From(data, blk, index)
      invariant count + RunLength(rest, start) == RunLength(all, start)
    {
      var value := Slice(data, index, index + blk);
      FromStep(data, blk, index);
      if value == start {
        count := count + 1;
        if count == MAX_COUNT {
          break;
        }
      } else {
        break;
      }
      index := index + blk;
      rest := rest[1..];
    }
  }

  method GetNonrepeatCount(data: seq<Byte>, blk: nat) returns (count: nat)
    requires blk > 0
    ensures count == if |data| < blk then 0 else LiteralCount(Chunks(data, blk))
  {
    if |data| < blk {
      return 0;
    }
    FromStart(data, blk);
    ghost var all := Chunks(data, blk);
    var previous := Slice(data, 0, blk);
    var index := 0;
    count := 0;
    var repeats := 0;
    ghost var rest := all;
    while true
      invariant index < |data|
      invariant rest == From(data, blk, index)
      invariant LiteralFrom(rest, previous, count, repeats) == LiteralCount(all)
      decreases |data| - index
    {
      var value := Slice(data, index, index + blk);
      FromStep(data, blk, index);
      if value == previous {
        repeats := repeats + 1;
        if repeats > THRESHOLD {
          break;
        }
      } else {
        previous := value;
        count := count + 1 + repeats;
        repeats := 0;
        if count >= MAX_COUNT {
          count := MAX_COUNT;
          break;
        }
      }
      index := index + blk;
      rest := rest[1..];
      if index >= |data| {
        count := count + repeats;
        break;
      }
    }
  }

  /** What is still to be written from byte `index` on. */
  function CompressedFrom(data: seq<Byte>, blk: nat, index: nat): seq<Byte>
    requires blk > 0
  {
    Coded(From(data, blk, index), blk)
  }

  /** The packet comes next in what is to be written, and stands for the next `size` bytes of the data. */
  predicate ComesNext(data: seq<Byte>, blk: nat, index: nat, packet: seq<Byte>, size: int)
    requires blk > 0
  {
    size > 0 && CompressedFrom(data, blk, index) == packet + CompressedFrom(data, blk, index + size)
  }

  /** The packet that starts at byte `index` and how many bytes of data it covers; 0 to stop. */
  method NextPacket(data: seq<Byte>, blk: nat, index: nat) returns (packet: seq<Byte>, size: nat)
    requires blk > 0 && index < |data|
    ensures size == 0 ==> CompressedFrom(data, blk, index) == []
    ensures size > 0 ==> ComesNext(data, blk, index, packet, size)
  {
    var repeats := GetRepeatCount(data[index..], blk);
    if repeats == 0 {
      NothingLeft(data, blk, index);
      packet, size := [], 0;
    } else if repeats < THRESHOLD {
      var n := GetNonrepeatCount(data[index..], blk);
      LiteralPacket(data, blk, index, n);
      packet, size := [LiteralControl(n)] + Slice(data, index, index + n * blk), n * blk;
    } else {
      RepeatPacket(data, blk, index, repeats);
      packet, size := [repeats] + Slice(data, index, index + blk), repeats * blk;
    }
  }

  method RleCompress(data: seq<Byte>, blk: nat) returns (compressed: seq<Byte>)
    requires blk > 0
    ensures compressed == Compressed(data, blk)
  {
    var index := 0;
    compressed := [];
    FromStart(data, blk);
    ghost var all := CompressedFrom(data, blk, 0);
    while index < |data|
      invariant compressed + CompressedFrom(data, blk, index) == all
      decreases |data| - index
    {
      var packet, size := NextPacket(data, blk, index);
      if size == 0 {
        return;
      }
      AppendPacket(compressed, packet, CompressedFrom(data, blk, index + size));
      compressed := compressed + packet;
      index := index + size;
    }
    NothingLeft(data, blk, index);
  }

  lemma AppendPacket(a: seq<Byte>, b: seq<Byte>, c: seq<Byte>)
    ensures a + (b + c) == (a + b) + c
  {
  }

  lemma NothingLeft(data: seq<Byte>, blk: nat, index: nat)
    requires blk > 0 && (index >= |data| || RepeatCount(From(data, blk, index), blk) == 0)
    ensures CompressedFrom(data, blk, index) == []
  {
  }

  lemma LiteralPacket(data: seq<Byte>, blk: nat, index: nat, n: nat)
    requires blk > 0 && index < |data|
    requires 0 < RepeatCount(From(data, blk, index), blk) < THRESHOLD
    requires n == LiteralCount(From(data, blk, index))
    ensures n < 256
    ensures ComesNext(data, blk, index, [LiteralControl(n)] + Slice(data, index, index + n * blk), n * blk)
  {
    var bs := From(data, blk, index);
    LiteralComesFirst(bs, blk, n);
    FromSkip(data, blk, index, n);
    MulAtLeast(n, blk);
    PacketComesNext(data, blk, index, bs[n..], [LiteralControl(n)] + Slice(data, index, index + n * blk), n * blk);
  }

  lemma PacketComesNext(data: seq<Byte>, blk: nat, index: nat, rest: seq<Block>, packet: seq<Byte>, size: int)
    requires blk > 0 && size > 0 && rest == From(data, blk, index + size)
    requires Coded(From(data, blk, index), blk) == packet + Coded(rest, blk)
    ensures ComesNext(data, blk, index, packet, size)
  {
  }

  lemma LiteralComesFirst(bs: seq<Block>, blk: nat, n: nat)
    requires bs != [] && 0 < RepeatCount(bs, blk) < THRESHOLD && n == LiteralCount(bs)
    ensures 0 < n < 256 && n <= |bs|
    ensures Coded(bs, blk) == [LiteralControl(n)] + Flatten(bs[..n]) + Coded(bs[n..], blk)
  {
    FirstLiteral(bs, blk);
    LiteralCountBounds(bs);
    FirstPacket(bs, blk, Literal(bs[..n]), bs[n..]);
  }

  lemma RepeatPacket(data: seq<Byte>, blk: nat, index: nat, n: nat)
    requires blk > 0 && index < |data|
    requires n == RepeatCount(From(data, blk, index), blk) && n >= THRESHOLD
    ensures n < 256 && ComesNext(data, blk, index, [n] + Slice(data, index, index + blk), n * blk)
  {
    var bs := From(data, blk, index);
    FromStep(data, blk, index);
    RepeatComesFirst(bs, blk, n);
    FromSkip(data, blk, index, n);
    MulAtLeast(n, blk);
    PacketComesNext(data, blk, index, bs[n..], [n] + Slice(data, index, index + blk), n * blk);
  }

  lemma RepeatComesFirst(bs: seq<Block>, blk: nat, n: nat)
    requires bs != [] && THRESHOLD <= n == RepeatCount(bs, blk)
    ensures 0 < n < 256 && n <= |bs| && Coded(bs, blk) == [n] + bs[0] + Coded(bs[n..], blk)
  {
    FirstPacket(bs, blk, Repeat(n, bs[0]), bs[n..]);
  }

  lemma FirstPacket(bs: seq<Block>, blk: nat, p: Packet, rest: seq<Block>)
    requires Packets(bs, blk) == [p] + Packets(rest, blk) && Emittable(p)
    ensures Coded(bs, blk) == Emit(p) + Coded(rest, blk)
  {
    PacketsAreWellShaped(bs, blk);
    PacketsAreWellShaped(rest, blk);
    assert Packets(bs, blk)[1..] == Packets(rest, blk);
  }
}
