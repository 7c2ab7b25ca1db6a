/**
 The reader stack under a filesystem: a window onto a volume that skips redundant seeks, over a volume whose head the
 medium never carried.
 */
module Readers {
  import opened Machine
  import opened Media

  datatype SeekFrom = FromStart(offset: nat) | FromCurrent(delta: int) | FromEnd(delta: int)

  datatype ReadError = AbsentHead(gap: nat, offset: nat, length: nat) | Io(error: IoError) | Overflow

  datatype ReadResult = Bytes(bytes: seq<byte>) | Fail(reason: ReadError)

  // ------------------------------------------------------------------
  // A volume whose first `gap` bytes are absent
  // ------------------------------------------------------------------

  datatype Volume = Volume(gap: nat, carried: seq<byte>)
  {
    function Len(): nat {
      SatAdd(gap, |carried|)
    }
  }

  /** What a read of `room` bytes at volume offset `at` yields. */
  function GapRead(v: Volume, at: nat, room: nat, outcome: Outcome): ReadResult {
    if room == 0 || at >= v.Len() then Bytes([])
    else
      var want := Min(v.Len() - at, room);
      if at < v.gap then Fail(AbsentHead(v.gap, at, want))
      else match outcome
        case Error(e) => Fail(Io(e))
        case AtMost(n) => Bytes(Served(v.carried, at - v.gap, want, n))
  }

  /** Bytes come only from the carried part, at the offset the gap puts them. */
  lemma GapReadIsExact(v: Volume, at: nat, room: nat, n: nat)
    requires v.gap + |v.carried| <= U64_MAX
    ensures room > 0 && at < v.gap && at < v.Len() ==> GapRead(v, at, room, AtMost(n)).Fail?
    ensures v.gap <= at ==>
              var r := GapRead(v, at, room, AtMost(n));
              && r.Bytes?
              && |r.bytes| <= room
              && (|r.bytes| == 0 <==> room == 0 || at >= v.Len())
              && at - v.gap + |r.bytes| <= Max(|v.carried|, at - v.gap)
              && (r.bytes != [] ==> r.bytes == v.carried[at - v.gap..at - v.gap + |r.bytes|])
  {
  }

  class LeadingGapReader {
    const inner: Medium
    const gap: nat
    var position: nat

    constructor (inner: Medium, gap: nat)
      ensures this.inner == inner && this.gap == gap && position == 0
    {
      this.inner := inner;
      this.gap := gap;
      position := 0;
    }

    ghost function View(): Volume {
      Volume(gap, inner.contents)
    }

    method Seek(pos: SeekFrom) returns (r: Result<nat, ()>)
      modifies this
      ensures
        var target := match pos
                      case FromStart(offset) => offset
                      case FromCurrent(delta) => old(position) + delta
                      case FromEnd(delta) => View().Len() + delta;
        if pos.FromStart? || 0 <= target <= U64_MAX then r == Ok(target) && position == target
        else r == Err(()) && position == old(position)
    {
      var target := match pos
                    case FromStart(offset) => offset
                    case FromCurrent(delta) => position + delta
                    case FromEnd(delta) => SatAdd(gap, |inner.contents|) + delta;
      if !pos.FromStart? && !(0 <= target <= U64_MAX) {
        return Err(());
      }
      position := target;
      r := Ok(target);
    }

    /** Read into `buffer[..to]`. */
    method Read(buffer: array<byte>, to: nat) returns (r: Result<nat, ReadError>)
      requires to <= buffer.Length && inner as object != this && buffer as object != this
      modifies this, inner, buffer
      ensures match GapRead(View(), old(position), to, old(inner.Next()))
              case Fail(e) => r == Err(e) && position == old(position) && buffer[..] == old(buffer[..])
              case Bytes(b) =>
                && r == Ok(|b|) && position == old(position) + |b|
                && buffer[..] == b + old(buffer[..])[|b|..]
    {
      var total := SatAdd(gap, |inner.contents|);
      if to == 0 || position >= total {
        return Ok(0);
      }
      var want := Min(total - position, to);
      if position < gap {
        return Err(AbsentHead(gap, position, want));
      }
      var read := ReadCarried(buffer, want);
      match read
      case Err(e) => r := Err(Io(e));
      case Ok(n) =>
        position := position + n;
        r := Ok(n);
    }

    /** Read up to `want` carried bytes from where the volume position falls in the medium. */
    method ReadCarried(buffer: array<byte>, want: nat) returns (r: Result<nat, IoError>)
      requires want <= buffer.Length && position >= gap && inner as object != this && buffer as object != this
      modifies inner, buffer
      ensures match old(inner.Next())
              case Error(e) => r == Err(e) && buffer[..] == old(buffer[..])
              case AtMost(n) =>
                var served := Served(inner.contents, position - gap, want, n);
                r == Ok(|served|) && buffer[..] == served + old(buffer[..])[|served|..]
    {
      inner.Seek(position - gap);
      ghost var before := buffer[..];
      r := inner.Read(buffer, 0, want);
      if r.Ok? {
        SplicedAtFront(before, buffer[..][..r.value], buffer[..]);
      }
    }
  }

  // ------------------------------------------------------------------
  // A window that remembers where the reader underneath was left
  // ------------------------------------------------------------------

  datatype Window = Window(volume: Volume, base: nat, size: nat, position: nat, cached: Option<nat>, innerAt: nat)
  {
    /** The remembered position, when there is one, is where the reader underneath really is. */
    predicate Coherent() {
      cached.Some? ==> cached.value == innerAt
    }
  }

  function ReadStep(w: Window, room: nat, outcome: Outcome): (Window, ReadResult) {
    var most := Min(SatSub(w.size, w.position), room);
    var target := w.base + w.position;
    if most == 0 then (w, Bytes([]))
    else if target > U64_MAX then (w, Fail(Overflow))
    else
      var at := if w.cached == Some(target) then w.innerAt else target;
      match GapRead(w.volume, at, most, outcome)
      case Fail(e) => (w.(innerAt := at), Fail(e))
      case Bytes(b) =>
        var moved := w.(position := w.position + |b|, innerAt := at + |b|);
        if target + |b| > U64_MAX then (moved, Fail(Overflow))
        else (moved.(cached := Some(target + |b|)), Bytes(b))
  }

  /** Window offsets are handled as `i64`. */
  function SeekTarget(size: nat, position: nat, pos: SeekFrom): Option<nat> {
    var target := match pos
                  case FromStart(offset) => if offset <= I64_MAX then Some(offset as int) else None
                  case FromEnd(delta) => if size <= I64_MAX then Some(size + delta) else None
                  case FromCurrent(delta) => if position <= I64_MAX then Some(position + delta) else None;
    if target.Some? && 0 <= target.value <= I64_MAX then Some(target.value) else None
  }

  function SeekStep(w: Window, pos: SeekFrom): (Window, Option<nat>) {
    var target := SeekTarget(w.size, w.position, pos);
    (if target.Some? then w.(position := target.value) else w, target)
  }

  class PartitionReader {
    const inner: LeadingGapReader
    const base: nat
    const size: nat
    var position: nat
    var cached: Option<nat>

    constructor (inner: LeadingGapReader, base: nat, size: nat)
      ensures this.inner == inner && this.base == base && this.size == size
      ensures Model() == Window(inner.View(), base, size, 0, None, inner.position)
    {
      this.inner := inner;
      this.base := base;
      this.size := size;
      position := 0;
      cached := None;
    }

    ghost function Model(): Window
      reads this, inner
    {
      Window(inner.View(), base, size, position, cached, inner.position)
    }

    method Seek(pos: SeekFrom) returns (r: Option<nat>)
      modifies this
      ensures (Model(), r) == SeekStep(old(Model()), pos)
    {
      r := SeekTarget(size, position, pos);
      if r.Some? {
        position := r.value;
      }
    }

    /** Bring the reader underneath to `target`, unless it is remembered to be there, and read from it. */
    method Fetch(buffer: array<byte>, most: nat, target: nat) returns (r: Result<nat, ReadError>)
      requires most <= buffer.Length && inner.inner as object != inner && buffer as object != inner
      requires inner as object != this && inner.inner as object != this && buffer as object != this
      modifies inner, inner.inner, buffer
      ensures
        var at := if cached == Some(target) then old(inner.position) else target;
        match GapRead(inner.View(), at, most, old(inner.inner.Next()))
        case Fail(e) => r == Err(e) && inner.position == at && buffer[..] == old(buffer[..])
        case Bytes(b) =>
          r == Ok(|b|) && inner.position == at + |b| && buffer[..] == b + old(buffer[..])[|b|..]
    {
      if cached != Some(target) {
        var _ := inner.Seek(FromStart(target));
      }
      r := inner.Read(buffer, most);
    }

    method Read(buffer: array<byte>) returns (r: Result<nat, ReadError>)
      requires inner as object != this && inner.inner as object != this && inner.inner as object != inner
      requires buffer as object != this && buffer as object != inner
      modifies this, inner, inner.inner, buffer
      ensures Model() == ReadStep(old(Model()), buffer.Length, old(inner.inner.Next())).0
      ensures match ReadStep(old(Model()), buffer.Length, old(inner.inner.Next())).1
              case Fail(e) => r == Err(e)
              case Bytes(b) => r == Ok(|b|) && buffer[..] == b + old(buffer[..])[|b|..]
    {
      var most := Min(SatSub(size, position), buffer.Length);
      if most == 0 {
        return Ok(0);
      }
      var target := base + position;
      if target > U64_MAX {
        return Err(Overflow);
      }
      r := Fetch(buffer, most, target);
      if r.Ok? {
        position := position + r.value;
        if target + r.value > U64_MAX {
          return Err(Overflow);
        }
        cached := Some(target + r.value);
      }
    }
  }

  // ------------------------------------------------------------------
  // Skipping seeks is invisible
  // ------------------------------------------------------------------

  datatype Op = ReadOp(room: nat, outcome: Outcome) | SeekOp(pos: SeekFrom)

  datatype Seen = Read(result: ReadResult) | Sought(at: Option<nat>)

  function Step(w: Window, op: Op): (Window, Seen) {
    match op
    case ReadOp(room, outcome) => var (after, result) := ReadStep(w, room, outcome); (after, Read(result))
    case SeekOp(pos) => var (after, at) := SeekStep(w, pos); (after, Sought(at))
  }

  function Trace(w: Window, ops: seq<Op>): seq<Seen>
    decreases |ops|
  {
    if ops == [] then [] else [Step(w, ops[0]).1] + Trace(Step(w, ops[0]).0, ops[1..])
  }

  /** The plain cursor over `volume[base .. base + size)`: every read starts with a seek. */
  function PlainRead(volume: Volume, base: nat, size: nat, position: nat, room: nat, outcome: Outcome): ReadResult {
    var most := Min(SatSub(size, position), room);
    if most == 0 then Bytes([])
    else if base + position > U64_MAX then Fail(Overflow)
    else GapRead(volume, base + position, most, outcome)
  }

  function PlainStep(w: Window, position: nat, op: Op): (nat, Seen) {
    match op
    case ReadOp(room, outcome) =>
      var result := PlainRead(w.volume, w.base, w.size, position, room, outcome);
      (position + if result.Bytes? then |result.bytes| else 0, Read(result))
    case SeekOp(pos) =>
      var target := SeekTarget(w.size, position, pos);
      (if target.Some? then target.value else position, Sought(target))
  }

  function PlainTrace(w: Window, position: nat, ops: seq<Op>): seq<Seen>
    decreases |ops|
  {
    if ops == [] then []
    else [PlainStep(w, position, ops[0]).1] + PlainTrace(w, PlainStep(w, position, ops[0]).0, ops[1..])
  }

  /**
   The one operation that spoils the remembered position: a read the reader underneath refuses, at a place other than
   the remembered one. The seek has happened by then, and the memory of the old place is kept.
   */
  predicate Spoils(w: Window, op: Op) {
    && op.ReadOp?
    && PlainRead(w.volume, w.base, w.size, w.position, op.room, op.outcome).Fail?
    && Min(SatSub(w.size, w.position), op.room) > 0
    && w.base + w.position <= U64_MAX
    && w.cached.Some? && w.cached.value != w.base + w.position
  }

  /** From a coherent state, one operation answers like the plain cursor, and stays coherent iff it does not spoil. */
  lemma StepIsPlain(w: Window, op: Op)
    requires w.Coherent()
    ensures Step(w, op).1 == PlainStep(w, w.position, op).1
    ensures Step(w, op).0.position == PlainStep(w, w.position, op).0
    ensures Step(w, op).0.volume == w.volume && Step(w, op).0.base == w.base && Step(w, op).0.size == w.size
    ensures Step(w, op).0.Coherent() <==> !Spoils(w, op)
  {
  }

  /** No operation of the run spoils the remembered position. */
  predicate Unspoiled(w: Window, ops: seq<Op>)
    decreases |ops|
  {
    ops == [] || (!Spoils(w, ops[0]) && Unspoiled(Step(w, ops[0]).0, ops[1..]))
  }

  lemma {:induction false} PlainTraceIgnoresCache(w: Window, v: Window, position: nat, ops: seq<Op>)
    requires w.volume == v.volume && w.base == v.base && w.size == v.size
    ensures PlainTrace(w, position, ops) == PlainTrace(v, position, ops)
    decreases |ops|
  {
    if ops != [] {
      PlainTraceIgnoresCache(w, v, PlainStep(w, position, ops[0]).0, ops[1..]);
    }
  }

  /** Over any interleaving of reads and seeks in which nothing spoils, every answer is the plain cursor's. */
  lemma {:induction false} SkippingSeeksIsInvisible(w: Window, ops: seq<Op>)
    requires w.Coherent() && Unspoiled(w, ops)
    ensures Trace(w, ops) == PlainTrace(w, w.position, ops)
    decreases |ops|
  {
    if ops != [] {
      StepIsPlain(w, ops[0]);
      var next := Step(w, ops[0]).0;
      SkippingSeeksIsInvisible(next, ops[1..]);
      PlainTraceIgnoresCache(w, next, next.position, ops[1..]);
    }
  }

  predicate AllBytes(seen: seq<Seen>) {
    forall i :: 0 <= i < |seen| && seen[i].Read? ==> seen[i].result.Bytes?
  }

  /** In particular, whenever no read fails. */
  lemma {:induction false} UnspoiledWhenReadsSucceed(w: Window, ops: seq<Op>)
    requires w.Coherent() && AllBytes(PlainTrace(w, w.position, ops))
    ensures Unspoiled(w, ops)
    decreases |ops|
  {
    if ops != [] {
      StepIsPlain(w, ops[0]);
      var next := Step(w, ops[0]).0;
      assert PlainTrace(w, w.position, ops)[0] == PlainStep(w, w.position, ops[0]).1;
      assert PlainTrace(w, w.position, ops)[1..] == PlainTrace(w, next.position, ops[1..]);
      PlainTraceIgnoresCache(w, next, next.position, ops[1..]);
      UnspoiledWhenReadsSucceed(next, ops[1..]);
    }
  }

  /**
   What a spoiled memory does: going back to the remembered place, the next read answers for the place of the failed
   one, where the reader underneath was left.
   */
  lemma SpoiledReadIsServedElsewhere(w: Window, op: Op, room: nat, outcome: Outcome)
    requires w.Coherent() && w.base + w.size <= U64_MAX && Spoils(w, op)
    requires w.base <= w.cached.value < w.base + w.size && w.cached.value - w.base <= I64_MAX && room > 0
    ensures
      var back := SeekStep(Step(w, op).0, FromStart(w.cached.value - w.base)).0;
      && back.base + back.position == w.cached.value
      && ReadStep(back, room, outcome).1
         == GapRead(w.volume, w.base + w.position, Min(w.size - back.position, room), outcome)
  {
    SpoiledWindow(w, op);
    var spoiled := w.(innerAt := w.base + w.position);
    var back := spoiled.(position := w.cached.value - w.base);
    assert SeekStep(spoiled, FromStart(w.cached.value - w.base)).0 == back;
    MisplacedRead(back, room, outcome);
  }

  /** A spoiling read only moves the reader underneath. */
  lemma SpoiledWindow(w: Window, op: Op)
    requires w.Coherent() && Spoils(w, op)
    ensures Step(w, op).0 == w.(innerAt := w.base + w.position)
  {
  }

  /** A read at the remembered place is served from wherever the reader underneath is. */
  lemma MisplacedRead(w: Window, room: nat, outcome: Outcome)
    requires w.cached == Some(w.base + w.position) && w.position < w.size && w.base + w.size <= U64_MAX && room > 0
    ensures ReadStep(w, room, outcome).1 == GapRead(w.volume, w.innerAt, Min(w.size - w.position, room), outcome)
  {
  }

  function After(w: Window, ops: seq<Op>): Window
    decreases |ops|
  {
    if ops == [] then w else After(Step(w, ops[0]).0, ops[1..])
  }

  function PlainAfter(w: Window, position: nat, ops: seq<Op>): nat
    decreases |ops|
  {
    if ops == [] then position else PlainAfter(w, PlainStep(w, position, ops[0]).0, ops[1..])
  }

  /** A volume with a four-byte absent head, before and after its first carried byte has been read. */
  const HEADLESS := Window(Volume(4, [10, 11]), 0, 6, 0, None, 0)
  const BYTE_READ := Window(Volume(4, [10, 11]), 0, 6, 5, Some(5), 5)

  const READ_FIRST := [SeekOp(FromStart(4)), ReadOp(1, AtMost(1))]
  const TRY_HEAD_AND_RETURN := [SeekOp(FromStart(0)), ReadOp(1, AtMost(1)), SeekOp(FromStart(5))]

  lemma AfterTwo(w: Window, a: Op, b: Op, later: seq<Op>)
    ensures After(w, [a, b] + later) == After(Step(Step(w, a).0, b).0, later)
  {
    assert ([a, b] + later)[1..] == [b] + later && ([b] + later)[1..] == later;
    assert After(Step(w, a).0, [b] + later) == After(Step(Step(w, a).0, b).0, later);
  }

  lemma PlainAfterTwo(w: Window, position: nat, a: Op, b: Op, later: seq<Op>)
    ensures PlainAfter(w, position, [a, b] + later)
         == PlainAfter(w, PlainStep(w, PlainStep(w, position, a).0, b).0, later)
  {
    assert ([a, b] + later)[1..] == [b] + later && ([b] + later)[1..] == later;
    var once := PlainStep(w, position, a).0;
    assert PlainAfter(w, once, [b] + later) == PlainAfter(w, PlainStep(w, once, b).0, later);
  }

  lemma FirstCarriedByte()
    ensures
      var seek, read := SeekOp(FromStart(4)), ReadOp(1, AtMost(1));
      && Step(Step(HEADLESS, seek).0, read).0 == BYTE_READ
      && PlainStep(HEADLESS, PlainStep(HEADLESS, 0, seek).0, read).0 == 5
  {
    assert Served([10, 11], 0, 1, 1) == [10];
  }

  lemma HeadIsTried(w: Window, ops: seq<Op>)
    requires w == HEADLESS && ops == READ_FIRST + TRY_HEAD_AND_RETURN
    ensures After(w, ops) == BYTE_READ.(innerAt := 0) && PlainAfter(w, 0, ops) == 5
  {
    FirstCarriedByte();
    AfterTwo(w, READ_FIRST[0], READ_FIRST[1], TRY_HEAD_AND_RETURN);
    PlainAfterTwo(w, 0, READ_FIRST[0], READ_FIRST[1], TRY_HEAD_AND_RETURN);
    PlainReturns();
    WindowReturns();
  }

  lemma SecondByteDiffers(next: Op)
    requires next == ReadOp(1, AtMost(1))
    ensures PlainStep(HEADLESS, 5, next).1 == Read(Bytes([11]))
    ensures Step(BYTE_READ.(innerAt := 0), next).1 == Read(Fail(AbsentHead(4, 0, 1)))
  {
    assert Served([10, 11], 1, 1, 1) == [11];
  }

  /**
   A volume opened without its head, its first carried byte read: after one refused read of the head, the carried byte
   that was next in line is refused too.
   */
  lemma RefusedHeadPoisonsTheNextRead(w: Window, ops: seq<Op>, next: Op)
    requires w == HEADLESS && ops == READ_FIRST + TRY_HEAD_AND_RETURN && next == ReadOp(1, AtMost(1))
    ensures PlainStep(w, PlainAfter(w, 0, ops), next).1 == Read(Bytes([11]))
    ensures Step(After(w, ops), next).1 == Read(Fail(AbsentHead(4, 0, 1)))
  {
    HeadIsTried(w, ops);
    SecondByteDiffers(next);
  }

  lemma AfterThree(w: Window, a: Op, b: Op, c: Op)
    ensures After(w, [a, b, c]) == Step(Step(Step(w, a).0, b).0, c).0
  {
    assert [a, b, c][1..] == [b, c] && [b, c][1..] == [c] && [c][1..] == [];
    assert After(Step(w, a).0, [b, c]) == After(Step(Step(w, a).0, b).0, [c]);
  }

  lemma PlainAfterThree(w: Window, position: nat, a: Op, b: Op, c: Op)
    ensures PlainAfter(w, position, [a, b, c]) == PlainStep(w, PlainStep(w, PlainStep(w, position, a).0, b).0, c).0
  {
    assert [a, b, c][1..] == [b, c] && [b, c][1..] == [c] && [c][1..] == [];
    var once := PlainStep(w, position, a).0;
    assert PlainAfter(w, once, [b, c]) == PlainAfter(w, PlainStep(w, once, b).0, [c]);
  }

  lemma PlainReturns()
    ensures PlainAfter(HEADLESS, 5, TRY_HEAD_AND_RETURN) == 5
  {
    PlainAfterThree(HEADLESS, 5, SeekOp(FromStart(0)), ReadOp(1, AtMost(1)), SeekOp(FromStart(5)));
  }

  lemma WindowReturns()
    ensures After(BYTE_READ, TRY_HEAD_AND_RETURN) == BYTE_READ.(innerAt := 0)
  {
    AfterThree(BYTE_READ, SeekOp(FromStart(0)), ReadOp(1, AtMost(1)), SeekOp(FromStart(5)));
    var sought := BYTE_READ.(position := 0);
    assert Step(BYTE_READ, SeekOp(FromStart(0))).0 == sought;
    assert Step(sought, ReadOp(1, AtMost(1))).0 == sought.(innerAt := 0);
  }
}
