/** A `Read + Seek` medium whose reads may come up short, be interrupted, or fail. */
module Media {
  import opened Machine

  datatype IoError = Interrupted | Failed

  /** How one coming read behaves. */
  datatype Outcome = AtMost(n: nat) | Error(error: IoError)

  /** Bytes a read of `room` bytes at `at` yields, when it is allowed `most` of them at once. */
  function Served(contents: seq<byte>, at: nat, room: nat, most: nat): (r: seq<byte>)
    ensures |r| <= room
    ensures |r| == 0 <==> room == 0 || at >= |contents|
  {
    if at >= |contents| then []
    else contents[at..at + Min(Min(room, |contents| - at), Max(1, most))]
  }

  /** `bytes` have replaced what was at `from`, and nothing else has changed. */
  ghost predicate Spliced(before: seq<byte>, from: nat, bytes: seq<byte>, after: seq<byte>) {
    && |after| == |before| && from + |bytes| <= |before|
    && forall i :: 0 <= i < |before| ==> after[i] == if from <= i < from + |bytes| then bytes[i - from] else before[i]
  }

  lemma SplicedAtFront(before: seq<byte>, bytes: seq<byte>, after: seq<byte>)
    requires Spliced(before, 0, bytes, after)
    ensures after == bytes + before[|bytes|..]
  {
  }

  class Medium {
    const contents: seq<byte>
    var cursor: nat
    // What the coming reads do; once it is exhausted every read is served in full.
    var script: seq<Outcome>

    constructor (contents: seq<byte>, script: seq<Outcome>)
      ensures this.contents == contents && this.script == script && cursor == 0
    {
      this.contents := contents;
      this.script := script;
      cursor := 0;
    }

    /** No coming read fails; interruptions and short reads may still happen. */
    ghost predicate Reliable()
      reads this
    {
      Error(Failed) !in script
    }

    ghost function Next(): Outcome
      reads this
    {
      if script == [] then AtMost(|contents|) else script[0]
    }

    method Seek(to: nat)
      modifies this
      ensures cursor == to && script == old(script)
    {
      cursor := to;
    }

    /** Read into `buffer[from..to]`. */
    method Read(buffer: array<byte>, from: nat, to: nat) returns (r: Result<nat, IoError>)
      requires from <= to <= buffer.Length
      modifies this, buffer
      ensures script == if old(script) == [] then [] else old(script)[1..]
      ensures match old(Next())
              case Error(e) => r == Err(e) && cursor == old(cursor) && buffer[..] == old(buffer[..])
              case AtMost(n) =>
                var served := Served(contents, old(cursor), to - from, n);
                && r == Ok(|served|)
                && cursor == old(cursor) + |served|
                && Spliced(old(buffer[..]), from, served, buffer[..])
    {
      var outcome := if script == [] then AtMost(|contents|) else script[0];
      script := if script == [] then [] else script[1..];
      match outcome
      case Error(e) => r := Err(e);
      case AtMost(n) =>
        var served := Served(contents, cursor, to - from, n);
        Fill(buffer, from, served);
        cursor := cursor + |served|;
        r := Ok(|served|);
    }

    method Fill(buffer: array<byte>, from: nat, bytes: seq<byte>)
      requires from + |bytes| <= buffer.Length
      modifies buffer
      ensures Spliced(old(buffer[..]), from, bytes, buffer[..])
    {
      ghost var before := buffer[..];
      for i := 0 to |bytes|
        invariant Spliced(before, from, bytes[..i], buffer[..])
      {
        buffer[from + i] := bytes[i];
      }
    }
  }

  /** Bytes served where the last ones ended extend what has been filled. */
  lemma FillsOn(contents: seq<byte>, offset: nat, filled: nat, before: seq<byte>, most: nat, after: seq<byte>)
    requires Filled(contents, offset, before, filled) && filled < |before|
    requires Spliced(before, filled, Served(contents, offset + filled, |before| - filled, most), after)
    ensures
      var served := Served(contents, offset + filled, |before| - filled, most);
      && |after| == |before| && Filled(contents, offset, after, filled + |served|)
      && (served == [] <==> offset + filled >= |contents|)
  {
  }

  /** One read that goes on filling where the last one ended. */
  method ReadMore(medium: Medium, buffer: array<byte>, filled: nat, ghost offset: nat) returns (r: Result<nat, IoError>)
    requires filled < buffer.Length && Filled(medium.contents, offset, buffer[..], filled)
    requires medium.cursor == offset + filled
    modifies medium, buffer
    ensures medium.script == if old(medium.script) == [] then [] else old(medium.script)[1..]
    ensures match old(medium.Next())
            case Error(e) => r == Err(e) && medium.cursor == offset + filled &&
              Filled(medium.contents, offset, buffer[..], filled)
            case AtMost(_) =>
              && r.Ok? && filled + r.value <= buffer.Length && medium.cursor == offset + filled + r.value
              && Filled(medium.contents, offset, buffer[..], filled + r.value)
              && (r.value == 0 <==> offset + filled >= |medium.contents|)
  {
    ghost var before, outcome, room := buffer[..], medium.Next(), buffer.Length - filled;
    r := medium.Read(buffer, filled, buffer.Length);
    ghost var after := buffer[..];
    match outcome
    case Error(_) => assert after == before;
    case AtMost(most) =>
      assert Spliced(before, filled, Served(medium.contents, offset + filled, room, most), after);
      FillsOn(medium.contents, offset, filled, before, most, after);
  }

  /** The first `filled` bytes of a buffer are the medium's, from `offset` on. */
  ghost predicate Filled(contents: seq<byte>, offset: nat, buffer: seq<byte>, filled: nat) {
    && filled <= |buffer| && (filled > 0 ==> offset + filled <= |contents|)
    && forall i :: 0 <= i < filled ==> buffer[i] == contents[offset + i]
  }

  lemma OneReadOn(script: seq<Outcome>, made: nat)
    requires made < |script|
    ensures script[made..][0] == script[made] && script[made..][1..] == script[made + 1..]
    ensures script[..made + 1] == script[..made] + [script[made]]
  {
  }

  /** Fill `buffer` from `offset`, tolerating interruptions and a short read at the end of the medium. */
  method ReadChunk(medium: Medium, offset: nat, buffer: array<byte>) returns (r: Result<nat, IoError>)
    modifies medium, buffer
    ensures r.Ok? ==>
              && r.value == Min(buffer.Length, SatSub(|medium.contents|, offset))
              && buffer[..r.value] == medium.contents[Min(offset, |medium.contents|)..][..r.value]
    ensures old(medium.Reliable()) ==> r.Ok? && medium.Reliable()
    // It fails iff one of the reads it made did.
    ensures |medium.script| <= |old(medium.script)|
    ensures
      var made := |old(medium.script)| - |medium.script|;
      medium.script == old(medium.script)[made..] && (r.Err? <==> Error(Failed) in old(medium.script)[..made])
  {
    medium.Seek(offset);
    ghost var made: nat := 0;
    var filled := 0;
    while filled < buffer.Length
      invariant filled <= buffer.Length && medium.cursor == offset + filled
      invariant Filled(medium.contents, offset, buffer[..], filled)
      invariant old(medium.Reliable()) ==> medium.Reliable()
      invariant made <= |old(medium.script)| && medium.script == old(medium.script)[made..]
      invariant Error(Failed) !in old(medium.script)[..made]
      decreases |medium.script|, buffer.Length - filled
    {
      if made < |old(medium.script)| {
        OneReadOn(old(medium.script), made);
        made := made + 1;
      }
      var read := ReadMore(medium, buffer, filled, offset);
      match read
      case Err(Interrupted) =>
      case Err(Failed) => return Err(Failed);
      case Ok(n) =>
        if n == 0 {
          break;
        }
        filled := filled + n;
    }
    FilledIsSlice(medium.contents, offset, buffer[..], filled);
    r := Ok(filled);
  }

  lemma FilledIsSlice(contents: seq<byte>, offset: nat, buffer: seq<byte>, filled: nat)
    requires Filled(contents, offset, buffer, filled)
    ensures filled <= |contents| - Min(offset, |contents|)
    ensures buffer[..filled] == contents[Min(offset, |contents|)..][..filled]
  {
  }
}
