/** One side of the exchange as it runs: sequential reads and writes, the payload
    read in whatever pieces the connection delivers. */
module Protocol {
  import opened Bytes
  import opened Framing

  function Flatten(chunks: seq<seq<byte>>): seq<byte> {
    if chunks == [] then [] else chunks[0] + Flatten(chunks[1..])
  }

  /** The chunks hold n more bytes before the connection has nothing to deliver. */
  predicate Delivers(chunks: seq<seq<byte>>, n: int) {
    n <= 0 || (chunks != [] && chunks[0] != [] && Delivers(chunks[1..], n - |chunks[0]|))
  }

  /** A read call takes at most n bytes of the next chunk, none when nothing is left. */
  function Taken(chunks: seq<seq<byte>>, n: nat): seq<byte> {
    if chunks == [] then [] else if |chunks[0]| <= n then chunks[0] else chunks[0][..n]
  }

  function Remaining(chunks: seq<seq<byte>>, n: nat): seq<seq<byte>> {
    if chunks == [] then [] else if |chunks[0]| <= n then chunks[1..] else [chunks[0][n..]] + chunks[1..]
  }

  lemma {:induction false} Regroup(a: seq<byte>, b: seq<byte>, c: seq<byte>)
    ensures a + (b + c) == a + b + c
  {
  }

  lemma {:induction false} DeliversNothing(chunks: seq<seq<byte>>)
    ensures Delivers(chunks, 0) && [] + Flatten(chunks) == Flatten(chunks)
  {
  }

  /** A read call takes the front of the stream, and what the connection can still
      deliver is what it could, less what was taken. */
  lemma {:induction false} TakenThenRemaining(chunks: seq<seq<byte>>, n: nat)
    requires n > 0
    ensures Flatten(chunks) == Taken(chunks, n) + Flatten(Remaining(chunks, n)) && |Taken(chunks, n)| <= n
    ensures Taken(chunks, n) == [] ==> !Delivers(chunks, n)
    ensures Taken(chunks, n) != [] ==> (Delivers(chunks, n) <==> Delivers(Remaining(chunks, n), n - |Taken(chunks, n)|))
  {
    if chunks != [] && |chunks[0]| > n {
      CutChunk(chunks, n);
    }
  }

  lemma {:induction false} CutChunk(chunks: seq<seq<byte>>, n: nat)
    requires chunks != [] && 0 < n < |chunks[0]|
    ensures var r := [chunks[0][n..]] + chunks[1..]; Flatten(chunks) == chunks[0][..n] + Flatten(r)
    ensures Delivers(chunks, n)
  {
    var r := [chunks[0][n..]] + chunks[1..];
    assert r[0] == chunks[0][n..] && r[1..] == chunks[1..];
    assert chunks[0] == chunks[0][..n] + chunks[0][n..];
    Regroup(chunks[0][..n], chunks[0][n..], Flatten(chunks[1..]));
    assert Delivers(chunks[1..], n - |chunks[0]|);
  }

  /** Non-empty pieces deliver as many bytes as they hold. */
  lemma {:induction false} PiecesDeliver(chunks: seq<seq<byte>>, n: int)
    requires (forall i :: 0 <= i < |chunks| ==> chunks[i] != []) && n <= |Flatten(chunks)|
    ensures Delivers(chunks, n)
    decreases |chunks|
  {
    if n > 0 {
      PiecesDeliver(chunks[1..], n - |chunks[0]|);
    }
  }

  /** What the sender writes for a message satisfies the receiver, however the
      payload is cut into pieces. */
  lemma {:induction false} AnySplitArrives(m: seq<byte>, chunks: seq<seq<byte>>)
    requires 0 < |m| && Fits(|m|, 4) && Flatten(chunks) == m && forall i :: 0 <= i < |chunks| ==> chunks[i] != []
    ensures var incoming := [LittleEndian(|m|, 4)] + chunks;
      && Remaining(incoming, 4) == chunks && Signed(Taken(incoming, 4)) == |m| && Delivers(chunks, |m|)
  {
    SignedOfLittleEndian(|m|, 4);
    PiecesDeliver(chunks, |m|);
  }

  /** What a write call takes of n bytes, if its connection takes at most takes[0]. */
  function Room(takes: seq<nat>, n: nat): (k: nat)
    ensures k <= n
  {
    if takes == [] || n <= takes[0] then n else takes[0]
  }

  function Later(takes: seq<nat>): seq<nat> {
    if takes == [] then [] else takes[1..]
  }

  class Endpoint {
    var incoming: seq<seq<byte>>
    var outgoing: seq<byte>
    /** How much the next write calls take at most; those behind take everything. */
    var takes: seq<nat>

    constructor (chunks: seq<seq<byte>>, takes: seq<nat>)
      ensures incoming == chunks && outgoing == [] && this.takes == takes
    {
      incoming, outgoing, this.takes := chunks, [], takes;
    }

    method Read(n: nat) returns (bs: seq<byte>)
      modifies this`incoming
      ensures bs == Taken(old(incoming), n) && incoming == Remaining(old(incoming), n)
    {
      bs, incoming := Taken(incoming, n), Remaining(incoming, n);
    }

    method Write(bs: seq<byte>) returns (n: nat)
      modifies this`outgoing, this`takes
      ensures n == Room(old(takes), |bs|) && outgoing == old(outgoing) + bs[..n] && takes == Later(old(takes))
    {
      n := Room(takes, |bs|);
      outgoing, takes := outgoing + bs[..n], Later(takes);
    }

    method WriteConfirmation() returns (ok: bool)
      modifies this`outgoing, this`takes
      ensures ok <==> Room(old(takes), 1) == 1
      ensures outgoing == old(outgoing) + (if ok then [0x55] else []) && takes == Later(old(takes))
    {
      var n := Write([CONFIRMATION]);
      ok := n == 1;
    }

    method ReadConfirmation() returns (ok: bool)
      modifies this`incoming
      ensures ok <==> Taken(old(incoming), 1) == [0x55]
      ensures incoming == Remaining(old(incoming), 1)
    {
      var b := Read(1);
      ok := |b| == 1 && b[0] == CONFIRMATION;
    }

    method ReadCount() returns (ok: bool, count: int)
      modifies this`incoming
      ensures incoming == Remaining(old(incoming), 4)
      ensures ok <==> |Taken(old(incoming), 4)| == 4
      ensures ok ==> count == Signed(Taken(old(incoming), 4))
    {
      var b := Read(4);
      ok, count := |b| == 4, Signed(b);
    }

    method WriteCount(count: nat) returns (ok: bool)
      modifies this`outgoing, this`takes
      ensures ok <==> Room(old(takes), 4) == 4
      ensures outgoing == old(outgoing) + LittleEndian(count, 4)[..Room(old(takes), 4)] && takes == Later(old(takes))
    {
      var n := Write(LittleEndian(count, 4));
      ok := n == 4;
    }

    /** The loop over the pieces of the payload. */
    method ReadPayload(count: nat) returns (got: seq<byte>)
      modifies this`incoming
      ensures |got| <= count && Flatten(old(incoming)) == got + Flatten(incoming)
      ensures |got| == count <==> Delivers(old(incoming), count)
    {
      hide Flatten, Delivers, Taken, Remaining;
      got := [];
      DeliversNothing(incoming);
      while |got| < count
        invariant |got| <= count && Flatten(old(incoming)) == got + Flatten(incoming)
        invariant Delivers(old(incoming), count) <==> Delivers(incoming, count - |got|)
        decreases count - |got|
      {
        TakenThenRemaining(incoming, count - |got|);
        var more := Read(count - |got|);
        if more == [] { return; }
        Regroup(got, more, Flatten(incoming));
        got := got + more;
      }
      DeliversNothing(incoming);
    }

    /** The receiver. It succeeds exactly if a positive count arrives in one piece,
        the connection delivers that many bytes after it and takes both confirmations;
        then the buffer is the payload, however it was cut up. */
    method ReadBuffer() returns (ok: bool, buffer: seq<byte>)
      modifies this
      ensures var head := Taken(old(incoming), 4); var rest := Remaining(old(incoming), 4);
        && (ok <==> |head| == 4 && Signed(head) > 0 && Delivers(rest, Signed(head))
                    && Room(old(takes), 1) == 1 && Room(Later(old(takes)), 1) == 1)
        && (ok ==> |buffer| == Signed(head) && Flatten(rest) == buffer + Flatten(incoming)
                   && outgoing == old(outgoing) + [0x55] + [0x55])
        && (!ok ==> buffer == [] && outgoing <= old(outgoing) + [0x55])
    {
      hide Flatten, Delivers, Taken, Remaining, Room, Later, Signed;
      buffer := [];
      var count;
      ok, count := ReadCount();
      if !ok { return; }
      if count <= 0 { return false, []; }
      ok := WriteConfirmation();
      if !ok { return; }
      var got := ReadPayload(count);
      if |got| != count { return false, []; }
      ok := WriteConfirmation();
      if !ok { return; }
      buffer := got;
    }

    /** The sender. It succeeds exactly if the connection takes the count and the
        payload and both confirmations arrive. */
    method WriteBuffer(buffer: seq<byte>) returns (ok: bool)
      modifies this
      ensures var first := Room(old(takes), 4) == 4 && Taken(old(incoming), 1) == [0x55];
        var n := Room(Later(old(takes)), |buffer|);
        && (ok <==> first && n == |buffer| && Taken(Remaining(old(incoming), 1), 1) == [0x55])
        && outgoing == old(outgoing) + LittleEndian(|buffer|, 4)[..Room(old(takes), 4)] + if first then buffer[..n] else []
    {
      ok := WriteCount(|buffer|);
      if !ok { return; }
      ok := ReadConfirmation();
      if !ok { return; }
      var n := Write(buffer);
      if n != |buffer| { return false; }
      ok := ReadConfirmation();
    }
  }
}
