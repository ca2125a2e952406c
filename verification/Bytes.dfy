/** Little-endian two's complement integers of a given width. */
module Bytes {
  type byte = x: int | 0 <= x < 256

  /** Largest magnitude plus one of a signed integer of w bytes. */
  function Half(w: nat): (h: nat)
    ensures h > 0
  {
    if w <= 1 then 128 else 256 * Half(w - 1)
  }

  predicate Fits(v: int, w: nat) {
    if w == 0 then v == 0 else 0 <= v + Half(w) && v < Half(w)
  }

  function LittleEndian(v: int, w: nat): (bs: seq<byte>)
    ensures |bs| == w
    decreases w
  {
    if w == 0 then [] else [v % 256] + LittleEndian(v / 256, w - 1)
  }

  function Signed(bs: seq<byte>): int {
    if bs == [] then 0
    else if |bs| == 1 then (if bs[0] < 128 then bs[0] else bs[0] - 256)
    else bs[0] + 256 * Signed(bs[1..])
  }

  lemma {:induction false} SignedFits(bs: seq<byte>)
    ensures Fits(Signed(bs), |bs|)
  {
    if |bs| > 1 {
      SignedFits(bs[1..]);
    }
  }

  lemma {:induction false} SignedOfLittleEndian(v: int, w: nat)
    requires Fits(v, w)
    ensures Signed(LittleEndian(v, w)) == v
    decreases w
  {
    if w == 1 {
      assert LittleEndian(v, 1) == [v % 256];
    } else if w > 1 {
      assert Fits(v / 256, w - 1);
      SignedOfLittleEndian(v / 256, w - 1);
      assert LittleEndian(v, w)[1..] == LittleEndian(v / 256, w - 1);
    }
  }

  lemma {:induction false} LittleEndianOfSigned(bs: seq<byte>)
    ensures LittleEndian(Signed(bs), |bs|) == bs
  {
    if |bs| == 1 {
      assert LittleEndian(Signed(bs), 1) == [Signed(bs) % 256];
    } else if |bs| > 1 {
      LittleEndianOfSigned(bs[1..]);
      var v := Signed(bs);
      assert v % 256 == bs[0] && v / 256 == Signed(bs[1..]);
    }
  }

  /** Four bytes, the least significant first. */
  lemma {:induction false} WordBytes(v: int)
    ensures LittleEndian(v, 4) == [v % 256, (v / 256) % 256, (v / 65536) % 256, (v / 16777216) % 256]
  {
    var a, b, c := v / 256, v / 65536, v / 16777216;
    assert a / 256 == b && b / 256 == c;
    assert LittleEndian(c, 1) == [c % 256];
    assert LittleEndian(b, 2) == [b % 256] + LittleEndian(c, 1);
    assert LittleEndian(a, 3) == [a % 256] + LittleEndian(b, 2);
    assert LittleEndian(v, 4) == [v % 256] + LittleEndian(a, 3);
  }
}
