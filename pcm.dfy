/**
 * Signed 16-bit PCM samples and their little-endian byte layout, as numpy's
 * `int16` arrays and `ndarray.tobytes()` give them on a little-endian host.
 */
module Pcm {
  import opened Base64

  type Int16 = x: int | -0x8000 <= x < 0x8000

  /** The two bytes of one sample: two's complement, low byte first. */
  function SampleBytes(x: Int16): (b: seq<Byte>)
    ensures |b| == 2
  {
    var u := x % 0x1_0000;
    [u % 256, u / 256]
  }

  /** Reads one sample back from its low and high byte. */
  function SampleOf(lo: Byte, hi: Byte): Int16
  {
    var u := lo + 256 * hi;
    if u >= 0x8000 then u - 0x1_0000 else u
  }

  /** Reading the two bytes of a sample gives the sample back. */
  lemma SampleRoundTrip(x: Int16)
    ensures SampleOf(SampleBytes(x)[0], SampleBytes(x)[1]) == x
  {
  }

  /** `chunk.tobytes()` for a one-dimensional int16 array. */
  function ToBytes(c: seq<Int16>): (b: seq<Byte>)
    ensures |b| == 2 * |c|
  {
    if c == [] then [] else SampleBytes(c[0]) + ToBytes(c[1..])
  }

  /** `numpy.frombuffer(b, dtype=int16)`: the inverse reading of a byte string of even length. */
  function FromBytes(b: seq<Byte>): (c: seq<Int16>)
    requires |b| % 2 == 0
    ensures |c| == |b| / 2
  {
    if b == [] then [] else [SampleOf(b[0], b[1])] + FromBytes(b[2..])
  }

  /** The byte image of a chunk decodes to the same chunk. */
  lemma {:induction false} BytesRoundTrip(c: seq<Int16>)
    ensures FromBytes(ToBytes(c)) == c
  {
    if c != [] {
      var b := ToBytes(c);
      assert b[2..] == ToBytes(c[1..]);
      SampleRoundTrip(c[0]);
      BytesRoundTrip(c[1..]);
      assert c == [c[0]] + c[1..];
    }
  }
}
