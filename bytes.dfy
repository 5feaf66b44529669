/**
 * Host memory layout of 32-bit words: the engine copies `Vec<u32>` indices and
 * `repr(C)` vertices of `f32` into mapped GPU memory byte for byte, so what the
 * allocation holds is the little-endian image of those words (the engine runs
 * on a little-endian host).
 */
module Bytes {
  import opened Vk

  /** The four bytes of one word, least significant first. */
  function WordBytes(x: u32): (b: seq<byte>)
    ensures |b| == 4
  {
    [x % 256, (x / 256) % 256, (x / 65536) % 256, x / 16777216]
  }

  function WordFromBytes(b: seq<byte>): u32
    requires |b| == 4
  {
    b[0] as int + 256 * (b[1] as int) + 65536 * (b[2] as int) + 16777216 * (b[3] as int)
  }

  lemma WordRoundTrip(x: u32)
    ensures WordFromBytes(WordBytes(x)) == x
  {
    var q1: int := x / 256;
    var q2: int := q1 / 256;
    assert x / 65536 == q2;
    assert x / 16777216 == q2 / 256;
    assert x == x % 256 + 256 * (q1 % 256 + 256 * (q2 % 256 + 256 * (q2 / 256)));
  }

  lemma WordBytesOfDecode(b: seq<byte>)
    requires |b| == 4
    ensures WordBytes(WordFromBytes(b)) == b
  {
    var x := WordFromBytes(b);
    var q1: int := b[1] as int + 256 * (b[2] as int + 256 * (b[3] as int));
    var q2: int := b[2] as int + 256 * (b[3] as int);
    assert x == b[0] as int + 256 * q1;
    assert x / 256 == q1 && x % 256 == b[0] as int;
    assert q1 == b[1] as int + 256 * q2;
    assert x / 65536 == q2;
    assert x / 16777216 == b[3] as int;
  }

  /** `size_of_val(words)` bytes: the words back to back. */
  function WordsBytes(xs: seq<u32>): (b: seq<byte>)
    ensures |b| == 4 * |xs|
  {
    if xs == [] then [] else WordBytes(xs[0]) + WordsBytes(xs[1..])
  }

  function WordsFromBytes(b: seq<byte>): (xs: seq<u32>)
    requires |b| % 4 == 0
    ensures 4 * |xs| == |b|
  {
    if b == [] then [] else [WordFromBytes(b[..4])] + WordsFromBytes(b[4..])
  }

  lemma {:induction false} WordsRoundTrip(xs: seq<u32>)
    ensures WordsFromBytes(WordsBytes(xs)) == xs
  {
    if xs != [] {
      var b := WordsBytes(xs);
      assert b[..4] == WordBytes(xs[0]);
      assert b[4..] == WordsBytes(xs[1..]);
      WordRoundTrip(xs[0]);
      WordsRoundTrip(xs[1..]);
    }
  }

  /** Word i of the sequence occupies bytes 4i .. 4i+4. */
  lemma {:induction false} WordsBytesAt(xs: seq<u32>, i: nat)
    requires i < |xs|
    ensures WordsBytes(xs)[4 * i .. 4 * i + 4] == WordBytes(xs[i])
  {
    var b := WordsBytes(xs);
    if i == 0 {
      assert b[..4] == WordBytes(xs[0]);
    } else {
      WordsBytesAt(xs[1..], i - 1);
      assert b[4..] == WordsBytes(xs[1..]);
      assert b[4 * i .. 4 * i + 4] == b[4..][4 * (i - 1) .. 4 * (i - 1) + 4];
    }
  }

  lemma {:induction false} WordsBytesAppend(xs: seq<u32>, ys: seq<u32>)
    ensures WordsBytes(xs + ys) == WordsBytes(xs) + WordsBytes(ys)
  {
    if xs != [] {
      assert (xs + ys)[1..] == xs[1..] + ys;
      WordsBytesAppend(xs[1..], ys);
    } else {
      assert xs + ys == ys;
    }
  }
}
