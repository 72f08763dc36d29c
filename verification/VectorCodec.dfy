/** How embeddings are stored: the bit patterns of their float32 components, four
    bytes each, least significant first. */
module VectorCodec {

  type Byte = b: int | 0 <= b < 256

  /** The bit pattern of a float32. */
  type Word = w: int | 0 <= w < 0x1_0000_0000

  function Bytes(w: Word): (b: seq<Byte>)
    ensures |b| == 4
  {
    [w % 256, w / 256 % 256, w / 256 / 256 % 256, w / 256 / 256 / 256]
  }

  /** The least significant byte comes first. */
  lemma LeastSignificantFirst(w: Word)
    ensures var b := Bytes(w);
            var b0: int, b1: int, b2: int, b3: int := b[0], b[1], b[2], b[3];
            w == b0 + 0x100 * b1 + 0x1_0000 * b2 + 0x100_0000 * b3
  {
    WordRoundTrip(w, Bytes(w));
  }

  function FromBytes(b: seq<Byte>): Word
    requires |b| == 4
  {
    var b0: int, b1: int, b2: int, b3: int := b[0], b[1], b[2], b[3];
    b0 + 256 * (b1 + 256 * (b2 + 256 * b3))
  }

  lemma LowByte(low: int, rest: int)
    requires 0 <= low < 256
    ensures (low + 256 * rest) % 256 == low && (low + 256 * rest) / 256 == rest
  {
  }

  lemma WordRoundTrip(w: Word, b: seq<Byte>)
    requires |b| == 4
    ensures FromBytes(Bytes(w)) == w
    ensures Bytes(FromBytes(b)) == b
  {
    var b0: int, b1: int, b2: int, b3: int := b[0], b[1], b[2], b[3];
    LowByte(b0, b1 + 256 * (b2 + 256 * b3));
    LowByte(b1, b2 + 256 * b3);
    LowByte(b2, b3);
  }

  function Packed(v: seq<Word>): (b: seq<Byte>)
    ensures |b| == 4 * |v|
  {
    if v == [] then [] else Packed(v[..|v| - 1]) + Bytes(v[|v| - 1])
  }

  /** A trailing fragment of fewer than four bytes is dropped. */
  function Unpacked(b: seq<Byte>): (v: seq<Word>)
    ensures |v| == |b| / 4
  {
    seq(|b| / 4, i requires 0 <= i < |b| / 4 => FromBytes(b[4 * i..4 * i + 4]))
  }

  lemma {:induction false} PackedAt(v: seq<Word>, i: nat)
    requires i < |v|
    ensures Packed(v)[4 * i..4 * i + 4] == Bytes(v[i])
  {
    var n := |v| - 1;
    var head := Packed(v[..n]);
    if i < n {
      PackedAt(v[..n], i);
      assert (head + Bytes(v[n]))[4 * i..4 * i + 4] == head[4 * i..4 * i + 4];
    }
  }

  /** Every vector is read back as it was stored. */
  lemma {:induction false} VectorRoundTrip(v: seq<Word>)
    ensures Unpacked(Packed(v)) == v
  {
    forall i | 0 <= i < |v| ensures Unpacked(Packed(v))[i] == v[i] {
      ComponentRoundTrip(v, i);
    }
  }

  lemma {:induction false} ComponentRoundTrip(v: seq<Word>, i: nat)
    requires i < |v|
    ensures Unpacked(Packed(v))[i] == v[i]
  {
    PackedAt(v, i);
    WordRoundTrip(v[i], Bytes(v[i]));
  }

  lemma {:induction false} PackedPrefix(b: seq<Byte>, n: nat)
    requires 4 * n <= |b|
    ensures Packed(Unpacked(b)[..n]) == b[..4 * n]
  {
    if n > 0 {
      var v := Unpacked(b);
      var last := b[4 * (n - 1)..4 * (n - 1) + 4];
      PackedPrefix(b, n - 1);
      WordRoundTrip(0, last);
      assert v[..n][..n - 1] == v[..n - 1];
      assert b[..4 * (n - 1)] + last == b[..4 * n];
    }
  }

  /** Every byte string is kept, up to its last whole component. */
  lemma BytesRoundTrip(b: seq<Byte>)
    ensures Packed(Unpacked(b)) == b[..4 * (|b| / 4)]
  {
    var n := |b| / 4;
    PackedPrefix(b, n);
    assert Unpacked(b)[..n] == Unpacked(b);
  }

  /** Fills a buffer of four bytes per component. */
  method Pack(v: seq<Word>) returns (b: array<Byte>)
    ensures fresh(b) && b[..] == Packed(v)
  {
    b := new Byte[4 * |v|](_ => 0);
    for i := 0 to |v|
      invariant b[..4 * i] == Packed(v[..i])
    {
      ghost var done := b[..4 * i];
      var w := Bytes(v[i]);
      b[4 * i], b[4 * i + 1], b[4 * i + 2], b[4 * i + 3] := w[0], w[1], w[2], w[3];
      assert b[..4 * (i + 1)] == done + w;
      assert v[..i + 1][..i] == v[..i];
    }
    assert v[..|v|] == v && b[..4 * |v|] == b[..];
  }

  method Unpack(b: seq<Byte>) returns (v: array<Word>)
    ensures fresh(v) && v[..] == Unpacked(b)
  {
    v := new Word[|b| / 4](_ => 0);
    for i := 0 to v.Length
      invariant v[..i] == Unpacked(b)[..i]
    {
      v[i] := FromBytes(b[4 * i..4 * i + 4]);
    }
  }
}
