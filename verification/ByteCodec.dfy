// Little-endian 128-bit words: the byte form of label and amount lists
// (libs/common/src/uint.rs, labels.rs, vector.rs; libs/onchain-sync/src/lib.rs).
module ByteCodec {
  import opened Prelude
  import opened Arithmetic
  import opened FixedPoint

  const WORD: nat := 16

  function LeBytes(n: nat, width: nat): (b: seq<U8>)
    ensures |b| == width
  {
    if width == 0 then [] else [n % 256] + LeBytes(n / 256, width - 1)
  }

  function LeValue(b: seq<U8>): nat {
    if b == [] then 0 else b[0] + 256 * LeValue(b[1..])
  }

  function Pow256(e: nat): nat {
    if e == 0 then 1 else 256 * Pow256(e - 1)
  }

  lemma {:induction false} LeValueOfBytes(n: nat, width: nat)
    requires n < Pow256(width)
    ensures LeValue(LeBytes(n, width)) == n
  {
    if width > 0 {
      LeValueOfBytes(n / 256, width - 1);
      assert LeBytes(n, width)[1..] == LeBytes(n / 256, width - 1);
    }
  }

  lemma {:induction false} LeBytesOfValue(b: seq<U8>)
    ensures LeValue(b) < Pow256(|b|)
    ensures LeBytes(LeValue(b), |b|) == b
  {
    if b != [] {
      LeBytesOfValue(b[1..]);
      LowByte(b[0], LeValue(b[1..]));
      assert LeBytes(LeValue(b), |b|) == [b[0]] + LeBytes(LeValue(b[1..]), |b[1..]|);
      assert [b[0]] + b[1..] == b;
    }
  }

  lemma Pow256Positive(e: nat)
    ensures 0 < Pow256(e)
  {
    if e > 0 {
      Pow256Positive(e - 1);
    }
  }

  // The byte order: byte i counts the multiples of 256^i.
  lemma {:induction false} LeBytesAt(n: nat, width: nat, i: nat)
    requires i < width
    ensures 0 < Pow256(i) && LeBytes(n, width)[i] == n / Pow256(i) % 256
  {
    Pow256Positive(i);
    if i > 0 {
      LeBytesAt(n / 256, width - 1, i - 1);
      DivDiv(n, 256, Pow256(i - 1));
    }
  }

  lemma LowByte(low: U8, high: nat)
    ensures (low + 256 * high) % 256 == low && (low + 256 * high) / 256 == high
  {
  }

  lemma {:induction false} WordRange(k: nat)
    requires k <= 4
    ensures Pow256(4 * k) == [1, 0x1_00000000, 0x1_00000000_00000000, 0x1_00000000_00000000_00000000, TWO_128][k]
  {
    if k > 0 {
      WordRange(k - 1);
      var e := 4 * (k - 1);
      assert Pow256(e + 2) == 256 * Pow256(e + 1) == 65536 * Pow256(e);
      assert Pow256(e + 4) == 256 * Pow256(e + 3) == 65536 * Pow256(e + 2);
    }
  }

  // The first 16 bytes of the input, as read_u128 takes them.
  function ReadU128(input: seq<U8>): U128
    requires WORD <= |input|
  {
    LeBytesOfValue(input[..WORD]);
    WordRange(4);
    LeValue(input[..WORD])
  }

  function WriteU128(n: U128, output: seq<U8>): seq<U8> {
    output + LeBytes(n, WORD)
  }

  lemma ReadAfterWrite(n: U128, before: seq<U8>, after: seq<U8>)
    ensures ReadU128((WriteU128(n, before) + after)[|before|..]) == n
    ensures |WriteU128(n, before)| == |before| + WORD
  {
    WordRange(4);
    assert (WriteU128(n, before) + after)[|before|..][..WORD] == LeBytes(n, WORD);
    LeValueOfBytes(n, WORD);
  }

  // Reference encoding: one word after the other.
  function Encode(words: seq<U128>): seq<U8> {
    if words == [] then [] else WriteU128(words[|words| - 1], Encode(words[..|words| - 1]))
  }

  // Reference decoding: word i is the 16 bytes from 16 * i, whatever follows
  // the last whole word is ignored.
  function WholeWords(b: seq<U8>): (words: seq<U128>)
    ensures |words| == |b| / WORD
  {
    seq(|b| / WORD, i requires 0 <= i < |b| / WORD => ReadU128(b[WORD * i..]))
  }

  datatype Labels = Labels(data: seq<U128>)
  datatype Vector = Vector(data: seq<Amount>)

  function Raws(amounts: seq<Amount>): (r: seq<U128>)
    ensures |r| == |amounts|
  {
    seq(|amounts|, i requires 0 <= i < |amounts| => amounts[i].raw)
  }

  // None is the panic on a length that is not a multiple of the word size.
  method LabelsFromBytes(bytes: seq<U8>) returns (labels: Option<Labels>)
    ensures labels == if |bytes| % WORD == 0 then Some(Labels(WholeWords(bytes))) else None
  {
    if |bytes| % WORD != 0 {
      return None;
    }
    var count := |bytes| / WORD;
    var data: seq<U128> := [];
    var offset := 0;
    for i := 0 to count
      invariant offset == WORD * i
      invariant data == WholeWords(bytes)[..i]
    {
      var start := offset;
      offset := offset + WORD;
      assert bytes[start..offset][..WORD] == bytes[WORD * i..][..WORD];
      data := data + [ReadU128(bytes[start..offset])];
    }
    assert WholeWords(bytes)[..count] == WholeWords(bytes);
    labels := Some(Labels(data));
  }

  method LabelsToBytes(labels: Labels) returns (output: seq<U8>)
    ensures output == Encode(labels.data)
  {
    output := [];
    for i := 0 to |labels.data|
      invariant output == Encode(labels.data[..i])
    {
      assert labels.data[..i + 1][..i] == labels.data[..i];
      output := WriteU128(labels.data[i], output);
    }
    assert labels.data[..|labels.data|] == labels.data;
  }

  method VectorFromBytes(bytes: seq<U8>) returns (vector: Option<Vector>)
    ensures vector.None? <==> |bytes| % WORD != 0
    ensures vector.Some? ==> Raws(vector.value.data) == WholeWords(bytes)
  {
    if |bytes| % WORD != 0 {
      return None;
    }
    var count := |bytes| / WORD;
    var data: seq<Amount> := [];
    var offset := 0;
    for i := 0 to count
      invariant offset == WORD * i
      invariant Raws(data) == WholeWords(bytes)[..i]
    {
      var start := offset;
      offset := offset + WORD;
      assert bytes[start..offset][..WORD] == bytes[WORD * i..][..WORD];
      ghost var before := Raws(data);
      data := data + [Amount(ReadU128(bytes[start..offset]))];
      assert Raws(data) == before + [data[i].raw];
    }
    assert WholeWords(bytes)[..count] == WholeWords(bytes);
    vector := Some(Vector(data));
  }

  method VectorToBytes(vector: Vector) returns (output: seq<U8>)
    ensures output == Encode(Raws(vector.data))
  {
    output := [];
    for i := 0 to |vector.data|
      invariant output == Encode(Raws(vector.data)[..i])
    {
      assert Raws(vector.data)[..i + 1][..i] == Raws(vector.data)[..i];
      output := WriteU128(vector.data[i].raw, output);
    }
    assert Raws(vector.data)[..|vector.data|] == Raws(vector.data);
  }

  // The tolerant decoder never fails: a partial last chunk is dropped.
  method DecodeLabels(bytes: seq<U8>) returns (values: seq<U128>)
    ensures values == WholeWords(bytes)
  {
    values := [];
    var offset := 0;
    while offset < |bytes|
      invariant 0 <= offset <= |bytes|
      invariant offset % WORD == 0 || offset == |bytes|
      invariant values == WholeWords(bytes)[..offset / WORD]
    {
      var end := if offset + WORD <= |bytes| then offset + WORD else |bytes|;
      var chunk := bytes[offset..end];
      if |chunk| == WORD {
        assert chunk[..WORD] == bytes[WORD * (offset / WORD)..][..WORD];
        values := values + [ReadU128(chunk)];
      }
      offset := end;
    }
  }

  lemma {:induction false} EncodeLength(words: seq<U128>)
    ensures |Encode(words)| == WORD * |words|
  {
    if words != [] {
      EncodeLength(words[..|words| - 1]);
    }
  }

  lemma {:induction false} EncodeAppend(a: seq<U128>, b: seq<U128>)
    ensures Encode(a + b) == Encode(a) + Encode(b)
  {
    if b == [] {
      assert a + b == a;
    } else {
      var front := b[..|b| - 1];
      assert (a + b)[..|a + b| - 1] == a + front;
      EncodeAppend(a, front);
    }
  }

  lemma EncodedWordAt(words: seq<U128>, i: nat)
    requires i < |words|
    ensures WORD * i <= |Encode(words)|
    ensures Encode(words)[WORD * i..] == LeBytes(words[i], WORD) + Encode(words[i + 1..])
  {
    EncodeLength(words[..i]);
    EncodeAppend(words[..i + 1], words[i + 1..]);
    assert words == words[..i + 1] + words[i + 1..];
    assert words[..i + 1][..i] == words[..i];
    assert Encode(words) == Encode(words[..i]) + LeBytes(words[i], WORD) + Encode(words[i + 1..]);
  }

  lemma DecodedWordAt(words: seq<U128>, stray: seq<U8>, i: nat)
    requires i < |words|
    ensures var b := Encode(words) + stray;
      && WORD * i + WORD <= |b|
      && b[WORD * i..][..WORD] == LeBytes(words[i], WORD)
  {
    EncodedWordAt(words, i);
    assert (Encode(words) + stray)[WORD * i..] == Encode(words)[WORD * i..] + stray;
  }

  // Decoding an encoding, even one followed by a few stray bytes, gives the
  // words back.
  lemma DecodeEncode(words: seq<U128>, stray: seq<U8>)
    requires |stray| < WORD
    ensures WholeWords(Encode(words) + stray) == words
  {
    EncodeLength(words);
    WordRange(4);
    var b := Encode(words) + stray;
    assert |b| / WORD == |words|;
    forall i | 0 <= i < |words|
      ensures WholeWords(b)[i] == words[i]
    {
      DecodedWordAt(words, stray, i);
      LeValueOfBytes(words[i], WORD);
    }
  }

  // Whole words only look at their own bytes.
  lemma WholeWordsPrefix(b: seq<U8>, count: nat)
    requires WORD * count <= |b|
    ensures WholeWords(b[..WORD * count]) == WholeWords(b)[..count]
  {
    forall i | 0 <= i < count
      ensures WholeWords(b[..WORD * count])[i] == WholeWords(b)[i]
    {
      assert b[..WORD * count][WORD * i..][..WORD] == b[WORD * i..][..WORD];
    }
  }

  lemma {:induction false} EncodeWords(b: seq<U8>, count: nat)
    requires WORD * count <= |b|
    ensures Encode(WholeWords(b)[..count]) == b[..WORD * count]
  {
    if count > 0 {
      EncodeWords(b, count - 1);
      OneMoreWord(b, count - 1);
      var words := WholeWords(b)[..count];
      assert words[..count - 1] == WholeWords(b)[..count - 1];
    }
  }

  lemma OneMoreWord(b: seq<U8>, count: nat)
    requires WORD * count + WORD <= |b|
    ensures b[..WORD * count + WORD] == WriteU128(WholeWords(b)[count], b[..WORD * count])
  {
    var rest := b[WORD * count..];
    WordBytes(rest);
    assert b[..WORD * count + WORD] == b[..WORD * count] + rest[..WORD];
  }

  lemma WordBytes(input: seq<U8>)
    requires WORD <= |input|
    ensures LeBytes(ReadU128(input), WORD) == input[..WORD]
  {
    LeBytesOfValue(input[..WORD]);
  }

  // Encoding a decoding gives the bytes back up to the last whole word, hence
  // all of them when the length is a multiple of 16.
  lemma EncodeDecode(b: seq<U8>)
    ensures Encode(WholeWords(b)) == b[..|b| - |b| % WORD]
  {
    var count := |b| / WORD;
    EncodeWords(b, count);
    assert WholeWords(b)[..count] == WholeWords(b);
    assert WORD * count == |b| - |b| % WORD;
  }

  // The tolerant decoder is the strict one on the longest whole-word prefix.
  lemma TolerantIsStrictOnPrefix(b: seq<U8>)
    ensures var prefix := b[..|b| - |b| % WORD];
      && |prefix| % WORD == 0
      && WholeWords(b) == WholeWords(prefix)
      && (forall longer :: prefix < longer <= b ==> |longer| % WORD != 0)
  {
    var count := |b| / WORD;
    assert WORD * count == |b| - |b| % WORD;
    WholeWordsPrefix(b, count);
    assert WholeWords(b)[..count] == WholeWords(b);
  }
}
