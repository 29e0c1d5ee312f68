/** Reading and writing 32-bit numbers in byte buffers. */
module Bytes {
  type Byte = x: int | 0 <= x < 256

  type Buffer = seq<Byte>

  const LIMIT: nat := 0x1_0000_0000

  /** Four bytes, most significant first. */
  function Number(b3: Byte, b2: Byte, b1: Byte, b0: Byte): (n: nat)
    ensures n < LIMIT
  {
    var high: int := b3;
    ((high * 0x100 + b2) * 0x100 + b1) * 0x100 + b0
  }

  /** `readUInt32LE` */
  function Le32(b: Buffer, offset: nat): nat
    requires offset + 4 <= |b|
  {
    Number(b[offset + 3], b[offset + 2], b[offset + 1], b[offset])
  }

  /** `readUInt32BE` */
  function Be32(b: Buffer, offset: nat): nat
    requires offset + 4 <= |b|
  {
    Number(b[offset], b[offset + 1], b[offset + 2], b[offset + 3])
  }

  function Low(n: nat): Byte {
    n % 0x100
  }

  function Le32Of(n: nat): (b: Buffer)
    requires n < LIMIT
    ensures |b| == 4
  {
    [Low(n), Low(n / 0x100), Low(n / 0x100 / 0x100), Low(n / 0x100 / 0x100 / 0x100)]
  }

  function Be32Of(n: nat): (b: Buffer)
    requires n < LIMIT
    ensures |b| == 4
  {
    [Low(n / 0x100 / 0x100 / 0x100), Low(n / 0x100 / 0x100), Low(n / 0x100), Low(n)]
  }

  lemma DigitsMakeNumber(n: nat)
    requires n < LIMIT
    ensures Number(Low(n / 0x100 / 0x100 / 0x100), Low(n / 0x100 / 0x100), Low(n / 0x100), Low(n)) == n
  {
    var n1 := n / 0x100;
    var n2 := n1 / 0x100;
    var n3 := n2 / 0x100;
    assert n == n1 * 0x100 + n % 0x100 && n1 == n2 * 0x100 + n1 % 0x100 && n2 == n3 * 0x100 + n2 % 0x100;
    assert n3 < 0x100;
  }

  lemma NumberHasDigits(b3: Byte, b2: Byte, b1: Byte, b0: Byte)
    ensures var n := Number(b3, b2, b1, b0);
            Low(n) == b0 && Low(n / 0x100) == b1 && Low(n / 0x100 / 0x100) == b2 && Low(n / 0x100 / 0x100 / 0x100) == b3
  {
    var high: int := b3;
    var n := Number(b3, b2, b1, b0);
    assert n / 0x100 == (high * 0x100 + b2) * 0x100 + b1;
    assert n / 0x100 / 0x100 == high * 0x100 + b2;
  }

  /** Writing then reading, anywhere in a buffer. */
  lemma Le32RoundTrip(n: nat, b: Buffer, offset: nat)
    requires n < LIMIT && offset + 4 <= |b| && b[offset..offset + 4] == Le32Of(n)
    ensures Le32(b, offset) == n
  {
    DigitsMakeNumber(n);
    var four := b[offset..offset + 4];
    assert four[0] == b[offset] && four[1] == b[offset + 1] && four[2] == b[offset + 2] && four[3] == b[offset + 3];
  }

  lemma Be32RoundTrip(n: nat, b: Buffer, offset: nat)
    requires n < LIMIT && offset + 4 <= |b| && b[offset..offset + 4] == Be32Of(n)
    ensures Be32(b, offset) == n
  {
    DigitsMakeNumber(n);
    var four := b[offset..offset + 4];
    assert four[0] == b[offset] && four[1] == b[offset + 1] && four[2] == b[offset + 2] && four[3] == b[offset + 3];
  }

  /** Reading then writing. */
  lemma Le32Rewritten(b: Buffer, offset: nat)
    requires offset + 4 <= |b|
    ensures Le32Of(Le32(b, offset)) == b[offset..offset + 4]
  {
    NumberHasDigits(b[offset + 3], b[offset + 2], b[offset + 1], b[offset]);
  }
}
