/** The values of init commands: range checks and two's-complement little-endian bytes. */
module InitEncoding {
  import opened Arithmetic
  import opened Bytes
  import opened PdoConfig
  import opened Wrappers

  /** Types int8 to int64 and uint8 to uint64, by their size in bytes. */
  datatype Scalar = Scalar(bytes: nat, isSigned: bool) {
    predicate Known() {
      bytes == 1 || bytes == 2 || bytes == 4 || bytes == 8
    }
  }

  function Minimum(t: Scalar): int {
    if t.isSigned then -(Pow256(t.bytes) / 2) else 0
  }

  function Maximum(t: Scalar): int {
    if t.isSigned then Pow256(t.bytes) / 2 - 1 else Pow256(t.bytes) - 1
  }

  /** The range of each type, in numbers. */
  lemma Ranges(t: Scalar)
    requires t.Known()
    ensures t.bytes == 1 ==> (Minimum(t), Maximum(t)) == if t.isSigned then (-128, 127) else (0, 255)
    ensures t.bytes == 2 ==> (Minimum(t), Maximum(t)) == if t.isSigned then (-32768, 32767) else (0, 65535)
    ensures t.bytes == 4 ==> (Minimum(t), Maximum(t)) == if t.isSigned then (-2147483648, 2147483647) else (0, 4294967295)
    ensures t.bytes == 8 ==>
      (Minimum(t), Maximum(t)) == if t.isSigned then (-9223372036854775808, 9223372036854775807) else (0, 18446744073709551615)
  {
    Pow256Table();
    PowWord();
  }

  const WORD: nat := 0x1_0000_0000_0000_0000

  /** The conversion of a signed to an unsigned 64-bit integer. */
  function Cast(value: int): nat {
    value % WORD
  }

  /** What a device makes of the bytes. */
  function Meaning(t: Scalar, data: seq<uint8>): int {
    var u := Decode(data);
    if t.isSigned && u >= Pow256(|data|) / 2 then u - Pow256(|data|) else u
  }

  lemma PowWord()
    ensures Pow256(8) == WORD
  {
    Pow256Table();
    assert Pow256(5) == 256 * Pow256(4);
    assert Pow256(6) == 256 * Pow256(5);
    assert Pow256(7) == 256 * Pow256(6);
    assert Pow256(8) == 256 * Pow256(7);
  }

  /** Only the low bytes of a value matter. */
  lemma {:induction false} EncodeIgnoresHigh(value: nat, size: nat, more: nat)
    ensures Encode(value + Pow256(size) * more, size) == Encode(value, size)
  {
    if size > 0 {
      var p := Pow256(size - 1);
      assert Pow256(size) == 256 * p;
      EncodeIgnoresHigh(value / 256, size - 1, more);
      hide Pow256;
      MulAssociates(256, p, more);
      DivShift(value, 256, p * more);
    }
  }

  lemma {:induction false} PowSplits(n: nat, m: nat)
    ensures Pow256(n + m) == Pow256(n) * Pow256(m)
  {
    if n > 0 {
      PowSplits(n - 1, m);
      assert Pow256(n) == 256 * Pow256(n - 1) && Pow256(n + m) == 256 * Pow256(n - 1 + m);
      hide Pow256;
      MulAssociates(256, Pow256(n - 1), Pow256(m));
    }
  }

  /** The bytes sent for a negative value are those of its two's complement in the size of the type. */
  lemma NegativeBytes(value: int, size: nat)
    requires size == 1 || size == 2 || size == 4 || size == 8
    requires 0 <= Pow256(size) + value < Pow256(size)
    ensures Encode(Cast(value), size) == Encode(Pow256(size) + value, size)
  {
    PowWord();
    PowSplits(size, 8 - size);
    PowFits(size, 8 - size);
    var p, q := Pow256(size), Pow256(8 - size);
    assert Cast(value) == WORD + value;
    assert p * q == p + p * (q - 1);
    EncodeIgnoresHigh(p + value, size, q - 1);
  }

  lemma PowFits(n: nat, m: nat)
    ensures Pow256(n) <= Pow256(n + m)
  {
    hide Pow256;
    PowSplits(n, m);
    MulMonotone(1, Pow256(m), Pow256(n));
  }

  /** Every value in range is read back from its bytes, signed or not, in every size. */
  lemma ValueRoundTrip(t: Scalar, value: int)
    requires t.Known() && Minimum(t) <= value <= Maximum(t)
    ensures Meaning(t, Encode(Cast(value), t.bytes)) == value
  {
    PowWord();
    PowFits(t.bytes, 8 - t.bytes);
    HalfPow(t.bytes);
    hide Pow256, Encode, Decode;
    if value < 0 {
      NegativeBytes(value, t.bytes);
      DecodeEncode(Pow256(t.bytes) + value, t.bytes);
    } else {
      assert Cast(value) == value;
      DecodeEncode(value, t.bytes);
    }
  }

  lemma HalfPow(n: nat)
    requires n > 0
    ensures Pow256(n) == 2 * (Pow256(n) / 2)
  {
    assert Pow256(n) == 256 * Pow256(n - 1);
  }

  /** One init command: rejected outside the range of its type, otherwise encoded byte by byte. */
  method EncodeCommand(index: uint16, sub: uint8, t: Scalar, value: int) returns (r: Option<InitCommand>)
    ensures r.Some? <==> t.Known() && Minimum(t) <= value <= Maximum(t)
    ensures r.Some? ==> CommandOk(r.value) && r.value.index == index && r.value.sub == sub
    ensures r.Some? ==> |r.value.data| == t.bytes && Meaning(t, r.value.data) == value
  {
    if !t.Known() || value < Minimum(t) || value > Maximum(t) {
      return None;
    }
    ValueRoundTrip(t, value);
    var data := Pack(Cast(value), t.bytes);
    r := Some(InitCommand(index, sub, data));
  }
}
