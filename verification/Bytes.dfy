/** Little-endian scalars as they travel in SDO transfers. */
module Bytes {
  import opened Arithmetic

  type uint8 = x: int | 0 <= x < 0x100
  type uint16 = x: int | 0 <= x < 0x1_0000
  type uint32 = x: int | 0 <= x < 0x1_0000_0000

  function Pow256(n: nat): (p: nat)
    ensures p > 0
  {
    if n == 0 then 1 else 256 * Pow256(n - 1)
  }

  /** The `size` low bytes of `value`, least significant first. */
  function Encode(value: nat, size: nat): (data: seq<uint8>)
    ensures |data| == size
  {
    if size == 0 then [] else [value % 256] + Encode(value / 256, size - 1)
  }

  function Decode(data: seq<uint8>): nat {
    if data == [] then 0 else data[0] + 256 * Decode(data[1..])
  }

  lemma {:induction false} DecodeBound(data: seq<uint8>)
    ensures Decode(data) < Pow256(|data|)
  {
    if data != [] {
      DecodeBound(data[1..]);
    }
  }

  /** Every value that fits is recovered from its bytes. */
  lemma {:induction false} DecodeEncode(value: nat, size: nat)
    requires value < Pow256(size)
    ensures Decode(Encode(value, size)) == value
  {
    if size > 0 {
      DecodeEncode(value / 256, size - 1);
      assert Encode(value, size)[1..] == Encode(value / 256, size - 1);
    }
  }

  /** Every byte string is the encoding of the value it decodes to. */
  lemma {:induction false} EncodeDecode(data: seq<uint8>)
    ensures Encode(Decode(data), |data|) == data
  {
    if data != [] {
      EncodeDecode(data[1..]);
      assert Decode(data) % 256 == data[0] && Decode(data) / 256 == Decode(data[1..]);
    }
  }

  lemma {:induction false} DecodeSnoc(data: seq<uint8>, last: uint8)
    ensures Decode(data + [last]) == Decode(data) + last * Pow256(|data|)
  {
    if data == [] {
      assert Decode([last]) == last;
    } else {
      DecodeSnoc(data[1..], last);
      assert (data + [last])[1..] == data[1..] + [last];
      var p := Pow256(|data| - 1);
      assert 256 * (last * p) == last * (256 * p);
    }
  }

  lemma {:induction false} EncodeSnoc(value: nat, size: nat)
    ensures Encode(value, size + 1) == Encode(value, size) + [value / Pow256(size) % 256]
  {
    if size == 0 {
      assert Encode(value / 256, 0) == [];
      assert Pow256(0) == 1;
    } else {
      EncodeSnoc(value / 256, size - 1);
      DivDiv(value, Pow256(size - 1));
    }
  }

  lemma DivDiv(value: nat, p: nat)
    requires p > 0
    ensures value / (256 * p) == value / 256 / p
  {
    var q, r := value / 256, value % 256;
    var q', r' := q / p, q % p;
    assert value == 256 * (p * q' + r') + r;
    assert 256 * (p * q') == (256 * p) * q';
    assert 0 <= 256 * r' + r < 256 * p;
    DivUnique(value, 256 * p, q', 256 * r' + r);
  }

  lemma Pow256Table()
    ensures Pow256(1) == 0x100 && Pow256(2) == 0x1_0000 && Pow256(4) == 0x1_0000_0000
  {
    assert Pow256(2) == 256 * Pow256(1);
    assert Pow256(3) == 256 * Pow256(2);
    assert Pow256(4) == 256 * Pow256(3);
  }

  /** The receive loop: ORs each byte into its own eight bits, i.e. adds it at its weight. */
  method Unpack(data: seq<uint8>) returns (value: nat)
    ensures value == Decode(data)
  {
    value := 0;
    for i := 0 to |data|
      invariant value == Decode(data[..i])
    {
      DecodeSnoc(data[..i], data[i]);
      assert data[..i + 1] == data[..i] + [data[i]];
      value := value + data[i] * Pow256(i);
    }
    assert data[..|data|] == data;
  }

  /** The send loop: byte i is the value shifted right by 8 * i, truncated. */
  method Pack(value: nat, size: nat) returns (data: seq<uint8>)
    ensures data == Encode(value, size)
  {
    data := [];
    for i := 0 to size
      invariant data == Encode(value, i)
    {
      EncodeSnoc(value, i);
      data := data + [value / Pow256(i) % 256];
    }
  }
}
