/** Big-endian words and the completion records that end a run
    (mino_tcp_pipeline.cc, mino_shm_tcp_bridge.cc). */
module Completion {
  import opened Bits
  import opened Payload

  /** "MINOBRID" */
  const COMPLETION_MAGIC: nat := 0x4D494E4F42524944

  function Pow256(n: nat): (p: nat)
    ensures p >= 1
  {
    if n == 0 then 1 else 256 * Pow256(n - 1)
  }

  /** The `n` low bytes of `v`, most significant first. */
  function BigEndian(v: nat, n: nat): (r: seq<byte>)
    ensures |r| == n
  {
    if n == 0 then [] else BigEndian(v / 256, n - 1) + [v % 256]
  }

  function Value(bytes: seq<byte>): (v: nat)
    ensures v < Pow256(|bytes|)
  {
    if bytes == [] then 0
    else 256 * Value(bytes[..|bytes| - 1]) + bytes[|bytes| - 1]
  }

  lemma LowByte(v: nat, p: nat)
    requires v < 256 * p
    ensures v / 256 < p && v == 256 * (v / 256) + v % 256
  {}

  lemma {:induction false} ValueOfBigEndian(v: nat, n: nat)
    requires v < Pow256(n)
    ensures Value(BigEndian(v, n)) == v
  {
    if n != 0 {
      LowByte(v, Pow256(n - 1));
      ValueOfBigEndian(v / 256, n - 1);
      var front, r := BigEndian(v / 256, n - 1), BigEndian(v, n);
      assert r == front + [v % 256] && r[..n - 1] == front;
      assert Value(r) == 256 * Value(front) + v % 256;
    }
  }

  lemma {:induction false} BigEndianOfValue(bytes: seq<byte>)
    ensures BigEndian(Value(bytes), |bytes|) == bytes
  {
    if bytes != [] {
      var front := bytes[..|bytes| - 1];
      BigEndianOfValue(front);
      assert Value(bytes) / 256 == Value(front) && Value(bytes) % 256 == bytes[|bytes| - 1];
      assert front + [bytes[|bytes| - 1]] == bytes;
    }
  }

  /** `v >> (8 * k)` */
  function ShiftBytes(v: nat, k: nat): nat {
    if k == 0 then v else ShiftBytes(v / 256, k - 1)
  }

  lemma {:induction false} ByteAt(v: nat, n: nat, i: nat)
    requires i < n
    ensures BigEndian(v, n)[i] == ShiftBytes(v, n - 1 - i) % 256
  {
    if i < n - 1 { ByteAt(v / 256, n - 1, i); }
  }

  lemma Pow256Is64Bits()
    ensures Pow256(8) == U64
  {
    assert Pow256(4) == 0x1_0000_0000;
    assert Pow256(8) == 256 * (256 * (256 * (256 * Pow256(4))));
  }

  method StoreU64(bytes: array<byte>, offset: nat, value: nat)
    requires offset + 8 <= bytes.Length && value < U64
    modifies bytes
    ensures bytes[..] == old(bytes[..offset]) + BigEndian(value, 8) + old(bytes[offset + 8..])
  {
    var index := 0;
    while index < 8
      invariant 0 <= index <= 8
      invariant forall i :: 0 <= i < index ==> bytes[offset + i] == BigEndian(value, 8)[i]
      invariant forall i :: 0 <= i < bytes.Length && !(offset <= i < offset + index) ==>
                              bytes[i] == old(bytes[i])
    {
      ByteAt(value, 8, index);
      bytes[offset + index] := ShiftBytes(value, 7 - index) % 256;
      index := index + 1;
    }
    assert bytes[..] == bytes[..offset] + bytes[offset..offset + 8] + bytes[offset + 8..];
    assert bytes[offset..offset + 8] == BigEndian(value, 8);
    assert bytes[..offset] == old(bytes[..offset]);
    assert bytes[offset + 8..] == old(bytes[offset + 8..]);
  }

  method LoadU64(bytes: seq<byte>, offset: nat) returns (value: nat)
    requires offset + 8 <= |bytes|
    ensures value == Value(bytes[offset..offset + 8])
    ensures BigEndian(value, 8) == bytes[offset..offset + 8]
  {
    value := 0;
    var index := 0;
    ghost var word := bytes[offset..offset + 8];
    while index < 8
      invariant 0 <= index <= 8
      invariant value == Value(word[..index])
    {
      assert word[..index + 1][..index] == word[..index];
      value := 256 * value + bytes[offset + index];
      index := index + 1;
    }
    assert word[..8] == word;
    BigEndianOfValue(word);
  }

  /** A record of 64-bit fields, big endian, in order. */
  function Encode(fields: seq<nat>): (r: seq<byte>)
    ensures |r| == 8 * |fields|
  {
    if fields == [] then []
    else Encode(fields[..|fields| - 1]) + BigEndian(fields[|fields| - 1], 8)
  }

  /** Both receivers' checks: exact size and every field as expected. */
  ghost predicate Accepts(fields: seq<nat>, bytes: seq<byte>) {
    && |bytes| == 8 * |fields|
    && forall k :: 0 <= k < |fields| ==> Value(bytes[8 * k..8 * k + 8]) == fields[k]
  }

  method AcceptCompletion(fields: seq<nat>, bytes: seq<byte>) returns (ok: bool)
    ensures ok <==> Accepts(fields, bytes)
  {
    if |bytes| != 8 * |fields| { return false; }
    var k := 0;
    while k < |fields|
      invariant 0 <= k <= |fields|
      invariant forall j :: 0 <= j < k ==> Value(bytes[8 * j..8 * j + 8]) == fields[j]
    {
      var word := LoadU64(bytes, 8 * k);
      if word != fields[k] { return false; }
      k := k + 1;
    }
    return true;
  }

  /** Splitting off the last field of a record. */
  lemma LastField(fields: seq<nat>, bytes: seq<byte>)
    requires fields != [] && |bytes| == 8 * |fields|
    ensures var n := |fields| - 1;
            Accepts(fields, bytes) <==>
            Accepts(fields[..n], bytes[..8 * n]) && Value(bytes[8 * n..]) == fields[n]
  {
    hide Value;
    var n := |fields| - 1;
    var head := bytes[..8 * n];
    assert bytes[8 * n..8 * n + 8] == bytes[8 * n..];
    forall k | 0 <= k < n ensures bytes[8 * k..8 * k + 8] == head[8 * k..8 * k + 8] {}
  }

  lemma WordIsItsValue(v: nat, word: seq<byte>)
    requires v < U64 && |word| == 8
    ensures Value(word) == v <==> word == BigEndian(v, 8)
  {
    Pow256Is64Bits();
    ValueOfBigEndian(v, 8);
    BigEndianOfValue(word);
  }

  /** A completion is accepted exactly when it is the record the peer of this very run sends. */
  lemma {:induction false} AcceptsExactlyItsRecord(fields: seq<nat>, bytes: seq<byte>)
    requires forall k :: 0 <= k < |fields| ==> fields[k] < U64
    ensures Accepts(fields, bytes) <==> bytes == Encode(fields)
  {
    hide Value, BigEndian;
    if fields != [] && |bytes| == 8 * |fields| {
      var n := |fields| - 1;
      var head, last := bytes[..8 * n], bytes[8 * n..];
      assert bytes == head + last;
      LastField(fields, bytes);
      AcceptsExactlyItsRecord(fields[..n], head);
      WordIsItsValue(fields[n], last);
      assert Encode(fields) == Encode(fields[..n]) + BigEndian(fields[n], 8);
    }
  }
}
