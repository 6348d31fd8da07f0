/**
 The signer bitmap of a certificate: 128-bit chunks in which the bit of every signer is
 cleared (hydrangea/src/aggregator.rs:125-156, hydrangea/src/messages.rs:388-398).
 */
module Bitmap {
  // ---------------------------------------------------------------- single bits
  //
  // A u128 is a natural number; its bit operations are defined on its binary digits.

  // x & 1 << i != 0
  predicate Bit(x: nat, i: nat) {
    if i == 0 then x % 2 == 1 else Bit(x / 2, i - 1)
  }

  // x & !(1 << i)
  function Drop(x: nat, i: nat): (y: nat)
    ensures y <= x
  {
    if i == 0 then x - x % 2 else 2 * Drop(x / 2, i - 1) + x % 2
  }

  // The number whose k lowest bits are set.
  function Ones(k: nat): nat {
    if k == 0 then 0 else 2 * Ones(k - 1) + 1
  }

  // u128::MAX
  const MAX := Ones(128)

  lemma {:induction false} OnesHas(k: nat, i: nat)
    requires i < k
    ensures Bit(Ones(k), i)
  {
    if i > 0 {
      OnesHas(k - 1, i - 1);
    }
  }

  lemma {:induction false} DropBit(x: nat, i: nat, j: nat)
    ensures Bit(Drop(x, i), j) <==> j != i && Bit(x, j)
  {
    if i > 0 && j > 0 {
      DropBit(x / 2, i - 1, j - 1);
      assert Drop(x, i) / 2 == Drop(x / 2, i - 1);
    } else if i == 0 && j > 0 {
      assert Drop(x, 0) / 2 == x / 2;
    }
  }

  // ---------------------------------------------------------------- bitmaps

  function Chunks(n: nat): nat {
    (n + 127) / 128
  }

  // The bit of a member that has not signed.
  predicate IsSet(bits: seq<nat>, id: nat) {
    id / 128 < |bits| && Bit(bits[id / 128], id % 128)
  }

  function Full(n: nat): seq<nat> {
    seq(Chunks(n), _ => MAX)
  }

  function Clear(bits: seq<nat>, id: nat): seq<nat>
    requires id / 128 < |bits|
  {
    bits[id / 128 := Drop(bits[id / 128], id % 128)]
  }

  lemma FullIsSet(n: nat, id: nat)
    requires id < n
    ensures IsSet(Full(n), id)
  {
    OnesHas(128, id % 128);
  }

  // Clearing one bit changes that bit only.
  lemma ClearIsSet(bits: seq<nat>, id: nat, j: nat)
    requires id / 128 < |bits|
    ensures IsSet(Clear(bits, id), j) <==> j != id && IsSet(bits, j)
  {
    if j / 128 == id / 128 {
      SamePosition(id, j);
      DropBit(bits[id / 128], id % 128, j % 128);
    }
  }

  lemma SamePosition(i: nat, j: nat)
    requires i / 128 == j / 128
    ensures i % 128 == j % 128 <==> i == j
  {}

  // The positions below n whose bits are set, in increasing order.
  function SetBits(bits: seq<nat>, n: nat): seq<nat> {
    if n == 0 then []
    else if IsSet(bits, n - 1) then SetBits(bits, n - 1) + [n - 1]
    else SetBits(bits, n - 1)
  }

  lemma {:induction false} SetBitsAre(bits: seq<nat>, n: nat)
    ensures forall j :: j in SetBits(bits, n) <==> 0 <= j < n && IsSet(bits, j)
    ensures forall a, b :: 0 <= a < b < |SetBits(bits, n)| ==> SetBits(bits, n)[a] < SetBits(bits, n)[b]
  {
    if n > 0 {
      SetBitsAre(bits, n - 1);
      var rest := SetBits(bits, n - 1);
      assert forall a :: 0 <= a < |rest| ==> rest[a] in rest;
    }
  }

  /**
   Decoding (messages.rs:388-398): the result lists, in increasing order and once each,
   exactly the members below n whose bit is still set.
   */
  method Decode(bits: seq<nat>, n: nat) returns (ids: seq<nat>)
    requires Chunks(n) <= |bits|
    ensures ids == SetBits(bits, n)
    ensures forall j :: j in ids <==> 0 <= j < n && IsSet(bits, j)
    ensures forall a, b :: 0 <= a < b < |ids| ==> ids[a] < ids[b]
  {
    ids := [];
    for idx := 0 to n
      invariant ids == SetBits(bits, idx)
    {
      var x := idx / 128;
      var ridx := idx - x * 128;
      if Bit(bits[x], ridx) {
        ids := ids + [idx];
      }
    }
    SetBitsAre(bits, n);
  }

  // ---------------------------------------------------------------- round trip

  // The bitmap after the given members have signed, in that order.
  function Encode(n: nat, signers: seq<nat>): (bits: seq<nat>)
    requires forall k :: 0 <= k < |signers| ==> signers[k] < n
    ensures |bits| == Chunks(n)
  {
    if signers == [] then Full(n) else Clear(Encode(n, signers[..|signers| - 1]), signers[|signers| - 1])
  }

  /** For every size and signer list, the encoded bitmap has exactly the bits of the non-signers set. */
  lemma {:induction false} EncodeIsSet(n: nat, signers: seq<nat>, j: nat)
    requires (forall k :: 0 <= k < |signers| ==> signers[k] < n) && j < n
    ensures IsSet(Encode(n, signers), j) <==> j !in signers
  {
    if signers == [] {
      FullIsSet(n, j);
    } else {
      var rest, last := signers[..|signers| - 1], signers[|signers| - 1];
      EncodeIsSet(n, rest, j);
      ClearIsSet(Encode(n, rest), last, j);
      assert signers == rest + [last];
    }
  }
}
