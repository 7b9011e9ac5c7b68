/** Fixed-width integers with their saturating operations, byte strings, and the
    little-endian encoding the runtime applies to counters and accounts. */
module Prims {

  const U32_MAX: nat := 0xFFFF_FFFF
  const U64_MAX: nat := 0xFFFF_FFFF_FFFF_FFFF

  type U8 = x: int | 0 <= x < 0x100
  type U32 = x: int | 0 <= x <= 0xFFFF_FFFF
  type U64 = x: int | 0 <= x <= 0xFFFF_FFFF_FFFF_FFFF
  type Bytes = seq<U8>

  /** A 32-byte array, as the number its bytes spell in little-endian order. */
  newtype Bytes32 = x: int |
    0 <= x < 0x1_0000000000000000_0000000000000000_0000000000000000_0000000000000000

  /** An AccountId32: 32 bytes, in the same representation. */
  newtype AccountId = x: int |
    0 <= x < 0x1_0000000000000000_0000000000000000_0000000000000000_0000000000000000

  datatype Option<+T> = None | Some(value: T)

  function Get<K, V>(m: map<K, V>, k: K): Option<V> {
    if k in m then Some(m[k]) else None
  }

  function Min(a: nat, b: nat): nat {
    if a < b then a else b
  }

  /** The reading of an unbounded count on a counter that stops at its maximum. */
  function Cap32(n: nat): U32 {
    Min(n, U32_MAX)
  }

  function Cap64(n: nat): U64 {
    Min(n, U64_MAX)
  }

  function SatAdd32(a: U32, b: U32): U32 {
    if a + b > U32_MAX then U32_MAX else a + b
  }

  function SatSub32(a: U32, b: U32): U32 {
    if a < b then 0 else a - b
  }

  function SatMul32(a: U32, b: U32): U32 {
    if a * b > U32_MAX then U32_MAX else a * b
  }

  function SatAdd64(a: U64, b: U64): U64 {
    if a + b > U64_MAX then U64_MAX else a + b
  }

  // ---------- little-endian encoding ----------

  function Pow256(width: nat): (r: nat)
    ensures r > 0
  {
    if width == 0 then 1 else 0x100 * Pow256(width - 1)
  }

  function ToLe(n: nat, width: nat): (b: Bytes)
    ensures |b| == width
    decreases width, n
  {
    if width == 0 then [] else [n % 0x100] + ToLe(n / 0x100, width - 1)
  }

  function FromLe(b: Bytes): nat {
    if b == [] then 0 else b[0] + 0x100 * FromLe(b[1..])
  }

  lemma {:induction false} LeRoundTrip(n: nat, width: nat)
    requires n < Pow256(width)
    ensures FromLe(ToLe(n, width)) == n
    decreases width
  {
    if width > 0 {
      LeRoundTrip(n / 0x100, width - 1);
      assert ToLe(n, width)[1..] == ToLe(n / 0x100, width - 1);
    }
  }

  /** The 32 bytes of an array or an account, which SCALE writes as they are. */
  function Encode32(x: nat): Bytes {
    ToLe(x, 32)
  }

  /** Eight bytes hold a u64 and thirty-two an account. */
  lemma LeBound()
    ensures Pow256(8) == U64_MAX + 1
    ensures Pow256(32) == 0x1_0000000000000000_0000000000000000_0000000000000000_0000000000000000
  {
    assert Pow256(4) == 0x1_0000_0000;
    assert Pow256(8) == U64_MAX + 1;
    assert Pow256(12) == 0x1_0000_0000_0000_0000_0000_0000;
    assert Pow256(16) == 0x1_0000000000000000_0000000000000000;
    assert Pow256(20) == 0x1_0000000000000000_0000000000000000_00000000;
    assert Pow256(24) == 0x1_0000000000000000_0000000000000000_0000000000000000;
    assert Pow256(28) == 0x1_0000000000000000_0000000000000000_0000000000000000_00000000;
  }

  lemma Encode32Injective(a: AccountId, b: AccountId)
    requires Encode32(a as int) == Encode32(b as int)
    ensures a == b
  {
    LeBound();
    LeRoundTrip(a as int, 32);
    LeRoundTrip(b as int, 32);
  }

  // ---------- the same encoding, by what it decodes to ----------

  /** b is the little-endian spelling of n in so many bytes. */
  predicate Spells(b: Bytes, n: int, width: nat) {
    |b| == width && FromLe(b) == n
  }

  /** The bytes that spell n, if it fits. */
  ghost function Spelled(n: int, width: nat): Bytes {
    if exists b :: Spells(b, n, width) then (var b :| Spells(b, n, width); b) else []
  }

  lemma {:induction false} FromLeInjective(b: Bytes, c: Bytes)
    requires |b| == |c| && FromLe(b) == FromLe(c)
    ensures b == c
  {
    if b != [] {
      assert b[0] == c[0];
      FromLeInjective(b[1..], c[1..]);
      assert b == [b[0]] + b[1..] && c == [c[0]] + c[1..];
    }
  }

  lemma SpelledIs(n: nat, width: nat)
    requires n < Pow256(width)
    ensures Spells(ToLe(n, width), n, width) && Spelled(n, width) == ToLe(n, width)
  {
    LeRoundTrip(n, width);
    assert Spells(ToLe(n, width), n, width);
    FromLeInjective(Spelled(n, width), ToLe(n, width));
  }
}
