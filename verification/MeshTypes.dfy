/** Constants, machine-integer arithmetic and small facts shared by several modules. */
module MeshTypes {
  /** A 48-bit MAC address as the number its bytes spell in network order. */
  type Mac = nat

  const ZERO_MAC: Mac := 0
  const BROADCAST: Mac := 0xffff_ffff_ffff

  /** The individual/group bit is the lowest bit of the first octet. */
  predicate IsUnicast(a: Mac) { (a / 0x100_0000_0000) % 2 == 0 }

  const MAX_METRIC := 0xffff_ffff

  /** The largest link metric for which 255 hops cannot saturate a 32-bit path metric. */
  const MAX_LINK_METRIC := 16843009

  function U8(x: nat): (r: nat) ensures r < 0x100 { x % 0x100 }
  function U32(x: int): (r: nat) ensures r < 0x1_0000_0000 { x % 0x1_0000_0000 }
  function U64(x: nat): (r: nat) ensures r < 0x1_0000_0000_0000_0000 { x % 0x1_0000_0000_0000_0000 }

  datatype Option<+T> = None | Some(value: T)

  function Pow2(k: nat): (p: nat)
    ensures p >= 1
  {
    if k == 0 then 1 else 2 * Pow2(k - 1)
  }

  lemma {:induction false} SubsetSize<T>(a: set<T>, b: set<T>)
    requires a <= b
    ensures |a| <= |b|
    decreases |a|
  {
    if a != {} {
      var x :| x in a;
      SubsetSize(a - {x}, b - {x});
    }
  }

  lemma Reassociate<T>(a: seq<T>, b: seq<T>, c: seq<T>)
    ensures a + (b + c) == (a + b) + c
  {
  }

  lemma DivBounds(a: nat, b: nat)
    requires b >= 1
    ensures (a / b) * b <= a < (a / b + 1) * b
  {
  }

  lemma Monotone(a: int, b: int, p: nat)
    requires a <= b
    ensures a * p <= b * p
  {
    assert b * p - a * p == (b - a) * p;
  }
}
