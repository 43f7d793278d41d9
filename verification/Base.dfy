/** Shared scalar types and small helpers. */
module Base {

  /** An octet. */
  type Byte = b: int | 0 <= b < 256

  /** An unsigned 16-bit number. */
  type U16 = n: int | 0 <= n < 0x1_0000

  const U16_MAX: U16 := 0xFFFF
  const U32_MAX: nat := 0xFFFF_FFFF
  const U64_MAX: nat := 0xFFFF_FFFF_FFFF_FFFF

  datatype Option<+T> = None | Some(value: T)

  function Min(a: int, b: int): int {
    if a < b then a else b
  }

  function Max(a: int, b: int): int {
    if a < b then b else a
  }

  /** Rust's `saturating_add` on `u16`. */
  function SatAdd16(a: U16, b: U16): U16 {
    if a + b <= U16_MAX then a + b else U16_MAX
  }

  /** Rust's `saturating_sub` on any unsigned type. */
  function SatSub(a: nat, b: nat): nat {
    if b <= a then a - b else 0
  }

  /** The parts of a sequence of sequences, joined in order. */
  function Flatten<T>(parts: seq<seq<T>>): seq<T> {
    if parts == [] then [] else parts[0] + Flatten(parts[1..])
  }

  lemma {:induction false} FlattenSnoc<T>(parts: seq<seq<T>>, last: seq<T>)
    ensures Flatten(parts + [last]) == Flatten(parts) + last
  {
    if parts == [] {
      assert Flatten([last]) == last + Flatten<T>([]);
    } else {
      FlattenSnoc(parts[1..], last);
      assert (parts + [last])[1..] == parts[1..] + [last];
    }
  }

  lemma {:induction false} FlattenConcat<T>(a: seq<seq<T>>, b: seq<seq<T>>)
    ensures Flatten(a + b) == Flatten(a) + Flatten(b)
  {
    if a == [] {
      assert a + b == b;
    } else {
      FlattenConcat(a[1..], b);
      assert (a + b)[1..] == a[1..] + b;
    }
  }
}
