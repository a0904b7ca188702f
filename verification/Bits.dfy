/** Byte strings and their bits, most significant bit first. */
module Bits {

  type Bytes = seq<bv8>

  /** Bit `k` of a byte, counted from the most significant one. */
  function Bit(b: bv8, k: nat): bv8
    requires k < 8
  {
    match k
    case 0 => (b >> 7) & 1
    case 1 => (b >> 6) & 1
    case 2 => (b >> 5) & 1
    case 3 => (b >> 4) & 1
    case 4 => (b >> 3) & 1
    case 5 => (b >> 2) & 1
    case 6 => (b >> 1) & 1
    case _ => b & 1
  }

  /** Bit `i` of a byte string, which is followed by zero bits for ever. */
  function BitAt(data: Bytes, i: nat): bv8 {
    if data == [] then 0 else if i < 8 then Bit(data[0], i) else BitAt(data[1..], i - 8)
  }

  lemma {:induction false} BitAtDrop(data: Bytes, n: nat, i: nat)
    requires n <= |data|
    ensures BitAt(data[n..], i) == BitAt(data, 8 * n + i)
  {
    if n == 0 {
      assert data[0..] == data;
    } else {
      BitAtDrop(data[1..], n - 1, i);
      assert data[1..][n - 1..] == data[n..];
    }
  }
}
