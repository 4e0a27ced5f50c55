/** Numbers as little-endian bytes, the digits of base 256. */
module LittleEndian {

  /** The little-endian bytes of a number. */
  function Bytes(n: nat, count: nat): (bytes: seq<nat>)
    ensures |bytes| == count
    ensures forall i | 0 <= i < count :: bytes[i] < 256
  {
    if count == 0 then [] else [n % 256] + Bytes(n / 256, count - 1)
  }

  function Value(digits: seq<nat>): nat {
    if digits == [] then 0 else digits[0] + 256 * Value(digits[1..])
  }

  function Pow256(k: nat): nat {
    if k == 0 then 1 else 256 * Pow256(k - 1)
  }

  lemma {:induction false} ValueAppends(digits: seq<nat>, digit: nat)
    ensures Value(digits + [digit]) == Value(digits) + digit * Pow256(|digits|)
  {
    var all := digits + [digit];
    if digits != [] {
      ValueAppends(digits[1..], digit);
      assert all[1..] == digits[1..] + [digit];
      var p := Pow256(|digits| - 1);
      assert digit * (256 * p) == 256 * (digit * p);
    } else {
      assert all[1..] == [];
    }
  }

  lemma {:induction false} ValueOfBytes(n: nat, count: nat)
    ensures n < Pow256(count) ==> Value(Bytes(n, count)) == n
  {
    if count > 0 {
      ValueOfBytes(n / 256, count - 1);
      assert Bytes(n, count)[1..] == Bytes(n / 256, count - 1);
    }
  }

  lemma {:induction false} BytesOfValue(digits: seq<nat>)
    requires forall i | 0 <= i < |digits| :: digits[i] < 256
    ensures Bytes(Value(digits), |digits|) == digits && Value(digits) < Pow256(|digits|)
  {
    if digits != [] {
      BytesOfValue(digits[1..]);
      assert Value(digits) / 256 == Value(digits[1..]) && Value(digits) % 256 == digits[0];
    }
  }

  /** Byte for byte smaller is smaller. */
  lemma {:induction false} ValueIsMonotone(a: seq<nat>, b: seq<nat>)
    requires |a| == |b| && forall i | 0 <= i < |a| :: a[i] <= b[i]
    ensures Value(a) <= Value(b)
  {
    if a != [] { ValueIsMonotone(a[1..], b[1..]); }
  }

  lemma {:induction false} ZeroBytes(count: nat)
    ensures forall i | 0 <= i < count :: Bytes(0, count)[i] == 0
  {
    if count > 0 { ZeroBytes(count - 1); }
  }

}
