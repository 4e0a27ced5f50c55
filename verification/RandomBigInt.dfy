/**
 * Random numbers of a range (`generateRandomInt` and `generateRandomBigInt` in
 * `client-v2/src/utils/common.ts`). `Math.random()` is a parameter, over the reals.
 */
module RandomBigInt {
  import opened LittleEndian

  const TwoTo64 := 0x1_0000_0000_0000_0000

  /** What `Math.random()` may give */
  predicate IsDraw(r: real) {
    0.0 <= r < 1.0
  }

  function RandomInt(min: int, max: int, r: real): int {
    (r * ((max - min + 1) as real) + min as real).Floor
  }

  /** The element of a `BigUint64Array` */
  function AsUint64(n: int): (u: nat)
    ensures u < TwoTo64
  {
    n % TwoTo64
  }

  /** What is drawn for each byte. */
  function Drawn(bytes: seq<nat>, draws: seq<real>): (drawn: seq<int>)
    requires |draws| == |bytes|
    ensures |drawn| == |bytes|
    ensures forall i | 0 <= i < |bytes| :: drawn[i] == if bytes[i] == 0 then 0 else RandomInt(0, bytes[i], draws[i])
  {
    seq(|bytes|, i requires 0 <= i < |bytes| => if bytes[i] == 0 then 0 else RandomInt(0, bytes[i], draws[i]))
  }

  /** A drawn integer stays in its range. */
  lemma RandomIntStays(min: int, max: int, r: real)
    requires min <= max && IsDraw(r)
    ensures min <= RandomInt(min, max, r) <= max
  {
    var width := (max - min + 1) as real;
    assert 0.0 <= r * width < width by { ScaledBelow(r, width); }
  }

  lemma ScaledBelow(r: real, width: real)
    requires IsDraw(r) && width > 0.0
    ensures 0.0 <= r * width < width
  {
  }

  /** Each integer of the range can be drawn. */
  lemma RandomIntReaches(min: int, max: int, n: int) returns (r: real)
    requires min <= n <= max
    ensures IsDraw(r) && RandomInt(min, max, r) == n
  {
    var width := (max - min + 1) as real;
    r := (n - min) as real / width;
    Ratio((n - min) as real, width);
  }

  lemma Ratio(part: real, whole: real)
    requires 0.0 <= part < whole
    ensures IsDraw(part / whole) && part / whole * whole == part
  {
    var r := part / whole;
    assert r * whole == part;
    Scales(r, 1.0, whole);
  }

  lemma Scales(r: real, s: real, whole: real)
    requires whole > 0.0
    ensures r >= s ==> r * whole >= s * whole
  {}

  lemma EightBytes()
    ensures Pow256(8) == TwoTo64
  {}

  predicate AreDraws(draws: seq<real>) {
    |draws| == 8 && forall i | 0 <= i < 8 :: IsDraw(draws[i])
  }

  lemma DrawnStays(bytes: seq<nat>, draws: seq<real>)
    requires |bytes| == 8 && AreDraws(draws)
    ensures forall i | 0 <= i < 8 :: 0 <= Drawn(bytes, draws)[i] <= bytes[i]
  {
    hide RandomInt;
    forall i | 0 <= i < 8 ensures 0 <= Drawn(bytes, draws)[i] <= bytes[i] {
      RandomIntStays(0, bytes[i], draws[i]);
    }
  }

  /** The result for the given draws: the reduction over the bytes of the width of the range. */
  method GenerateRandomBigInt(min: int, max: int, draws: seq<real>) returns (value: int)
    requires AreDraws(draws)
    ensures Reaches(min, max, draws, value)
    ensures min <= value <= min + AsUint64(max - min)
    ensures min <= value <= max <==> min <= max
  {
    var bytes := Bytes(AsUint64(max - min), 8);
    var acc, scale := 0, 1;
    ghost var drawn: seq<nat> := [];
    DrawnStays(bytes, draws);
    hide RandomInt, AsUint64;
    for i := 0 to 8
      invariant |drawn| == i && drawn == Drawn(bytes, draws)[..i]
      invariant acc == Value(drawn) && scale == Pow256(i)
    {
      var digit := if bytes[i] == 0 then 0 else RandomInt(0, bytes[i], draws[i]);
      assert digit == Drawn(bytes, draws)[i];
      ValueAppends(drawn, digit);
      acc := acc + digit * scale;
      drawn := drawn + [digit];
      scale := 256 * scale;
    }
    value := acc + min;
    assert drawn == Drawn(bytes, draws);
    InRange(min, max, draws, drawn);
  }

  /** `value` is what the draws give. */
  ghost predicate Reaches(min: int, max: int, draws: seq<real>, value: int)
    requires AreDraws(draws)
  {
    exists drawn: seq<nat> :: drawn == Drawn(Bytes(AsUint64(max - min), 8), draws) && value == min + Value(drawn)
  }

  lemma InRange(min: int, max: int, draws: seq<real>, drawn: seq<nat>)
    requires AreDraws(draws) && drawn == Drawn(Bytes(AsUint64(max - min), 8), draws)
    ensures Value(drawn) <= AsUint64(max - min)
    ensures min <= max ==> AsUint64(max - min) <= max - min
  {
    var width := AsUint64(max - min);
    DrawnStays(Bytes(width, 8), draws);
    ValueIsMonotone(drawn, Bytes(width, 8));
    EightBytes();
    ValueOfBytes(width, 8);
    hide Value, Bytes, Drawn, Pow256;
    assert min <= max ==> (max - min) % TwoTo64 <= max - min;
  }

  predicate AtMost(a: seq<nat>, b: seq<nat>) {
    |a| == |b| && forall i | 0 <= i < |a| :: a[i] <= b[i]
  }

  /** Some draws give `value`. */
  ghost predicate CanGive(min: int, max: int, value: int) {
    exists draws: seq<real> :: AreDraws(draws) && Reaches(min, max, draws, value)
  }

  lemma GivenIsBytewiseAtMost(min: int, max: int, draws: seq<real>, value: int)
    requires AreDraws(draws) && Reaches(min, max, draws, value)
    ensures 0 <= value - min < TwoTo64 && AtMost(Bytes(value - min, 8), Bytes(AsUint64(max - min), 8))
  {
    var bytes := Bytes(AsUint64(max - min), 8);
    hide AsUint64, Bytes, Value, RandomInt;
    var drawn: seq<nat> :| drawn == Drawn(bytes, draws) && value == min + Value(drawn);
    DrawnStays(bytes, draws);
    EightBytes();
    hide Drawn;
    assert AtMost(drawn, bytes);
    AtMostIsBytes(drawn, bytes);
  }

  lemma AtMostIsBytes(drawn: seq<nat>, bytes: seq<nat>)
    requires AtMost(drawn, bytes) && forall i | 0 <= i < |bytes| :: bytes[i] < 256
    ensures Bytes(Value(drawn), |bytes|) == drawn && Value(drawn) < Pow256(|bytes|)
  {
    hide Bytes, Value, Pow256;
    BytesOfValue(drawn);
  }

  lemma BytewiseAtMostIsGiven(min: int, max: int, value: int)
    requires 0 <= value - min < TwoTo64 && AtMost(Bytes(value - min, 8), Bytes(AsUint64(max - min), 8))
    ensures CanGive(min, max, value)
  {
    hide RandomInt, AsUint64, Bytes, Value;
    var bytes, digits := Bytes(AsUint64(max - min), 8), Bytes(value - min, 8);
    EightBytes();
    ValueOfBytes(value - min, 8);
    var draws := DrawsFor(bytes, digits, 8);
    assert AreDraws(draws);
    assert digits == Drawn(bytes, draws) && value == min + Value(digits);
    assert Reaches(min, max, draws, value);
  }

  /** The values some draws give: exactly those whose distance from `min` has no byte above that of the width. */
  lemma GivesExactly(min: int, max: int, value: int)
    ensures CanGive(min, max, value) <==>
      0 <= value - min < TwoTo64 && AtMost(Bytes(value - min, 8), Bytes(AsUint64(max - min), 8))
  {
    hide Reaches, AsUint64, Bytes, AtMost, AreDraws;
    if draws: seq<real> :| AreDraws(draws) && Reaches(min, max, draws, value) {
      GivenIsBytewiseAtMost(min, max, draws, value);
    }
    if 0 <= value - min < TwoTo64 && AtMost(Bytes(value - min, 8), Bytes(AsUint64(max - min), 8)) {
      BytewiseAtMostIsGiven(min, max, value);
    }
  }

  /** So both ends of a range narrower than 64 bits can be given. */
  lemma EndsAreGiven(min: int, max: int)
    requires 0 <= max - min < TwoTo64
    ensures CanGive(min, max, min) && CanGive(min, max, max)
  {
    assert AsUint64(max - min) == max - min;
    GivesExactly(min, max, min);
    GivesExactly(min, max, max);
    hide CanGive, Bytes, AsUint64;
    ZeroBytes(8);
  }

  /** Below its highest byte that is not zero, every byte is 255. */
  predicate IsSolid(bytes: seq<nat>) {
    forall i, j | 0 <= i < j < |bytes| && bytes[j] != 0 :: bytes[i] == 255
  }

  lemma {:induction false} SomeByteIsSet(n: nat, count: nat) returns (j: nat)
    requires 0 < n < Pow256(count)
    ensures j < count && Bytes(n, count)[j] != 0
  {
    if n % 256 != 0 {
      j := 0;
    } else {
      j := SomeByteIsSet(n / 256, count - 1);
      j := j + 1;
    }
  }

  lemma SolidBelow(n: nat, count: nat)
    requires count > 0 && n < Pow256(count)
    ensures n / 256 < Pow256(count - 1)
    ensures Bytes(n, count)[0] == n % 256 && Bytes(n, count)[1..] == Bytes(n / 256, count - 1)
    ensures IsSolid(Bytes(n, count)) <==> IsSolid(Bytes(n / 256, count - 1)) && (n / 256 > 0 ==> n % 256 == 255)
  {
    var bytes, tail := Bytes(n, count), Bytes(n / 256, count - 1);
    assert bytes == [n % 256] + tail;
    hide Bytes;
    if n / 256 > 0 {
      var j := SomeByteIsSet(n / 256, count - 1);
      assert bytes[j + 1] != 0;
    } else {
      ZeroBytes(count - 1);
    }
    assert forall i | 0 <= i < |tail| :: tail[i] == bytes[i + 1];
  }

  /** Up to a solid number, no number has a byte above its. */
  lemma {:induction false} SolidBoundsBytes(n: nat, width: nat, count: nat)
    requires n <= width < Pow256(count) && IsSolid(Bytes(width, count))
    ensures AtMost(Bytes(n, count), Bytes(width, count))
  {
    if count > 0 {
      SolidBelow(width, count);
      SolidBelow(n, count);
      SolidBoundsBytes(n / 256, width / 256, count - 1);
      AtMostWithFirst(Bytes(n, count), Bytes(width, count));
    }
  }

  lemma AtMostWithFirst(a: seq<nat>, b: seq<nat>)
    requires |a| == |b| > 0
    ensures AtMost(a, b) <==> a[0] <= b[0] && AtMost(a[1..], b[1..])
  {
    assert forall i | 0 < i < |a| :: a[i] == a[1..][i - 1] && b[i] == b[1..][i - 1];
  }

  /** Up to any other number, one has. */
  lemma {:induction false} GapBelow(width: nat, count: nat) returns (n: nat)
    requires width < Pow256(count) && !IsSolid(Bytes(width, count))
    ensures n <= width && !AtMost(Bytes(n, count), Bytes(width, count))
  {
    assert count > 0 by { assert count == 0 ==> IsSolid(Bytes(width, count)); }
    hide Bytes, IsSolid, AtMost;
    SolidBelow(width, count);
    if IsSolid(Bytes(width / 256, count - 1)) {
      n := 255;
    } else {
      var m := GapBelow(width / 256, count - 1);
      n := 256 * m;
      assert n / 256 == m;
    }
    assert n <= width;
    SolidBelow(n, count);
    AtMostWithFirst(Bytes(n, count), Bytes(width, count));
  }

  /**
   * Every value of a range can be given exactly when the width fits 64 bits and
   * every byte below its highest that is not zero is 255.
   */
  lemma EveryValueIsGivenExactly(min: int, max: int)
    requires min <= max
    ensures (forall value | min <= value <= max :: CanGive(min, max, value)) <==>
            max - min < TwoTo64 && IsSolid(Bytes(max - min, 8))
  {
    hide CanGive, Bytes, IsSolid, AtMost;
    var width := max - min;
    EightBytes();
    if width >= TwoTo64 {
      GivesExactly(min, max, max);
    } else {
      assert AsUint64(width) == width;
      hide AsUint64;
      if IsSolid(Bytes(width, 8)) {
        forall value | min <= value <= max ensures CanGive(min, max, value) {
          SolidBoundsBytes(value - min, width, 8);
          GivesExactly(min, max, value);
        }
      } else {
        var n := GapBelow(width, 8);
        GivesExactly(min, max, min + n);
        assert !CanGive(min, max, min + n);
      }
    }
  }

  /** Not each value between can: never the second of 257. */
  lemma NotEachValueIsGiven(min: int)
    ensures !CanGive(min, min + 256, min + 1)
  {}

  lemma {:induction false} DrawsFor(bytes: seq<nat>, digits: seq<nat>, count: nat) returns (draws: seq<real>)
    requires |bytes| == |digits| && count <= |bytes| && forall i | 0 <= i < |bytes| :: digits[i] <= bytes[i]
    ensures |draws| == count && forall i | 0 <= i < count :: IsDraw(draws[i])
    ensures forall i | 0 <= i < count :: digits[i] == if bytes[i] == 0 then 0 else RandomInt(0, bytes[i], draws[i])
  {
    hide RandomInt;
    if count == 0 {
      draws := [];
    } else {
      draws := DrawsFor(bytes, digits, count - 1);
      var r := RandomIntReaches(0, bytes[count - 1], digits[count - 1]);
      draws := draws + [r];
    }
  }
}
