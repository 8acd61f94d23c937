/**
 * Shard selection (`chooseRiemann`): a polynomial rolling hash of the metric name, taken over
 * its UTF-16 code units with Java 32-bit int wrap-around, reduced to an index into the
 * client pool by `Math.abs(hash % clients.length)`.
 */
module Shard {
  import JavaInt

  const Seed: int := 7
  const Multiplier: int := 31

  /** The UTF-16 code units of one character, as Java's `String.charAt` sees them. */
  function CodeUnits(c: char): (u: seq<int>)
    ensures 1 <= |u| <= 2
    ensures forall i :: 0 <= i < |u| ==> 0 <= u[i] < 0x1_0000
    ensures |u| == 1 <==> c as int < 0x1_0000
    ensures |u| == 1 ==> u[0] == c as int
  {
    var v := c as int;
    if v < 0x1_0000 then [v]
    else
      var w := v - 0x1_0000;
      [0xD800 + w / 0x400, 0xDC00 + w % 0x400]
  }

  predicate IsBmp(s: string) {
    forall i :: 0 <= i < |s| ==> s[i] as int < 0x1_0000
  }

  /** The Java string holding `s`: its sequence of UTF-16 code units. */
  function Utf16(s: string): (u: seq<int>)
    ensures forall i :: 0 <= i < |u| ==> 0 <= u[i] < 0x1_0000
    ensures |u| >= |s|
    ensures IsBmp(s) ==> |u| == |s| && forall i :: 0 <= i < |s| ==> u[i] == s[i] as int
  {
    if s == [] then [] else CodeUnits(s[0]) + Utf16(s[1..])
  }

  /** One iteration of the loop: `hash = hash * 31 + service.charAt(i)` in int arithmetic. */
  function Step(hash: int, unit: int): int {
    JavaInt.Add(JavaInt.Mul(hash, Multiplier), unit)
  }

  /** The hash after folding every code unit, left to right, into the seed. */
  function Hash(units: seq<int>): (h: int)
    ensures JavaInt.IsInt(h)
  {
    if units == [] then Seed else Step(Hash(units[..|units| - 1]), units[|units| - 1])
  }

  function Pow(b: int, e: nat): int {
    if e == 0 then 1 else b * Pow(b, e - 1)
  }

  /** The sum of `units[i] * 31^(|units| - 1 - i)`, taken without any overflow. */
  function Weighted(units: seq<int>): int {
    if units == [] then 0 else units[0] * Pow(Multiplier, |units| - 1) + Weighted(units[1..])
  }

  /** The exact polynomial `7 * 31^n + sum of units[i] * 31^(n - 1 - i)` the loop computes modulo 2^32. */
  function Polynomial(units: seq<int>): int {
    Seed * Pow(Multiplier, |units|) + Weighted(units)
  }

  lemma {:induction false} WeightedAppend(units: seq<int>, c: int)
    ensures Weighted(units + [c]) == Weighted(units) * Multiplier + c
  {
    if units == [] {
      assert Weighted([c]) == c * Pow(Multiplier, 0) + Weighted([]);
    } else {
      var a, rest := units[0], units[1..];
      assert (units + [c])[0] == a && (units + [c])[1..] == rest + [c];
      WeightedAppend(rest, c);
      var p := Pow(Multiplier, |rest|);
      assert Pow(Multiplier, |rest| + 1) == Multiplier * p;
      calc {
        Weighted(units + [c]);
        a * Pow(Multiplier, |rest| + 1) + Weighted(rest + [c]);
        a * (Multiplier * p) + Weighted(rest) * Multiplier + c;
        { assert a * (Multiplier * p) == (a * p) * Multiplier; }
        (a * p + Weighted(rest)) * Multiplier + c;
        Weighted(units) * Multiplier + c;
      }
    }
  }

  /** The wrapping loop computes the exact polynomial hash, truncated to 32 bits. */
  lemma {:induction false} HashIsWrappedPolynomial(units: seq<int>)
    ensures Hash(units) == JavaInt.Wrap(Polynomial(units))
  {
    if units != [] {
      var init, c := units[..|units| - 1], units[|units| - 1];
      assert units == init + [c];
      HashIsWrappedPolynomial(init);
      WeightedAppend(init, c);
      assert Pow(Multiplier, |init| + 1) == Multiplier * Pow(Multiplier, |init|);
      StepTracksPolynomial(Polynomial(init), c);
    }
  }

  /** One wrapped loop step on the wrapped hash agrees with the exact step, truncated. */
  lemma StepTracksPolynomial(p: int, c: int)
    ensures Step(JavaInt.Wrap(p), c) == JavaInt.Wrap(p * Multiplier + c)
  {
    var h := JavaInt.Wrap(p);
    var q1 := (p - JavaInt.IntMin) / JavaInt.Modulus;
    var m := JavaInt.Wrap(h * Multiplier);
    var q2 := (h * Multiplier - JavaInt.IntMin) / JavaInt.Modulus;
    assert h * Multiplier == p * Multiplier - (q1 * Multiplier) * JavaInt.Modulus;
    assert m + c == (p * Multiplier + c) + (-(q1 * Multiplier) - q2) * JavaInt.Modulus;
    JavaInt.WrapShift(p * Multiplier + c, -(q1 * Multiplier) - q2);
  }

  /** `Math.abs(hash % n)` for the hash of `units`. */
  function ShardIndex(units: seq<int>, n: int): (r: int)
    requires 1 <= n <= JavaInt.IntMax
    ensures 0 <= r < n
    ensures r == JavaInt.Magnitude(Hash(units)) % n
    ensures n == 1 ==> r == 0
  {
    JavaInt.Abs(JavaInt.Rem(Hash(units), n))
  }

  /** `chooseRiemann(service)` with `clients.length == clientCount`. */
  method ChooseRiemann(service: string, clientCount: int) returns (index: int)
    requires 1 <= clientCount <= JavaInt.IntMax
    ensures index == ShardIndex(Utf16(service), clientCount)
    ensures 0 <= index < clientCount
  {
    var units := Utf16(service);
    var hash := Seed;
    var i := 0;
    while i < |units|
      invariant 0 <= i <= |units|
      invariant hash == Hash(units[..i])
    {
      assert units[..i + 1][..i] == units[..i];
      hash := JavaInt.Add(JavaInt.Mul(hash, Multiplier), units[i]);
      i := i + 1;
    }
    assert units[..i] == units;
    index := JavaInt.Abs(JavaInt.Rem(hash, clientCount));
  }
}
