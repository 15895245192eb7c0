/** Mixed-radix integers: a sequence of digits d0, d1, ... with radixes w0, w1, ...
    (least-significant digit first) encoding d0 + w0*d1 + w0*w1*d2 + ... .
    The runtime ranges use them to name runtime instances by their
    (channel, bank, bank, ...) coordinates. */
module MixedRadix {

  /** The number of values representable with the given radixes. */
  function Prod(rs: seq<int>): (p: int)
    ensures IsRadixes(rs) ==> p >= 1
  {
    if rs == [] then 1
    else
      var rest := Prod(rs[1..]);
      MulPositive(rs[0], rest);
      rs[0] * rest
  }

  ghost predicate IsRadixes(rs: seq<int>)
  {
    forall i :: 0 <= i < |rs| ==> rs[i] >= 1
  }

  ghost predicate IsDigits(ds: seq<int>, rs: seq<int>)
  {
    |ds| == |rs| && forall i :: 0 <= i < |ds| ==> 0 <= ds[i] < rs[i]
  }

  /** The integer encoded by digits ds in radixes rs. */
  function Value(ds: seq<int>, rs: seq<int>): int
    requires |ds| == |rs|
  {
    if ds == [] then 0 else ds[0] + rs[0] * Value(ds[1..], rs[1..])
  }

  /** Standard mixed-radix decoding of c (modulo Prod(rs)) by successive division. */
  function Decode(c: nat, rs: seq<int>): (ds: seq<int>)
    requires IsRadixes(rs)
    ensures |ds| == |rs|
  {
    if rs == [] then [] else [c % rs[0]] + Decode(c / rs[0], rs[1..])
  }

  /** Every decoded digit lies below its radix. */
  lemma {:induction false} DecodeIsDigits(c: nat, rs: seq<int>)
    requires IsRadixes(rs)
    ensures IsDigits(Decode(c, rs), rs)
  {
    if rs != [] {
      DecodeIsDigits(c / rs[0], rs[1..]);
    }
  }

  /** Add one with carry; incrementing the largest value wraps around to all zeros. */
  function Successor(ds: seq<int>, rs: seq<int>): (r: seq<int>)
    requires |ds| == |rs|
    ensures |r| == |rs|
  {
    if ds == [] then []
    else if ds[0] + 1 < rs[0] then [ds[0] + 1] + ds[1..]
    else [0] + Successor(ds[1..], rs[1..])
  }

  /** Incrementing keeps every digit below its radix. */
  lemma {:induction false} SuccessorIsDigits(ds: seq<int>, rs: seq<int>)
    requires IsDigits(ds, rs)
    ensures IsDigits(Successor(ds, rs), rs)
  {
    if ds != [] && ds[0] + 1 >= rs[0] {
      SuccessorIsDigits(ds[1..], rs[1..]);
    }
  }

  /** A mixed-radix number, as the generator's MixedRadixInt. */
  datatype MixedRadixInt = MixedRadixInt(digits: seq<int>, radixes: seq<int>)
  {
    ghost predicate Valid()
    {
      IsRadixes(radixes) && IsDigits(digits, radixes)
    }

    /** The encoded integer. */
    function Get(): int
      requires |digits| == |radixes|
    {
      Value(digits, radixes)
    }

    /** The number one larger, modulo the number of representable values. */
    function Increment(): (r: MixedRadixInt)
      requires Valid()
      ensures r.Valid() && r.radixes == radixes
    {
      SuccessorIsDigits(digits, radixes);
      MixedRadixInt(Successor(digits, radixes), radixes)
    }

    /** The number with the n low-order digits (and their radixes) removed:
        the coordinates of an ancestor n levels up. */
    function Drop(n: nat): (r: MixedRadixInt)
      requires n <= |digits| && |digits| == |radixes|
      ensures Valid() ==> r.Valid()
      ensures |r.digits| == |digits| - n
    {
      MixedRadixInt(digits[n..], radixes[n..])
    }

    /** Reorder digits and radixes: digit j of the result is digit p[j] of this number. */
    function Permute(p: seq<nat>): (r: MixedRadixInt)
      requires |digits| == |radixes|
      requires forall j :: 0 <= j < |p| ==> p[j] < |digits|
      ensures |r.digits| == |r.radixes| == |p|
      ensures Valid() ==> r.Valid()
    {
      MixedRadixInt(seq(|p|, j requires 0 <= j < |p| => digits[p[j]]),
                    seq(|p|, j requires 0 <= j < |p| => radixes[p[j]]))
    }
  }

  lemma MulPositive(a: int, b: int)
    ensures a >= 1 && b >= 1 ==> a * b >= 1 && a * b >= b && a * b >= a
  {
  }

  lemma MulAssoc(x: int, y: int, z: int)
    ensures x * (y * z) == (x * y) * z
  {
  }

  lemma {:induction false} ProdConcat(x: seq<int>, y: seq<int>)
    ensures Prod(x + y) == Prod(x) * Prod(y)
  {
    if x != [] {
      assert (x + y)[1..] == x[1..] + y;
      ProdConcat(x[1..], y);
      MulAssoc(x[0], Prod(x[1..]), Prod(y));
    } else {
      assert x + y == y;
    }
  }

  lemma MulMonotone(x: int, y: int, z: int)
    requires x >= 0 && y <= z
    ensures x * y <= x * z
  {
  }

  lemma MulNonNegative(x: int, y: int)
    requires x >= 0 && y >= 0
    ensures x * y >= 0
  {
  }

  lemma MulPred(x: int, y: int)
    ensures x * (y - 1) == x * y - x
  {
  }

  /** Euclidean division is determined by quotient and remainder. */
  lemma DivModUnique(c: int, m: int, q: int, r: int)
    requires m > 0 && 0 <= r < m && c == q * m + r
    ensures c / m == q && c % m == r
  {
    var q0, r0 := c / m, c % m;
    assert c == q0 * m + r0;
    assert (q - q0) * m == q * m - q0 * m;
    ZeroMultiple(q - q0, m, r0 - r);
  }

  lemma ZeroMultiple(d: int, m: int, e: int)
    requires m > 0 && -m < e < m && d * m == e
    ensures d == 0
  {
    if d >= 1 {
      MulPositive(d, m);
    } else if d <= -1 {
      MulPositive(-d, m);
    }
  }

  /** Dividing by a*b is dividing by a, then by b; the remainder splits accordingly. */
  lemma ModMul(c: nat, a: int, b: int)
    requires a >= 1 && b >= 1
    ensures c / (a * b) == (c / a) / b
    ensures c % (a * b) == c % a + a * ((c / a) % b)
  {
    var q1, s := c / a, c % a;
    var q2, t := q1 / b, q1 % b;
    assert c == q1 * a + s;
    assert q1 == q2 * b + t;
    assert c == q2 * (a * b) + (t * a + s) by {
      calc {
        c;
        == q1 * a + s;
        == (q2 * b + t) * a + s;
        == q2 * b * a + t * a + s;
        == q2 * (a * b) + (t * a + s);
      }
    }
    MulMonotone(a, t, b - 1);
    MulPred(a, b);
    MulNonNegative(a, t);
    assert t * a == a * t;
    DivModUnique(c, a * b, q2, t * a + s);
  }

  /** Every digit sequence encodes a value in [0, Prod(rs)). */
  lemma {:induction false} ValueBound(ds: seq<int>, rs: seq<int>)
    requires IsRadixes(rs) && IsDigits(ds, rs)
    ensures 0 <= Value(ds, rs) < Prod(rs)
  {
    if ds != [] {
      ValueBound(ds[1..], rs[1..]);
      var v, p := Value(ds[1..], rs[1..]), Prod(rs[1..]);
      MulMonotone(rs[0], v, p - 1);
      MulNonNegative(rs[0], v);
      MulPred(rs[0], p);
    }
  }

  /** Decoding then evaluating gives back c modulo the number of representable values. */
  lemma {:induction false} DecodeValue(c: nat, rs: seq<int>)
    requires IsRadixes(rs)
    ensures Value(Decode(c, rs), rs) == c % Prod(rs)
  {
    if rs != [] {
      DecodeValue(c / rs[0], rs[1..]);
      ModMul(c, rs[0], Prod(rs[1..]));
    }
  }

  /** Evaluating then decoding gives back the digits: the mixed-radix round trip. */
  lemma {:induction false} ValueDecode(ds: seq<int>, rs: seq<int>)
    requires IsRadixes(rs) && IsDigits(ds, rs)
    ensures Value(ds, rs) >= 0 && Decode(Value(ds, rs), rs) == ds
  {
    ValueBound(ds, rs);
    if ds != [] {
      var v := Value(ds[1..], rs[1..]);
      ValueBound(ds[1..], rs[1..]);
      DivModUnique(Value(ds, rs), rs[0], v, ds[0]);
      ValueDecode(ds[1..], rs[1..]);
    }
  }

  /** Distinct digit sequences encode distinct values. */
  lemma ValueInjective(xs: seq<int>, ys: seq<int>, rs: seq<int>)
    requires IsRadixes(rs) && IsDigits(xs, rs) && IsDigits(ys, rs)
    requires Value(xs, rs) == Value(ys, rs)
    ensures xs == ys
  {
    ValueDecode(xs, rs);
    ValueDecode(ys, rs);
  }

  /** Values below Prod(rs) have distinct decodings. */
  lemma DecodeInjective(c1: nat, c2: nat, rs: seq<int>)
    requires IsRadixes(rs) && c1 < Prod(rs) && c2 < Prod(rs)
    requires Decode(c1, rs) == Decode(c2, rs)
    ensures c1 == c2
  {
    DecodeValue(c1, rs);
    DecodeValue(c2, rs);
    DivModUnique(c1, Prod(rs), 0, c1);
    DivModUnique(c2, Prod(rs), 0, c2);
  }

  lemma DivModSpec(c: int, m: int)
    requires m > 0
    ensures c == (c / m) * m + c % m && 0 <= c % m < m
  {
  }

  /** The successor of the decoding of c is the decoding of c + 1. */
  lemma {:induction false} SuccessorDecode(c: nat, rs: seq<int>)
    requires IsRadixes(rs)
    ensures Successor(Decode(c, rs), rs) == Decode(c + 1, rs)
  {
    if rs != [] {
      var r := rs[0];
      DivModSpec(c, r);
      if c % r + 1 < r {
        SuccessorNoCarry(c, rs);
      } else {
        SuccessorDecode(c / r, rs[1..]);
        SuccessorCarry(c, rs);
      }
    }
  }

  lemma SuccessorNoCarry(c: nat, rs: seq<int>)
    requires IsRadixes(rs) && rs != [] && c % rs[0] + 1 < rs[0]
    ensures Successor(Decode(c, rs), rs) == Decode(c + 1, rs)
  {
    var r := rs[0];
    var q, m := c / r, c % r;
    DivModSpec(c, r);
    var ds := Decode(c, rs);
    assert ds[0] == m && ds[1..] == Decode(q, rs[1..]);
    DivModUnique(c + 1, r, q, m + 1);
    assert Successor(ds, rs) == [m + 1] + ds[1..];
  }

  lemma SuccessorCarry(c: nat, rs: seq<int>)
    requires IsRadixes(rs) && rs != [] && c % rs[0] + 1 >= rs[0]
    requires Successor(Decode(c / rs[0], rs[1..]), rs[1..]) == Decode(c / rs[0] + 1, rs[1..])
    ensures Successor(Decode(c, rs), rs) == Decode(c + 1, rs)
  {
    var r := rs[0];
    var q, m := c / r, c % r;
    DivModSpec(c, r);
    var ds := Decode(c, rs);
    assert ds[0] == m && ds[1..] == Decode(q, rs[1..]);
    DivModUnique(c + 1, r, q + 1, 0);
    assert Successor(ds, rs) == [0] + Successor(ds[1..], rs[1..]);
  }

  lemma {:induction false} SuccessorValue(ds: seq<int>, rs: seq<int>)
    requires IsRadixes(rs) && IsDigits(ds, rs)
    ensures Value(Successor(ds, rs), rs) == (Value(ds, rs) + 1) % Prod(rs)
  {
    ValueDecode(ds, rs);
    var v := Value(ds, rs);
    SuccessorDecode(v, rs);
    DecodeValue(v + 1, rs);
  }

  /** Digit k of the decoding is (c / (w0 * ... * w(k-1))) % wk, as computed by startMR. */
  lemma {:induction false} DecodeDigit(c: nat, rs: seq<int>, k: nat)
    requires IsRadixes(rs) && k < |rs|
    ensures Prod(rs[..k]) >= 1
    ensures Decode(c, rs)[k] == (c / Prod(rs[..k])) % rs[k]
  {
    if k > 0 {
      DecodeDigit(c / rs[0], rs[1..], k - 1);
      assert rs[..k][1..] == rs[1..][..k - 1];
      ModMul(c, rs[0], Prod(rs[1..][..k - 1]));
    }
  }

  /** The digits of c below k and the product of the radixes below k extend by one place. */
  lemma DecodePrefixStep(c: nat, rs: seq<int>, k: nat, factor: int, digits: seq<int>)
    requires IsRadixes(rs) && k < |rs|
    requires digits == Decode(c, rs)[..k] && factor == Prod(rs[..k])
    ensures factor >= 1
    ensures digits + [(c / factor) % rs[k]] == Decode(c, rs)[..k + 1]
    ensures factor * rs[k] == Prod(rs[..k + 1])
  {
    DecodeDigit(c, rs, k);
    ProdPrefix(rs, k);
    assert Decode(c, rs)[..k + 1] == Decode(c, rs)[..k] + [Decode(c, rs)[k]];
  }

  lemma {:induction false} DecodeZero(rs: seq<int>)
    requires IsRadixes(rs)
    ensures Decode(0, rs) == seq(|rs|, _ => 0)
  {
    if rs != [] {
      DecodeZero(rs[1..]);
    }
  }

  /** Dropping the n low-order digits divides the value by the product of their radixes. */
  lemma {:induction false} DropValue(ds: seq<int>, rs: seq<int>, n: nat)
    requires IsRadixes(rs) && IsDigits(ds, rs) && n <= |rs|
    ensures Prod(rs[..n]) >= 1
    ensures Value(ds[n..], rs[n..]) == Value(ds, rs) / Prod(rs[..n])
  {
    ValueBound(ds, rs);
    if n > 0 {
      ValueBound(ds[1..], rs[1..]);
      var v := Value(ds[1..], rs[1..]);
      DivModUnique(Value(ds, rs), rs[0], v, ds[0]);
      DropValue(ds[1..], rs[1..], n - 1);
      assert rs[..n][1..] == rs[1..][..n - 1];
      assert ds[1..][n - 1..] == ds[n..] && rs[1..][n - 1..] == rs[n..];
      ModMul(Value(ds, rs), rs[0], Prod(rs[1..][..n - 1]));
    }
  }

  /** Incrementing the decoding of c gives the decoding of c + 1. */
  lemma IncrementDecode(c: nat, rs: seq<int>)
    requires IsRadixes(rs)
    ensures IsDigits(Decode(c, rs), rs)
    ensures MixedRadixInt(Decode(c, rs), rs).Increment() == MixedRadixInt(Decode(c + 1, rs), rs)
  {
    DecodeIsDigits(c, rs);
    SuccessorDecode(c, rs);
  }

  /** Extending a prefix of the radixes by one multiplies its product by that radix. */
  lemma ProdPrefix(rs: seq<int>, k: nat)
    requires k < |rs|
    ensures Prod(rs[..k + 1]) == Prod(rs[..k]) * rs[k]
  {
    assert rs[..k + 1] == rs[..k] + [rs[k]];
    ProdConcat(rs[..k], [rs[k]]);
  }

  /** Permuting by the identity changes nothing. */
  lemma PermuteIdentity(m: MixedRadixInt)
    requires |m.digits| == |m.radixes|
    ensures m.Permute(seq(|m.digits|, j => j)) == m
  {
  }

  /** Incrementing adds one to the value, wrapping around after the largest representable value. */
  lemma IncrementValue(m: MixedRadixInt)
    requires m.Valid()
    ensures m.Increment().Get() == (m.Get() + 1) % Prod(m.radixes)
  {
    SuccessorValue(m.digits, m.radixes);
  }
}
