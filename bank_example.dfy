/** The two-level bank example of the RuntimeRange documentation: a top-level reactor holding a
    bank A of width 2, each holding a bank B of width 2, each with a multiport P of width 2. */
module BankExample {
  import opened Wrappers
  import opened InstanceGraph
  import opened RuntimeRanges
  import opened MixedRadix
  import Seqs

  /** Node 0 is the top-level reactor, then A, B and P. */
  function BankArena(): Arena
  {
    [Node(1, 0, 0), Node(2, 0, 1), Node(2, 1, 2), Node(2, 2, 3)]
  }

  const A: nat := 1
  const B: nat := 2
  const P: nat := 3

  /** Every width is at least 1 and every parent is one level up, so P is an instance. */
  lemma BankWellFormed()
    ensures WellFormed(BankArena()) && IsInstance(BankArena(), P)
  {
    var a := BankArena();
    forall i | 0 <= i < |a|
      ensures a[i].width >= 1 && (a[i].depth > 0 ==> a[i].parent < |a| && a[a[i].parent].depth == a[i].depth - 1)
    {
      assert i == 0 || i == 1 || i == 2 || i == 3;
    }
  }

  lemma BankArenaFacts()
    ensures WellFormed(BankArena()) && IsInstance(BankArena(), P)
    ensures Ancestors(BankArena(), B) == [B, A]
  {
    BankWellFormed();
    var a := BankArena();
    assert Ancestors(a, 0) == [];
    assert Ancestors(a, A) == [A];
  }

  /** Filtering a two-element chain. */
  lemma FilterPair(x: nat, y: nat, I: set<nat>, keep: bool)
    ensures Seqs.Filter([x, y], I, keep) ==
            (if (x in I) == keep then [x] else []) + (if (y in I) == keep then [y] else [])
  {
    assert [x, y][..1] == [x];
    assert [x][..0] == [];
    assert Seqs.Filter([x], I, keep) == (if (x in I) == keep then [x] else []);
  }

  /** The order of P for the interleaved set I, computed from the filtered ancestors of P. */
  lemma OrderFrom(I: set<nat>, before: seq<nat>, after: seq<nat>)
    requires Seqs.Filter([B, A], I, true) == before && Seqs.Filter([B, A], I, false) == after
    ensures WellFormed(BankArena()) && IsInstance(BankArena(), P)
    ensures IterationOrderOf(BankArena(), P, I) == Seqs.Reverse(before) + [P] + after
  {
    BankArenaFacts();
  }

  /** No interleaving: P varies fastest, then B, then A. */
  lemma OrderWithoutInterleaving()
    ensures IterationOrderOf(BankArena(), P, {}) == [P, B, A]
  {
    FilterPair(B, A, {}, true);
    FilterPair(B, A, {}, false);
    OrderFrom({}, [], [B, A]);
  }

  /** The connection within B to P interleaved: B varies fastest, then P, then A. */
  lemma OrderInterleavedAtB()
    ensures IterationOrderOf(BankArena(), P, {B}) == [B, P, A]
  {
    FilterPair(B, A, {B}, true);
    FilterPair(B, A, {B}, false);
    OrderFrom({B}, [B], [A]);
  }

  /** Both connections interleaved: A varies fastest, then B, then P. */
  lemma OrderInterleavedAtBoth()
    ensures IterationOrderOf(BankArena(), P, {A, B}) == [A, B, P]
  {
    FilterPair(B, A, {A, B}, true);
    FilterPair(B, A, {A, B}, false);
    assert Seqs.Reverse([B, A]) == [A, B];
    OrderFrom({A, B}, [B, A], []);
  }

  /** Only the connection within A to B interleaved: A varies fastest, then P, then B. */
  lemma OrderInterleavedAtA()
    ensures IterationOrderOf(BankArena(), P, {A}) == [A, P, B]
  {
    FilterPair(B, A, {A}, true);
    FilterPair(B, A, {A}, false);
    OrderFrom({A}, [A], [B]);
  }

  // The eight runtime instances of P, listed in each iteration order

  /** Digit k of c written in binary, least significant first. */
  function BinaryDigit(c: nat, k: nat): int
  {
    if k == 0 then c % 2 else BinaryDigit(c / 2, k - 1)
  }

  /** The range over all eight runtime instances of P, with the given interleaved reactors. */
  function BankRange(I: set<nat>): Range
  {
    Range(P, 0, 8, 8, I, None)
  }

  /** P's chain is P, B, A, each of width 2, so P has eight runtime instances. */
  lemma BankChain()
    ensures WellFormed(BankArena()) && IsInstance(BankArena(), P)
    ensures Chain(BankArena(), P) == [P, B, A] && Widths(BankArena(), [P, B, A]) == [2, 2, 2]
    ensures MaxWidth(BankArena(), P) == 8
  {
    BankArenaFacts();
    assert Prod([2, 2, 2]) == 8;
  }

  /** Decoding in three radixes of 2 gives the binary digits. */
  lemma DecodeBinary(c: nat)
    ensures Decode(c, [2, 2, 2]) == [BinaryDigit(c, 0), BinaryDigit(c, 1), BinaryDigit(c, 2)]
  {
    var c1 := c / 2;
    var c2 := c1 / 2;
    assert Decode(c2, [2]) == [c2 % 2] by {
      assert [2][1..] == [];
    }
    assert Decode(c1, [2, 2]) == [c1 % 2, c2 % 2] by {
      assert [2, 2][1..] == [2];
    }
    assert [2, 2, 2][1..] == [2, 2];
    assert BinaryDigit(c, 1) == c1 % 2 && BinaryDigit(c, 2) == BinaryDigit(c1, 1) == c2 % 2;
  }

  /** Three digits in radixes of 2, least significant first, are worth d0 + 2d1 + 4d2. */
  lemma BinaryValue(ds: seq<int>, rs: seq<int>)
    requires |ds| == |rs| == 3 && rs[0] == rs[1] == rs[2] == 2
    ensures Value(ds, rs) == ds[0] + 2 * ds[1] + 4 * ds[2]
  {
    var ds1, rs1 := ds[1..], rs[1..];
    var ds2, rs2 := ds1[1..], rs1[1..];
    assert Value(ds2[1..], rs2[1..]) == 0;
    assert Value(ds2, rs2) == ds[2];
    assert Value(ds1, rs1) == ds[1] + 2 * ds[2];
  }

  /** Step c decoded in three radixes of 2 and reordered by np is worth the binary digits at
      places np[0], np[1] and np[2], weighed 1, 2 and 4. */
  lemma PermutedBinary(c: nat, rs: seq<int>, np: seq<nat>)
    requires rs == [2, 2, 2] && |np| == 3 && np[0] < 3 && np[1] < 3 && np[2] < 3
    ensures MixedRadixInt(Decode(c, rs), rs).Permute(np).Get() ==
            BinaryDigit(c, np[0]) + 2 * BinaryDigit(c, np[1]) + 4 * BinaryDigit(c, np[2])
  {
    var ds := Decode(c, [2, 2, 2]);
    assert ds[np[0]] == BinaryDigit(c, np[0]) && ds[np[1]] == BinaryDigit(c, np[1]) &&
           ds[np[2]] == BinaryDigit(c, np[2]) by {
      DecodeBinary(c);
    }
    var m := MixedRadixInt(ds, [2, 2, 2]).Permute(np);
    assert m.digits[0] == ds[np[0]] && m.digits[1] == ds[np[1]] && m.digits[2] == ds[np[2]];
    assert m.radixes[0] == m.radixes[1] == m.radixes[2] == 2;
    BinaryValue(m.digits, m.radixes);
  }

  /** Whatever the interleaving, the iteration order is made of P, B and A, each of radix 2. */
  lemma BankRadixes(I: set<nat>, order: seq<nat>)
    requires WellFormed(BankArena()) && IsInstance(BankArena(), P) && IterationOrderOf(BankArena(), P, I) == order
    requires |order| == 3 && forall k :: 0 <= k < 3 ==> order[k] == P || order[k] == B || order[k] == A
    ensures IterationRadixes(BankArena(), P, I) == [2, 2, 2]
  {
    var rs := IterationRadixes(BankArena(), P, I);
    forall k | 0 <= k < 3 ensures rs[k] == 2 {
      assert rs[k] == BankArena()[order[k]].width;
    }
  }

  /** The natural permutation gives the places of P, B and A in the iteration order. */
  lemma BankPermutation(I: set<nat>, order: seq<nat>, placeP: nat, placeB: nat, placeA: nat)
    requires WellFormed(BankArena()) && IsInstance(BankArena(), P) && IterationOrderOf(BankArena(), P, I) == order
    requires |order| == 3 && placeP < 3 && placeB < 3 && placeA < 3
    requires order[placeP] == P && order[placeB] == B && order[placeA] == A
    ensures NaturalPermutation(BankArena(), P, I) == [placeP, placeB, placeA]
  {
    var chain := Chain(BankArena(), P);
    assert chain == [P, B, A] by {
      BankChain();
    }
    var np := NaturalPermutation(BankArena(), P, I);
    assert |np| == 3 && np[0] < 3 && np[1] < 3 && np[2] < 3;
    assert order[np[0]] == P && order[np[1]] == B && order[np[2]] == A;
    PlaceUnique(order, placeP, placeB, placeA, np[0]);
    PlaceUnique(order, placeP, placeB, placeA, np[1]);
    PlaceUnique(order, placeP, placeB, placeA, np[2]);
  }

  /** P, B and A each stand at one place only of a three-entry order holding all three. */
  lemma PlaceUnique(order: seq<nat>, placeP: nat, placeB: nat, placeA: nat, k: nat)
    requires |order| == 3 && placeP < 3 && placeB < 3 && placeA < 3 && k < 3
    requires order[placeP] == P && order[placeB] == B && order[placeA] == A
    ensures order[k] == P ==> k == placeP
    ensures order[k] == B ==> k == placeB
    ensures order[k] == A ==> k == placeA
  {
  }

  /** The natural identifier of step c is 4a + 2b + p for the instance A(a).B(b).P(p), where
      each of a, b and p is the binary digit of c at that reactor's place in the iteration order. */
  lemma BankId(I: set<nat>, placeP: nat, placeB: nat, placeA: nat, c: nat)
    requires WellFormed(BankArena()) && IsInstance(BankArena(), P)
    requires IterationRadixes(BankArena(), P, I) == [2, 2, 2]
    requires NaturalPermutation(BankArena(), P, I) == [placeP, placeB, placeA]
    ensures NaturalId(BankArena(), P, I, c) ==
            BinaryDigit(c, placeP) + 2 * BinaryDigit(c, placeB) + 4 * BinaryDigit(c, placeA)
  {
    PermutedBinary(c, IterationRadixes(BankArena(), P, I), NaturalPermutation(BankArena(), P, I));
  }

  /** For steps 0 to 7, the binary digits at places p, b and a weighed 1, 2 and 4. */
  function BinaryTable(p: nat, b: nat, a: nat): (t: seq<int>)
    ensures |t| == 8
  {
    seq(8, c requires 0 <= c < 8 => BinaryDigit(c, p) + 2 * BinaryDigit(c, b) + 4 * BinaryDigit(c, a))
  }

  /** The four tables of the documented iteration orders. */
  lemma BinaryTables()
    ensures BinaryTable(0, 1, 2) == [0, 1, 2, 3, 4, 5, 6, 7]
    ensures BinaryTable(1, 0, 2) == [0, 2, 1, 3, 4, 6, 5, 7]
    ensures BinaryTable(2, 1, 0) == [0, 4, 2, 6, 1, 5, 3, 7]
    ensures BinaryTable(1, 2, 0) == [0, 4, 1, 5, 2, 6, 3, 7]
  {
  }

  /** The identifiers of the full range of P, when P, B and A stand at places placeP, placeB and
      placeA of the iteration order. */
  lemma ListedBy(I: set<nat>, order: seq<nat>, placeP: nat, placeB: nat, placeA: nat)
    requires WellFormed(BankArena()) && IsInstance(BankArena(), P) && IterationOrderOf(BankArena(), P, I) == order
    requires |order| == 3 && forall k :: 0 <= k < 3 ==> order[k] == P || order[k] == B || order[k] == A
    requires placeP < 3 && placeB < 3 && placeA < 3
    requires order[placeP] == P && order[placeB] == B && order[placeA] == A
    ensures Valid(BankArena(), BankRange(I))
    ensures InstancesOf(BankArena(), BankRange(I)) == BinaryTable(placeP, placeB, placeA)
  {
    BankChain();
    BankRadixes(I, order);
    BankPermutation(I, order, placeP, placeB, placeA);
    forall k | 0 <= k < 8 ensures InstancesOf(BankArena(), BankRange(I))[k] == BinaryTable(placeP, placeB, placeA)[k] {
      InstancesAt(BankArena(), BankRange(I), k);
      BankId(I, placeP, placeB, placeA, k);
    }
  }

  /** No interleaving: the instances in the order A0.B0.P0, A0.B0.P1, A0.B1.P0, ... */
  lemma InstancesListedWithoutInterleaving()
    ensures Valid(BankArena(), BankRange({}))
    ensures InstancesOf(BankArena(), BankRange({})) == [0, 1, 2, 3, 4, 5, 6, 7]
  {
    OrderWithoutInterleaving();
    BankChain();
    ListedBy({}, [P, B, A], 0, 1, 2);
    BinaryTables();
  }

  /** Interleaved within B: A0.B0.P0, A0.B1.P0, A0.B0.P1, A0.B1.P1, A1.B0.P0, ... */
  lemma InstancesListedInterleavedAtB()
    ensures Valid(BankArena(), BankRange({B}))
    ensures InstancesOf(BankArena(), BankRange({B})) == [0, 2, 1, 3, 4, 6, 5, 7]
  {
    OrderInterleavedAtB();
    BankChain();
    ListedBy({B}, [B, P, A], 1, 0, 2);
    BinaryTables();
  }

  /** Interleaved within A and within B: A0.B0.P0, A1.B0.P0, A0.B1.P0, A1.B1.P0, A0.B0.P1, ... */
  lemma InstancesListedInterleavedAtBoth()
    ensures Valid(BankArena(), BankRange({A, B}))
    ensures InstancesOf(BankArena(), BankRange({A, B})) == [0, 4, 2, 6, 1, 5, 3, 7]
  {
    OrderInterleavedAtBoth();
    BankChain();
    ListedBy({A, B}, [A, B, P], 2, 1, 0);
    BinaryTables();
  }

  /** Interleaved within A only: A0.B0.P0, A1.B0.P0, A0.B0.P1, A1.B0.P1, A0.B1.P0, ... */
  lemma InstancesListedInterleavedAtA()
    ensures Valid(BankArena(), BankRange({A}))
    ensures InstancesOf(BankArena(), BankRange({A})) == [0, 4, 1, 5, 2, 6, 3, 7]
  {
    OrderInterleavedAtA();
    BankChain();
    ListedBy({A}, [A, P, B], 1, 2, 0);
    BinaryTables();
  }
}
