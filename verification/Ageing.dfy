/** The ageing counters of NFUA and LAPA: what a 32-bit age word remembers, and
    which page each policy evicts. */
module Ageing {

  const SLOTS := 16
  const WORD := 0x1_0000_0000

  /** An age word: a C `uint`. */
  type Age = a: nat | a < WORD

  // A word as its bits, bit 31 first ----------------------------------------------

  function Pow2(n: nat): (p: nat)
    ensures p > 0
  {
    if n == 0 then 1 else 2 * Pow2(n - 1)
  }

  function ToBits(a: nat, n: nat): (b: seq<bool>)
    ensures |b| == n
  {
    if n == 0 then [] else ToBits(a / 2, n - 1) + [a % 2 == 1]
  }

  function Bits(a: Age): (b: seq<bool>)
    ensures |b| == 32
  {
    ToBits(a, 32)
  }

  function CountTrue(b: seq<bool>): (n: nat)
    ensures n <= |b|
  {
    if b == [] then 0 else CountTrue(b[..|b| - 1]) + if b[|b| - 1] then 1 else 0
  }

  /** Dictionary order, false before true. */
  predicate LexLess(b: seq<bool>, c: seq<bool>)
    requires |b| == |c|
  {
    exists k :: 0 <= k < |b| && b[..k] == c[..k] && !b[k] && c[k]
  }

  lemma {:induction false} HighBit(c: nat, n: nat, b: bool)
    requires c < Pow2(n)
    ensures ToBits(c + (if b then Pow2(n) else 0), n + 1) == [b] + ToBits(c, n)
  {
    if n == 0 {
      assert ToBits(c + (if b then 1 else 0), 0) == [];
    } else {
      var x := c + if b then Pow2(n) else 0;
      assert x / 2 == c / 2 + if b then Pow2(n - 1) else 0;
      HighBit(c / 2, n - 1, b);
    }
  }

  lemma {:induction false} LexAppend(p: seq<bool>, q: seq<bool>, x: bool, y: bool)
    requires |p| == |q|
    ensures LexLess(p + [x], q + [y]) <==> LexLess(p, q) || (p == q && !x && y)
  {
    var b, c, n := p + [x], q + [y], |p|;
    if LexLess(b, c) {
      var k :| 0 <= k < |b| && b[..k] == c[..k] && !b[k] && c[k];
      assert b[..k] == p[..k] && c[..k] == q[..k];
      if k == n {
        assert p[..k] == p && q[..k] == q;
      }
    }
    if LexLess(p, q) {
      var k :| 0 <= k < n && p[..k] == q[..k] && !p[k] && q[k];
      assert b[..k] == p[..k] && c[..k] == q[..k] && b[k] == p[k] && c[k] == q[k];
    }
    if p == q && !x && y {
      assert b[..n] == p && c[..n] == q;
    }
  }

  lemma {:induction false} BitsOrder(a: nat, b: nat, n: nat)
    requires a < Pow2(n) && b < Pow2(n)
    ensures a == b <==> ToBits(a, n) == ToBits(b, n)
    ensures a < b <==> LexLess(ToBits(a, n), ToBits(b, n))
  {
    if n > 0 {
      BitsOrder(a / 2, b / 2, n - 1);
      var p, q := ToBits(a / 2, n - 1), ToBits(b / 2, n - 1);
      var x, y := a % 2 == 1, b % 2 == 1;
      LexAppend(p, q, x, y);
      assert (p + [x])[..n - 1] == p && (q + [y])[..n - 1] == q;
      assert p + [x] == q + [y] ==> p == q && x == y by {
        if p + [x] == q + [y] {
          assert (p + [x])[n - 1] == x && (q + [y])[n - 1] == y;
        }
      }
    }
  }

  lemma Pow2Word()
    ensures Pow2(31) == 0x8000_0000 && Pow2(32) == WORD
  {
    assert Pow2(8) == 256;
    assert Pow2(16) == 0x1_0000;
    assert Pow2(24) == 0x100_0000;
    assert Pow2(31) == 0x8000_0000;
  }

  /** Comparing ages compares access histories, the newest tick first. */
  lemma AgeOrder(a: Age, b: Age)
    ensures a == b <==> Bits(a) == Bits(b)
    ensures a < b <==> LexLess(Bits(a), Bits(b))
  {
    Pow2Word();
    BitsOrder(a, b, 32);
  }

  // Ticks ----------------------------------------------------------------------------

  /** The scheduler's update: shift right, then set bit 31 if accessed. */
  function Ticked(a: Age, accessed: bool): (r: Age) {
    a / 2 + if accessed then 0x8000_0000 else 0
  }

  lemma TickShifts(a: Age, accessed: bool)
    ensures Bits(Ticked(a, accessed)) == [accessed] + Bits(a)[..31]
  {
    Pow2Word();
    HighBit(a / 2, 31, accessed);
    assert Bits(a)[..31] == ToBits(a / 2, 31);
  }

  /** The age after the ticks of `h`, newest first, from fill `d`. */
  function Aged(d: Age, h: seq<bool>): (a: Age) {
    if h == [] then d else Ticked(Aged(d, h[1..]), h[0])
  }

  /** After any run of ticks the word holds the last 32 accessed bits, newest at
      bit 31, above what is left of the fill. */
  lemma {:induction false} AgeEncodesHistory(d: Age, h: seq<bool>)
    ensures Bits(Aged(d, h)) == (h + Bits(d))[..32]
  {
    if h == [] {
      assert (h + Bits(d))[..32] == Bits(d);
    } else {
      AgeEncodesHistory(d, h[1..]);
      TickShifts(Aged(d, h[1..]), h[0]);
      var rest := h[1..] + Bits(d);
      assert h + Bits(d) == [h[0]] + rest;
      assert ([h[0]] + rest)[..32] == [h[0]] + rest[..31];
      assert rest[..32][..31] == rest[..31];
    }
  }

  /** The two default fills: none of the bits set, or all of them. */
  lemma DefaultFill(n: nat)
    requires n <= 32
    ensures ToBits(0, n) == seq(n, _ => false)
    ensures ToBits(Pow2(n) - 1, n) == seq(n, _ => true)
  {
    if n > 0 {
      DefaultFill(n - 1);
      assert (Pow2(n) - 1) / 2 == Pow2(n - 1) - 1;
    }
  }

  // The scheduler's ageing loop -------------------------------------------------------

  class Pages {
    var va: array<int>
    var age: array<nat>
    var accessed: map<int, bool> // the PTE_A bit of each mapped page

    predicate Valid()
      reads this, va, age
    {
      && va.Length == age.Length == SLOTS
      && forall i :: 0 <= i < SLOTS ==> age[i] < WORD
    }

    /** The A bits are read and cleared; a page without an entry counts as idle. */
    method Tick()
      requires Valid()
      requires forall i, j :: 0 <= i < j < SLOTS && va[i] == va[j] ==> va[i] == -1
      modifies this`accessed, age
      ensures Valid() && accessed.Keys == old(accessed).Keys
      ensures forall i :: 0 <= i < SLOTS ==>
                age[i] == if va[i] == -1 then old(age[i])
                          else Ticked(old(age[i]), va[i] in old(accessed) && old(accessed)[va[i]])
      ensures forall v :: v in accessed ==>
                accessed[v] == (old(accessed)[v] && forall i :: 0 <= i < SLOTS ==> va[i] == -1 || va[i] != v)
    {
      for i := 0 to SLOTS
        invariant Valid() && accessed.Keys == old(accessed).Keys
        invariant forall j :: 0 <= j < i ==>
                    age[j] == if va[j] == -1 then old(age[j])
                              else Ticked(old(age[j]), va[j] in old(accessed) && old(accessed)[va[j]])
        invariant forall j :: i <= j < SLOTS ==> age[j] == old(age[j])
        invariant forall v :: v in accessed ==>
                    accessed[v] == (old(accessed)[v] && forall j :: 0 <= j < i ==> va[j] == -1 || va[j] != v)
      {
        if va[i] != -1 {
          age[i] := age[i] / 2;
          if va[i] in accessed {
            var a := accessed[va[i]];
            accessed := accessed[va[i] := false];
            if a {
              age[i] := age[i] + 0x8000_0000;
            }
          }
        }
      }
    }
  }

  // Victims ---------------------------------------------------------------------------

  /** nfu_alg: the first page in use whose age no other is below; -1 if none. */
  method NfuAlg(va: seq<int>, age: seq<Age>) returns (w: int)
    requires |va| == |age| == SLOTS
    ensures w == -1 <==> forall i :: 0 <= i < SLOTS ==> va[i] == -1
    ensures w != -1 ==> 0 <= w < SLOTS && va[w] != -1
    ensures w != -1 ==> forall i :: 0 <= i < SLOTS && va[i] != -1 ==> !LexLess(Bits(age[i]), Bits(age[w]))
    ensures w != -1 ==> forall i :: 0 <= i < w && va[i] != -1 ==> LexLess(Bits(age[w]), Bits(age[i]))
  {
    w := -1;
    var minAge := 0;
    for i := 0 to SLOTS
      invariant w == -1 <==> forall j :: 0 <= j < i ==> va[j] == -1
      invariant w != -1 ==> 0 <= w < i && va[w] != -1 && minAge == age[w]
      invariant w != -1 ==> forall j :: 0 <= j < i && va[j] != -1 ==> age[w] <= age[j]
      invariant w != -1 ==> forall j :: 0 <= j < w && va[j] != -1 ==> age[w] < age[j]
    {
      if va[i] != -1 {
        if w == -1 {
          w, minAge := i, age[i];
        } else if age[i] < minAge {
          w, minAge := i, age[i];
        }
      }
    }
    if w != -1 {
      forall i | 0 <= i < SLOTS ensures age[i] < age[w] <==> LexLess(Bits(age[i]), Bits(age[w])) {
        AgeOrder(age[i], age[w]);
      }
      forall i | 0 <= i < SLOTS ensures age[w] < age[i] <==> LexLess(Bits(age[w]), Bits(age[i])) {
        AgeOrder(age[w], age[i]);
      }
    }
  }

  /** count_ones: the number of ticks remembered as accesses. */
  method CountOnes(x: Age) returns (n: nat)
    ensures n == CountTrue(Bits(x))
  {
    n := 0;
    var y := x;
    for i := 0 to 32
      invariant n + CountTrue(ToBits(y, 32 - i)) == CountTrue(Bits(x))
    {
      assert ToBits(y, 32 - i)[..31 - i] == ToBits(y / 2, 31 - i);
      if y % 2 != 0 {
        n := n + 1;
      }
      y := y / 2;
    }
  }

  /** Fewer remembered accesses first, then the lesser history. */
  predicate LapaLess(a: Age, b: Age) {
    var x, y := CountTrue(Bits(a)), CountTrue(Bits(b));
    x < y || (x == y && a < b)
  }

  /** lapa_alg: the first page in use that is least by (set bits, age). */
  method LapaAlg(va: seq<int>, age: seq<Age>) returns (w: int)
    requires |va| == |age| == SLOTS
    ensures w == -1 <==> forall i :: 0 <= i < SLOTS ==> va[i] == -1
    ensures w != -1 ==> 0 <= w < SLOTS && va[w] != -1
    ensures w != -1 ==> forall i :: 0 <= i < SLOTS && va[i] != -1 ==> !LapaLess(age[i], age[w])
    ensures w != -1 ==> forall i :: 0 <= i < w && va[i] != -1 ==> LapaLess(age[w], age[i])
  {
    w := -1;
    var minAge, minOnes := 0, 0;
    for i := 0 to SLOTS
      invariant w == -1 <==> forall j :: 0 <= j < i ==> va[j] == -1
      invariant w != -1 ==> 0 <= w < i && va[w] != -1 && minAge == age[w] && minOnes == CountTrue(Bits(age[w]))
      invariant w != -1 ==> forall j :: 0 <= j < i && va[j] != -1 ==> !LapaLess(age[j], age[w])
      invariant w != -1 ==> forall j :: 0 <= j < w && va[j] != -1 ==> LapaLess(age[w], age[j])
    {
      if va[i] != -1 {
        var ones := CountOnes(age[i]);
        if w == -1 {
          w, minAge, minOnes := i, age[i], ones;
        } else {
          if ones == minOnes {
            if age[i] < minAge {
              w, minAge, minOnes := i, age[i], ones;
            }
          } else if ones < minOnes {
            w, minAge, minOnes := i, age[i], ones;
          }
        }
      }
    }
  }
}
