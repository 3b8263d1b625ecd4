// Positional numerals, as the base58 loops keep them: little-endian digit
// lists that are multiplied and carried in place.
module Radix {
  import opened Common

  ghost predicate Digits(ds: seq<nat>, base: nat) {
    forall i | 0 <= i < |ds| :: ds[i] < base
  }

  function Top(ds: seq<nat>): nat
    requires ds != []
  {
    ds[|ds| - 1]
  }

  function Front(ds: seq<nat>): seq<nat>
    requires ds != []
  {
    ds[..|ds| - 1]
  }

  function Reverse(ds: seq<nat>): (r: seq<nat>)
    ensures |r| == |ds|
    ensures forall i | 0 <= i < |ds| :: r[i] == ds[|ds| - 1 - i]
  {
    seq(|ds|, i requires 0 <= i < |ds| => ds[|ds| - 1 - i])
  }

  // No zero in the most significant (last) place.
  ghost predicate Canonical(ds: seq<nat>) {
    ds == [] || Top(ds) != 0
  }

  // The number a little-endian digit list denotes.
  ghost function Value(ds: seq<nat>, base: nat): nat {
    if ds == [] then 0 else ds[0] + base * Value(ds[1..], base)
  }

  // The number a big-endian digit list denotes.
  ghost function BigValue(ds: seq<nat>, base: nat): nat {
    if ds == [] then 0 else BigValue(Front(ds), base) * base + Top(ds)
  }

  function Carry(c: nat, base: nat): seq<nat>
    requires base >= 2
  {
    if c == 0 then [] else [c % base] + Carry(c / base, base)
  }

  // One pass of a base58 loop: multiply the digit list by m and add c.
  function MulAdd(ds: seq<nat>, m: nat, base: nat, c: nat): seq<nat>
    requires base >= 2
  {
    if ds == [] then Carry(c, base)
    else [(c + ds[0] * m) % base] + MulAdd(ds[1..], m, base, (c + ds[0] * m) / base)
  }

  // All passes, one for every digit of the big-endian number `big` in base m.
  function Convert(start: seq<nat>, big: seq<nat>, m: nat, base: nat): seq<nat>
    requires base >= 2
  {
    if big == [] then start
    else MulAdd(Convert(start, Front(big), m, base), m, base, Top(big))
  }

  function LeadingZeros(ds: seq<nat>): (z: nat)
    ensures z <= |ds|
    ensures forall i | 0 <= i < z :: ds[i] == 0
    ensures z < |ds| ==> ds[z] != 0
  {
    if ds == [] || ds[0] != 0 then 0 else 1 + LeadingZeros(ds[1..])
  }

  function Zeros(n: nat): (r: seq<nat>)
    ensures |r| == n && forall i | 0 <= i < n :: r[i] == 0
  {
    seq(n, _ => 0)
  }

  // The big-endian number `big` in base m, rewritten in another base; every
  // leading zero digit is kept as one leading zero digit.
  function Rebase(big: seq<nat>, m: nat, base: nat): seq<nat>
    requires base >= 2
  {
    Zeros(LeadingZeros(big)) + Reverse(Convert([], big, m, base))
  }

  lemma Distribute(a: nat, b: nat, c: nat)
    ensures a * (b + c) == a * b + a * c
  {
  }

  lemma ValueCons(d: nat, rest: seq<nat>, base: nat)
    requires d < base && Digits(rest, base)
    ensures Digits([d] + rest, base) && Value([d] + rest, base) == d + base * Value(rest, base)
  {
    assert ([d] + rest)[1..] == rest;
  }

  lemma DivMod(t: nat, base: nat)
    requires base > 0
    ensures t == base * (t / base) + t % base && t % base < base
  {
  }

  lemma {:induction false} CarryValue(c: nat, base: nat)
    requires base >= 2
    ensures Digits(Carry(c, base), base) && Canonical(Carry(c, base)) && Value(Carry(c, base), base) == c
    ensures Carry(c, base) == [] <==> c == 0
  {
    if c != 0 {
      CarryValue(c / base, base);
      DivMod(c, base);
      ValueCons(c % base, Carry(c / base, base), base);
    }
  }

  lemma {:induction false} MulAddValue(ds: seq<nat>, m: nat, base: nat, c: nat)
    requires base >= 2
    ensures Digits(MulAdd(ds, m, base, c), base)
    ensures Value(MulAdd(ds, m, base, c), base) == Value(ds, base) * m + c
  {
    hide Carry;
    CarryValue(c, base);
    if ds != [] {
      var t := c + ds[0] * m;
      var rest := MulAdd(ds[1..], m, base, t / base);
      MulAddValue(ds[1..], m, base, t / base);
      DivMod(t, base);
      ValueCons(t % base, rest, base);
      CarryOver(ds[0], Value(ds[1..], base), m, base, c, t / base, t % base);
    }
  }

  lemma CarryOver(d: nat, v: nat, m: nat, base: nat, c: nat, q: nat, r: nat)
    requires c + d * m == base * q + r
    ensures r + base * (v * m + q) == (d + base * v) * m + c
  {
    assert base * (v * m + q) == base * (v * m) + base * q;
    assert (d + base * v) * m == d * m + (base * v) * m;
    assert base * (v * m) == (base * v) * m;
  }

  lemma {:induction false} MulAddCanonical(ds: seq<nat>, m: nat, base: nat, c: nat)
    requires base >= 2 && m >= 1
    requires Canonical(ds)
    ensures Canonical(MulAdd(ds, m, base, c))
    ensures ds != [] ==> MulAdd(ds, m, base, c) != []
  {
    if ds == [] {
      CarryValue(c, base);
    } else {
      var t := c + ds[0] * m;
      MulAddCanonical(ds[1..], m, base, t / base);
      if |ds| == 1 && t / base == 0 {
        assert ds[0] * m >= 1;
        assert t % base == t;
      }
    }
  }

  lemma {:induction false} ConvertValue(big: seq<nat>, m: nat, base: nat)
    requires base >= 2 && m >= 1
    ensures var r := Convert([], big, m, base);
      Digits(r, base) && Canonical(r) && Value(r, base) == BigValue(big, m)
  {
    if big != [] {
      ConvertValue(Front(big), m, base);
      var r := Convert([], Front(big), m, base);
      MulAddValue(r, m, base, Top(big));
      MulAddCanonical(r, m, base, Top(big));
    }
  }

  // The encoder starts its digit list from [0] instead of []: the results
  // differ only for an input of zeros.
  lemma {:induction false} ConvertFromZero(big: seq<nat>, m: nat, base: nat)
    requires base >= 2 && m >= 1
    ensures Convert([0], big, m, base) ==
      if LeadingZeros(big) == |big| then [0] else Convert([], big, m, base)
    ensures LeadingZeros(big) == |big| ==> Convert([], big, m, base) == []
  {
    if big != [] {
      var front, c := Front(big), Top(big);
      ConvertFromZero(front, m, base);
      LeadingZerosDropLast(big);
      if LeadingZeros(front) == |front| {
        assert MulAdd([0], m, base, c) == [c % base] + Carry(c / base, base);
      }
    }
  }

  lemma {:induction false} LeadingZerosDropLast(ds: seq<nat>)
    requires ds != []
    ensures LeadingZeros(ds) == |ds| <==> LeadingZeros(Front(ds)) == |ds| - 1 && Top(ds) == 0
  {
    if |ds| > 1 && ds[0] == 0 {
      assert Front(ds[1..]) == Front(ds)[1..];
      LeadingZerosDropLast(ds[1..]);
    }
  }

  lemma {:induction false} DigitsUnique(a: seq<nat>, b: seq<nat>, base: nat)
    requires base >= 2
    requires Digits(a, base) && Canonical(a) && Digits(b, base) && Canonical(b)
    requires Value(a, base) == Value(b, base)
    ensures a == b
  {
    if a == [] || b == [] {
      CanonicalPositive(a, base);
      CanonicalPositive(b, base);
    } else {
      UniqueDivision(a[0], Value(a[1..], base), b[0], Value(b[1..], base), base);
      DigitsUnique(a[1..], b[1..], base);
      assert a == [a[0]] + a[1..] && b == [b[0]] + b[1..];
    }
  }

  lemma UniqueDivision(r: nat, q: nat, r': nat, q': nat, base: nat)
    requires r < base && r' < base && r + base * q == r' + base * q'
    ensures r == r' && q == q'
  {
    if q < q' {
      DivisionOrder(r, q, r', q', base);
    } else if q' < q {
      DivisionOrder(r', q', r, q, base);
    }
  }

  lemma DivisionOrder(r: nat, q: nat, r': nat, q': nat, base: nat)
    requires r < base && q < q'
    ensures r + base * q < r' + base * q'
  {
    calc {
      base * q';
      >= { assert base * (q' - (q + 1)) >= 0; Distribute(base, q + 1, q' - (q + 1)); }
      base * (q + 1);
      { Distribute(base, q, 1); }
      base * q + base;
    }
  }

  lemma {:induction false} CanonicalPositive(ds: seq<nat>, base: nat)
    requires base >= 2 && Canonical(ds)
    ensures Value(ds, base) == 0 <==> ds == []
  {
    if ds != [] {
      CanonicalPositive(ds[1..], base);
      if |ds| > 1 {
        assert base * Value(ds[1..], base) > 0;
      }
    }
  }

  lemma {:induction false} BigValueReverse(ds: seq<nat>, base: nat)
    ensures BigValue(Reverse(ds), base) == Value(ds, base)
  {
    if ds != [] {
      var r := Reverse(ds);
      assert Front(r) == Reverse(ds[1..]);
      BigValueReverse(ds[1..], base);
      assert Value(ds[1..], base) * base == base * Value(ds[1..], base);
    }
  }

  lemma {:induction false} BigValueSkipZeros(ds: seq<nat>, z: nat, base: nat)
    requires z <= |ds| && forall i | 0 <= i < z :: ds[i] == 0
    ensures BigValue(ds, base) == BigValue(ds[z..], base)
  {
    if |ds| > z {
      assert Front(ds[z..]) == Front(ds)[z..];
      BigValueSkipZeros(Front(ds), z, base);
    } else if ds != [] {
      BigValueSkipZeros(Front(ds), z - 1, base);
      assert Front(ds)[z - 1..] == [] == ds[z..];
    }
  }

  lemma LeadingZerosIs(ds: seq<nat>, z: nat)
    requires z <= |ds| && (forall i | 0 <= i < z :: ds[i] == 0) && (z < |ds| ==> ds[z] != 0)
    ensures LeadingZeros(ds) == z
  {
    if z < |ds| && LeadingZeros(ds) > z {
      assert false;
    }
  }

  // What a conversion keeps: the number, and the count of leading zeros.
  lemma RebaseKeeps(big: seq<nat>, m: nat, base: nat)
    requires base >= 2 && m >= 1
    ensures var out := Rebase(big, m, base);
      && Digits(out, base)
      && BigValue(out, base) == BigValue(big, m)
      && LeadingZeros(out) == LeadingZeros(big)
      && out[LeadingZeros(big)..] == Reverse(Convert([], big, m, base))
  {
    var z := LeadingZeros(big);
    var c := Convert([], big, m, base);
    var out := Rebase(big, m, base);
    ConvertValue(big, m, base);
    assert out[z..] == Reverse(c);
    LeadingZerosIs(out, z);
    BigValueSkipZeros(out, z, base);
    BigValueReverse(c, base);
  }

  // Conversion to another base and back gives the same digits, leading zeros
  // included.
  lemma RebaseRoundTrip(big: seq<nat>, m: nat, base: nat)
    requires base >= 2 && m >= 2
    requires Digits(big, m)
    ensures Rebase(Rebase(big, m, base), base, m) == big
  {
    hide MulAdd, Convert, Value, BigValue;
    var z := LeadingZeros(big);
    var out := Rebase(big, m, base);
    RebaseKeeps(big, m, base);
    ConvertValue(out, base, m);
    var tail := Reverse(big[z..]);
    BigValueSkipZeros(big, z, m);
    assert Reverse(tail) == big[z..];
    BigValueReverse(tail, m);
    DigitsUnique(Convert([], out, base, m), tail, m);
    assert big == Zeros(z) + big[z..];
  }
}
