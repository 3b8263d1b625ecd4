// The program ids the page writes as base58 text: what they decode to.
module ProgramKeys {
  import opened Common
  import opened Powers
  import opened Radix
  import opened Base58
  import opened Payment

  lemma PowSmall()
    ensures Pow(58, 1) == 58 && Pow(58, 7) == 2207984167552
    ensures Pow(256, 1) == 256 && Pow(256, 7) == 0x100_0000_0000_0000 && Pow(256, 8) == 0x1_0000_0000_0000_0000
  {
  }

  lemma PowValues()
    ensures Pow(256, 31) <= 9 * Pow(58, 42) && 27 * Pow(58, 42) <= Pow(256, 32)
    ensures 10 * Pow(58, 43) <= Pow(256, 32) && Pow(256, 31) <= 9 * Pow(58, 43)
  {
    hide Pow;
    PowSmall();
    PowAdd(58, 7, 7);
    PowAdd(58, 14, 7);
    PowAdd(58, 21, 21);
    PowAdd(58, 42, 1);
    PowAdd(256, 8, 8);
    PowAdd(256, 8, 7);
    PowAdd(256, 16, 15);
    PowAdd(256, 31, 1);
  }

  // Upper bound of a numeral by its length.
  lemma {:induction false} ValueBelow(ds: seq<nat>, base: nat)
    requires base >= 2 && Digits(ds, base)
    ensures Value(ds, base) < Pow(base, |ds|)
  {
    if ds != [] {
      ValueBelow(ds[1..], base);
      var v, p := Value(ds[1..], base), Pow(base, |ds| - 1);
      assert base * v <= base * (p - 1) by {
        assert base * (p - 1 - v) >= 0;
        Distribute(base, v, p - 1 - v);
      }
      Distribute(base, p - 1, 1);
    }
  }

  lemma {:induction false} ValueAbove(ds: seq<nat>, base: nat)
    requires base >= 2 && ds != [] && Canonical(ds)
    ensures Value(ds, base) >= Pow(base, |ds| - 1)
  {
    if |ds| > 1 {
      ValueAbove(ds[1..], base);
      var v, p := Value(ds[1..], base), Pow(base, |ds| - 2);
      Distribute(base, p, v - p);
    }
  }

  lemma {:induction false} PowGrows(b: nat, m: nat, n: nat)
    requires b >= 2 && m <= n
    ensures 1 <= Pow(b, m) <= Pow(b, n)
  {
    if m < n {
      PowGrows(b, m, n - 1);
      Monotone(1, b, Pow(b, n - 1));
    } else {
      PowPositive(b, m);
    }
  }

  // A big-endian numeral lies between its first digit and the next one.
  lemma {:induction false} BigValueBounds(ds: seq<nat>, base: nat)
    requires base >= 2 && ds != [] && Digits(ds, base)
    ensures ds[0] * Pow(base, |ds| - 1) <= BigValue(ds, base) < (ds[0] + 1) * Pow(base, |ds| - 1)
  {
    if |ds| == 1 {
      assert BigValue(Front(ds), base) == 0;
    } else {
      var front := Front(ds);
      BigValueBounds(front, base);
      var p, v := Pow(base, |front| - 1), BigValue(front, base);
      Scale(ds[0], p, v, base, Top(ds));
      assert Pow(base, |ds| - 1) == base * p;
    }
  }

  lemma Scale(d: nat, p: nat, v: nat, base: nat, last: nat)
    requires d * p <= v < (d + 1) * p && last < base
    ensures d * (base * p) <= v * base + last < (d + 1) * (base * p)
  {
    Monotone(d * p, v, base);
    Monotone(v + 1, (d + 1) * p, base);
    Reassociate(d, p, base);
    Reassociate(d + 1, p, base);
    assert (v + 1) * base == v * base + base;
  }

  lemma Reassociate(d: nat, p: nat, base: nat)
    ensures (d * p) * base == d * (base * p)
  {
  }

  // Texts without a leading '1' whose value has 32 base-256 digits.
  lemma DecodesTo32(str: string)
    requires InAlphabet(str)
    requires (|str| == 43 && 9 <= Digit(str[0]) <= 26) || (|str| == 44 && Digit(str[0]) == 9)
    ensures Decoded(str).Ok? && |Decoded(str).value| == 32
  {
    var ds := DigitsOf(str);
    var le := Convert([], ds, 58, 256);
    RebaseKeeps(ds, 58, 256);
    ConvertValue(ds, 58, 256);
    BigValueBounds(ds, 58);
    PowValues();
    FirstDigitBounds(ds[0], Pow(58, |ds| - 1), BigValue(ds, 58), |ds|);
    LeadingZerosIs(ds, 0);
    LengthOf32(le);
    assert Zeros(0) + Reverse(le) == Reverse(le);
  }

  lemma Monotone(a: nat, b: nat, p: nat)
    requires a <= b
    ensures a * p <= b * p
  {
    assert b * p == a * p + (b - a) * p;
  }

  lemma FirstDigitBounds(d: nat, p: nat, v: nat, n: nat)
    requires d * p <= v < (d + 1) * p
    requires (n == 43 && 9 <= d <= 26 && p == Pow(58, 42)) || (n == 44 && d == 9 && p == Pow(58, 43))
    ensures Pow(256, 31) <= v < Pow(256, 32)
  {
    hide Pow;
    PowValues();
    Monotone(9, d, p);
    Monotone(d + 1, if n == 43 then 27 else 10, p);
  }

  lemma LengthOf32(le: seq<nat>)
    requires Digits(le, 256) && Canonical(le) && Pow(256, 31) <= Value(le, 256) < Pow(256, 32)
    ensures |le| == 32
  {
    ValueBelow(le, 256);
    PowGrows(256, 0, 31);
    if le != [] {
      ValueAbove(le, 256);
      if |le| > 32 {
        PowGrows(256, 32, |le| - 1);
      } else if |le| < 32 {
        PowGrows(256, |le|, 31);
      }
    }
  }

  lemma ComputeBudgetText()
    ensures InAlphabet(COMPUTE_BUDGET_PROGRAM) && |COMPUTE_BUDGET_PROGRAM| == 43 && COMPUTE_BUDGET_PROGRAM[0] == 'C'
  {
  }

  lemma AtaText()
    ensures InAlphabet(ATA_PROGRAM) && |ATA_PROGRAM| == 44 && ATA_PROGRAM[0] == 'A'
  {
  }

  lemma MemoText()
    ensures InAlphabet(MEMO_PROGRAM) && |MEMO_PROGRAM| == 43 && MEMO_PROGRAM[0] == 'M'
  {
  }

  lemma SystemText()
    ensures SYSTEM_PROGRAM == Ones(32)
  {
  }

  lemma TokenText()
    ensures InAlphabet(TOKEN_PROGRAM) && |TOKEN_PROGRAM| == 43 && TOKEN_PROGRAM[0] == 'T' && TOKEN_PROGRAM[5] == 'k'
  {
  }

  lemma Token2022Text()
    ensures InAlphabet(TOKEN_2022_PROGRAM) && |TOKEN_2022_PROGRAM| == 43
    ensures TOKEN_2022_PROGRAM[0] == 'T' && TOKEN_2022_PROGRAM[5] == 'z'
  {
  }

  lemma ProgramText()
    ensures InAlphabet(COMPUTE_BUDGET_PROGRAM) && |COMPUTE_BUDGET_PROGRAM| == 43 && COMPUTE_BUDGET_PROGRAM[0] == 'C'
    ensures InAlphabet(ATA_PROGRAM) && |ATA_PROGRAM| == 44 && ATA_PROGRAM[0] == 'A'
    ensures InAlphabet(MEMO_PROGRAM) && |MEMO_PROGRAM| == 43 && MEMO_PROGRAM[0] == 'M'
    ensures SYSTEM_PROGRAM == Ones(32)
    ensures InAlphabet(TOKEN_PROGRAM) && |TOKEN_PROGRAM| == 43 && TOKEN_PROGRAM[0] == 'T' && TOKEN_PROGRAM[5] == 'k'
    ensures InAlphabet(TOKEN_2022_PROGRAM) && |TOKEN_2022_PROGRAM| == 43
    ensures TOKEN_2022_PROGRAM[0] == 'T' && TOKEN_2022_PROGRAM[5] == 'z'
  {
    hide InAlphabet;
    ComputeBudgetText();
    AtaText();
    MemoText();
    SystemText();
    TokenText();
    Token2022Text();
  }

  // Every program id is a 32-byte key.
  lemma ProgramKeysAre32Bytes(program: string)
    requires program in [COMPUTE_BUDGET_PROGRAM, ATA_PROGRAM, SYSTEM_PROGRAM, MEMO_PROGRAM, TOKEN_PROGRAM, TOKEN_2022_PROGRAM]
    ensures Decoded(program).Ok? && |Decoded(program).value| == 32
  {
    hide Decoded;
    ProgramText();
    if program == SYSTEM_PROGRAM {
      OnesDecode(32);
    } else {
      DecodesTo32(program);
    }
  }

  // Different program ids are different keys, so a reader that compares keys
  // never takes one program for another.
  lemma ProgramKeysDiffer(a: string, b: string)
    requires a in [COMPUTE_BUDGET_PROGRAM, ATA_PROGRAM, SYSTEM_PROGRAM, MEMO_PROGRAM, TOKEN_PROGRAM, TOKEN_2022_PROGRAM]
    requires b in [COMPUTE_BUDGET_PROGRAM, ATA_PROGRAM, SYSTEM_PROGRAM, MEMO_PROGRAM, TOKEN_PROGRAM, TOKEN_2022_PROGRAM]
    ensures Decoded(a) == Decoded(b) <==> a == b
  {
    hide Decoded;
    ProgramText();
    if Decoded(a) == Decoded(b) {
      DecodeInjective(a, b);
    }
  }
}
