// bs58Decode and bs58Encode of html/src/transaction.ts.
module Base58 {
  import opened Common
  import opened Radix

  // Six runs of consecutive characters.
  const ALPHABET: string :=
    "123456789" + "ABCDEFGH" + "JKLMN" + "PQRSTUVWXYZ" + "abcdefghijk" + "mnopqrstuvwxyz"

  predicate IsSymbol(ch: char) {
    || '1' <= ch <= '9' || 'A' <= ch <= 'H' || 'J' <= ch <= 'N'
    || 'P' <= ch <= 'Z' || 'a' <= ch <= 'k' || 'm' <= ch <= 'z'
  }

  // Position of a symbol, from the run it lies in.
  function Digit(ch: char): (d: nat)
    requires IsSymbol(ch)
    ensures d < 58
  {
    if ch <= '9' then (ch - '1') as nat
    else if ch <= 'H' then 9 + (ch - 'A') as nat
    else if ch <= 'N' then 17 + (ch - 'J') as nat
    else if ch <= 'Z' then 22 + (ch - 'P') as nat
    else if ch <= 'k' then 33 + (ch - 'a') as nat
    else 44 + (ch - 'm') as nat
  }

  lemma AlphabetRun(i: nat)
    requires i < 58
    ensures |ALPHABET| == 58 && IsSymbol(ALPHABET[i]) && Digit(ALPHABET[i]) == i
  {
    if i < 9 {
      assert ALPHABET[i] == "123456789"[i];
    } else if i < 17 {
      assert ALPHABET[i] == "ABCDEFGH"[i - 9];
    } else if i < 22 {
      assert ALPHABET[i] == "JKLMN"[i - 17];
    } else if i < 33 {
      assert ALPHABET[i] == "PQRSTUVWXYZ"[i - 22];
    } else if i < 44 {
      assert ALPHABET[i] == "abcdefghijk"[i - 33];
    } else {
      assert ALPHABET[i] == "mnopqrstuvwxyz"[i - 44];
    }
  }

  lemma AlphabetAt(ch: char)
    requires IsSymbol(ch)
    ensures |ALPHABET| == 58 && ALPHABET[Digit(ch)] == ch
  {
  }

  // JavaScript's 32-bit operators, with the operand range on which each one
  // is plain arithmetic. Every use below has to prove it stays inside.
  function ShiftLeft8(x: nat): nat
    requires x < 0x80_0000
  {
    x * 256
  }

  function ShiftRight8(x: nat): nat
    requires x < 0x8000_0000
  {
    x / 256
  }

  function Low8(x: nat): byte
    requires x < 0x8000_0000
  {
    x % 256
  }

  function TruncatedQuotient58(x: nat): nat
    requires x < 0x8000_0000
  {
    x / 58
  }

  // String.prototype.indexOf on the alphabet.
  function IndexIn(s: string, ch: char): (i: int)
    ensures -1 <= i < |s|
    ensures i >= 0 ==> s[i] == ch
    ensures i < 0 ==> ch !in s
  {
    if s == [] then -1
    else if s[0] == ch then 0
    else var i := IndexIn(s[1..], ch); if i < 0 then -1 else i + 1
  }

  ghost predicate InAlphabet(str: string) {
    forall i | 0 <= i < |str| :: IsSymbol(str[i])
  }

  lemma IndexOfSymbol(ch: char)
    ensures IndexIn(ALPHABET, ch) == if IsSymbol(ch) then Digit(ch) else -1
  {
    var i := IndexIn(ALPHABET, ch);
    if i >= 0 {
      assert |ALPHABET| == 58;
      AlphabetRun(i);
    }
    if IsSymbol(ch) {
      AlphabetAt(ch);
    }
  }

  // BS58[d].
  function Symbol(d: nat): (ch: char)
    requires d < 58
    ensures IsSymbol(ch) && Digit(ch) == d
  {
    AlphabetRun(d);
    ALPHABET[d]
  }

  ghost function DigitsOf(str: string): (ds: seq<nat>)
    requires InAlphabet(str)
    ensures |ds| == |str| && Digits(ds, 58)
    ensures forall i | 0 <= i < |str| :: ds[i] == Digit(str[i])
  {
    seq(|str|, i requires 0 <= i < |str| => Digit(str[i]))
  }

  function CharsOf(ds: seq<nat>): (str: string)
    requires forall i | 0 <= i < |ds| :: ds[i] < 58
    ensures |str| == |ds|
    ensures forall i | 0 <= i < |ds| :: str[i] == Symbol(ds[i])
  {
    seq(|ds|, i requires 0 <= i < |ds| => Symbol(ds[i]))
  }

  ghost predicate AllZero(bs: seq<nat>) {
    forall i | 0 <= i < |bs| :: bs[i] == 0
  }

  function Ones(n: nat): (s: string)
    ensures |s| == n && forall i | 0 <= i < n :: s[i] == '1'
  {
    seq(n, _ => '1')
  }

  // What the two loops compute.
  ghost function Decoded(str: string): Result<bytes> {
    if InAlphabet(str) then RebaseKeeps(DigitsOf(str), 58, 256); Ok(Rebase(DigitsOf(str), 58, 256))
    else Err("bad b58")
  }

  ghost function Encoded(bs: bytes): string {
    if AllZero(bs) then Ones(|bs| + 1)
    else RebaseKeeps(bs, 256, 58); CharsOf(Rebase(bs, 256, 58))
  }

  lemma MulAddStep(front: seq<nat>, ds: seq<nat>, m: nat, base: nat, c: nat)
    requires base >= 2 && ds != []
    ensures front + MulAdd(ds, m, base, c) ==
      (front + [(c + ds[0] * m) % base]) + MulAdd(ds[1..], m, base, (c + ds[0] * m) / base)
  {
  }

  lemma MulAddDone(front: seq<nat>, m: nat, base: nat, c: nat)
    requires base >= 2
    ensures front + MulAdd([], m, base, c) == front + Carry(c, base)
  {
  }

  lemma CarryStep(front: seq<nat>, base: nat, c: nat)
    requires base >= 2
    ensures c > 0 ==> front + Carry(c, base) == (front + [c % base]) + Carry(c / base, base)
    ensures c == 0 ==> front + Carry(c, base) == front
  {
  }

  // The inner loops of bs58Decode for one character: multiply by 58, add c.
  method DecodePass(bs: seq<byte>, digit: nat) returns (acc: seq<byte>)
    requires digit < 58
    ensures acc == MulAdd(bs, 58, 256, digit)
  {
    hide MulAdd, Carry;
    acc := bs;
    var c: nat := digit;
    ghost var front: seq<nat>, rest: seq<nat> := [], bs;
    var j := 0;
    while j < |acc|
      invariant j == |front| && acc == front + rest && c <= 57
      invariant MulAdd(bs, 58, 256, digit) == front + MulAdd(rest, 58, 256, c)
    {
      MulAddStep(front, rest, 58, 256, c);
      var d: nat := acc[j];
      c := c + d * 58;
      acc := acc[j := Low8(c)];
      front, rest := front + [Low8(c)], rest[1..];
      c := ShiftRight8(c);
      j := j + 1;
    }
    assert rest == [] && acc == front;
    MulAddDone(front, 58, 256, c);
    CarryStep(acc, 256, c);
    while c > 0
      invariant c <= 57
      invariant MulAdd(bs, 58, 256, digit) == acc + Carry(c, 256)
      invariant c == 0 ==> acc + Carry(c, 256) == acc
    {
      CarryStep(acc, 256, c);
      CarryStep(acc + [c % 256], 256, c / 256);
      acc := acc + [Low8(c)];
      c := ShiftRight8(c);
    }
  }

  lemma ReverseAppendZeros(le: seq<nat>, k: nat)
    ensures Reverse(le + Zeros(k)) == Zeros(k) + Reverse(le)
  {
  }

  lemma DecodedParts(str: string, k: nat)
    requires InAlphabet(str) && k <= |str|
    requires (forall i | 0 <= i < k :: str[i] == '1') && (k < |str| ==> str[k] != '1')
    ensures Decoded(str) == Ok(Zeros(k) + Reverse(Convert([], DigitsOf(str), 58, 256)))
  {
    var ds := DigitsOf(str);
    if k < |str| && ds[k] == 0 {
      AlphabetAt(str[k]);
      AlphabetAt('1');
    }
    LeadingZerosIs(ds, k);
  }

  lemma DecodeNext(str: string, n: nat)
    requires n < |str| && InAlphabet(str[..n]) && IsSymbol(str[n])
    ensures InAlphabet(str[..n + 1])
    ensures Convert([], DigitsOf(str[..n + 1]), 58, 256) ==
      MulAdd(Convert([], DigitsOf(str[..n]), 58, 256), 58, 256, Digit(str[n]))
  {
    hide MulAdd;
    assert Front(DigitsOf(str[..n + 1])) == DigitsOf(str[..n]);
  }

  lemma NoCharacters(str: string)
    ensures InAlphabet(str[..0]) && Convert([], DigitsOf(str[..0]), 58, 256) == []
  {
  }

  method Bs58Decode(str: string) returns (r: Result<bytes>)
    ensures r == Decoded(str)
  {
    hide MulAdd, Convert, DigitsOf, IndexIn;
    var acc: seq<byte> := [];
    NoCharacters(str);
    for n := 0 to |str|
      invariant InAlphabet(str[..n])
      invariant acc == Convert([], DigitsOf(str[..n]), 58, 256)
    {
      var c := IndexIn(ALPHABET, str[n]);
      IndexOfSymbol(str[n]);
      if c < 0 {
        return Err("bad b58");
      }
      DecodeNext(str, n);
      acc := DecodePass(acc, c);
    }
    assert str[..|str|] == str;
    ghost var le: seq<nat> := acc;
    var k := 0;
    while k < |str| && str[k] == '1'
      invariant 0 <= k <= |str| && forall i | 0 <= i < k :: str[i] == '1'
      invariant acc == le + Zeros(k)
    {
      acc := acc + [0];
      k := k + 1;
    }
    ReverseAppendZeros(le, k);
    DecodedParts(str, k);
    return Ok(Reverse(acc));
  }

  lemma EncodeCarryBound(c: nat, d: nat)
    requires c <= 255 && d <= 57
    ensures c + d * 256 < 0x8000_0000 && (c + d * 256) / 58 <= 255
  {
  }

  // The inner loops of bs58Encode for one byte: multiply by 256, add c.
  method EncodePass(ds: seq<nat>, b: byte) returns (digits: seq<nat>)
    requires Digits(ds, 58)
    ensures digits == MulAdd(ds, 256, 58, b) && Digits(digits, 58)
  {
    var c: nat;
    digits, c := MultiplyDigits(ds, b);
    while c > 0
      invariant c <= 255
      invariant MulAdd(ds, 256, 58, b) == digits + Carry(c, 58)
    {
      digits := digits + [c % 58];
      c := TruncatedQuotient58(c);
    }
    MulAddValue(ds, 256, 58, b);
  }

  method MultiplyDigits(ds: seq<nat>, b: byte) returns (digits: seq<nat>, c: nat)
    requires Digits(ds, 58)
    ensures c <= 255 && MulAdd(ds, 256, 58, b) == digits + Carry(c, 58)
  {
    hide MulAdd, Carry;
    digits, c := ds, b;
    ghost var front: seq<nat>, rest := [], ds;
    var j := 0;
    while j < |digits|
      invariant j == |front| && digits == front + rest && Digits(rest, 58) && c <= 255
      invariant MulAdd(ds, 256, 58, b) == front + MulAdd(rest, 256, 58, c)
    {
      MulAddStep(front, rest, 256, 58, c);
      var t := c + ShiftLeft8(digits[j]);
      EncodeCarryBound(c, digits[j]);
      digits := digits[j := t % 58];
      c := TruncatedQuotient58(t);
      front, rest := front + [t % 58], rest[1..];
      j := j + 1;
    }
    assert rest == [] && digits == front;
    MulAddDone(front, 256, 58, c);
  }

  lemma CharsStep(ds: seq<nat>, i: nat)
    requires Digits(ds, 58) && i < |ds|
    ensures CharsOf(Reverse(ds[i..])) == CharsOf(Reverse(ds[i + 1..])) + [Symbol(ds[i])]
  {
    assert Reverse(ds[i..]) == Reverse(ds[i + 1..]) + [ds[i]];
  }

  lemma EncodedParts(bs: bytes, digits: seq<nat>)
    requires digits == Convert([0], bs, 256, 58) && Digits(digits, 58)
    ensures Ones(LeadingZeros(bs)) + CharsOf(Reverse(digits)) == Encoded(bs)
  {
    var k := LeadingZeros(bs);
    ConvertFromZero(bs, 256, 58);
    if k < |bs| {
      assert !AllZero(bs);
      RebaseKeeps(bs, 256, 58);
      CharsOfZeros(k, Reverse(digits));
    } else {
      assert Reverse(digits) == Zeros(1);
      CharsOfZeros(1, []);
      assert Encoded(bs) == Ones(k) + Ones(1);
    }
  }

  lemma CharsOfZeros(k: nat, ds: seq<nat>)
    requires Digits(ds, 58)
    ensures CharsOf(Zeros(k) + ds) == Ones(k) + CharsOf(ds)
  {
    AlphabetAt('1');
    assert Symbol(0) == '1';
  }

  method Bs58Encode(bs: bytes) returns (r: string)
    ensures r == Encoded(bs)
  {
    var digits: seq<nat> := [0];
    for n := 0 to |bs|
      invariant digits == Convert([0], bs[..n], 256, 58) && Digits(digits, 58)
    {
      digits := EncodePass(digits, bs[n]);
      assert Front(bs[..n + 1]) == bs[..n];
    }
    assert bs[..|bs|] == bs;
    r := "";
    var k := 0;
    while k < |bs| && bs[k] == 0
      invariant 0 <= k <= |bs| && r == Ones(k) && forall i | 0 <= i < k :: bs[i] == 0
    {
      r := r + "1";
      k := k + 1;
    }
    LeadingZerosIs(bs, k);
    ghost var ones := r;
    var i := |digits|;
    while i > 0
      invariant 0 <= i <= |digits|
      invariant r == ones + CharsOf(Reverse(digits[i..]))
    {
      i := i - 1;
      CharsStep(digits, i);
      r := r + [Symbol(digits[i])];
    }
    assert digits[0..] == digits;
    EncodedParts(bs, digits);
  }

  lemma DigitsOfChars(ds: seq<nat>)
    requires Digits(ds, 58)
    ensures InAlphabet(CharsOf(ds)) && DigitsOf(CharsOf(ds)) == ds
  {
  }

  lemma CharsOfDigits(str: string)
    requires InAlphabet(str)
    ensures CharsOf(DigitsOf(str)) == str
  {
    forall i | 0 <= i < |str| ensures CharsOf(DigitsOf(str))[i] == str[i] {
      AlphabetAt(str[i]);
    }
  }

  // Every byte array with a nonzero byte survives the round trip, leading
  // zeros included, and no other byte array does: zeros gain one byte.
  lemma BytesRoundTrip(bs: bytes)
    ensures Decoded(Encoded(bs)) == Ok(bs) <==> exists i :: 0 <= i < |bs| && bs[i] != 0
    ensures AllZero(bs) ==> Decoded(Encoded(bs)) == Ok(Zeros(|bs| + 1))
  {
    if AllZero(bs) {
      OnesDecode(|bs| + 1);
      assert |Zeros(|bs| + 1)| != |bs|;
    } else {
      RebaseKeeps(bs, 256, 58);
      DigitsOfChars(Rebase(bs, 256, 58));
      RebaseRoundTrip(bs, 256, 58);
    }
  }

  lemma OnesDecode(n: nat)
    ensures Decoded(Ones(n)) == Ok(Zeros(n))
  {
    var ds := DigitsOf(Ones(n));
    LeadingZerosIs(ds, n);
    ConvertFromZero(ds, 58, 256);
    assert Rebase(ds, 58, 256) == Zeros(n);
  }

  // Decoding keeps zero and only zero: no other text becomes all-zero bytes.
  lemma DecodedAllZero(str: string)
    requires InAlphabet(str) && AllZero(Decoded(str).value)
    ensures forall i | 0 <= i < |str| :: str[i] == '1'
  {
    var ds := DigitsOf(str);
    var out := Decoded(str).value;
    RebaseRoundTrip(ds, 58, 256);
    LeadingZerosIs(out, |out|);
    ConvertFromZero(out, 256, 58);
    assert ds == Zeros(|out|);
    CharsOfDigits(str);
    AlphabetAt('1');
  }

  // Every alphabet string with a character other than '1' survives the round
  // trip, and no string of ones does.
  lemma TextRoundTrip(str: string)
    requires InAlphabet(str)
    ensures Encoded(Decoded(str).value) == str <==> exists i :: 0 <= i < |str| && str[i] != '1'
  {
    if i :| 0 <= i < |str| && str[i] != '1' {
      RebaseRoundTrip(DigitsOf(str), 58, 256);
      CharsOfDigits(str);
      if AllZero(Decoded(str).value) {
        DecodedAllZero(str);
      }
    } else {
      assert str == Ones(|str|);
      OnesDecode(|str|);
      assert |Encoded(Zeros(|str|))| == |str| + 1;
    }
  }

  // Two texts that decode to the same bytes are the same text.
  lemma DecodeInjective(s: string, t: string)
    requires InAlphabet(s) && InAlphabet(t) && Decoded(s) == Decoded(t)
    ensures s == t
  {
    RebaseRoundTrip(DigitsOf(s), 58, 256);
    RebaseRoundTrip(DigitsOf(t), 58, 256);
    CharsOfDigits(s);
    CharsOfDigits(t);
  }
}
