// The version-0 message wire format: what compileMessage of
// html/src/transaction.ts writes, and a strict reader for it.
module Wire {
  import opened Common

  datatype CompiledInstruction = CompiledInstruction(program: nat, accounts: seq<nat>, data: bytes)

  datatype Message = Message(
    signers: nat,
    readonlySigners: nat,
    readonlyOthers: nat,
    keys: seq<bytes>,
    blockhash: bytes,
    instructions: seq<CompiledInstruction>)

  const VERSION_0_PREFIX: byte := 0x80

  // compactU16, with the truncation of `new Uint8Array` written out.
  function CompactU16(v: nat): bytes {
    if v < 0x80 then [v]
    else if v < 0x4000 then [v % 128 + 128, v / 128]
    else [v % 128 + 128, v / 128 % 128 + 128, v / 16384 % 256]
  }

  // The seven value bits of a compact-u16 byte.
  function Low7(b: byte): nat {
    b % 128
  }

  // A compact-u16 reader: seven bits a byte, at most three bytes, no padding,
  // no value above 65535.
  function ReadCompact(bs: bytes): Option<(nat, bytes)> {
    if |bs| < 1 then None
    else if bs[0] < 128 then Some((bs[0], bs[1..]))
    else if |bs| < 2 then None
    else if 0 < bs[1] < 128 then Some((Low7(bs[0]) + 128 * Low7(bs[1]), bs[2..]))
    else if bs[1] == 0 || |bs| < 3 || !(0 < bs[2] < 4) then None
    else Some((Low7(bs[0]) + 128 * Low7(bs[1]) + 16384 * Low7(bs[2]), bs[3..]))
  }

  lemma CompactRoundTrip(v: nat, rest: bytes)
    ensures ReadCompact(CompactU16(v) + rest) == Some((v, rest)) <==> v < 65536
  {
    var bs := CompactU16(v) + rest;
    assert bs[|CompactU16(v)|..] == rest;
  }

  lemma ReadCompactInverse(bs: bytes)
    requires ReadCompact(bs).Some?
    ensures var (v, rest) := ReadCompact(bs).value;
      v < 65536 && CompactU16(v) + rest == bs
  {
    var (v, rest) := ReadCompact(bs).value;
    if bs[0] < 128 {
      assert bs == [bs[0]] + bs[1..];
    } else if bs[1] < 128 {
      assert bs == [bs[0], bs[1]] + bs[2..];
    } else {
      assert bs == [bs[0], bs[1], bs[2]] + bs[3..];
    }
  }

  function Flatten(parts: seq<bytes>): bytes {
    if parts == [] then [] else parts[0] + Flatten(parts[1..])
  }

  // `new Uint8Array([n])`: the low eight bits.
  function Truncate(n: nat): byte {
    n % 256
  }

  function TruncateAll(ns: seq<nat>): (bs: bytes)
    ensures |bs| == |ns| && forall i | 0 <= i < |ns| :: bs[i] == Truncate(ns[i])
  {
    seq(|ns|, i requires 0 <= i < |ns| => Truncate(ns[i]))
  }

  function InstructionBytes(ix: CompiledInstruction): bytes {
    [Truncate(ix.program)] + (CompactU16(|ix.accounts|) + (TruncateAll(ix.accounts)
    + (CompactU16(|ix.data|) + ix.data)))
  }

  function InstructionsBytes(ixs: seq<CompiledInstruction>): bytes {
    if ixs == [] then [] else InstructionBytes(ixs[0]) + InstructionsBytes(ixs[1..])
  }

  function Header(m: Message): bytes {
    [VERSION_0_PREFIX, Truncate(m.signers), Truncate(m.readonlySigners), Truncate(m.readonlyOthers)]
  }

  // The bytes of a message; the last count is the empty address-table section.
  function Serialize(m: Message): bytes {
    Header(m) + (CompactU16(|m.keys|) + (Flatten(m.keys) + (m.blockhash
    + (CompactU16(|m.instructions|) + (InstructionsBytes(m.instructions) + CompactU16(0))))))
  }

  function Take(bs: bytes, n: nat): Option<(bytes, bytes)> {
    if |bs| < n then None else Some((bs[..n], bs[n..]))
  }

  function ReadKeys(bs: bytes, n: nat): Option<(seq<bytes>, bytes)>
    decreases n
  {
    if n == 0 then Some(([], bs))
    else match Take(bs, 32)
      case None => None
      case Some((key, rest)) =>
        match ReadKeys(rest, n - 1)
        case None => None
        case Some((keys, rest')) => Some(([key] + keys, rest'))
  }

  // A count followed by that many bytes.
  function ReadVector(bs: bytes): Option<(bytes, bytes)> {
    match ReadCompact(bs)
    case None => None
    case Some((n, rest)) => Take(rest, n)
  }

  function ReadInstruction(bs: bytes): Option<(CompiledInstruction, bytes)> {
    if |bs| < 1 then None
    else match ReadVector(bs[1..])
      case None => None
      case Some((accounts, rest)) =>
        match ReadVector(rest)
        case None => None
        case Some((data, rest')) => Some((CompiledInstruction(bs[0], Widen(accounts), data), rest'))
  }

  function Widen(bs: bytes): (ns: seq<nat>)
    ensures |ns| == |bs| && forall i | 0 <= i < |bs| :: ns[i] == bs[i]
  {
    bs
  }

  function ReadInstructions(bs: bytes, n: nat): Option<(seq<CompiledInstruction>, bytes)>
    decreases n
  {
    if n == 0 then Some(([], bs))
    else match ReadInstruction(bs)
      case None => None
      case Some((ix, rest)) =>
        match ReadInstructions(rest, n - 1)
        case None => None
        case Some((ixs, rest')) => Some(([ix] + ixs, rest'))
  }

  // Reads a whole version-0 message without address tables; every byte has to
  // be used.
  function Decode(bs: bytes): Option<Message> {
    if |bs| < 4 || bs[0] != VERSION_0_PREFIX then None
    else match ReadCompact(bs[4..])
      case None => None
      case Some((keyCount, afterCount)) =>
        match ReadKeys(afterCount, keyCount)
        case None => None
        case Some((keys, afterKeys)) =>
          match Take(afterKeys, 32)
          case None => None
          case Some((blockhash, afterHash)) =>
            match ReadCompact(afterHash)
            case None => None
            case Some((ixCount, afterIxCount)) =>
              match ReadInstructions(afterIxCount, ixCount)
              case None => None
              case Some((ixs, tables)) =>
                if tables == [0] then Some(Message(bs[1], bs[2], bs[3], keys, blockhash, ixs)) else None
  }

  ghost predicate InstructionFits(ix: CompiledInstruction) {
    && ix.program < 256
    && (forall i | 0 <= i < |ix.accounts| :: ix.accounts[i] < 256)
    && |ix.accounts| < 65536
    && |ix.data| < 65536
  }

  ghost predicate KeysFit(keys: seq<bytes>) {
    forall i | 0 <= i < |keys| :: |keys[i]| == 32
  }

  // Every number has room in the field the format gives it.
  ghost predicate Fits(m: Message) {
    && m.signers < 256 && m.readonlySigners < 256 && m.readonlyOthers < 256
    && |m.keys| < 65536 && KeysFit(m.keys)
    && |m.blockhash| == 32
    && |m.instructions| < 65536
    && forall i | 0 <= i < |m.instructions| :: InstructionFits(m.instructions[i])
  }

  lemma TakeAppend(a: bytes, rest: bytes)
    ensures Take(a + rest, |a|) == Some((a, rest))
  {
  }

  lemma {:induction false} ReadKeysRoundTrip(keys: seq<bytes>, rest: bytes)
    requires KeysFit(keys)
    ensures ReadKeys(Flatten(keys) + rest, |keys|) == Some((keys, rest))
  {
    if keys == [] {
      assert Flatten(keys) + rest == rest;
    } else {
      assert Flatten(keys) + rest == keys[0] + (Flatten(keys[1..]) + rest);
      TakeAppend(keys[0], Flatten(keys[1..]) + rest);
      ReadKeysRoundTrip(keys[1..], rest);
      assert keys == [keys[0]] + keys[1..];
    }
  }

  lemma {:induction false} ReadKeysInverse(bs: bytes, n: nat)
    requires ReadKeys(bs, n).Some?
    ensures var (keys, rest) := ReadKeys(bs, n).value;
      |keys| == n && KeysFit(keys) && Flatten(keys) + rest == bs
    decreases n
  {
    var (keys, rest) := ReadKeys(bs, n).value;
    if n == 0 {
      assert Flatten(keys) + rest == bs;
    } else {
      ReadKeysInverse(bs[32..], n - 1);
      assert keys[1..] == ReadKeys(bs[32..], n - 1).value.0;
      assert Flatten(keys) + rest == bs[..32] + (Flatten(keys[1..]) + rest);
    }
  }

  lemma ReadVectorRoundTrip(v: bytes, rest: bytes)
    requires |v| < 65536
    ensures ReadVector(CompactU16(|v|) + (v + rest)) == Some((v, rest))
  {
    CompactRoundTrip(|v|, v + rest);
    TakeAppend(v, rest);
  }

  lemma ReadVectorInverse(bs: bytes)
    requires ReadVector(bs).Some?
    ensures var (v, rest) := ReadVector(bs).value;
      |v| < 65536 && CompactU16(|v|) + (v + rest) == bs
  {
    ReadCompactInverse(bs);
    var (n, tail) := ReadCompact(bs).value;
    assert tail[..n] + tail[n..] == tail;
  }

  lemma ReadInstructionRoundTrip(ix: CompiledInstruction, rest: bytes)
    requires InstructionFits(ix)
    ensures ReadInstruction(InstructionBytes(ix) + rest) == Some((ix, rest))
  {
    hide CompactU16, ReadCompact;
    var accounts := TruncateAll(ix.accounts);
    var dataPart := CompactU16(|ix.data|) + (ix.data + rest);
    var bs := InstructionBytes(ix) + rest;
    assert bs == [Truncate(ix.program)] + (CompactU16(|accounts|) + (accounts + dataPart));
    assert bs[1..] == CompactU16(|accounts|) + (accounts + dataPart);
    ReadVectorRoundTrip(accounts, dataPart);
    ReadVectorRoundTrip(ix.data, rest);
    assert Widen(accounts) == ix.accounts;
  }

  lemma ReadInstructionInverse(bs: bytes)
    requires ReadInstruction(bs).Some?
    ensures var (ix, rest) := ReadInstruction(bs).value;
      InstructionFits(ix) && InstructionBytes(ix) + rest == bs
  {
    hide CompactU16, ReadCompact;
    var (ix, rest) := ReadInstruction(bs).value;
    ReadVectorInverse(bs[1..]);
    var (accounts, tail) := ReadVector(bs[1..]).value;
    ReadVectorInverse(tail);
    assert TruncateAll(ix.accounts) == accounts;
    calc {
      bs;
      [bs[0]] + bs[1..];
      [bs[0]] + (CompactU16(|accounts|) + (accounts + (CompactU16(|ix.data|) + (ix.data + rest))));
      InstructionBytes(ix) + rest;
    }
  }

  lemma {:induction false} ReadInstructionsRoundTrip(ixs: seq<CompiledInstruction>, rest: bytes)
    requires forall i | 0 <= i < |ixs| :: InstructionFits(ixs[i])
    ensures ReadInstructions(InstructionsBytes(ixs) + rest, |ixs|) == Some((ixs, rest))
  {
    hide ReadInstruction, InstructionBytes;
    if ixs == [] {
      assert InstructionsBytes(ixs) + rest == rest;
    } else {
      var tail := InstructionsBytes(ixs[1..]) + rest;
      assert InstructionsBytes(ixs) + rest == InstructionBytes(ixs[0]) + tail;
      ReadInstructionRoundTrip(ixs[0], tail);
      ReadInstructionsRoundTrip(ixs[1..], rest);
      assert ixs == [ixs[0]] + ixs[1..];
    }
  }

  lemma {:induction false} ReadInstructionsInverse(bs: bytes, n: nat)
    requires ReadInstructions(bs, n).Some?
    ensures var (ixs, rest) := ReadInstructions(bs, n).value;
      && |ixs| == n
      && (forall i | 0 <= i < |ixs| :: InstructionFits(ixs[i]))
      && InstructionsBytes(ixs) + rest == bs
    decreases n
  {
    hide ReadInstruction, InstructionBytes, InstructionFits;
    var (ixs, rest) := ReadInstructions(bs, n).value;
    if n == 0 {
      assert InstructionsBytes(ixs) + rest == bs;
    } else {
      ReadInstructionInverse(bs);
      var (ix, tail) := ReadInstruction(bs).value;
      ReadInstructionsInverse(tail, n - 1);
      assert ixs[1..] == ReadInstructions(tail, n - 1).value.0;
      assert InstructionsBytes(ixs) + rest == InstructionBytes(ix) + (InstructionsBytes(ixs[1..]) + rest);
    }
  }

  // The decoder returns only messages that fit, and only for the bytes the
  // serialiser writes for them.
  lemma DecodeInverse(bs: bytes)
    requires Decode(bs).Some?
    ensures Fits(Decode(bs).value) && Serialize(Decode(bs).value) == bs
  {
    hide CompactU16, ReadCompact, ReadKeys, ReadInstructions, Flatten, InstructionsBytes, KeysFit, InstructionFits;
    var m := Decode(bs).value;
    ReadCompactInverse(bs[4..]);
    var (keyCount, afterCount) := ReadCompact(bs[4..]).value;
    ReadKeysInverse(afterCount, keyCount);
    var afterKeys := ReadKeys(afterCount, keyCount).value.1;
    assert afterKeys == m.blockhash + afterKeys[32..];
    ReadCompactInverse(afterKeys[32..]);
    var (ixCount, afterIxCount) := ReadCompact(afterKeys[32..]).value;
    ReadInstructionsInverse(afterIxCount, ixCount);
    assert Header(m) == bs[..4];
    assert bs == bs[..4] + bs[4..];
    CompactZero();
  }

  lemma CompactZero()
    ensures CompactU16(0) == [0]
  {
  }

  lemma FitsDecodes(m: Message)
    requires Fits(m)
    ensures Decode(Serialize(m)) == Some(m)
  {
    hide CompactU16, ReadCompact, ReadKeys, ReadInstructions, Flatten, InstructionsBytes, KeysFit, InstructionFits;
    var ixPart := InstructionsBytes(m.instructions) + CompactU16(0);
    var hashPart := m.blockhash + (CompactU16(|m.instructions|) + ixPart);
    var keyPart := Flatten(m.keys) + hashPart;
    var bs := Serialize(m);
    assert bs[4..] == CompactU16(|m.keys|) + keyPart;
    CompactRoundTrip(|m.keys|, keyPart);
    ReadKeysRoundTrip(m.keys, hashPart);
    TakeAppend(m.blockhash, CompactU16(|m.instructions|) + ixPart);
    CompactRoundTrip(|m.instructions|, ixPart);
    ReadInstructionsRoundTrip(m.instructions, CompactU16(0));
    CompactZero();
  }

  // Serialise, then decode: the message comes back if and only if it fits.
  lemma SerializeRoundTrip(m: Message)
    ensures Decode(Serialize(m)) == Some(m) <==> Fits(m)
  {
    if Fits(m) {
      FitsDecodes(m);
    } else if Decode(Serialize(m)) == Some(m) {
      DecodeInverse(Serialize(m));
    }
  }
}
