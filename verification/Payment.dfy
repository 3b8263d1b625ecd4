// The instructions the payment page builds (html/src/transaction.ts and
// html/src/main.ts), and the unsigned transaction it wraps them in.
module Payment {
  import opened Common
  import opened Powers
  import opened KeyTable
  import opened Wire
  import opened Compiler
  import Base58

  const COMPUTE_BUDGET_PROGRAM: string := "ComputeBudget111111111111111111111111111111"
  const ATA_PROGRAM: string := "ATokenGPvbdGVxr1b2hvZbsiqW5xWH25efTNsLJA8knL"
  const SYSTEM_PROGRAM: string := "11111111111111111111111111111111"
  const MEMO_PROGRAM: string := "MemoSq4gqABAXKb96qnH8TysNcWxMyWCqXgDLGmfcHr"
  const TOKEN_PROGRAM: string := "TokenkegQfeZyiNwAJbNbGKPFXCWuBvf9Ss623VQ5DA"
  const TOKEN_2022_PROGRAM: string := "TokenzQdBNbLqP5VEhdkAS6EPFLC1PHnBqCXEpPxuEb"

  // ---- little-endian numbers ----

  function LittleEndian(n: nat, width: nat): (bs: bytes)
    ensures |bs| == width
  {
    if width == 0 then [] else [n % 256] + LittleEndian(n / 256, width - 1)
  }

  function FromLittleEndian(bs: bytes): nat {
    if bs == [] then 0 else bs[0] as nat + 256 * FromLittleEndian(bs[1..])
  }

  lemma {:induction false} LittleEndianRoundTrip(n: nat, width: nat)
    requires n < Pow(256, width)
    ensures FromLittleEndian(LittleEndian(n, width)) == n
  {
    if width > 0 {
      LittleEndianRoundTrip(n / 256, width - 1);
      assert LittleEndian(n, width)[1..] == LittleEndian(n / 256, width - 1);
    }
  }

  // DataView.setBigUint64: the amount modulo 2^64.
  function U64Bytes(amount: int): (bs: bytes)
    ensures |bs| == 8
  {
    LittleEndian(amount % TWO_64, 8)
  }

  lemma U64RoundTrip(amount: int)
    ensures FromLittleEndian(U64Bytes(amount)) == amount % TWO_64
  {
    assert Pow(256, 8) == TWO_64;
    LittleEndianRoundTrip(amount % TWO_64, 8);
  }

  // ---- instruction builders ----

  function ComputeBudgetInstructions(): seq<Instruction> {
    [Instruction(COMPUTE_BUDGET_PROGRAM, [], [3] + U64Bytes(1)),
     Instruction(COMPUTE_BUDGET_PROGRAM, [], [2] + LittleEndian(200_000, 4))]
  }

  function SystemTransfer(from: bytes, to: bytes, lamports: int): Instruction {
    Instruction(SYSTEM_PROGRAM,
                [AccountMeta(from, true, true), AccountMeta(to, false, true)],
                LittleEndian(2, 4) + U64Bytes(lamports))
  }

  function TokenTransferChecked(
    src: bytes, mint: bytes, dst: bytes, auth: bytes, amount: int, decimals: nat, prog: string): Instruction
  {
    Instruction(prog,
                [AccountMeta(src, false, true), AccountMeta(mint, false, false),
                 AccountMeta(dst, false, true), AccountMeta(auth, true, false)],
                [12] + U64Bytes(amount) + [Truncate(decimals)])
  }

  ghost function CreateAtaIdempotent(
    payer: bytes, ata: bytes, owner: bytes, mint: bytes, tokenProg: string): Result<Instruction>
  {
    var system :- Base58.Decoded(SYSTEM_PROGRAM);
    var token :- Base58.Decoded(tokenProg);
    Ok(AtaInstruction(payer, ata, owner, mint, system, token))
  }

  function AtaInstruction(
    payer: bytes, ata: bytes, owner: bytes, mint: bytes, system: bytes, token: bytes): Instruction
  {
    Instruction(ATA_PROGRAM,
                [AccountMeta(payer, true, true), AccountMeta(ata, false, true),
                 AccountMeta(owner, false, false), AccountMeta(mint, false, false),
                 AccountMeta(system, false, false), AccountMeta(token, false, false)],
                [1])
  }

  // Memos are their UTF-8 bytes; an absent memo and an empty one are both [].
  function MemoInstructions(memo: bytes): Result<seq<Instruction>> {
    if memo == [] then Ok([])
    else if |memo| > 566 then Err("memo cannot exceed 566 bytes")
    else Ok([Instruction(MEMO_PROGRAM, [], memo)])
  }

  // ---- the request ----

  datatype Split = Split(recipient: string, amount: int, ataCreationRequired: bool, memo: bytes)

  datatype Asset = NativeSol | Token(mint: string, decimals: nat, program: string)

  // The challenge request with its method details; an absent fee payer key is "".
  datatype Request = Request(
    amount: int,
    recipient: string,
    externalId: bytes,
    splits: seq<Split>,
    asset: Asset,
    feePayer: bool,
    feePayerKey: string,
    blockhash: string)

  // Address of the associated token account of (owner, mint, token program).
  type AtaFinder = (string, string, string) -> string

  datatype Built = Built(instructions: seq<Instruction>, feePayer: bytes, blockhash: bytes)

  function SplitTotal(splits: seq<Split>): int {
    if splits == [] then 0 else SplitTotal(splits[..|splits| - 1]) + splits[|splits| - 1].amount
  }

  function PrimaryAmount(req: Request): int {
    req.amount - SplitTotal(req.splits)
  }

  predicate HasSeparateFeePayer(req: Request) {
    req.feePayer && req.feePayerKey != ""
  }

  predicate ShouldCreateSplitAta(hasSeparateFeePayer: bool, split: Split) {
    !hasSeparateFeePayer || split.ataCreationRequired
  }

  // ---- what the page builds ----

  ghost function FeePayerOf(req: Request, wallet: bytes): Result<bytes> {
    if HasSeparateFeePayer(req) then Base58.Decoded(req.feePayerKey) else Ok(wallet)
  }

  ghost function AtaInstructions(
    create: bool, payer: bytes, ata: bytes, owner: bytes, mint: bytes, tokenProg: string): Result<seq<Instruction>>
  {
    if !create then Ok([])
    else
      var ix :- CreateAtaIdempotent(payer, ata, owner, mint, tokenProg);
      Ok([ix])
  }

  // One leg of the payment: the account creation if asked for, the transfer,
  // the memo if there is one.
  ghost function Leg(
    req: Request, wallet: bytes, feePayer: bytes, find: AtaFinder,
    recipient: string, amount: int, createAta: bool, memo: bytes): Result<seq<Instruction>>
  {
    var to :- Base58.Decoded(recipient);
    match req.asset
    case NativeSol =>
      var memos :- MemoInstructions(memo);
      Ok([SystemTransfer(wallet, to, amount)] + memos)
    case Token(mint, decimals, program) =>
      var mintKey :- Base58.Decoded(mint);
      var source :- Base58.Decoded(find(Base58.Encoded(wallet), mint, program));
      var dest :- Base58.Decoded(find(recipient, mint, program));
      var create :- AtaInstructions(createAta, feePayer, dest, to, mintKey, program);
      var memos :- MemoInstructions(memo);
      Ok(create + [TokenTransferChecked(source, mintKey, dest, wallet, amount, decimals, program)] + memos)
  }

  ghost function PrimaryLeg(req: Request, wallet: bytes, feePayer: bytes, find: AtaFinder): Result<seq<Instruction>> {
    Leg(req, wallet, feePayer, find, req.recipient, PrimaryAmount(req), false, req.externalId)
  }

  ghost function SplitLeg(req: Request, wallet: bytes, feePayer: bytes, find: AtaFinder, s: Split): Result<seq<Instruction>> {
    Leg(req, wallet, feePayer, find, s.recipient, s.amount, ShouldCreateSplitAta(HasSeparateFeePayer(req), s), s.memo)
  }

  // The compute budget, the primary leg, and the first n split legs.
  ghost function Legs(req: Request, wallet: bytes, feePayer: bytes, find: AtaFinder, n: nat): Result<seq<Instruction>>
    requires n <= |req.splits|
  {
    if n == 0 then
      var primary :- PrimaryLeg(req, wallet, feePayer, find);
      Ok(ComputeBudgetInstructions() + primary)
    else
      var front :- Legs(req, wallet, feePayer, find, n - 1);
      var leg :- SplitLeg(req, wallet, feePayer, find, req.splits[n - 1]);
      Ok(front + leg)
  }

  ghost function BuiltPayment(req: Request, wallet: bytes, find: AtaFinder): Result<Built> {
    var blockhash :- Base58.Decoded(req.blockhash);
    var feePayer :- FeePayerOf(req, wallet);
    var ixs :- Legs(req, wallet, feePayer, find, |req.splits|);
    Ok(Built(ixs, feePayer, blockhash))
  }

  // ---- the page's own loops ----

  method CreateAta(payer: bytes, ata: bytes, owner: bytes, mint: bytes, tokenProg: string) returns (r: Result<Instruction>)
    ensures r == CreateAtaIdempotent(payer, ata, owner, mint, tokenProg)
  {
    hide Base58.Decoded;
    var system :- Base58.Bs58Decode(SYSTEM_PROGRAM);
    var token :- Base58.Bs58Decode(tokenProg);
    return Ok(AtaInstruction(payer, ata, owner, mint, system, token));
  }

  // appendMemoInstruction pushes to its argument.
  method AppendMemo(instructions: seq<Instruction>, memo: bytes) returns (r: Result<seq<Instruction>>)
    ensures MemoInstructions(memo).Ok? ==> r == Ok(instructions + MemoInstructions(memo).value)
    ensures MemoInstructions(memo).Err? ==> r == MemoInstructions(memo)
  {
    assert instructions + [] == instructions;
    if memo == [] {
      return Ok(instructions);
    }
    if |memo| > 566 {
      return Err("memo cannot exceed 566 bytes");
    }
    return Ok(instructions + [Instruction(MEMO_PROGRAM, [], memo)]);
  }

  method BuildLeg(
    req: Request, wallet: bytes, walletText: string, feePayer: bytes, find: AtaFinder,
    recipient: string, amount: int, createAta: bool, memo: bytes) returns (r: Result<seq<Instruction>>)
    requires walletText == Base58.Encoded(wallet)
    ensures r == Leg(req, wallet, feePayer, find, recipient, amount, createAta, memo)
  {
    hide Base58.Decoded, Base58.Encoded, CreateAtaIdempotent, MemoInstructions;
    var instructions: seq<Instruction> := [];
    var to :- Base58.Bs58Decode(recipient);
    match req.asset {
      case NativeSol =>
        instructions := instructions + [SystemTransfer(wallet, to, amount)];
        assert instructions == [SystemTransfer(wallet, to, amount)];
      case Token(mint, decimals, program) =>
        var mintKey :- Base58.Bs58Decode(mint);
        var source :- Base58.Bs58Decode(find(walletText, mint, program));
        var dest :- Base58.Bs58Decode(find(recipient, mint, program));
        assert [] + instructions == instructions;
        if createAta {
          var ata :- CreateAta(feePayer, dest, to, mintKey, program);
          instructions := instructions + [ata];
        }
        instructions := instructions
          + [TokenTransferChecked(source, mintKey, dest, wallet, amount, decimals, program)];
        assert instructions == AtaInstructions(createAta, feePayer, dest, to, mintKey, program).value
          + [TokenTransferChecked(source, mintKey, dest, wallet, amount, decimals, program)];
    }
    r := AppendMemo(instructions, memo);
  }

  lemma {:induction false} LegsFail(req: Request, wallet: bytes, feePayer: bytes, find: AtaFinder, k: nat, n: nat)
    requires k <= n <= |req.splits| && Legs(req, wallet, feePayer, find, k).Err?
    ensures Legs(req, wallet, feePayer, find, n) == Legs(req, wallet, feePayer, find, k)
  {
    hide Leg;
    if k < n {
      LegsFail(req, wallet, feePayer, find, k, n - 1);
    }
  }

  // The construction in payWithWallet, which payTestMode repeats for its own key.
  method BuildPayment(req: Request, wallet: bytes, find: AtaFinder) returns (r: Result<Built>)
    ensures r == BuiltPayment(req, wallet, find)
  {
    hide Base58.Decoded, Base58.Encoded, Leg;
    var walletText := Base58.Bs58Encode(wallet);
    var blockhash :- Base58.Bs58Decode(req.blockhash);
    var splitTotal := 0;
    for i := 0 to |req.splits|
      invariant splitTotal == SplitTotal(req.splits[..i])
    {
      splitTotal := splitTotal + req.splits[i].amount;
      assert req.splits[..i + 1][..i] == req.splits[..i];
    }
    assert req.splits[..|req.splits|] == req.splits;
    var separate := HasSeparateFeePayer(req);
    var feePayer: bytes := wallet;
    if separate {
      feePayer :- Base58.Bs58Decode(req.feePayerKey);
    }
    var instructions := ComputeBudgetInstructions();
    var leg := BuildLeg(req, wallet, walletText, feePayer, find,
                        req.recipient, req.amount - splitTotal, false, req.externalId);
    if leg.Err? {
      LegsFail(req, wallet, feePayer, find, 0, |req.splits|);
      return Err(leg.error);
    }
    instructions := instructions + leg.value;
    for i := 0 to |req.splits|
      invariant Legs(req, wallet, feePayer, find, i) == Ok(instructions)
    {
      var s := req.splits[i];
      leg := BuildLeg(req, wallet, walletText, feePayer, find,
                      s.recipient, s.amount, ShouldCreateSplitAta(separate, s), s.memo);
      if leg.Err? {
        LegsFail(req, wallet, feePayer, find, i + 1, |req.splits|);
        return Err(leg.error);
      }
      instructions := instructions + leg.value;
    }
    return Ok(Built(instructions, feePayer, blockhash));
  }

  // ---- who signs ----

  ghost predicate OnlySigners(ixs: seq<Instruction>, a: bytes, b: bytes) {
    forall i, j | 0 <= i < |ixs| && 0 <= j < |ixs[i].accounts| && ixs[i].accounts[j].isSigner ::
      ixs[i].accounts[j].pubkey == a || ixs[i].accounts[j].pubkey == b
  }

  lemma OnlySignersConcat(x: seq<Instruction>, y: seq<Instruction>, a: bytes, b: bytes)
    requires OnlySigners(x, a, b) && OnlySigners(y, a, b)
    ensures OnlySigners(x + y, a, b)
  {
    forall i, j | 0 <= i < |x + y| && 0 <= j < |(x + y)[i].accounts| && (x + y)[i].accounts[j].isSigner
      ensures (x + y)[i].accounts[j].pubkey == a || (x + y)[i].accounts[j].pubkey == b
    {
      if i < |x| {
        assert (x + y)[i] == x[i];
      } else {
        assert (x + y)[i] == y[i - |x|];
      }
    }
  }

  lemma LegSigners(
    req: Request, wallet: bytes, feePayer: bytes, find: AtaFinder,
    recipient: string, amount: int, createAta: bool, memo: bytes)
    requires Leg(req, wallet, feePayer, find, recipient, amount, createAta, memo).Ok?
    ensures OnlySigners(Leg(req, wallet, feePayer, find, recipient, amount, createAta, memo).value, feePayer, wallet)
  {
    hide Base58.Decoded, Base58.Encoded, U64Bytes, LittleEndian;
  }

  lemma {:induction false} LegsSigners(req: Request, wallet: bytes, feePayer: bytes, find: AtaFinder, n: nat)
    requires n <= |req.splits| && Legs(req, wallet, feePayer, find, n).Ok?
    ensures OnlySigners(Legs(req, wallet, feePayer, find, n).value, feePayer, wallet)
  {
    hide Leg, OnlySigners;
    if n == 0 {
      BudgetSigners(feePayer, wallet);
      LegSigners(req, wallet, feePayer, find, req.recipient, PrimaryAmount(req), false, req.externalId);
      OnlySignersConcat(ComputeBudgetInstructions(), PrimaryLeg(req, wallet, feePayer, find).value, feePayer, wallet);
    } else {
      var s := req.splits[n - 1];
      LegsSigners(req, wallet, feePayer, find, n - 1);
      LegSigners(req, wallet, feePayer, find, s.recipient, s.amount,
                 ShouldCreateSplitAta(HasSeparateFeePayer(req), s), s.memo);
      OnlySignersConcat(Legs(req, wallet, feePayer, find, n - 1).value,
                        SplitLeg(req, wallet, feePayer, find, s).value, feePayer, wallet);
    }
  }

  lemma BudgetSigners(a: bytes, b: bytes)
    ensures OnlySigners(ComputeBudgetInstructions(), a, b)
  {
  }

  // The slots the page reserves.
  function Slots(req: Request): nat {
    if HasSeparateFeePayer(req) then 2 else 1
  }

  // The header asks for as many signatures as the page reserves slots, except
  // when the wallet itself is named as the separate fee payer; and the wallet's
  // key index is the slot the page writes the wallet's signature to.
  lemma SlotsMatchHeader(req: Request, wallet: bytes, find: AtaFinder)
    requires BuiltPayment(req, wallet, find).Ok?
    requires var b := BuiltPayment(req, wallet, find).value;
      CompiledMessage(b.instructions, b.feePayer, wallet, b.blockhash).Ok?
    ensures var b := BuiltPayment(req, wallet, find).value;
      var m := CompiledMessage(b.instructions, b.feePayer, wallet, b.blockhash).value;
      && (m.signers == Slots(req) <==> !(HasSeparateFeePayer(req) && b.feePayer == wallet))
      && (m.signers == Slots(req) ==> m.signers <= |m.keys| && m.keys[m.signers - 1] == wallet)
  {
    hide Base58.Decoded, Legs, CompiledMessage;
    var b := BuiltPayment(req, wallet, find).value;
    LegsSigners(req, wallet, b.feePayer, find, |req.splits|);
    TwoSigners(b.instructions, b.feePayer, wallet, b.blockhash);
  }

  lemma TwoSigners(ixs: seq<Instruction>, feePayer: bytes, wallet: bytes, blockhash: bytes)
    requires OnlySigners(ixs, feePayer, wallet)
    requires CompiledMessage(ixs, feePayer, wallet, blockhash).Ok?
    ensures var m := CompiledMessage(ixs, feePayer, wallet, blockhash).value;
      && m.signers == (if feePayer == wallet then 1 else 2)
      && m.signers <= |m.keys| && m.keys[m.signers - 1] == wallet
  {
    var m := CompiledMessage(ixs, feePayer, wallet, blockhash).value;
    SignersWithinKeys(ixs, feePayer, wallet, blockhash);
    hide CompiledMessage;
    CompiledPrivileges(ixs, feePayer, wallet, blockhash);
    // Any signer beyond the fee payer is the wallet, and the wallet is second.
    var last := m.signers - 1;
    assert SignerAt(m, last);
    MarkedIsPayer(ixs, feePayer, wallet, m.keys[last]);
    if feePayer != wallet {
      SignerSecond(ixs, feePayer, wallet, blockhash);
    }
  }

  lemma SignersWithinKeys(ixs: seq<Instruction>, feePayer: bytes, wallet: bytes, blockhash: bytes)
    requires CompiledMessage(ixs, feePayer, wallet, blockhash).Ok?
    ensures var m := CompiledMessage(ixs, feePayer, wallet, blockhash).value;
      1 <= m.signers <= |m.keys|
  {
    hide Base58.Decoded, BuildTable, Select;
    AllPlaced(ixs, feePayer, wallet);
    HeaderCounts(BuildTable(ixs, feePayer, wallet).value, feePayer);
  }

  lemma MarkedIsPayer(ixs: seq<Instruction>, feePayer: bytes, wallet: bytes, key: bytes)
    requires OnlySigners(ixs, feePayer, wallet) && MarkedSigner(ixs, feePayer, wallet, key)
    ensures key == feePayer || key == wallet
  {
  }

  // ---- the unsigned transaction ----

  function NoSignatures(n: nat): (bs: bytes)
    ensures |bs| == 64 * n && forall i | 0 <= i < |bs| :: bs[i] == 0
  {
    seq(64 * n, _ => 0)
  }

  function UnsignedTransaction(message: bytes, numSigs: nat): bytes {
    [Truncate(numSigs)] + NoSignatures(numSigs) + message
  }

  // unsignedTransaction, then the signature write of payTestMode.
  method SignTestTransaction(message: bytes, separate: bool, signature: bytes) returns (tx: bytes)
    requires |signature| == 64
    ensures var slots := if separate then 2 else 1;
      tx == [slots] + NoSignatures(slots - 1) + signature + message
  {
    var numSigs: nat := if separate then 2 else 1;
    var buffer := new byte[1 + numSigs * 64 + |message|](_ => 0);
    buffer[0] := Truncate(numSigs);
    SetAt(buffer, 1 + numSigs * 64, message);
    assert buffer[..] == UnsignedTransaction(message, numSigs);
    var offset := if separate then 1 + 64 else 1;
    SetAt(buffer, offset, signature);
    tx := buffer[..];
    assert tx == buffer[..offset + 64] + buffer[offset + 64..];
  }
}
