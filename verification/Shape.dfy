// The transaction shape decoders of python/conformance_runner.py and
// php/conformance/runner.php, run on what the payment page compiles.
module Shape {
  import opened Common
  import opened Powers
  import opened KeyTable
  import opened Wire
  import opened Compiler
  import opened Payment
  import Base58
  import ProgramKeys

  datatype Transfer =
    | SolTransfer(amount: int, destination: bytes)
    | SplTransfer(amount: int, decimals: byte, destination: bytes, mint: bytes, tokenProgram: bytes)

  datatype Shape = Shape(
    feePayer: bytes,
    memos: seq<bytes>,
    transfers: seq<Transfer>,
    unitLimit: Option<nat>,
    unitPrice: Option<int>)

  // The program keys the decoders compare with.
  datatype Programs = Programs(compute: bytes, memo: bytes, system: bytes, token: bytes, token2022: bytes)

  type U64Reader = bytes -> int

  // Python: int.from_bytes(_, "little").
  function PythonU64(bs: bytes): int {
    FromLittleEndian(bs)
  }

  // A 64-bit pattern as PHP's signed int.
  function Signed64(n: int): int {
    var low := n % TWO_64;
    if low < TWO_64 / 2 then low else low - TWO_64
  }

  function PhpU64(bs: bytes): int {
    Signed64(FromLittleEndian(bs))
  }

  // read_u64_le: shifts from the highest byte down, in PHP's 64-bit integers.
  method PhpReadU64Le(bs: bytes) returns (value: int)
    requires |bs| == 8
    ensures value == PhpU64(bs)
  {
    value := 0;
    var i := 8;
    assert bs[8..] == [];
    while i > 0
      invariant 0 <= i <= 8
      invariant value == Signed64(FromLittleEndian(bs[i..]))
    {
      i := i - 1;
      ghost var high := FromLittleEndian(bs[i + 1..]);
      assert bs[i..][0] == bs[i] && bs[i..][1..] == bs[i + 1..];
      ShiftAdd(value, high, bs[i]);
      value := Signed64(value * 256) + bs[i] as int;
    }
    assert bs[0..] == bs;
  }

  lemma ShiftAdd(value: int, high: nat, b: byte)
    requires value == Signed64(high)
    ensures Signed64(value * 256) + b as int == Signed64(b as int + 256 * high)
  {
    ShiftWraps(value, high);
    AddLowByte(high, b);
  }

  lemma ShiftWraps(value: int, high: nat)
    requires value == Signed64(high)
    ensures Signed64(value * 256) == Signed64(256 * high)
  {
    var q := high / TWO_64;
    var r := high % TWO_64;
    assert high == r + q * TWO_64;
    ModShift(256 * r, 256 * q);
    ModShift(256 * r, -256);
  }

  lemma AddLowByte(high: nat, b: byte)
    ensures Signed64(256 * high) + b as int == Signed64(b as int + 256 * high)
  {
    var q := high / (TWO_64 / 256);
    var r := high % (TWO_64 / 256);
    assert 256 * high == 256 * r + q * TWO_64;
    ModShift(256 * r, q);
    ModShift(256 * r + b as int, q);
  }

  lemma ModShift(n: int, k: int)
    ensures (n + k * TWO_64) % TWO_64 == n % TWO_64
  {
  }

  // ---- one instruction ----

  // Whether a memo is taken as text: Python decodes it as UTF-8 and raises if
  // it is not, PHP takes every byte string.
  type TextTest = bytes -> bool

  ghost predicate AllText(text: TextTest, memos: seq<bytes>) {
    forall memo | memo in memos :: text(memo)
  }

  function Step(
    m: Message, ps: Programs, read: U64Reader, text: TextTest, shape: Shape, ix: CompiledInstruction): Option<Shape>
  {
    if ix.program >= |m.keys| then None
    else
      var program := m.keys[ix.program];
      var data := ix.data;
      if program == ps.compute then Some(ComputeStep(read, shape, data))
      else if program == ps.memo then (if text(data) then Some(shape.(memos := shape.memos + [data])) else None)
      else if program == ps.system then
        if |data| >= 12 && FromLittleEndian(data[0..4]) == 2 && |ix.accounts| >= 2 then
          if ix.accounts[1] >= |m.keys| then None
          else Some(AddTransfer(shape, SolTransfer(read(data[4..12]), m.keys[ix.accounts[1]])))
        else Some(shape)
      else if program == ps.token || program == ps.token2022 then
        if |data| >= 10 && data[0] == 12 && |ix.accounts| >= 4 then
          if ix.accounts[1] >= |m.keys| || ix.accounts[2] >= |m.keys| then None
          else Some(AddTransfer(shape, SplTransfer(
            read(data[1..9]), data[9], m.keys[ix.accounts[2]], m.keys[ix.accounts[1]], program)))
        else Some(shape)
      else Some(shape)
  }

  function AddTransfer(shape: Shape, t: Transfer): Shape {
    shape.(transfers := shape.transfers + [t])
  }

  function ComputeStep(read: U64Reader, shape: Shape, data: bytes): Shape {
    if |data| == 5 && data[0] == 2 then shape.(unitLimit := Some(FromLittleEndian(data[1..5])))
    else if |data| == 9 && data[0] == 3 then shape.(unitPrice := Some(read(data[1..9])))
    else shape
  }

  function Steps(m: Message, ps: Programs, read: U64Reader, text: TextTest, ixs: seq<CompiledInstruction>): Option<Shape>
    requires m.keys != []
  {
    if ixs == [] then Some(Shape(m.keys[0], [], [], None, None))
    else
      match Steps(m, ps, read, text, ixs[..|ixs| - 1])
      case None => None
      case Some(shape) => Step(m, ps, read, text, shape, ixs[|ixs| - 1])
  }

  // None is the exception for a missing key or a memo that is no text.
  function ShapeOf(m: Message, ps: Programs, read: U64Reader, text: TextTest): Option<Shape> {
    if m.keys == [] then None else Steps(m, ps, read, text, m.instructions)
  }

  // The loop over the instructions; the two languages differ in `read` and `text` only.
  method ShapeFromMessage(m: Message, ps: Programs, read: U64Reader, text: TextTest) returns (r: Option<Shape>)
    ensures r == ShapeOf(m, ps, read, text)
  {
    hide Step;
    if m.keys == [] {
      return None;
    }
    var shape := Shape(m.keys[0], [], [], None, None);
    for i := 0 to |m.instructions|
      invariant Steps(m, ps, read, text, m.instructions[..i]) == Some(shape)
    {
      assert m.instructions[..i + 1][..i] == m.instructions[..i];
      var next := Step(m, ps, read, text, shape, m.instructions[i]);
      if next.None? {
        StepsFail(m, ps, read, text, m.instructions, i + 1);
        assert m.instructions[..|m.instructions|] == m.instructions;
        return None;
      }
      shape := next.value;
    }
    assert m.instructions[..|m.instructions|] == m.instructions;
    return Some(shape);
  }

  lemma {:induction false} StepsFail(
    m: Message, ps: Programs, read: U64Reader, text: TextTest, ixs: seq<CompiledInstruction>, n: nat)
    requires m.keys != [] && n <= |ixs| && Steps(m, ps, read, text, ixs[..n]).None?
    ensures Steps(m, ps, read, text, ixs).None?
    decreases |ixs|
  {
    hide Step;
    if n < |ixs| {
      assert ixs[..|ixs| - 1][..n] == ixs[..n];
      StepsFail(m, ps, read, text, ixs[..|ixs| - 1], n);
    } else {
      assert ixs[..n] == ixs;
    }
  }

  // ---- the same step on what an instruction means ----

  ghost function KnownPrograms(): Programs {
    Programs(Base58.Decoded(COMPUTE_BUDGET_PROGRAM).GetOr([]), Base58.Decoded(MEMO_PROGRAM).GetOr([]),
             Base58.Decoded(SYSTEM_PROGRAM).GetOr([]), Base58.Decoded(TOKEN_PROGRAM).GetOr([]),
             Base58.Decoded(TOKEN_2022_PROGRAM).GetOr([]))
  }

  ghost function MeaningStep(ps: Programs, read: U64Reader, shape: Shape, program: bytes, ix: Instruction): Shape {
    var data := ix.data;
    if program == ps.compute then ComputeStep(read, shape, data)
    else if program == ps.memo then shape.(memos := shape.memos + [data])
    else if program == ps.system then
      if |data| >= 12 && FromLittleEndian(data[0..4]) == 2 && |ix.accounts| >= 2
      then AddTransfer(shape, SolTransfer(read(data[4..12]), ix.accounts[1].pubkey))
      else shape
    else if program == ps.token || program == ps.token2022 then
      if |data| >= 10 && data[0] == 12 && |ix.accounts| >= 4
      then AddTransfer(shape, SplTransfer(read(data[1..9]), data[9], ix.accounts[2].pubkey, ix.accounts[1].pubkey, program))
      else shape
    else shape
  }

  ghost function MeaningSteps(ps: Programs, read: U64Reader, start: Shape, ixs: seq<Instruction>): Shape {
    if ixs == [] then start
    else
      var last := ixs[|ixs| - 1];
      MeaningStep(ps, read, MeaningSteps(ps, read, start, ixs[..|ixs| - 1]),
                  Base58.Decoded(last.programId).GetOr([]), last)
  }

  lemma StepMeans(
    m: Message, ps: Programs, read: U64Reader, text: TextTest, shape: Shape, c: CompiledInstruction, ix: Instruction)
    requires Means(ix, Resolve(m, c)) && AllText(text, shape.memos)
    ensures var next := MeaningStep(ps, read, shape, Base58.Decoded(ix.programId).GetOr([]), ix);
      Step(m, ps, read, text, shape, c) == if AllText(text, next.memos) then Some(next) else None
  {
    hide Base58.Decoded;
    var r := Resolve(m, c).value;
    assert |c.accounts| == |r.accounts| == |Keys(ix.accounts)|;
    assert forall i | 0 <= i < |c.accounts| :: m.keys[c.accounts[i]] == r.accounts[i] == ix.accounts[i].pubkey;
    assert ix.data in shape.memos + [ix.data];
  }

  lemma MemosOnlyGrow(ps: Programs, read: U64Reader, shape: Shape, program: bytes, ix: Instruction)
    ensures shape.memos <= MeaningStep(ps, read, shape, program, ix).memos
  {
  }

  lemma {:induction false} StepsMean(
    m: Message, ps: Programs, read: U64Reader, text: TextTest, cs: seq<CompiledInstruction>, ixs: seq<Instruction>)
    requires m.keys != [] && |cs| == |ixs|
    requires forall i | 0 <= i < |ixs| :: Means(ixs[i], Resolve(m, cs[i]))
    ensures var shape := MeaningSteps(ps, read, Shape(m.keys[0], [], [], None, None), ixs);
      Steps(m, ps, read, text, cs) == if AllText(text, shape.memos) then Some(shape) else None
  {
    hide Base58.Decoded, Step, MeaningStep, Means, Resolve;
    if ixs != [] {
      var n := |ixs| - 1;
      var front := MeaningSteps(ps, read, Shape(m.keys[0], [], [], None, None), ixs[..n]);
      StepsMean(m, ps, read, text, cs[..n], ixs[..n]);
      MemosOnlyGrow(ps, read, front, Base58.Decoded(ixs[n].programId).GetOr([]), ixs[n]);
      if AllText(text, front.memos) {
        StepMeans(m, ps, read, text, front, cs[n], ixs[n]);
      }
    }
  }

  lemma {:induction false} MeaningStepsConcat(
    ps: Programs, read: U64Reader, start: Shape, a: seq<Instruction>, b: seq<Instruction>)
    ensures MeaningSteps(ps, read, start, a + b) == MeaningSteps(ps, read, MeaningSteps(ps, read, start, a), b)
    decreases |b|
  {
    hide Base58.Decoded, MeaningStep;
    if b == [] {
      assert a + b == a;
    } else {
      var n := |b| - 1;
      assert (a + b)[..|a + b| - 1] == a + b[..n];
      MeaningStepsConcat(ps, read, start, a, b[..n]);
    }
  }

  lemma MeaningStepsOne(ps: Programs, read: U64Reader, start: Shape, ix: Instruction)
    ensures MeaningSteps(ps, read, start, [ix])
      == MeaningStep(ps, read, start, Base58.Decoded(ix.programId).GetOr([]), ix)
  {
    hide Base58.Decoded, MeaningStep;
    assert [ix][..0] == [];
  }

  // ---- the legs of a payment ----

  // The transfer a leg asks for, as a decoder with this reader reports it.
  ghost function ExpectedTransfer(req: Request, find: AtaFinder, read: U64Reader, recipient: string, amount: int): Transfer {
    match req.asset
    case NativeSol => SolTransfer(read(U64Bytes(amount)), Base58.Decoded(recipient).GetOr([]))
    case Token(mint, decimals, program) =>
      SplTransfer(read(U64Bytes(amount)), Truncate(decimals),
                  Base58.Decoded(find(recipient, mint, program)).GetOr([]),
                  Base58.Decoded(mint).GetOr([]), Base58.Decoded(program).GetOr([]))
  }

  function ExpectedMemos(memo: bytes): seq<bytes> {
    if memo == [] then [] else [memo]
  }

  // The request's legs in order: the primary one, then the splits.
  ghost function ExpectedTransfers(req: Request, find: AtaFinder, read: U64Reader, n: nat): (ts: seq<Transfer>)
    requires n <= |req.splits|
    ensures |ts| == n + 1
  {
    if n == 0 then [ExpectedTransfer(req, find, read, req.recipient, PrimaryAmount(req))]
    else
      var s := req.splits[n - 1];
      ExpectedTransfers(req, find, read, n - 1) + [ExpectedTransfer(req, find, read, s.recipient, s.amount)]
  }

  function ExpectedMemoList(req: Request, n: nat): seq<bytes>
    requires n <= |req.splits|
  {
    if n == 0 then ExpectedMemos(req.externalId)
    else ExpectedMemoList(req, n - 1) + ExpectedMemos(req.splits[n - 1].memo)
  }

  // A token program the decoders know; the page's own default is one of these.
  predicate KnownAsset(asset: Asset) {
    asset.NativeSol? || KnownToken(asset.program)
  }

  predicate KnownToken(program: string) {
    program == TOKEN_PROGRAM || program == TOKEN_2022_PROGRAM
  }

  // What a decoder takes a leg's transfer for: nothing if it does not know the
  // token program, and a memo if the request names the memo program as one.
  ghost function ReportedTransfers(req: Request, find: AtaFinder, read: U64Reader, n: nat): seq<Transfer>
    requires n <= |req.splits|
  {
    if KnownAsset(req.asset) then ExpectedTransfers(req, find, read, n) else []
  }

  function TransferData(amount: int, decimals: nat): bytes {
    [12] + U64Bytes(amount) + [Truncate(decimals)]
  }

  function LegMemos(asset: Asset, amount: int, memo: bytes): seq<bytes> {
    (if asset.Token? && asset.program == MEMO_PROGRAM then [TransferData(amount, asset.decimals)] else []) + ExpectedMemos(memo)
  }

  function ReportedMemos(req: Request, n: nat): seq<bytes>
    requires n <= |req.splits|
  {
    if n == 0 then LegMemos(req.asset, PrimaryAmount(req), req.externalId)
    else ReportedMemos(req, n - 1) + LegMemos(req.asset, req.splits[n - 1].amount, req.splits[n - 1].memo)
  }

  lemma MemoIsNoToken()
    ensures !KnownToken(MEMO_PROGRAM)
  {
    ProgramKeys.ProgramText();
  }

  lemma {:induction false} MemosAsRequested(req: Request, n: nat)
    requires n <= |req.splits| && !(req.asset.Token? && req.asset.program == MEMO_PROGRAM)
    ensures ReportedMemos(req, n) == ExpectedMemoList(req, n)
  {
    hide ExpectedMemos;
    if n > 0 {
      MemosAsRequested(req, n - 1);
      assert [] + ExpectedMemos(req.splits[n - 1].memo) == ExpectedMemos(req.splits[n - 1].memo);
    } else {
      assert [] + ExpectedMemos(req.externalId) == ExpectedMemos(req.externalId);
    }
  }

  lemma SystemTransferStep(read: U64Reader, shape: Shape, from: bytes, to: bytes, amount: int)
    ensures MeaningSteps(KnownPrograms(), read, shape, [SystemTransfer(from, to, amount)])
      == AddTransfer(shape, SolTransfer(read(U64Bytes(amount)), to))
  {
    hide Base58.Decoded, U64Bytes, FromLittleEndian, LittleEndian;
    var ix := SystemTransfer(from, to, amount);
    MeaningStepsOne(KnownPrograms(), read, shape, ix);
    KnownDiffer();
    assert ix.data[0..4] == LittleEndian(2, 4);
    assert ix.data[4..12] == U64Bytes(amount);
    LittleEndianRoundTrip(2, 4);
    FourBytes();
  }

  lemma FourBytes()
    ensures Pow(256, 4) == 0x1_0000_0000
  {
  }

  lemma TokenTransferStep(
    read: U64Reader, shape: Shape, src: bytes, mint: bytes, dst: bytes, auth: bytes,
    amount: int, decimals: nat, prog: string)
    ensures var transfer := SplTransfer(read(U64Bytes(amount)), Truncate(decimals), dst, mint, Base58.Decoded(prog).GetOr([]));
      MeaningSteps(KnownPrograms(), read, shape, [TokenTransferChecked(src, mint, dst, auth, amount, decimals, prog)])
      == if KnownToken(prog) then AddTransfer(shape, transfer)
         else if prog == MEMO_PROGRAM then shape.(memos := shape.memos + [TransferData(amount, decimals)])
         else shape
  {
    hide Base58.Decoded, U64Bytes, FromLittleEndian, LittleEndian;
    var ix := TokenTransferChecked(src, mint, dst, auth, amount, decimals, prog);
    MeaningStepsOne(KnownPrograms(), read, shape, ix);
    KnownDiffer();
    assert ix.data[1..9] == U64Bytes(amount);
    if !KnownToken(prog) {
      OtherProgram(prog, TOKEN_PROGRAM);
      OtherProgram(prog, TOKEN_2022_PROGRAM);
      if prog != MEMO_PROGRAM {
        OtherProgram(prog, MEMO_PROGRAM);
      }
    }
  }

  // A text that is not a program's id is not its key either.
  lemma OtherProgram(text: string, program: string)
    requires program in [COMPUTE_BUDGET_PROGRAM, ATA_PROGRAM, SYSTEM_PROGRAM, MEMO_PROGRAM, TOKEN_PROGRAM, TOKEN_2022_PROGRAM]
    requires text != program
    ensures Base58.Decoded(text).GetOr([]) != Base58.Decoded(program).GetOr([])
  {
    ProgramKeys.ProgramKeysAre32Bytes(program);
    if Base58.Decoded(text).Ok? && Base58.Decoded(text) == Base58.Decoded(program) {
      Base58.DecodeInjective(text, program);
    }
  }

  lemma KnownDiffer()
    ensures var ps := KnownPrograms();
      var ata := Base58.Decoded(ATA_PROGRAM).GetOr([]);
      && ps.compute != ps.memo && ps.compute != ps.system && ps.compute != ps.token && ps.compute != ps.token2022
      && ps.memo != ps.system && ps.memo != ps.token && ps.memo != ps.token2022
      && ps.system != ps.token && ps.system != ps.token2022
      && ata != ps.compute && ata != ps.memo && ata != ps.system && ata != ps.token && ata != ps.token2022
  {
    hide Base58.Decoded;
    KeyDiffers(COMPUTE_BUDGET_PROGRAM, MEMO_PROGRAM);
    KeyDiffers(COMPUTE_BUDGET_PROGRAM, SYSTEM_PROGRAM);
    KeyDiffers(COMPUTE_BUDGET_PROGRAM, TOKEN_PROGRAM);
    KeyDiffers(COMPUTE_BUDGET_PROGRAM, TOKEN_2022_PROGRAM);
    KeyDiffers(MEMO_PROGRAM, SYSTEM_PROGRAM);
    KeyDiffers(MEMO_PROGRAM, TOKEN_PROGRAM);
    KeyDiffers(MEMO_PROGRAM, TOKEN_2022_PROGRAM);
    KeyDiffers(SYSTEM_PROGRAM, TOKEN_PROGRAM);
    KeyDiffers(SYSTEM_PROGRAM, TOKEN_2022_PROGRAM);
    KeyDiffers(ATA_PROGRAM, COMPUTE_BUDGET_PROGRAM);
    KeyDiffers(ATA_PROGRAM, MEMO_PROGRAM);
    KeyDiffers(ATA_PROGRAM, SYSTEM_PROGRAM);
    KeyDiffers(ATA_PROGRAM, TOKEN_PROGRAM);
    KeyDiffers(ATA_PROGRAM, TOKEN_2022_PROGRAM);
  }

  lemma KeyDiffers(a: string, b: string)
    requires a in [COMPUTE_BUDGET_PROGRAM, ATA_PROGRAM, SYSTEM_PROGRAM, MEMO_PROGRAM, TOKEN_PROGRAM, TOKEN_2022_PROGRAM]
    requires b in [COMPUTE_BUDGET_PROGRAM, ATA_PROGRAM, SYSTEM_PROGRAM, MEMO_PROGRAM, TOKEN_PROGRAM, TOKEN_2022_PROGRAM]
    requires |a| != |b| || a[0] != b[0]
    ensures Base58.Decoded(a).GetOr([]) != Base58.Decoded(b).GetOr([])
  {
    hide Base58.Decoded;
    ProgramKeys.ProgramKeysDiffer(a, b);
    ProgramKeys.ProgramKeysAre32Bytes(a);
    ProgramKeys.ProgramKeysAre32Bytes(b);
  }

  lemma MemoStep(read: U64Reader, shape: Shape, memo: bytes)
    requires MemoInstructions(memo).Ok?
    ensures MeaningSteps(KnownPrograms(), read, shape, MemoInstructions(memo).value)
      == shape.(memos := shape.memos + ExpectedMemos(memo))
  {
    hide Base58.Decoded;
    if memo != [] {
      MeaningStepsOne(KnownPrograms(), read, shape, Instruction(MEMO_PROGRAM, [], memo));
      KnownDiffer();
    } else {
      assert shape.memos + [] == shape.memos;
    }
  }

  lemma AtaStep(
    read: U64Reader, shape: Shape, create: bool, payer: bytes, ata: bytes, owner: bytes, mint: bytes, prog: string)
    requires AtaInstructions(create, payer, ata, owner, mint, prog).Ok?
    ensures MeaningSteps(KnownPrograms(), read, shape, AtaInstructions(create, payer, ata, owner, mint, prog).value) == shape
  {
    hide Base58.Decoded;
    if create {
      MeaningStepsOne(KnownPrograms(), read, shape, CreateAtaIdempotent(payer, ata, owner, mint, prog).value);
      KnownDiffer();
    }
  }

  // A leg adds its one transfer and its memo to the shape, nothing else.
  lemma LegStep(
    req: Request, wallet: bytes, feePayer: bytes, find: AtaFinder, read: U64Reader, shape: Shape,
    recipient: string, amount: int, createAta: bool, memo: bytes)
    requires Leg(req, wallet, feePayer, find, recipient, amount, createAta, memo).Ok?
    ensures MeaningSteps(KnownPrograms(), read, shape,
                         Leg(req, wallet, feePayer, find, recipient, amount, createAta, memo).value)
      == shape.(transfers := shape.transfers
                  + (if KnownAsset(req.asset) then [ExpectedTransfer(req, find, read, recipient, amount)] else []),
                memos := shape.memos + LegMemos(req.asset, amount, memo))
  {
    hide Base58.Decoded, Base58.Encoded, MeaningSteps, MemoInstructions, AtaInstructions, KnownPrograms,
         SystemTransfer, TokenTransferChecked, ExpectedMemos, TransferData;
    var ps := KnownPrograms();
    var to := Base58.Decoded(recipient).value;
    var memos := MemoInstructions(memo).value;
    match req.asset {
      case NativeSol =>
        var transfer := [SystemTransfer(wallet, to, amount)];
        MeaningStepsConcat(ps, read, shape, transfer, memos);
        SystemTransferStep(read, shape, wallet, to, amount);
        MemoStep(read, MeaningSteps(ps, read, shape, transfer), memo);
      case Token(mint, decimals, program) =>
        var mintKey := Base58.Decoded(mint).value;
        var source := Base58.Decoded(find(Base58.Encoded(wallet), mint, program)).value;
        var dest := Base58.Decoded(find(recipient, mint, program)).value;
        var create := AtaInstructions(createAta, feePayer, dest, to, mintKey, program).value;
        var transfer := [TokenTransferChecked(source, mintKey, dest, wallet, amount, decimals, program)];
        MeaningStepsConcat(ps, read, shape, create + transfer, memos);
        MeaningStepsConcat(ps, read, shape, create, transfer);
        AtaStep(read, shape, createAta, feePayer, dest, to, mintKey, program);
        TokenTransferStep(read, shape, source, mintKey, dest, wallet, amount, decimals, program);
        MemoStep(read, MeaningSteps(ps, read, shape, transfer), memo);
        MemoIsNoToken();
        assert shape.transfers + [] == shape.transfers;
        Regroup(shape.memos, [TransferData(amount, decimals)], ExpectedMemos(memo));
        Regroup(shape.memos, [], ExpectedMemos(memo));
        assert shape.memos + [] == shape.memos;
    }
    assert [] + ExpectedMemos(memo) == ExpectedMemos(memo);
  }

  lemma Regroup(a: seq<bytes>, b: seq<bytes>, c: seq<bytes>)
    ensures a + (b + c) == a + b + c
  {
  }

  lemma BudgetStep(read: U64Reader, feePayer: bytes)
    ensures MeaningSteps(KnownPrograms(), read, Shape(feePayer, [], [], None, None), ComputeBudgetInstructions())
      == Shape(feePayer, [], [], Some(200_000), Some(read(U64Bytes(1))))
  {
    hide Base58.Decoded, U64Bytes, FromLittleEndian, LittleEndian;
    var ixs := ComputeBudgetInstructions();
    var start := Shape(feePayer, [], [], None, None);
    assert ixs == [ixs[0]] + [ixs[1]];
    MeaningStepsConcat(KnownPrograms(), read, start, [ixs[0]], [ixs[1]]);
    MeaningStepsOne(KnownPrograms(), read, start, ixs[0]);
    assert ixs[0].data[1..9] == U64Bytes(1);
    MeaningStepsOne(KnownPrograms(), read, MeaningSteps(KnownPrograms(), read, start, [ixs[0]]), ixs[1]);
    assert ixs[1].data[1..5] == LittleEndian(200_000, 4);
    FourBytes();
    LittleEndianRoundTrip(200_000, 4);
  }

  lemma {:induction false} LegsSteps(
    req: Request, wallet: bytes, feePayer: bytes, find: AtaFinder, read: U64Reader, n: nat)
    requires n <= |req.splits|
    requires Legs(req, wallet, feePayer, find, n).Ok?
    ensures MeaningSteps(KnownPrograms(), read, Shape(feePayer, [], [], None, None),
                         Legs(req, wallet, feePayer, find, n).value)
      == Shape(feePayer, ReportedMemos(req, n), ReportedTransfers(req, find, read, n),
               Some(200_000), Some(read(U64Bytes(1))))
  {
    hide Base58.Decoded, MeaningSteps, Leg, KnownPrograms, ExpectedTransfer, LegMemos, U64Bytes,
         ComputeBudgetInstructions, PrimaryAmount, KnownAsset;
    var ps, start := KnownPrograms(), Shape(feePayer, [], [], None, None);
    if n == 0 {
      var primary := PrimaryLeg(req, wallet, feePayer, find).value;
      var budget := MeaningSteps(ps, read, start, ComputeBudgetInstructions());
      MeaningStepsConcat(ps, read, start, ComputeBudgetInstructions(), primary);
      BudgetStep(read, feePayer);
      LegStep(req, wallet, feePayer, find, read, budget, req.recipient, PrimaryAmount(req), false, req.externalId);
    } else {
      var s := req.splits[n - 1];
      var front := Legs(req, wallet, feePayer, find, n - 1).value;
      LegsSteps(req, wallet, feePayer, find, read, n - 1);
      MeaningStepsConcat(ps, read, start, front, SplitLeg(req, wallet, feePayer, find, s).value);
      LegStep(req, wallet, feePayer, find, read, MeaningSteps(ps, read, start, front), s.recipient, s.amount,
              ShouldCreateSplitAta(HasSeparateFeePayer(req), s), s.memo);
    }
  }

  // ---- the built payment means the request ----

  // Reading the compiled bytes of a built payment gives back the request: the
  // primary transfer and then the splits, to the requested destinations, with
  // the non-empty memos in order, the compute budget and the fee payer. For a
  // token program the decoders do not know, they report no transfer. A decoder
  // that wants memos to be text fails exactly if one of them is not.
  lemma PaymentMeansRequest(req: Request, wallet: bytes, find: AtaFinder, read: U64Reader, text: TextTest)
    requires BuiltPayment(req, wallet, find).Ok?
    requires var b := BuiltPayment(req, wallet, find).value;
      var m := CompiledMessage(b.instructions, b.feePayer, wallet, b.blockhash);
      m.Ok? && InRange(b.instructions, b.feePayer, wallet, b.blockhash)
    ensures var b := BuiltPayment(req, wallet, find).value;
      var decoded := Decode(Compile(b.instructions, b.feePayer, wallet, b.blockhash).value);
      && decoded.Some?
      && var shape := Shape(
           b.feePayer, ReportedMemos(req, |req.splits|), ReportedTransfers(req, find, read, |req.splits|),
           Some(200_000), Some(read(U64Bytes(1))));
      && ShapeOf(decoded.value, KnownPrograms(), read, text) == (if AllText(text, shape.memos) then Some(shape) else None)
      && (KnownAsset(req.asset) ==>
            ReportedTransfers(req, find, read, |req.splits|) == ExpectedTransfers(req, find, read, |req.splits|)
            && ReportedMemos(req, |req.splits|) == ExpectedMemoList(req, |req.splits|))
  {
    hide Base58.Decoded, CompiledMessage, Decode, InRange, Legs, KnownPrograms, Means, Resolve,
         ReportedMemos, ExpectedMemoList, ExpectedTransfers, U64Bytes, MarkedSigner, MarkedWritable, Mentioned,
         SignerAt, WritableAt;
    var b := BuiltPayment(req, wallet, find).value;
    CompilationPreservesMeaning(b.instructions, b.feePayer, wallet, b.blockhash);
    var m := Decode(Compile(b.instructions, b.feePayer, wallet, b.blockhash).value).value;
    StepsMean(m, KnownPrograms(), read, text, m.instructions, b.instructions);
    LegsSteps(req, wallet, b.feePayer, find, read, |req.splits|);
    if KnownAsset(req.asset) {
      MemoIsNoToken();
      MemosAsRequested(req, |req.splits|);
    }
  }

  // ---- a payment whose slots differ ----

  // A request that names the paying wallet as its separate fee payer.
  function OwnFeePayerRequest(): Request {
    Request(5, SYSTEM_PROGRAM, [], [], NativeSol, true, SYSTEM_PROGRAM, SYSTEM_PROGRAM)
  }

  // It builds, compiles and fits the format, with two slots for the one
  // signature its header asks for.
  lemma OwnFeePayerBuilds(find: AtaFinder)
    ensures var req, wallet := OwnFeePayerRequest(), Base58.Decoded(SYSTEM_PROGRAM).GetOr([]);
      && BuiltPayment(req, wallet, find).Ok?
      && var b := BuiltPayment(req, wallet, find).value;
      var m := CompiledMessage(b.instructions, b.feePayer, wallet, b.blockhash);
      && HasSeparateFeePayer(req) && b.feePayer == wallet
      && m.Ok? && InRange(b.instructions, b.feePayer, wallet, b.blockhash) && m.value.signers == 1 && Slots(req) == 2
  {
    hide Base58.Decoded, CompiledMessage, InRange, ComputeBudgetInstructions, SystemTransfer, OnlySigners, BuiltPayment, Legs;
    var req, wallet := OwnFeePayerRequest(), Base58.Decoded(SYSTEM_PROGRAM).GetOr([]);
    var ixs := ComputeBudgetInstructions() + [SystemTransfer(wallet, wallet, 5)];
    OwnFeePayerLegs(find);
    OwnFeePayerCompiles(wallet);
    LegsSigners(req, wallet, wallet, find, 0);
    TwoSigners(ixs, wallet, wallet, wallet);
  }

  lemma OwnFeePayerCompiles(wallet: bytes)
    requires |wallet| == 32
    ensures var ixs := ComputeBudgetInstructions() + [SystemTransfer(wallet, wallet, 5)];
      var m := CompiledMessage(ixs, wallet, wallet, wallet);
      m.Ok? && InRange(ixs, wallet, wallet, wallet)
  {
    hide Base58.Decoded, CompiledMessage, InRange, U64Bytes, LittleEndian, Mentions, Mentioned;
    var transfer := SystemTransfer(wallet, wallet, 5);
    var ixs := ComputeBudgetInstructions() + [transfer];
    OwnFeePayerKeys(wallet);
    OwnFeePayerPrograms();
    assert ixs == [ixs[0], ixs[1], transfer];
    ThreeMentions(ixs[0], ixs[1], transfer);
    SmallInputsCompile(ixs, wallet, wallet, wallet);
  }

  lemma OwnFeePayerKeys(wallet: bytes)
    requires |wallet| == 32
    ensures var ixs := ComputeBudgetInstructions() + [SystemTransfer(wallet, wallet, 5)];
      forall key | Mentioned(ixs, wallet, wallet, key) :: |key| == 32
  {
    hide Base58.Decoded, U64Bytes, LittleEndian;
    OwnFeePayerPrograms();
  }

  lemma OwnFeePayerPrograms()
    ensures var system, budget := Base58.Decoded(SYSTEM_PROGRAM), Base58.Decoded(COMPUTE_BUDGET_PROGRAM);
      system.Ok? && |system.value| == 32 && budget.Ok? && |budget.value| == 32
  {
    hide Base58.Decoded;
    ProgramKeys.ProgramKeysAre32Bytes(SYSTEM_PROGRAM);
    ProgramKeys.ProgramKeysAre32Bytes(COMPUTE_BUDGET_PROGRAM);
  }

  lemma OwnFeePayerLegs(find: AtaFinder)
    ensures var req, wallet := OwnFeePayerRequest(), Base58.Decoded(SYSTEM_PROGRAM).GetOr([]);
      var ixs := ComputeBudgetInstructions() + [SystemTransfer(wallet, wallet, 5)];
      && |wallet| == 32
      && Legs(req, wallet, wallet, find, 0) == Ok(ixs)
      && BuiltPayment(req, wallet, find) == Ok(Built(ixs, wallet, wallet))
  {
    hide Base58.Decoded, ComputeBudgetInstructions, SystemTransfer;
    var wallet := Base58.Decoded(SYSTEM_PROGRAM).GetOr([]);
    ProgramKeys.ProgramKeysAre32Bytes(SYSTEM_PROGRAM);
    assert [SystemTransfer(wallet, wallet, 5)] + [] == [SystemTransfer(wallet, wallet, 5)];
  }

  lemma ThreeMentions(a: Instruction, b: Instruction, c: Instruction)
    ensures Mentions([a, b, c]) == |a.accounts| + |b.accounts| + |c.accounts| + 3
  {
    assert [a, b, c][..2] == [a, b] && [a, b][..1] == [a] && [a][..0] == [];
    assert Mentions([a]) == |a.accounts| + 1;
    assert Mentions([a, b]) == |a.accounts| + |b.accounts| + 2;
  }

  // ---- amounts ----

  ghost function LegAmounts(req: Request, n: nat): (amounts: seq<int>)
    requires n <= |req.splits|
    ensures |amounts| == n + 1
  {
    if n == 0 then [PrimaryAmount(req)] else LegAmounts(req, n - 1) + [req.splits[n - 1].amount]
  }

  ghost function Amounts(ts: seq<Transfer>): (amounts: seq<int>)
    ensures |amounts| == |ts| && forall i | 0 <= i < |ts| :: amounts[i] == ts[i].amount
  {
    seq(|ts|, i requires 0 <= i < |ts| => ts[i].amount)
  }

  ghost function Sum(amounts: seq<int>): int {
    if amounts == [] then 0 else Sum(amounts[..|amounts| - 1]) + amounts[|amounts| - 1]
  }

  // The legs of a request add up to its amount.
  lemma {:induction false} LegsSum(req: Request, n: nat)
    requires n <= |req.splits|
    ensures Sum(LegAmounts(req, n)) == PrimaryAmount(req) + SplitTotal(req.splits[..n])
  {
    if n > 0 {
      LegsSum(req, n - 1);
      assert req.splits[..n][..n - 1] == req.splits[..n - 1];
    } else {
      assert LegAmounts(req, 0)[..0] == [];
    }
  }

  lemma {:induction false} DecodedAmount(req: Request, find: AtaFinder, read: U64Reader, n: nat, i: nat)
    requires n <= |req.splits| && i <= n
    ensures ExpectedTransfers(req, find, read, n)[i].amount == read(U64Bytes(LegAmounts(req, n)[i]))
  {
    hide Base58.Decoded, U64Bytes;
    if 0 < n && i < n {
      DecodedAmount(req, find, read, n - 1, i);
    }
  }

  // The Python decoder reports exactly the requested amounts, and they add up
  // to the requested total, if and only if every leg is an unsigned 64-bit
  // number: the splits do not exceed the amount and nothing overflows.
  lemma PythonAmountsExact(req: Request, find: AtaFinder)
    ensures var n := |req.splits|;
      var ts := ExpectedTransfers(req, find, PythonU64, n);
      && (Amounts(ts) == LegAmounts(req, n) <==> forall i | 0 <= i <= n :: 0 <= LegAmounts(req, n)[i] < TWO_64)
      && (Amounts(ts) == LegAmounts(req, n) ==> Sum(Amounts(ts)) == req.amount)
  {
    hide Base58.Decoded, U64Bytes, ExpectedTransfer, ExpectedTransfers, LegAmounts;
    var n := |req.splits|;
    forall i | 0 <= i <= n
      ensures ExpectedTransfers(req, find, PythonU64, n)[i].amount == LegAmounts(req, n)[i] % TWO_64
    {
      DecodedAmount(req, find, PythonU64, n, i);
      U64RoundTrip(LegAmounts(req, n)[i]);
    }
    LegsSum(req, n);
    assert req.splits[..n] == req.splits;
  }

  // A split of 6 of an amount of 5: the primary leg is -1, and is decoded as
  // another amount.
  lemma NegativeLegIsLost(recipient: string, find: AtaFinder)
    ensures var req := Request(5, recipient, [], [Split(recipient, 6, false, [])], NativeSol, false, "", recipient);
      LegAmounts(req, 1) == [-1, 6] && Amounts(ExpectedTransfers(req, find, PythonU64, 1)) != LegAmounts(req, 1)
  {
    hide Base58.Decoded, U64Bytes, ExpectedTransfer, ExpectedTransfers;
    var req := Request(5, recipient, [], [Split(recipient, 6, false, [])], NativeSol, false, "", recipient);
    assert SplitTotal(req.splits) == 6 by {
      assert req.splits[..0] == [];
    }
    assert LegAmounts(req, 0) == [-1] && LegAmounts(req, 1) == [-1] + [6];
    PythonAmountsExact(req, find);
    assert LegAmounts(req, 1)[0] == -1;
  }

  // PHP's signed integers agree with Python's up to 2^63 - 1, and no further.
  lemma PhpAgreesBelow2To63(req: Request, find: AtaFinder)
    ensures var n := |req.splits|;
      Amounts(ExpectedTransfers(req, find, PhpU64, n)) == Amounts(ExpectedTransfers(req, find, PythonU64, n))
      <==> forall i | 0 <= i <= n :: LegAmounts(req, n)[i] % TWO_64 < TWO_64 / 2
  {
    hide Base58.Decoded, U64Bytes, ExpectedTransfer, ExpectedTransfers, LegAmounts;
    var n := |req.splits|;
    forall i | 0 <= i <= n
      ensures ExpectedTransfers(req, find, PythonU64, n)[i].amount == LegAmounts(req, n)[i] % TWO_64
      ensures ExpectedTransfers(req, find, PhpU64, n)[i].amount == Signed64(LegAmounts(req, n)[i] % TWO_64)
    {
      DecodedAmount(req, find, PythonU64, n, i);
      DecodedAmount(req, find, PhpU64, n, i);
      U64RoundTrip(LegAmounts(req, n)[i]);
    }
    var py, php := Amounts(ExpectedTransfers(req, find, PythonU64, n)), Amounts(ExpectedTransfers(req, find, PhpU64, n));
    assert forall i | 0 <= i <= n :: php[i] == py[i] <==> LegAmounts(req, n)[i] % TWO_64 < TWO_64 / 2;
    if php == py {
      assert forall i | 0 <= i <= n :: php[i] == py[i];
    }
  }
}
