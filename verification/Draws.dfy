// Whose money a compiled payment moves, read off the bytes: which instructions
// are its transfers, the accounts they name, and the account creations before
// them.
module Draws {
  import opened Common
  import opened Powers
  import opened KeyTable
  import opened Wire
  import opened Compiler
  import opened Payment
  import Base58
  import ProgramKeys
  import Shape

  ghost function KeyOf(text: string): bytes {
    Base58.Decoded(text).GetOr([])
  }

  // A transfer of the payment's asset: of the system program, or the checked
  // transfer of the token program, whatever that is.
  ghost predicate IsTransfer(asset: Asset, r: Option<Meaning>) {
    r.Some? &&
    match asset
    case NativeSol =>
      r.value.program == KeyOf(SYSTEM_PROGRAM) && |r.value.accounts| == 2
      && |r.value.data| == 12 && FromLittleEndian(r.value.data[..4]) == 2
    case Token(_, _, program) =>
      r.value.program == KeyOf(program) && |r.value.accounts| == 4 && |r.value.data| == 10 && r.value.data[0] == 12
  }

  ghost predicate IsCreation(r: Option<Meaning>) {
    r.Some? && r.value.program == KeyOf(ATA_PROGRAM) && |r.value.accounts| == 6 && r.value.data == [1]
  }

  // The amount, modulo 2^64, and for a token its decimals.
  ghost predicate Carries(asset: Asset, data: bytes, amount: int) {
    match asset
    case NativeSol => |data| == 12 && FromLittleEndian(data[4..12]) == amount % TWO_64
    case Token(_, decimals, _) =>
      |data| == 10 && FromLittleEndian(data[1..9]) == amount % TWO_64 && data[9] as int == decimals % 256
  }

  // Where the transfers stand, in order.
  ghost function Transfers(asset: Asset, rs: seq<Option<Meaning>>): seq<nat> {
    if rs == [] then []
    else
      var n := |rs| - 1;
      Transfers(asset, rs[..n]) + if IsTransfer(asset, rs[n]) then [n] else []
  }

  lemma {:induction false} TransfersInOrder(asset: Asset, rs: seq<Option<Meaning>>)
    ensures var at := Transfers(asset, rs);
      && (forall k | 0 <= k < |at| :: at[k] < |rs| && IsTransfer(asset, rs[at[k]]))
      && (forall k, l | 0 <= k < l < |at| :: at[k] < at[l])
      && (forall i | 0 <= i < |rs| && IsTransfer(asset, rs[i]) :: i in at)
  {
    hide IsTransfer;
    if rs != [] {
      var n := |rs| - 1;
      TransfersInOrder(asset, rs[..n]);
      var front, at := Transfers(asset, rs[..n]), Transfers(asset, rs);
      forall i | 0 <= i < |rs| && IsTransfer(asset, rs[i]) ensures i in at {
        if i < n {
          assert rs[..n][i] == rs[i];
          assert i in front;
        } else {
          assert at[|at| - 1] == n;
        }
      }
    }
  }

  ghost function Said(m: Message): seq<Option<Meaning>> {
    seq(|m.instructions|, i requires 0 <= i < |m.instructions| => Resolve(m, m.instructions[i]))
  }

  // Instruction i names these accounts, with at least these privileges.
  ghost predicate Names(m: Message, i: nat, metas: seq<AccountMeta>) {
    && i < |m.instructions|
    && Resolve(m, m.instructions[i]).Some?
    && Resolve(m, m.instructions[i]).value.accounts == Keys(metas)
    && forall j | 0 <= j < |metas| :: Privileged(m, m.instructions[i].accounts[j], metas[j])
  }

  ghost predicate Privileged(m: Message, at: nat, meta: AccountMeta) {
    && (meta.isSigner ==> SignerAt(m, at))
    && (meta.isWritable ==> WritableAt(m, at))
  }

  // ---- the request's legs ----

  function LegRecipient(req: Request, k: nat): string
    requires k <= |req.splits|
  {
    if k == 0 then req.recipient else req.splits[k - 1].recipient
  }

  function LegAmount(req: Request, k: nat): int
    requires k <= |req.splits|
  {
    if k == 0 then PrimaryAmount(req) else req.splits[k - 1].amount
  }

  // A split's account is created if its sender pays the fees or it asks for it.
  predicate LegCreates(req: Request, k: nat)
    requires k <= |req.splits|
  {
    req.asset.Token? && k > 0 && (!req.feePayer || req.feePayerKey == "" || req.splits[k - 1].ataCreationRequired)
  }

  // Who pays whom: the wallet to the recipient, or the wallet's token account
  // to the recipient's, with the wallet as authority.
  ghost function Parties(req: Request, wallet: bytes, find: AtaFinder, k: nat): seq<AccountMeta>
    requires k <= |req.splits|
  {
    match req.asset
    case NativeSol =>
      [AccountMeta(wallet, true, true), AccountMeta(KeyOf(LegRecipient(req, k)), false, true)]
    case Token(mint, _, program) =>
      [AccountMeta(KeyOf(find(Base58.Encoded(wallet), mint, program)), false, true),
       AccountMeta(KeyOf(mint), false, false),
       AccountMeta(KeyOf(find(LegRecipient(req, k), mint, program)), false, true),
       AccountMeta(wallet, true, false)]
  }

  // Payer, account, owner, mint, and the two programs.
  ghost function Creation(req: Request, feePayer: bytes, find: AtaFinder, k: nat): seq<AccountMeta>
    requires k <= |req.splits| && req.asset.Token?
  {
    [AccountMeta(feePayer, true, true),
     AccountMeta(KeyOf(find(LegRecipient(req, k), req.asset.mint, req.asset.program)), false, true),
     AccountMeta(KeyOf(LegRecipient(req, k)), false, false),
     AccountMeta(KeyOf(req.asset.mint), false, false),
     AccountMeta(KeyOf(SYSTEM_PROGRAM), false, false),
     AccountMeta(KeyOf(req.asset.program), false, false)]
  }

  // ---- instruction lists ----

  ghost function Own(ix: Instruction): Option<Meaning> {
    Some(Meaning(KeyOf(ix.programId), Keys(ix.accounts), ix.data))
  }

  ghost function Owns(ixs: seq<Instruction>): seq<Option<Meaning>> {
    seq(|ixs|, i requires 0 <= i < |ixs| => Own(ixs[i]))
  }

  lemma {:induction false} NoTransfers(asset: Asset, front: seq<Instruction>, more: seq<Instruction>)
    requires forall i | 0 <= i < |more| :: !IsTransfer(asset, Own(more[i]))
    ensures Transfers(asset, Owns(front + more)) == Transfers(asset, Owns(front))
    decreases |more|
  {
    hide IsTransfer, Own;
    if more == [] {
      assert front + more == front;
    } else {
      var n := |more| - 1;
      NoTransfers(asset, front, more[..n]);
      assert Owns(front + more)[..|front| + n] == Owns(front + more[..n]);
    }
  }

  lemma OneTransfer(asset: Asset, front: seq<Instruction>, ix: Instruction)
    requires IsTransfer(asset, Own(ix))
    ensures Transfers(asset, Owns(front + [ix])) == Transfers(asset, Owns(front)) + [|front|]
  {
    hide IsTransfer, Own;
    assert Owns(front + [ix])[..|front|] == Owns(front);
  }

  // Leg k's transfer stands at i, behind its account creation if it has one.
  ghost predicate LegAt(
    req: Request, wallet: bytes, feePayer: bytes, find: AtaFinder, ixs: seq<Instruction>, i: nat, k: nat)
    requires k <= |req.splits|
  {
    && 0 < i < |ixs|
    && IsTransfer(req.asset, Own(ixs[i]))
    && ixs[i].accounts == Parties(req, wallet, find, k)
    && Carries(req.asset, ixs[i].data, LegAmount(req, k))
    && (IsCreation(Own(ixs[i - 1])) <==> LegCreates(req, k))
    && (LegCreates(req, k) ==> ixs[i - 1].accounts == Creation(req, feePayer, find, k))
  }

  lemma TransferIsOne(req: Request, wallet: bytes, find: AtaFinder, k: nat, ix: Instruction)
    requires k <= |req.splits|
    requires match req.asset
      case NativeSol => ix == SystemTransfer(wallet, KeyOf(LegRecipient(req, k)), LegAmount(req, k))
      case Token(mint, decimals, program) =>
        ix == TokenTransferChecked(
          KeyOf(find(Base58.Encoded(wallet), mint, program)), KeyOf(mint),
          KeyOf(find(LegRecipient(req, k), mint, program)), wallet, LegAmount(req, k), decimals, program)
    ensures IsTransfer(req.asset, Own(ix)) && ix.accounts == Parties(req, wallet, find, k) && !IsCreation(Own(ix))
    ensures Carries(req.asset, ix.data, LegAmount(req, k))
  {
    hide Base58.Decoded, Base58.Encoded, U64Bytes, FromLittleEndian, LittleEndian;
    U64RoundTrip(LegAmount(req, k));
    if req.asset.NativeSol? {
      Shape.FourBytes();
      LittleEndianRoundTrip(2, 4);
      assert ix.data[..4] == LittleEndian(2, 4) && ix.data[4..12] == U64Bytes(LegAmount(req, k));
    } else {
      assert ix.data[1..9] == U64Bytes(LegAmount(req, k));
    }
  }

  // Neither memos nor the compute budget nor account creations are transfers,
  // and only the last are account creations.
  lemma OthersAreNone(asset: Asset, ix: Instruction)
    requires ix.accounts == [] || (asset.Token? && |ix.accounts| == 6)
    ensures !IsTransfer(asset, Own(ix))
    ensures ix.accounts == [] ==> !IsCreation(Own(ix))
  {
    hide Base58.Decoded;
  }

  lemma CreationIsOne(payer: bytes, ata: bytes, owner: bytes, mint: bytes, program: string)
    requires CreateAtaIdempotent(payer, ata, owner, mint, program).Ok?
    ensures var ix := CreateAtaIdempotent(payer, ata, owner, mint, program).value;
      IsCreation(Own(ix))
      && ix.accounts == [
        AccountMeta(payer, true, true), AccountMeta(ata, false, true), AccountMeta(owner, false, false),
        AccountMeta(mint, false, false), AccountMeta(KeyOf(SYSTEM_PROGRAM), false, false),
        AccountMeta(KeyOf(program), false, false)]
  {
    hide Base58.Decoded;
  }

  ghost predicate EndsPlain(ixs: seq<Instruction>) {
    ixs != [] && !IsCreation(Own(ixs[|ixs| - 1]))
  }

  // The three parts of a leg.
  lemma LegParts(
    req: Request, wallet: bytes, feePayer: bytes, find: AtaFinder, k: nat, createAta: bool, memo: bytes)
    returns (create: seq<Instruction>, transfer: Instruction, memos: seq<Instruction>)
    requires k <= |req.splits|
    requires Leg(req, wallet, feePayer, find, LegRecipient(req, k), LegAmount(req, k), createAta, memo).Ok?
    ensures Leg(req, wallet, feePayer, find, LegRecipient(req, k), LegAmount(req, k), createAta, memo).value
      == create + [transfer] + memos
    ensures |create| == (if createAta && req.asset.Token? then 1 else 0)
    ensures create != [] ==>
      |create[0].accounts| == 6 && IsCreation(Own(create[0])) && create[0].accounts == Creation(req, feePayer, find, k)
    ensures |memos| <= 1 && (memos != [] ==> memos[0].accounts == [])
    ensures IsTransfer(req.asset, Own(transfer)) && !IsCreation(Own(transfer))
    ensures transfer.accounts == Parties(req, wallet, find, k)
    ensures Carries(req.asset, transfer.data, LegAmount(req, k))
  {
    hide Base58.Decoded, Base58.Encoded, SystemTransfer, TokenTransferChecked, CreateAtaIdempotent, IsCreation, IsTransfer,
         Carries;
    memos := MemoInstructions(memo).value;
    create := [];
    match req.asset {
      case NativeSol =>
        transfer := SystemTransfer(wallet, KeyOf(LegRecipient(req, k)), LegAmount(req, k));
        assert [] + [transfer] == [transfer];
      case Token(mint, decimals, program) =>
        var dest, to := KeyOf(find(LegRecipient(req, k), mint, program)), KeyOf(LegRecipient(req, k));
        create := AtaInstructions(createAta, feePayer, dest, to, KeyOf(mint), program).value;
        transfer := TokenTransferChecked(
          KeyOf(find(Base58.Encoded(wallet), mint, program)), KeyOf(mint), dest, wallet, LegAmount(req, k), decimals, program);
        if createAta {
          CreationIsOne(feePayer, dest, to, KeyOf(mint), program);
        }
    }
    TransferIsOne(req, wallet, find, k, transfer);
  }

  // A list with leg k behind it has one transfer more, and it is the leg's.
  lemma LegAppended(
    req: Request, wallet: bytes, feePayer: bytes, find: AtaFinder, front: seq<Instruction>, k: nat,
    createAta: bool, memo: bytes) returns (i: nat)
    requires k <= |req.splits| && EndsPlain(front) && (createAta && req.asset.Token? <==> LegCreates(req, k))
    requires Leg(req, wallet, feePayer, find, LegRecipient(req, k), LegAmount(req, k), createAta, memo).Ok?
    ensures var leg := Leg(req, wallet, feePayer, find, LegRecipient(req, k), LegAmount(req, k), createAta, memo).value;
      && Transfers(req.asset, Owns(front + leg)) == Transfers(req.asset, Owns(front)) + [i]
      && EndsPlain(front + leg) && LegAt(req, wallet, feePayer, find, front + leg, i, k)
  {
    hide Leg, IsTransfer, Transfers, IsCreation, Own, Parties, Creation, Carries, LegAt, EndsPlain,
         LegCreates, LegRecipient, LegAmount, Owns;
    var create, transfer, memos := LegParts(req, wallet, feePayer, find, k, createAta, memo);
    Flatten(front, create, [transfer], memos);
    i := |front| + |create|;
    PartsTransfer(req.asset, front, create, transfer, memos);
    PartsPlaced(req, wallet, feePayer, find, front, create, transfer, memos, k);
  }

  lemma Flatten(a: seq<Instruction>, b: seq<Instruction>, c: seq<Instruction>, d: seq<Instruction>)
    ensures a + (b + c + d) == a + b + c + d
  {
  }

  lemma PartsTransfer(
    asset: Asset, front: seq<Instruction>, create: seq<Instruction>, transfer: Instruction, memos: seq<Instruction>)
    requires |create| <= 1 && (create != [] ==> asset.Token? && |create[0].accounts| == 6)
    requires |memos| <= 1 && (memos != [] ==> memos[0].accounts == []) && IsTransfer(asset, Own(transfer))
    ensures Transfers(asset, Owns(front + create + [transfer] + memos))
      == Transfers(asset, Owns(front)) + [|front| + |create|]
  {
    hide IsTransfer, Transfers, Own, Owns;
    if create != [] {
      OthersAreNone(asset, create[0]);
    }
    NoTransfers(asset, front, create);
    OneTransfer(asset, front + create, transfer);
    if memos != [] {
      OthersAreNone(asset, memos[0]);
    }
    NoTransfers(asset, front + create + [transfer], memos);
  }

  lemma PartsPlaced(
    req: Request, wallet: bytes, feePayer: bytes, find: AtaFinder,
    front: seq<Instruction>, create: seq<Instruction>, transfer: Instruction, memos: seq<Instruction>, k: nat)
    requires k <= |req.splits| && EndsPlain(front)
    requires |create| == (if LegCreates(req, k) then 1 else 0)
    requires create != [] ==> IsCreation(Own(create[0])) && create[0].accounts == Creation(req, feePayer, find, k)
    requires |memos| <= 1 && (memos != [] ==> memos[0].accounts == [])
    requires IsTransfer(req.asset, Own(transfer)) && !IsCreation(Own(transfer))
    requires transfer.accounts == Parties(req, wallet, find, k)
    requires Carries(req.asset, transfer.data, LegAmount(req, k))
    ensures var ixs := front + create + [transfer] + memos;
      EndsPlain(ixs) && LegAt(req, wallet, feePayer, find, ixs, |front| + |create|, k)
  {
    hide IsTransfer, IsCreation, Own, Parties, Creation, Carries, LegCreates;
    var ixs, i := front + create + [transfer] + memos, |front| + |create|;
    assert ixs[i] == transfer;
    assert ixs[i - 1] == if create == [] then front[|front| - 1] else create[0];
    if memos != [] {
      OthersAreNone(req.asset, memos[0]);
    }
    assert ixs[|ixs| - 1] == if memos == [] then transfer else memos[0];
  }

  ghost predicate LegsAt(
    req: Request, wallet: bytes, feePayer: bytes, find: AtaFinder, ixs: seq<Instruction>, at: seq<nat>)
    requires |at| <= |req.splits| + 1
  {
    forall k | 0 <= k < |at| :: LegAt(req, wallet, feePayer, find, ixs, at[k], k)
  }

  lemma LegStays(
    req: Request, wallet: bytes, feePayer: bytes, find: AtaFinder, a: seq<Instruction>, b: seq<Instruction>, i: nat, k: nat)
    requires k <= |req.splits| && LegAt(req, wallet, feePayer, find, a, i, k)
    ensures LegAt(req, wallet, feePayer, find, a + b, i, k)
  {
    hide IsTransfer, IsCreation, Own, Parties, Creation, Carries;
    assert (a + b)[i] == a[i] && (a + b)[i - 1] == a[i - 1];
  }

  lemma BudgetIsNone(asset: Asset)
    ensures EndsPlain(ComputeBudgetInstructions()) && Transfers(asset, Owns(ComputeBudgetInstructions())) == []
  {
    var ixs := ComputeBudgetInstructions();
    hide Own, IsTransfer, IsCreation, U64Bytes, LittleEndian;
    OthersAreNone(asset, ixs[0]);
    OthersAreNone(asset, ixs[1]);
    NoTransfers(asset, [], ixs);
    assert [] + ixs == ixs;
  }

  // The first n + 1 legs' instructions: their transfers are the legs', in order.
  lemma {:induction false} LegsTransfer(req: Request, wallet: bytes, feePayer: bytes, find: AtaFinder, n: nat)
    requires n <= |req.splits| && Legs(req, wallet, feePayer, find, n).Ok?
    ensures var ixs := Legs(req, wallet, feePayer, find, n).value;
      var at := Transfers(req.asset, Owns(ixs));
      |at| == n + 1 && EndsPlain(ixs) && LegsAt(req, wallet, feePayer, find, ixs, at)
  {
    hide Leg, IsTransfer, Transfers, IsCreation, Own, LegAt, EndsPlain, ComputeBudgetInstructions;
    var ixs := Legs(req, wallet, feePayer, find, n).value;
    if n == 0 {
      BudgetIsNone(req.asset);
      var i := LegAppended(req, wallet, feePayer, find, ComputeBudgetInstructions(), 0, false, req.externalId);
    } else {
      var front, s := Legs(req, wallet, feePayer, find, n - 1).value, req.splits[n - 1];
      LegsTransfer(req, wallet, feePayer, find, n - 1);
      var i := LegAppended(req, wallet, feePayer, find, front, n, ShouldCreateSplitAta(HasSeparateFeePayer(req), s), s.memo);
      var leg := SplitLeg(req, wallet, feePayer, find, s).value;
      var before := Transfers(req.asset, Owns(front));
      forall k | 0 <= k < |before| ensures LegAt(req, wallet, feePayer, find, ixs, before[k], k) {
        LegStays(req, wallet, feePayer, find, front, leg, before[k], k);
      }
    }
  }

  // ---- the compiled bytes ----

  lemma NamedAsBuilt(ixs: seq<Instruction>, feePayer: bytes, wallet: bytes, m: Message, i: nat)
    requires i < |ixs| == |m.instructions| && Means(ixs[i], Resolve(m, m.instructions[i]))
    requires forall j | 0 <= j < |m.keys| :: SignerAt(m, j) <==> MarkedSigner(ixs, feePayer, wallet, m.keys[j])
    requires forall j | 0 <= j < |m.keys| :: WritableAt(m, j) <==> MarkedWritable(ixs, feePayer, wallet, m.keys[j])
    ensures Names(m, i, ixs[i].accounts) && Resolve(m, m.instructions[i]) == Own(ixs[i])
  {
    hide Base58.Decoded, SignerAt, WritableAt;
    var c, metas := m.instructions[i], ixs[i].accounts;
    var r := Resolve(m, c).value;
    assert |c.accounts| == |r.accounts| == |Keys(metas)| == |metas|;
    forall j | 0 <= j < |metas| ensures Privileged(m, c.accounts[j], metas[j]) {
      assert m.keys[c.accounts[j]] == r.accounts[j] == Keys(metas)[j] == metas[j].pubkey;
      assert metas[j].isSigner ==> Signs(metas, metas[j].pubkey);
      assert metas[j].isWritable ==> Writes(metas, metas[j].pubkey);
    }
  }

  // Transfer k of the message is leg k of the request: it names the parties of
  // that leg, moves its amount, and stands directly behind an account creation
  // for its recipient exactly if the leg creates one.
  ghost predicate MovesLeg(
    req: Request, wallet: bytes, feePayer: bytes, find: AtaFinder, m: Message, i: nat, k: nat)
    requires k <= |req.splits|
  {
    && Names(m, i, Parties(req, wallet, find, k)) && i > 0
    && IsTransfer(req.asset, Said(m)[i])
    && Carries(req.asset, m.instructions[i].data, LegAmount(req, k))
    && (IsCreation(Said(m)[i - 1]) <==> LegCreates(req, k))
    && (LegCreates(req, k) ==> Names(m, i - 1, Creation(req, feePayer, find, k)))
  }

  // Whose money a payment moves, for every request that builds and fits: the
  // transfers of the asset are the request's legs, one each and in order, out
  // of the wallet's account and on the wallet's signature; the fees are paid by
  // the separate fee payer if one is named, else by the wallet.
  lemma PaymentMovesWallet(req: Request, wallet: bytes, find: AtaFinder)
    requires BuiltPayment(req, wallet, find).Ok?
    requires var b := BuiltPayment(req, wallet, find).value;
      var m := CompiledMessage(b.instructions, b.feePayer, wallet, b.blockhash);
      m.Ok? && InRange(b.instructions, b.feePayer, wallet, b.blockhash)
    ensures var b := BuiltPayment(req, wallet, find).value;
      var decoded := Decode(Compile(b.instructions, b.feePayer, wallet, b.blockhash).value);
      && decoded.Some?
      && var m := decoded.value;
      var at := Transfers(req.asset, Said(m));
      && |at| == |req.splits| + 1
      && (forall k | 0 <= k < |at| :: MovesLeg(req, wallet, b.feePayer, find, m, at[k], k))
      && |m.keys| >= 1 && m.keys[0] == b.feePayer && SignerAt(m, 0) && m.blockhash == KeyOf(req.blockhash)
      && b.feePayer == if req.feePayer && req.feePayerKey != "" then KeyOf(req.feePayerKey) else wallet
  {
    hide Base58.Decoded, CompiledMessage, Decode, InRange, Legs, Means, Resolve, MarkedSigner, MarkedWritable, Mentioned,
         SignerAt, WritableAt, Transfers, Own, LegAt, Names, MovesLeg;
    var b := BuiltPayment(req, wallet, find).value;
    var ixs := b.instructions;
    CompilationPreservesMeaning(ixs, b.feePayer, wallet, b.blockhash);
    var m := Decode(Compile(ixs, b.feePayer, wallet, b.blockhash).value).value;
    LegsTransfer(req, wallet, b.feePayer, find, |req.splits|);
    PayerSigns(ixs, b.feePayer, wallet);
    forall i | 0 <= i < |ixs| ensures Names(m, i, ixs[i].accounts) && Resolve(m, m.instructions[i]) == Own(ixs[i]) {
      NamedAsBuilt(ixs, b.feePayer, wallet, m, i);
    }
    assert Said(m) == Owns(ixs);
    var at := Transfers(req.asset, Said(m));
    forall k | 0 <= k < |at| ensures MovesLeg(req, wallet, b.feePayer, find, m, at[k], k) {
      assert LegAt(req, wallet, b.feePayer, find, ixs, at[k], k);
      LegMoves(req, wallet, b.feePayer, find, ixs, m, at[k], k);
    }
  }

  lemma PayerSigns(ixs: seq<Instruction>, feePayer: bytes, wallet: bytes)
    ensures MarkedSigner(ixs, feePayer, wallet, feePayer)
  {
  }

  lemma LegMoves(
    req: Request, wallet: bytes, feePayer: bytes, find: AtaFinder, ixs: seq<Instruction>, m: Message, i: nat, k: nat)
    requires k <= |req.splits| && LegAt(req, wallet, feePayer, find, ixs, i, k) && Said(m) == Owns(ixs)
    requires forall j | 0 <= j < |ixs| :: Names(m, j, ixs[j].accounts)
    ensures MovesLeg(req, wallet, feePayer, find, m, i, k)
  {
    hide IsTransfer, IsCreation, Parties, Creation, Carries, LegCreates, Names, Resolve;
    assert Said(m)[i] == Own(ixs[i]) && Said(m)[i - 1] == Own(ixs[i - 1]);
    assert |m.instructions| == |Said(m)| == |ixs|;
    SameData(m, ixs[i], i);
  }

  lemma SameData(m: Message, ix: Instruction, i: nat)
    requires i < |m.instructions| && Resolve(m, m.instructions[i]) == Own(ix)
    ensures m.instructions[i].data == ix.data
  {
  }

  // ---- which requests build ----

  function LegMemo(req: Request, k: nat): bytes
    requires k <= |req.splits|
  {
    if k == 0 then req.externalId else req.splits[k - 1].memo
  }

  // Every text of a leg is base58, and its memo is short enough.
  ghost predicate LegBuilds(req: Request, wallet: bytes, find: AtaFinder, k: nat)
    requires k <= |req.splits|
  {
    && Base58.Decoded(LegRecipient(req, k)).Ok? && |LegMemo(req, k)| <= 566
    && match req.asset
       case NativeSol => true
       case Token(mint, _, program) =>
         && Base58.Decoded(mint).Ok?
         && Base58.Decoded(find(Base58.Encoded(wallet), mint, program)).Ok?
         && Base58.Decoded(find(LegRecipient(req, k), mint, program)).Ok?
         && (LegCreates(req, k) ==> Base58.Decoded(program).Ok?)
  }

  lemma LegBuildsExactly(
    req: Request, wallet: bytes, feePayer: bytes, find: AtaFinder, k: nat, createAta: bool)
    requires k <= |req.splits| && (createAta && req.asset.Token? <==> LegCreates(req, k))
    ensures Leg(req, wallet, feePayer, find, LegRecipient(req, k), LegAmount(req, k), createAta, LegMemo(req, k)).Ok?
      <==> LegBuilds(req, wallet, find, k)
  {
    hide Base58.Decoded, Base58.Encoded, LegCreates;
    ProgramKeys.ProgramKeysAre32Bytes(SYSTEM_PROGRAM);
  }

  lemma {:induction false} LegsBuildExactly(req: Request, wallet: bytes, feePayer: bytes, find: AtaFinder, n: nat)
    requires n <= |req.splits|
    ensures Legs(req, wallet, feePayer, find, n).Ok? <==> forall k | 0 <= k <= n :: LegBuilds(req, wallet, find, k)
  {
    hide Leg, LegBuilds, ComputeBudgetInstructions;
    if n == 0 {
      LegBuildsExactly(req, wallet, feePayer, find, 0, false);
    } else {
      LegsBuildExactly(req, wallet, feePayer, find, n - 1);
      LegBuildsExactly(req, wallet, feePayer, find, n, ShouldCreateSplitAta(HasSeparateFeePayer(req), req.splits[n - 1]));
    }
  }

  // A request builds exactly if its texts are base58, those of the accounts
  // found for it included, and no memo is longer than 566 bytes.
  lemma PaymentBuildsExactly(req: Request, wallet: bytes, find: AtaFinder)
    ensures BuiltPayment(req, wallet, find).Ok? <==> (
      && Base58.Decoded(req.blockhash).Ok?
      && (req.feePayer && req.feePayerKey != "" ==> Base58.Decoded(req.feePayerKey).Ok?)
      && forall k | 0 <= k <= |req.splits| :: LegBuilds(req, wallet, find, k))
  {
    hide Base58.Decoded, Legs, LegBuilds;
    if FeePayerOf(req, wallet).Ok? {
      LegsBuildExactly(req, wallet, FeePayerOf(req, wallet).value, find, |req.splits|);
    }
  }
}
