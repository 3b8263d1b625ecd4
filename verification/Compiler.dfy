// compileMessage of html/src/transaction.ts: from instructions that name
// their accounts to the bytes of a version-0 message.
module Compiler {
  import opened Common
  import opened KeyTable
  import opened Wire
  import Base58

  datatype Instruction = Instruction(programId: string, accounts: seq<AccountMeta>, data: bytes)

  // What an instruction asks for: program key, account keys in order, data.
  datatype Meaning = Meaning(program: bytes, accounts: seq<bytes>, data: bytes)

  // ---- the key table ----

  function Keys(metas: seq<AccountMeta>): (keys: seq<bytes>)
    ensures |keys| == |metas| && forall i | 0 <= i < |metas| :: keys[i] == metas[i].pubkey
  {
    seq(|metas|, i requires 0 <= i < |metas| => metas[i].pubkey)
  }

  function AccountTable(t: Table, ixs: seq<Instruction>): Table {
    if ixs == [] then t
    else MergeAll(AccountTable(t, ixs[..|ixs| - 1]), ixs[|ixs| - 1].accounts)
  }

  function AddName(names: seq<string>, name: string): seq<string> {
    if name in names then names else names + [name]
  }

  // The Set of program ids, in insertion order.
  function ProgramNames(ixs: seq<Instruction>): seq<string> {
    if ixs == [] then [] else AddName(ProgramNames(ixs[..|ixs| - 1]), ixs[|ixs| - 1].programId)
  }

  function AddProgram(t: Table, key: bytes): Table {
    if IndexOf(t, key) >= 0 then t else t + [AccountMeta(key, false, false)]
  }

  ghost function ProgramTable(t: Table, names: seq<string>): Result<Table> {
    if names == [] then Ok(t)
    else
      var front :- ProgramTable(t, names[..|names| - 1]);
      var key :- Base58.Decoded(names[|names| - 1]);
      Ok(AddProgram(front, key))
  }

  function Payers(feePayer: bytes, signer: bytes): Table {
    if signer == feePayer then [AccountMeta(feePayer, true, true)]
    else [AccountMeta(feePayer, true, true), AccountMeta(signer, true, true)]
  }

  ghost function BuildTable(ixs: seq<Instruction>, feePayer: bytes, signer: bytes): Result<Table> {
    ProgramTable(AccountTable(Payers(feePayer, signer), ixs), ProgramNames(ixs))
  }

  // A key's privileges are the union over everything that mentions it.
  ghost predicate MarkedSigner(ixs: seq<Instruction>, feePayer: bytes, signer: bytes, key: bytes) {
    key == feePayer || key == signer || exists i :: 0 <= i < |ixs| && Signs(ixs[i].accounts, key)
  }

  ghost predicate MarkedWritable(ixs: seq<Instruction>, feePayer: bytes, signer: bytes, key: bytes) {
    key == feePayer || key == signer || exists i :: 0 <= i < |ixs| && Writes(ixs[i].accounts, key)
  }

  ghost predicate Mentioned(ixs: seq<Instruction>, feePayer: bytes, signer: bytes, key: bytes) {
    || key == feePayer || key == signer
    || exists i :: 0 <= i < |ixs| && (HasKey(ixs[i].accounts, key) || Base58.Decoded(ixs[i].programId) == Ok(key))
  }

  lemma {:induction false} AccountTableUnion(t: Table, ixs: seq<Instruction>, key: bytes)
    ensures Distinct(t) ==> Distinct(AccountTable(t, ixs))
    ensures HasKey(AccountTable(t, ixs), key) <==>
      HasKey(t, key) || exists i :: 0 <= i < |ixs| && HasKey(ixs[i].accounts, key)
    ensures Signs(AccountTable(t, ixs), key) <==>
      Signs(t, key) || exists i :: 0 <= i < |ixs| && Signs(ixs[i].accounts, key)
    ensures Writes(AccountTable(t, ixs), key) <==>
      Writes(t, key) || exists i :: 0 <= i < |ixs| && Writes(ixs[i].accounts, key)
    ensures var r := AccountTable(t, ixs);
      |t| <= |r| && forall i | 0 <= i < |t| :: r[i].pubkey == t[i].pubkey
  {
    hide Distinct, HasKey, Signs, Writes, MergeAll;
    if ixs != [] {
      var n := |ixs| - 1;
      var front := ixs[..n];
      AccountTableUnion(t, front, key);
      MergeAllUnion(AccountTable(t, front), ixs[n].accounts, key);
      assert forall i | 0 <= i < n :: front[i] == ixs[i];
    }
  }

  lemma AddProgramUnion(t: Table, program: bytes, key: bytes)
    ensures Distinct(t) ==> Distinct(AddProgram(t, program))
    ensures HasKey(AddProgram(t, program), key) <==> HasKey(t, key) || program == key
    ensures Signs(AddProgram(t, program), key) <==> Signs(t, key)
    ensures Writes(AddProgram(t, program), key) <==> Writes(t, key)
    ensures var r := AddProgram(t, program);
      |t| <= |r| && forall i | 0 <= i < |t| :: r[i].pubkey == t[i].pubkey
  {
    if IndexOf(t, program) >= 0 {
      assert t[IndexOf(t, program)].pubkey == program;
    } else {
      SplitLast(t, AccountMeta(program, false, false), key);
    }
  }

  lemma {:induction false} ProgramTableUnion(t: Table, names: seq<string>, key: bytes)
    requires ProgramTable(t, names).Ok?
    ensures var r := ProgramTable(t, names).value;
      && (Distinct(t) ==> Distinct(r))
      && (HasKey(r, key) <==> HasKey(t, key) || exists i :: 0 <= i < |names| && Base58.Decoded(names[i]) == Ok(key))
      && (Signs(r, key) <==> Signs(t, key))
      && (Writes(r, key) <==> Writes(t, key))
      && |t| <= |r| && (forall i | 0 <= i < |t| :: r[i].pubkey == t[i].pubkey)
      && forall i | 0 <= i < |names| :: Base58.Decoded(names[i]).Ok?
  {
    hide Distinct, HasKey, Signs, Writes, AddProgram, Base58.Decoded;
    if names != [] {
      var n := |names| - 1;
      var front := names[..n];
      ProgramTableUnion(t, front, key);
      var program := Base58.Decoded(names[n]).value;
      AddProgramUnion(ProgramTable(t, front).value, program, key);
      assert forall i | 0 <= i < n :: front[i] == names[i];
    }
  }

  lemma {:induction false} ProgramNamesAll(ixs: seq<Instruction>)
    ensures forall i | 0 <= i < |ixs| :: ixs[i].programId in ProgramNames(ixs)
    ensures forall name | name in ProgramNames(ixs) :: exists i :: 0 <= i < |ixs| && ixs[i].programId == name
  {
    if ixs != [] {
      var n := |ixs| - 1;
      var front := ixs[..n];
      ProgramNamesAll(front);
      forall i | 0 <= i < |ixs| ensures ixs[i].programId in ProgramNames(ixs) {
        if i < n {
          assert front[i] == ixs[i];
        }
      }
      forall name | name in ProgramNames(ixs) ensures exists i :: 0 <= i < |ixs| && ixs[i].programId == name {
        if name in ProgramNames(front) {
          var i :| 0 <= i < n && front[i].programId == name;
          assert ixs[i].programId == name;
        } else {
          assert ixs[n].programId == name;
        }
      }
    }
  }

  lemma PayersUnion(feePayer: bytes, signer: bytes, key: bytes)
    ensures var t := Payers(feePayer, signer);
      && Distinct(t)
      && (HasKey(t, key) <==> key == feePayer || key == signer)
      && (Signs(t, key) <==> key == feePayer || key == signer)
      && (Writes(t, key) <==> key == feePayer || key == signer)
  {
    var t := Payers(feePayer, signer);
    assert t[0].pubkey == feePayer && t[|t| - 1].pubkey == signer;
  }

  // The finished table: every mentioned key once, with the union of its
  // privileges; the fee payer first, then the signer.
  lemma TableUnion(ixs: seq<Instruction>, feePayer: bytes, signer: bytes, key: bytes)
    requires BuildTable(ixs, feePayer, signer).Ok?
    ensures var t := BuildTable(ixs, feePayer, signer).value;
      && Distinct(t)
      && (HasKey(t, key) <==> Mentioned(ixs, feePayer, signer, key))
      && (Signs(t, key) <==> MarkedSigner(ixs, feePayer, signer, key))
      && (Writes(t, key) <==> MarkedWritable(ixs, feePayer, signer, key))
      && |t| >= 1 && t[0].pubkey == feePayer
      && (signer != feePayer ==> |t| >= 2 && t[1].pubkey == signer)
  {
    hide Distinct, HasKey, Signs, Writes, AccountTable, ProgramTable, ProgramNames, Base58.Decoded;
    var names := ProgramNames(ixs);
    PayersUnion(feePayer, signer, key);
    AccountTableUnion(Payers(feePayer, signer), ixs, key);
    ProgramTableUnion(AccountTable(Payers(feePayer, signer), ixs), names, key);
    ProgramNamesAll(ixs);
    if i :| 0 <= i < |ixs| && Base58.Decoded(ixs[i].programId) == Ok(key) {
      var j :| 0 <= j < |names| && names[j] == ixs[i].programId;
    }
    if j :| 0 <= j < |names| && Base58.Decoded(names[j]) == Ok(key) {
      assert names[j] in names;
      var i :| 0 <= i < |ixs| && ixs[i].programId == names[j];
    }
  }

  lemma ProgramsDecode(ixs: seq<Instruction>, feePayer: bytes, signer: bytes)
    requires BuildTable(ixs, feePayer, signer).Ok?
    ensures forall i | 0 <= i < |ixs| :: Base58.Decoded(ixs[i].programId).Ok?
  {
    hide Base58.Decoded, AccountTable, ProgramTable;
    var names := ProgramNames(ixs);
    ProgramTableUnion(AccountTable(Payers(feePayer, signer), ixs), names, feePayer);
    ProgramNamesAll(ixs);
    forall i | 0 <= i < |ixs| ensures Base58.Decoded(ixs[i].programId).Ok? {
      var j :| 0 <= j < |names| && names[j] == ixs[i].programId;
    }
  }

  // ---- the message ----

  ghost function Indices(ordered: Table, accounts: seq<AccountMeta>): (ns: seq<nat>)
    requires forall i | 0 <= i < |accounts| :: IndexOf(ordered, accounts[i].pubkey) >= 0
    ensures |ns| == |accounts|
    ensures forall i | 0 <= i < |accounts| :: ns[i] == IndexOf(ordered, accounts[i].pubkey)
  {
    seq(|accounts|, i requires 0 <= i < |accounts| => IndexOf(ordered, accounts[i].pubkey))
  }

  // Every key an instruction names has a place in the table.
  ghost predicate Placed(ordered: Table, ix: Instruction) {
    && Base58.Decoded(ix.programId).Ok?
    && IndexOf(ordered, Base58.Decoded(ix.programId).value) >= 0
    && forall i | 0 <= i < |ix.accounts| :: IndexOf(ordered, ix.accounts[i].pubkey) >= 0
  }

  ghost function CompiledOne(ordered: Table, ix: Instruction): CompiledInstruction
    requires Placed(ordered, ix)
  {
    CompiledInstruction(
      IndexOf(ordered, Base58.Decoded(ix.programId).value), Indices(ordered, ix.accounts), ix.data)
  }

  ghost function CompiledAll(ordered: Table, ixs: seq<Instruction>): (cs: seq<CompiledInstruction>)
    requires forall i | 0 <= i < |ixs| :: Placed(ordered, ixs[i])
    ensures |cs| == |ixs| && forall i | 0 <= i < |ixs| :: cs[i] == CompiledOne(ordered, ixs[i])
  {
    seq(|ixs|, i requires 0 <= i < |ixs| => CompiledOne(ordered, ixs[i]))
  }

  lemma AllPlaced(ixs: seq<Instruction>, feePayer: bytes, signer: bytes)
    requires BuildTable(ixs, feePayer, signer).Ok?
    ensures var t := BuildTable(ixs, feePayer, signer).value;
      && IndexOf(t, feePayer) >= 0
      && Distinct(Ordered(t, feePayer))
      && (forall i | 0 <= i < |ixs| :: Placed(Ordered(t, feePayer), ixs[i]))
  {
    hide Base58.Decoded, BuildTable, Ordered, Distinct, Signs, Writes;
    var t := BuildTable(ixs, feePayer, signer).value;
    TableUnion(ixs, feePayer, signer, feePayer);
    ProgramsDecode(ixs, feePayer, signer);
    OrderedPartition(t, feePayer);
    var ordered := Ordered(t, feePayer);
    forall i | 0 <= i < |ixs| ensures Placed(ordered, ixs[i]) {
      var program := Base58.Decoded(ixs[i].programId).value;
      InOrdered(ixs, feePayer, signer, program);
      forall j | 0 <= j < |ixs[i].accounts| ensures IndexOf(ordered, ixs[i].accounts[j].pubkey) >= 0 {
        assert HasKey(ixs[i].accounts, ixs[i].accounts[j].pubkey);
        InOrdered(ixs, feePayer, signer, ixs[i].accounts[j].pubkey);
      }
    }
  }

  lemma InOrdered(ixs: seq<Instruction>, feePayer: bytes, signer: bytes, key: bytes)
    requires BuildTable(ixs, feePayer, signer).Ok?
    requires IndexOf(BuildTable(ixs, feePayer, signer).value, feePayer) >= 0
    requires Mentioned(ixs, feePayer, signer, key)
    ensures IndexOf(Ordered(BuildTable(ixs, feePayer, signer).value, feePayer), key) >= 0
  {
    hide Base58.Decoded, BuildTable, Ordered, Signs, Writes;
    var t := BuildTable(ixs, feePayer, signer).value;
    TableUnion(ixs, feePayer, signer, key);
    OrderedPartition(t, feePayer);
    var i :| 0 <= i < |t| && t[i].pubkey == key;
    assert t[i] in Ordered(t, feePayer);
  }

  ghost function CompiledMessage(ixs: seq<Instruction>, feePayer: bytes, signer: bytes, blockhash: bytes): Result<Message> {
    var t :- BuildTable(ixs, feePayer, signer);
    AllPlaced(ixs, feePayer, signer);
    var ordered := Ordered(t, feePayer);
    var sw, sr := Select(t, feePayer, true, true), Select(t, feePayer, true, false);
    Ok(Message(1 + |sw| + |sr|, |sr|, |Select(t, feePayer, false, false)|,
               Keys(ordered), blockhash, CompiledAll(ordered, ixs)))
  }

  // What the decoded message means, read off the bytes alone.
  function Resolve(m: Message, ix: CompiledInstruction): Option<Meaning> {
    if ix.program < |m.keys| && forall i | 0 <= i < |ix.accounts| :: ix.accounts[i] < |m.keys|
    then Some(Meaning(
      m.keys[ix.program],
      seq(|ix.accounts|, i requires 0 <= i < |ix.accounts| => m.keys[ix.accounts[i]]),
      ix.data))
    else None
  }

  predicate SignerAt(m: Message, i: nat) {
    i < m.signers
  }

  predicate WritableAt(m: Message, i: nat) {
    i + m.readonlySigners < m.signers || m.signers <= i < |m.keys| - m.readonlyOthers
  }

  ghost predicate Means(ix: Instruction, r: Option<Meaning>) {
    && r.Some?
    && Base58.Decoded(ix.programId) == Ok(r.value.program)
    && r.value.accounts == Keys(ix.accounts)
    && r.value.data == ix.data
  }

  // The compiled message says what the instructions said.
  lemma CompiledMeaning(ixs: seq<Instruction>, feePayer: bytes, signer: bytes, blockhash: bytes)
    requires CompiledMessage(ixs, feePayer, signer, blockhash).Ok?
    ensures var m := CompiledMessage(ixs, feePayer, signer, blockhash).value;
      && |m.instructions| == |ixs|
      && m.blockhash == blockhash
      && forall i | 0 <= i < |ixs| :: Means(ixs[i], Resolve(m, m.instructions[i]))
  {
    hide Base58.Decoded, BuildTable, Ordered, Select, Distinct;
    AllPlaced(ixs, feePayer, signer);
  }

  // Position and header counts give every key exactly the union of the
  // privileges it was mentioned with; the fee payer is the first key.
  lemma CompiledPrivileges(ixs: seq<Instruction>, feePayer: bytes, signer: bytes, blockhash: bytes)
    requires CompiledMessage(ixs, feePayer, signer, blockhash).Ok?
    ensures var m := CompiledMessage(ixs, feePayer, signer, blockhash).value;
      && |m.keys| >= 1 && m.keys[0] == feePayer
      && (forall i, j | 0 <= i < j < |m.keys| :: m.keys[i] != m.keys[j])
      && (forall key :: key in m.keys <==> Mentioned(ixs, feePayer, signer, key))
      && (forall i | 0 <= i < |m.keys| :: SignerAt(m, i) <==> MarkedSigner(ixs, feePayer, signer, m.keys[i]))
      && (forall i | 0 <= i < |m.keys| :: WritableAt(m, i) <==> MarkedWritable(ixs, feePayer, signer, m.keys[i]))
  {
    hide Base58.Decoded, BuildTable, Select, IndexOf, MarkedSigner, MarkedWritable, Mentioned;
    var t := BuildTable(ixs, feePayer, signer).value;
    var m := CompiledMessage(ixs, feePayer, signer, blockhash).value;
    AllPlaced(ixs, feePayer, signer);
    var ordered := Ordered(t, feePayer);
    TableUnion(ixs, feePayer, signer, feePayer);
    OrderedPartition(t, feePayer);
    assert m.keys == Keys(ordered);
    forall key ensures key in m.keys <==> Mentioned(ixs, feePayer, signer, key) {
      TableUnion(ixs, feePayer, signer, key);
      KeysMembers(t, ordered, key);
    }
    forall i | 0 <= i < |m.keys|
      ensures SignerAt(m, i) <==> MarkedSigner(ixs, feePayer, signer, m.keys[i])
      ensures WritableAt(m, i) <==> MarkedWritable(ixs, feePayer, signer, m.keys[i])
    {
      TableUnion(ixs, feePayer, signer, m.keys[i]);
      assert ordered[i] in t;
      FlagsOf(t, ordered[i]);
      if i == 0 {
        FeePayerMarked(ixs, feePayer, signer);
      }
    }
  }

  lemma KeysMembers(t: Table, ordered: Table, key: bytes)
    requires forall a :: a in ordered <==> a in t
    ensures key in Keys(ordered) <==> HasKey(t, key)
  {
    if HasKey(t, key) {
      var i :| 0 <= i < |t| && t[i].pubkey == key;
      assert t[i] in ordered;
      var j :| 0 <= j < |ordered| && ordered[j] == t[i];
      assert Keys(ordered)[j] == key;
    }
    if key in Keys(ordered) {
      var j :| 0 <= j < |ordered| && Keys(ordered)[j] == key;
      assert ordered[j] in t;
    }
  }

  lemma FlagsOf(t: Table, a: AccountMeta)
    requires Distinct(t) && a in t
    ensures Signs(t, a.pubkey) <==> a.isSigner
    ensures Writes(t, a.pubkey) <==> a.isWritable
  {
    var i :| 0 <= i < |t| && t[i] == a;
  }

  lemma FeePayerMarked(ixs: seq<Instruction>, feePayer: bytes, signer: bytes)
    ensures MarkedSigner(ixs, feePayer, signer, feePayer) && MarkedWritable(ixs, feePayer, signer, feePayer)
  {
  }

  // ---- the bytes ----

  ghost function Compile(ixs: seq<Instruction>, feePayer: bytes, signer: bytes, blockhash: bytes): Result<bytes> {
    var m :- CompiledMessage(ixs, feePayer, signer, blockhash);
    Ok(Serialize(m))
  }

  // What the format has room for, over the compiled message.
  ghost predicate MessageInRange(ixs: seq<Instruction>, m: Message) {
    && KeysFit(m.keys) && |m.keys| <= 256 && m.signers <= 255
    && |m.blockhash| == 32
    && |ixs| < 65536
    && forall i | 0 <= i < |ixs| :: |ixs[i].accounts| < 65536 && |ixs[i].data| < 65536
  }

  // The signer's key directly follows the fee payer's.
  lemma SignerSecond(ixs: seq<Instruction>, feePayer: bytes, signer: bytes, blockhash: bytes)
    requires CompiledMessage(ixs, feePayer, signer, blockhash).Ok?
    requires signer != feePayer
    ensures var m := CompiledMessage(ixs, feePayer, signer, blockhash).value;
      |m.keys| >= 2 && m.keys[1] == signer && m.signers - m.readonlySigners >= 2
  {
    hide Base58.Decoded, BuildTable, HasKey, Distinct;
    var t := BuildTable(ixs, feePayer, signer).value;
    TableUnion(ixs, feePayer, signer, signer);
    FlagsOf(t, t[1]);
    assert Select(t, feePayer, true, true) == Select(t[1..], feePayer, true, true);
    assert t[1..][0] == t[1];
    assert Select(t, feePayer, true, true)[0] == t[1];
    assert Ordered(t, feePayer)[1] == t[1];
  }

  lemma CompiledFits(ixs: seq<Instruction>, feePayer: bytes, signer: bytes, blockhash: bytes)
    requires CompiledMessage(ixs, feePayer, signer, blockhash).Ok?
    ensures var m := CompiledMessage(ixs, feePayer, signer, blockhash).value;
      Fits(m) <==> MessageInRange(ixs, m)
  {
    hide Base58.Decoded, BuildTable, Ordered, Select, IndexOf, HasKey;
    var t := BuildTable(ixs, feePayer, signer).value;
    var m := CompiledMessage(ixs, feePayer, signer, blockhash).value;
    AllPlaced(ixs, feePayer, signer);
    var ordered := Ordered(t, feePayer);
    HeaderCounts(t, feePayer);
    if Fits(m) && |m.keys| > 256 {
      KeyIndexBelow256(ixs, feePayer, signer, blockhash, m);
    }
  }

  lemma HeaderCounts(t: Table, feePayer: bytes)
    requires IndexOf(t, feePayer) >= 0
    ensures |Ordered(t, feePayer)| ==
      1 + |Select(t, feePayer, true, true)| + |Select(t, feePayer, true, false)|
      + |Select(t, feePayer, false, true)| + |Select(t, feePayer, false, false)|
  {
  }

  // A key that only instructions mention has an index some instruction holds.
  lemma MentionedIndexFits(ixs: seq<Instruction>, ordered: Table, compiled: seq<CompiledInstruction>, key: bytes)
    requires forall i | 0 <= i < |ixs| :: Placed(ordered, ixs[i])
    requires compiled == CompiledAll(ordered, ixs)
    requires forall i | 0 <= i < |compiled| :: InstructionFits(compiled[i])
    requires exists i ::
      0 <= i < |ixs| && (HasKey(ixs[i].accounts, key) || Base58.Decoded(ixs[i].programId) == Ok(key))
    ensures IndexOf(ordered, key) < 256
  {
    hide Base58.Decoded;
    var i :| 0 <= i < |ixs| && (HasKey(ixs[i].accounts, key) || Base58.Decoded(ixs[i].programId) == Ok(key));
    var c := compiled[i];
    assert Placed(ordered, ixs[i]) && c == CompiledOne(ordered, ixs[i]) && InstructionFits(c);
    if HasKey(ixs[i].accounts, key) {
      var j :| 0 <= j < |ixs[i].accounts| && ixs[i].accounts[j].pubkey == key;
      assert c.accounts[j] == IndexOf(ordered, key);
    }
  }

  // A 257th key would need an index that does not fit in a byte.
  lemma KeyIndexBelow256(ixs: seq<Instruction>, feePayer: bytes, signer: bytes, blockhash: bytes, m: Message)
    requires CompiledMessage(ixs, feePayer, signer, blockhash) == Ok(m)
    requires Fits(m)
    ensures |m.keys| <= 256
  {
    hide Base58.Decoded, BuildTable, Ordered, Select;
    var t := BuildTable(ixs, feePayer, signer).value;
    CompiledPrivileges(ixs, feePayer, signer, blockhash);
    AllPlaced(ixs, feePayer, signer);
    if signer != feePayer {
      SignerSecond(ixs, feePayer, signer, blockhash);
    }
    if |m.keys| > 256 {
      assert m.keys[256] in m.keys;
      MentionedIndexFits(ixs, Ordered(t, feePayer), m.instructions, m.keys[256]);
    }
  }

  // ---- the same range, told from the inputs ----

  // Every key the inputs name.
  ghost function NamedKeys(ixs: seq<Instruction>, feePayer: bytes, signer: bytes): set<bytes> {
    {feePayer, signer}
    + (set i, j | 0 <= i < |ixs| && 0 <= j < |ixs[i].accounts| :: ixs[i].accounts[j].pubkey)
    + (set i | 0 <= i < |ixs| && Base58.Decoded(ixs[i].programId).Ok? :: Base58.Decoded(ixs[i].programId).value)
  }

  ghost function SignerKeys(ixs: seq<Instruction>, feePayer: bytes, signer: bytes): set<bytes> {
    set key | key in NamedKeys(ixs, feePayer, signer) && MarkedSigner(ixs, feePayer, signer, key)
  }

  lemma NamedMeansMentioned(ixs: seq<Instruction>, feePayer: bytes, signer: bytes, key: bytes)
    ensures key in NamedKeys(ixs, feePayer, signer) <==> Mentioned(ixs, feePayer, signer, key)
  {
    hide Base58.Decoded;
  }

  // What the format has room for: 32-byte keys and blockhash, lengths in a
  // compact-u16, at most 256 keys and at most 255 signers.
  ghost predicate InRange(ixs: seq<Instruction>, feePayer: bytes, signer: bytes, blockhash: bytes) {
    && (forall key | key in NamedKeys(ixs, feePayer, signer) :: |key| == 32)
    && |NamedKeys(ixs, feePayer, signer)| <= 256 && |SignerKeys(ixs, feePayer, signer)| <= 255
    && |blockhash| == 32
    && |ixs| < 65536
    && forall i | 0 <= i < |ixs| :: |ixs[i].accounts| < 65536 && |ixs[i].data| < 65536
  }

  lemma {:induction false} DistinctSize(keys: seq<bytes>, all: set<bytes>)
    requires forall i, j | 0 <= i < j < |keys| :: keys[i] != keys[j]
    requires forall key :: key in all <==> key in keys
    ensures |all| == |keys|
  {
    if keys != [] {
      var front, last := keys[..|keys| - 1], keys[|keys| - 1];
      assert keys == front + [last];
      DistinctSize(front, all - {last});
      assert last in all;
    } else {
      assert all == {};
    }
  }

  lemma RangeOfInputs(ixs: seq<Instruction>, feePayer: bytes, signer: bytes, blockhash: bytes)
    requires CompiledMessage(ixs, feePayer, signer, blockhash).Ok?
    ensures var m := CompiledMessage(ixs, feePayer, signer, blockhash).value;
      MessageInRange(ixs, m) <==> InRange(ixs, feePayer, signer, blockhash)
  {
    hide CompiledMessage, NamedKeys, SignerKeys, KeysFit;
    var m := CompiledMessage(ixs, feePayer, signer, blockhash).value;
    KeysOfInputs(ixs, feePayer, signer, blockhash);
    AllKeysFit(m.keys);
  }

  lemma AllKeysFit(keys: seq<bytes>)
    ensures KeysFit(keys) <==> forall key | key in keys :: |key| == 32
  {
  }

  lemma BlockhashKept(ixs: seq<Instruction>, feePayer: bytes, signer: bytes, blockhash: bytes)
    requires CompiledMessage(ixs, feePayer, signer, blockhash).Ok?
    ensures CompiledMessage(ixs, feePayer, signer, blockhash).value.blockhash == blockhash
  {
  }

  lemma KeysOfInputs(ixs: seq<Instruction>, feePayer: bytes, signer: bytes, blockhash: bytes)
    requires CompiledMessage(ixs, feePayer, signer, blockhash).Ok?
    ensures var m := CompiledMessage(ixs, feePayer, signer, blockhash).value;
      && m.blockhash == blockhash
      && (forall key :: key in NamedKeys(ixs, feePayer, signer) <==> key in m.keys)
      && |NamedKeys(ixs, feePayer, signer)| == |m.keys|
      && |SignerKeys(ixs, feePayer, signer)| == m.signers
  {
    hide CompiledMessage, NamedKeys, SignerKeys, Mentioned, MarkedSigner, MarkedWritable, WritableAt;
    var m := CompiledMessage(ixs, feePayer, signer, blockhash).value;
    BlockhashKept(ixs, feePayer, signer, blockhash);
    SignersFirst(ixs, feePayer, signer, blockhash);
    CompiledPrivileges(ixs, feePayer, signer, blockhash);
    forall key ensures key in NamedKeys(ixs, feePayer, signer) <==> key in m.keys {
      NamedMeansMentioned(ixs, feePayer, signer, key);
    }
    DistinctSize(m.keys, NamedKeys(ixs, feePayer, signer));
    DistinctSize(m.keys[..m.signers], SignerKeys(ixs, feePayer, signer));
  }

  // The keys in front are the ones marked as signers.
  lemma SignersFirst(ixs: seq<Instruction>, feePayer: bytes, signer: bytes, blockhash: bytes)
    requires CompiledMessage(ixs, feePayer, signer, blockhash).Ok?
    ensures var m := CompiledMessage(ixs, feePayer, signer, blockhash).value;
      m.signers <= |m.keys| && forall key :: key in SignerKeys(ixs, feePayer, signer) <==> key in m.keys[..m.signers]
  {
    var t := BuildTable(ixs, feePayer, signer).value;
    var m := CompiledMessage(ixs, feePayer, signer, blockhash).value;
    AllPlaced(ixs, feePayer, signer);
    HeaderCounts(t, feePayer);
    CompiledPrivileges(ixs, feePayer, signer, blockhash);
    hide CompiledMessage, NamedKeys, Mentioned, MarkedSigner, MarkedWritable, WritableAt;
    forall key ensures key in SignerKeys(ixs, feePayer, signer) <==> key in m.keys[..m.signers] {
      NamedMeansMentioned(ixs, feePayer, signer, key);
      if key in SignerKeys(ixs, feePayer, signer) {
        var i :| 0 <= i < |m.keys| && m.keys[i] == key;
        assert SignerAt(m, i) && m.keys[..m.signers][i] == key;
      }
      if i :| 0 <= i < m.signers && m.keys[i] == key {
        assert SignerAt(m, i) && key in m.keys;
      }
    }
  }

  // The compiled bytes decode to the message that was meant, with nothing
  // left over, exactly when everything fits the format.
  lemma CompileRoundTrip(ixs: seq<Instruction>, feePayer: bytes, signer: bytes, blockhash: bytes)
    requires CompiledMessage(ixs, feePayer, signer, blockhash).Ok?
    ensures var m := CompiledMessage(ixs, feePayer, signer, blockhash).value;
      Decode(Compile(ixs, feePayer, signer, blockhash).value) == Some(m) <==> InRange(ixs, feePayer, signer, blockhash)
  {
    hide CompiledMessage, Decode, Serialize, Fits, MessageInRange, InRange;
    CompiledFits(ixs, feePayer, signer, blockhash);
    RangeOfInputs(ixs, feePayer, signer, blockhash);
    SerializeRoundTrip(CompiledMessage(ixs, feePayer, signer, blockhash).value);
  }

  // Compilation preserves meaning: a reader that sees only the bytes finds the
  // same instructions in order, the same blockhash, each key once with the
  // fee payer first, and every privilege exactly where something asked for it.
  lemma CompilationPreservesMeaning(ixs: seq<Instruction>, feePayer: bytes, signer: bytes, blockhash: bytes)
    requires CompiledMessage(ixs, feePayer, signer, blockhash).Ok?
    requires InRange(ixs, feePayer, signer, blockhash)
    ensures var decoded := Decode(Compile(ixs, feePayer, signer, blockhash).value);
      && decoded.Some?
      && var m := decoded.value;
      && |m.instructions| == |ixs|
      && (forall i | 0 <= i < |ixs| :: Means(ixs[i], Resolve(m, m.instructions[i])))
      && m.blockhash == blockhash
      && |m.keys| >= 1 && m.keys[0] == feePayer
      && (forall i, j | 0 <= i < j < |m.keys| :: m.keys[i] != m.keys[j])
      && (forall key :: key in m.keys <==> Mentioned(ixs, feePayer, signer, key))
      && (forall i | 0 <= i < |m.keys| :: SignerAt(m, i) <==> MarkedSigner(ixs, feePayer, signer, m.keys[i]))
      && (forall i | 0 <= i < |m.keys| :: WritableAt(m, i) <==> MarkedWritable(ixs, feePayer, signer, m.keys[i]))
  {
    hide *;
    CompileRoundTrip(ixs, feePayer, signer, blockhash);
    CompiledMeaning(ixs, feePayer, signer, blockhash);
    CompiledPrivileges(ixs, feePayer, signer, blockhash);
  }

  // ---- inputs that fit ----

  // How often the instructions name a key.
  function Mentions(ixs: seq<Instruction>): nat {
    if ixs == [] then 0 else Mentions(ixs[..|ixs| - 1]) + |ixs[|ixs| - 1].accounts| + 1
  }

  lemma {:induction false} MergeAllSize(t: Table, accounts: seq<AccountMeta>)
    ensures |MergeAll(t, accounts)| <= |t| + |accounts|
  {
    if accounts != [] {
      MergeAllSize(t, accounts[..|accounts| - 1]);
    }
  }

  lemma {:induction false} TableSize(t: Table, ixs: seq<Instruction>)
    ensures |AccountTable(t, ixs)| + |ProgramNames(ixs)| <= |t| + Mentions(ixs)
  {
    if ixs != [] {
      var front, last := ixs[..|ixs| - 1], ixs[|ixs| - 1];
      TableSize(t, front);
      MergeAllSize(AccountTable(t, front), last.accounts);
    }
  }

  lemma {:induction false} ProgramTableSize(t: Table, names: seq<string>)
    requires forall i | 0 <= i < |names| :: Base58.Decoded(names[i]).Ok?
    ensures ProgramTable(t, names).Ok? && |ProgramTable(t, names).value| <= |t| + |names|
  {
    hide Base58.Decoded;
    if names != [] {
      ProgramTableSize(t, names[..|names| - 1]);
    }
  }

  lemma {:induction false} SelectSizes(t: Table, feePayer: bytes)
    ensures var n := |Select(t, feePayer, true, true)| + |Select(t, feePayer, true, false)|
        + |Select(t, feePayer, false, true)| + |Select(t, feePayer, false, false)|;
      n <= |t| && (IndexOf(t, feePayer) >= 0 ==> n < |t|)
  {
    if t != [] {
      SelectSizes(t[1..], feePayer);
    }
  }

  lemma OrderedSize(t: Table, feePayer: bytes)
    requires IndexOf(t, feePayer) >= 0
    ensures |Ordered(t, feePayer)| <= |t|
  {
    hide Select, IndexOf;
    SelectSizes(t, feePayer);
    HeaderCounts(t, feePayer);
  }

  // A caller can tell in advance: keys and blockhash of 32 bytes, at most 255
  // mentions of keys, short data, and program ids in base58.
  lemma SmallInputsCompile(ixs: seq<Instruction>, feePayer: bytes, signer: bytes, blockhash: bytes)
    requires forall i | 0 <= i < |ixs| :: Base58.Decoded(ixs[i].programId).Ok? && |ixs[i].data| < 65536
    requires forall key | Mentioned(ixs, feePayer, signer, key) :: |key| == 32
    requires |blockhash| == 32 && 2 + Mentions(ixs) <= 255
    ensures CompiledMessage(ixs, feePayer, signer, blockhash).Ok?
    ensures InRange(ixs, feePayer, signer, blockhash)
  {
    hide Base58.Decoded, Mentioned, MarkedSigner, MarkedWritable, AccountTable, ProgramTable, ProgramNames, Ordered, Select,
         Mentions, InRange;
    var start := AccountTable(Payers(feePayer, signer), ixs);
    var names := ProgramNames(ixs);
    ProgramNamesAll(ixs);
    forall k | 0 <= k < |names| ensures Base58.Decoded(names[k]).Ok? {
      assert names[k] in names;
    }
    TableSize(Payers(feePayer, signer), ixs);
    ProgramTableSize(start, names);
    var t := BuildTable(ixs, feePayer, signer).value;
    AllPlaced(ixs, feePayer, signer);
    OrderedSize(t, feePayer);
    SelectSizes(t, feePayer);
    CompiledPrivileges(ixs, feePayer, signer, blockhash);
    MentionsBound(ixs);
    RangeOfInputs(ixs, feePayer, signer, blockhash);
  }

  lemma {:induction false} MentionsBound(ixs: seq<Instruction>)
    ensures |ixs| <= Mentions(ixs) && forall i | 0 <= i < |ixs| :: |ixs[i].accounts| < Mentions(ixs)
  {
    if ixs != [] {
      MentionsBound(ixs[..|ixs| - 1]);
    }
  }

  // ---- compileMessage itself ----

  method CompileMessage(ixs: seq<Instruction>, feePayer: bytes, signer: bytes, blockhash: bytes)
    returns (r: Result<bytes>)
    ensures r == Compile(ixs, feePayer, signer, blockhash)
  {
    hide Base58.Decoded, BuildTable, Ordered, Select, Distinct, Serialize;
    var map_ :- CollectKeys(ixs, feePayer, signer);
    AllPlaced(ixs, feePayer, signer);
    var sw, sr := Select(map_, feePayer, true, true), Select(map_, feePayer, true, false);
    var uw, ur := Select(map_, feePayer, false, true), Select(map_, feePayer, false, false);
    var ordered := [map_[IndexOf(map_, feePayer)]] + sw + sr + uw + ur;
    OrderedIs(map_, feePayer);
    var compiled := CompileInstructions(ordered, ixs);
    var m := Message(1 + |sw| + |sr|, |sr|, |ur|, Keys(ordered), blockhash, compiled);
    assert CompiledMessage(ixs, feePayer, signer, blockhash) == Ok(m);
    var out := WriteMessage(m);
    return Ok(out);
  }

  // The three loops that fill the account map.
  method CollectKeys(ixs: seq<Instruction>, feePayer: bytes, signer: bytes) returns (r: Result<Table>)
    ensures r == BuildTable(ixs, feePayer, signer)
  {
    hide Base58.Decoded, MergeAll;
    var table := [AccountMeta(feePayer, true, true)];
    if signer != feePayer {
      table := table + [AccountMeta(signer, true, true)];
    }
    var progs: seq<string> := [];
    for i := 0 to |ixs|
      invariant table == AccountTable(Payers(feePayer, signer), ixs[..i]) && progs == ProgramNames(ixs[..i])
    {
      if ixs[i].programId !in progs {
        progs := progs + [ixs[i].programId];
      }
      table := MergeAccounts(table, ixs[i].accounts);
      assert ixs[..i + 1][..i] == ixs[..i];
    }
    assert ixs[..|ixs|] == ixs;
    ghost var accountTable := table;
    for i := 0 to |progs|
      invariant ProgramTable(accountTable, progs[..i]) == Ok(table)
    {
      var key := Base58.Bs58Decode(progs[i]);
      assert progs[..i + 1][..i] == progs[..i];
      if key.Err? {
        ProgramTableFails(accountTable, progs, i + 1);
        return Err(key.error);
      }
      if IndexOf(table, key.value) < 0 {
        table := table + [AccountMeta(key.value, false, false)];
      }
    }
    assert progs[..|progs|] == progs;
    return Ok(table);
  }

  lemma OrderedIs(t: Table, feePayer: bytes)
    requires IndexOf(t, feePayer) >= 0
    ensures Ordered(t, feePayer) ==
      [t[IndexOf(t, feePayer)]] + Select(t, feePayer, true, true) + Select(t, feePayer, true, false)
      + Select(t, feePayer, false, true) + Select(t, feePayer, false, false)
  {
  }

  lemma {:induction false} ProgramTableFails(t: Table, names: seq<string>, n: nat)
    requires n <= |names| && ProgramTable(t, names[..n]).Err?
    ensures ProgramTable(t, names) == ProgramTable(t, names[..n])
    decreases |names|
  {
    if n == |names| {
      assert names[..n] == names;
    } else {
      var front := names[..|names| - 1];
      assert front[..n] == names[..n];
      ProgramTableFails(t, front, n);
    }
  }

  // The loop over one instruction's accounts.
  method MergeAccounts(start: Table, accounts: seq<AccountMeta>) returns (t: Table)
    ensures t == MergeAll(start, accounts)
  {
    t := start;
    for j := 0 to |accounts|
      invariant t == MergeAll(start, accounts[..j])
    {
      var a := accounts[j];
      var e := IndexOf(t, a.pubkey);
      if e >= 0 {
        t := t[e := t[e].(isSigner := t[e].isSigner || a.isSigner, isWritable := t[e].isWritable || a.isWritable)];
      } else {
        t := t + [a];
      }
      assert accounts[..j + 1][..j] == accounts[..j];
    }
    assert accounts[..|accounts|] == accounts;
  }

  // Replaces keys by their indices, through a map from key to index.
  method CompileInstructions(ordered: Table, ixs: seq<Instruction>) returns (compiled: seq<CompiledInstruction>)
    requires Distinct(ordered)
    requires forall i | 0 <= i < |ixs| :: Placed(ordered, ixs[i])
    ensures compiled == CompiledAll(ordered, ixs)
  {
    hide Base58.Decoded;
    var idx: map<bytes, nat> := map[];
    for i := 0 to |ordered|
      invariant forall j | 0 <= j < i :: ordered[j].pubkey in idx && idx[ordered[j].pubkey] == j
    {
      idx := idx[ordered[i].pubkey := i];
    }
    compiled := [];
    for i := 0 to |ixs|
      invariant |compiled| == i
      invariant forall j | 0 <= j < i :: compiled[j] == CompiledOne(ordered, ixs[j])
    {
      assert Placed(ordered, ixs[i]);
      var program := Base58.Bs58Decode(ixs[i].programId);
      var accounts: seq<nat> := [];
      for j := 0 to |ixs[i].accounts|
        invariant |accounts| == j
        invariant forall k | 0 <= k < j :: accounts[k] == IndexOf(ordered, ixs[i].accounts[k].pubkey)
      {
        accounts := accounts + [idx[ixs[i].accounts[j].pubkey]];
      }
      assert accounts == Indices(ordered, ixs[i].accounts);
      compiled := compiled + [CompiledInstruction(idx[program.value], accounts, ixs[i].data)];
    }
  }

  // Pushes the parts of the message and copies them into one buffer.
  method WriteMessage(m: Message) returns (out: bytes)
    ensures out == Serialize(m)
  {
    hide CompactU16, InstructionsBytes, Serialize, Header, Flatten;
    var parts: seq<bytes> := [[VERSION_0_PREFIX]];
    parts := parts + [[Truncate(m.signers), Truncate(m.readonlySigners), Truncate(m.readonlyOthers)]];
    parts := parts + [CompactU16(|m.keys|)];
    HeaderParts(m, parts);
    FlattenNone();
    ghost var head := Flatten(parts);
    for i := 0 to |m.keys|
      invariant Flatten(parts) == head + Flatten(m.keys[..i])
    {
      FlattenAppend(parts, m.keys[i]);
      FlattenAppend(m.keys[..i], m.keys[i]);
      assert m.keys[..i + 1] == m.keys[..i] + [m.keys[i]];
      parts := parts + [m.keys[i]];
    }
    assert m.keys[..|m.keys|] == m.keys;
    FlattenAppend(parts, m.blockhash);
    parts := parts + [m.blockhash];
    FlattenAppend(parts, CompactU16(|m.instructions|));
    parts := parts + [CompactU16(|m.instructions|)];
    parts := PushInstructions(parts, m.instructions);
    FlattenAppend(parts, CompactU16(0));
    parts := parts + [CompactU16(0)];
    out := Concatenate(parts);
    SerializeParts(m);
  }

  lemma SerializeParts(m: Message)
    ensures Serialize(m) == Header(m) + CompactU16(|m.keys|) + Flatten(m.keys) + m.blockhash
      + CompactU16(|m.instructions|) + InstructionsBytes(m.instructions) + CompactU16(0)
  {
  }

  lemma HeaderParts(m: Message, parts: seq<bytes>)
    requires |parts| == 3 && parts[0] == [VERSION_0_PREFIX] && parts[2] == CompactU16(|m.keys|)
    requires parts[1] == [Truncate(m.signers), Truncate(m.readonlySigners), Truncate(m.readonlyOthers)]
    ensures Flatten(parts) == Header(m) + CompactU16(|m.keys|) + Flatten([])
  {
    FlattenTwo(parts[0], parts[1], parts[2]);
    assert parts == [parts[0], parts[1], parts[2]];
  }

  method PushInstructions(start: seq<bytes>, ixs: seq<CompiledInstruction>) returns (parts: seq<bytes>)
    ensures Flatten(parts) == Flatten(start) + InstructionsBytes(ixs)
  {
    hide CompactU16, InstructionBytes;
    parts := start;
    for i := 0 to |ixs|
      invariant Flatten(parts) == Flatten(start) + InstructionsBytes(ixs[..i])
    {
      var ix := ixs[i];
      ghost var before := parts;
      parts := parts + [[Truncate(ix.program)]];
      parts := parts + [CompactU16(|ix.accounts|)];
      parts := parts + [TruncateAll(ix.accounts)];
      parts := parts + [CompactU16(|ix.data|)];
      parts := parts + [ix.data];
      FlattenInstruction(before, ix);
      InstructionsAppend(ixs[..i], ix);
      assert ixs[..i + 1] == ixs[..i] + [ix];
    }
    assert ixs[..|ixs|] == ixs;
  }

  lemma {:induction false} FlattenAppend(parts: seq<bytes>, p: bytes)
    ensures Flatten(parts + [p]) == Flatten(parts) + p
  {
    if parts == [] {
      assert parts + [p] == [p] && [p][1..] == [];
      assert Flatten([p]) == p + [] == p;
    } else {
      assert (parts + [p])[1..] == parts[1..] + [p];
      FlattenAppend(parts[1..], p);
    }
  }

  lemma FlattenNone()
    ensures Flatten([]) == []
  {
  }

  lemma FlattenTwo(a: bytes, b: bytes, c: bytes)
    ensures Flatten([a, b, c]) == a + b + c
  {
    FlattenAppend([], a);
    FlattenAppend([a], b);
    FlattenAppend([a, b], c);
    assert [a] + [b] == [a, b] && [a, b] + [c] == [a, b, c];
  }

  lemma FlattenInstruction(parts: seq<bytes>, ix: CompiledInstruction)
    ensures Flatten(parts + [[Truncate(ix.program)]] + [CompactU16(|ix.accounts|)] + [TruncateAll(ix.accounts)]
              + [CompactU16(|ix.data|)] + [ix.data]) == Flatten(parts) + InstructionBytes(ix)
  {
    hide CompactU16, Flatten, Truncate, TruncateAll;
    var p1 := parts + [[Truncate(ix.program)]];
    var p2 := p1 + [CompactU16(|ix.accounts|)];
    var p3 := p2 + [TruncateAll(ix.accounts)];
    var p4 := p3 + [CompactU16(|ix.data|)];
    FlattenAppend(parts, [Truncate(ix.program)]);
    FlattenAppend(p1, CompactU16(|ix.accounts|));
    FlattenAppend(p2, TruncateAll(ix.accounts));
    FlattenAppend(p3, CompactU16(|ix.data|));
    FlattenAppend(p4, ix.data);
  }

  lemma {:induction false} InstructionsAppend(ixs: seq<CompiledInstruction>, ix: CompiledInstruction)
    ensures InstructionsBytes(ixs + [ix]) == InstructionsBytes(ixs) + InstructionBytes(ix)
  {
    hide InstructionBytes;
    if ixs == [] {
      assert ixs + [ix] == [ix] && [ix][1..] == [];
      assert InstructionsBytes([ix]) == InstructionBytes(ix) + [] == InstructionBytes(ix);
    } else {
      assert (ixs + [ix])[1..] == ixs[1..] + [ix];
      InstructionsAppend(ixs[1..], ix);
    }
  }

  // Uint8Array.prototype.set.
  method SetAt(buffer: array<byte>, off: nat, part: bytes)
    requires off + |part| <= buffer.Length
    modifies buffer
    ensures buffer[..off + |part|] == old(buffer[..off]) + part
    ensures buffer[off + |part|..] == old(buffer[off + |part|..])
  {
    forall k | 0 <= k < |part| {
      buffer[off + k] := part[k];
    }
  }

  // Sums the lengths, then copies every part to its offset.
  method Concatenate(parts: seq<bytes>) returns (out: bytes)
    ensures out == Flatten(parts)
  {
    var len := 0;
    for i := 0 to |parts|
      invariant len == |Flatten(parts[..i])|
    {
      FlattenAppend(parts[..i], parts[i]);
      assert parts[..i + 1] == parts[..i] + [parts[i]];
      len := len + |parts[i]|;
    }
    assert parts[..|parts|] == parts;
    var buffer := new byte[len](_ => 0);
    var off := 0;
    for i := 0 to |parts|
      invariant off == |Flatten(parts[..i])| <= len
      invariant buffer[..off] == Flatten(parts[..i])
    {
      hide Flatten;
      FlattenAppend(parts[..i], parts[i]);
      assert parts[..i + 1] == parts[..i] + [parts[i]];
      FlattenPrefix(parts, i + 1);
      SetAt(buffer, off, parts[i]);
      off := off + |parts[i]|;
    }
    return buffer[..];
  }

  lemma {:induction false} FlattenPrefix(parts: seq<bytes>, n: nat)
    requires n <= |parts|
    ensures |Flatten(parts[..n])| <= |Flatten(parts)|
  {
    if n > 0 {
      assert parts[..n][1..] == parts[1..][..n - 1];
      FlattenPrefix(parts[1..], n - 1);
    }
  }
}
