// The account table of compileMessage in html/src/transaction.ts: an
// insertion-ordered map from keys to privileges.
module KeyTable {
  import opened Common

  datatype AccountMeta = AccountMeta(pubkey: bytes, isSigner: bool, isWritable: bool)

  // Entries in insertion order. The source keys its Map by the hex text of the
  // key; Hex is injective (HexInjective), so entries are found by the key itself.
  type Table = seq<AccountMeta>

  function HexDigit(n: nat): (ch: char)
    requires n < 16
    ensures ch == if n < 10 then '0' + n as char else 'a' + (n - 10) as char
  {
    if n < 10 then '0' + n as char else 'a' + (n - 10) as char
  }

  function Hex(bs: bytes): (text: string)
    ensures |text| == 2 * |bs|
  {
    if bs == [] then "" else [HexDigit(bs[0] / 16), HexDigit(bs[0] % 16)] + Hex(bs[1..])
  }

  lemma {:induction false} HexInjective(a: bytes, b: bytes)
    requires Hex(a) == Hex(b)
    ensures a == b
  {
    if a != [] {
      assert |a| == |b|;
      var ha, hb := Hex(a), Hex(b);
      assert ha[0] == hb[0] && ha[1] == hb[1] && ha[2..] == Hex(a[1..]) && hb[2..] == Hex(b[1..]);
      assert a[0] / 16 == b[0] / 16 && a[0] % 16 == b[0] % 16;
      HexInjective(a[1..], b[1..]);
      assert a == [a[0]] + a[1..] && b == [b[0]] + b[1..];
    }
  }

  function IndexOf(t: Table, key: bytes): (i: int)
    ensures -1 <= i < |t|
    ensures i >= 0 ==> t[i].pubkey == key && forall j | 0 <= j < i :: t[j].pubkey != key
    ensures i < 0 ==> forall j | 0 <= j < |t| :: t[j].pubkey != key
  {
    if t == [] then -1
    else if t[0].pubkey == key then 0
    else var i := IndexOf(t[1..], key); if i < 0 then -1 else i + 1
  }

  // Insert a key, or add privileges to the entry it already has.
  function Merge(t: Table, a: AccountMeta): Table {
    var i := IndexOf(t, a.pubkey);
    if i < 0 then t + [a]
    else t[i := t[i].(isSigner := t[i].isSigner || a.isSigner, isWritable := t[i].isWritable || a.isWritable)]
  }

  function MergeAll(t: Table, accounts: seq<AccountMeta>): Table {
    if accounts == [] then t
    else Merge(MergeAll(t, accounts[..|accounts| - 1]), accounts[|accounts| - 1])
  }

  ghost predicate Distinct(t: Table) {
    forall i, j | 0 <= i < j < |t| :: t[i].pubkey != t[j].pubkey
  }

  ghost predicate HasKey(metas: seq<AccountMeta>, key: bytes) {
    exists i :: 0 <= i < |metas| && metas[i].pubkey == key
  }

  ghost predicate Signs(metas: seq<AccountMeta>, key: bytes) {
    exists i :: 0 <= i < |metas| && metas[i].pubkey == key && metas[i].isSigner
  }

  ghost predicate Writes(metas: seq<AccountMeta>, key: bytes) {
    exists i :: 0 <= i < |metas| && metas[i].pubkey == key && metas[i].isWritable
  }

  lemma MergeUnion(t: Table, a: AccountMeta, key: bytes)
    ensures Distinct(t) ==> Distinct(Merge(t, a))
    ensures HasKey(Merge(t, a), key) <==> HasKey(t, key) || a.pubkey == key
    ensures Signs(Merge(t, a), key) <==> Signs(t, key) || (a.pubkey == key && a.isSigner)
    ensures Writes(Merge(t, a), key) <==> Writes(t, key) || (a.pubkey == key && a.isWritable)
    ensures |t| <= |Merge(t, a)| && forall i | 0 <= i < |t| :: Merge(t, a)[i].pubkey == t[i].pubkey
  {
    var i := IndexOf(t, a.pubkey);
    var r := Merge(t, a);
    if i < 0 {
      assert forall j | 0 <= j < |t| :: r[j] == t[j];
      assert r[|t|] == a;
    } else {
      assert forall j | 0 <= j < |t| && j != i :: r[j] == t[j];
      assert r[i].pubkey == a.pubkey;
    }
  }

  lemma {:induction false} MergeAllUnion(t: Table, accounts: seq<AccountMeta>, key: bytes)
    ensures Distinct(t) ==> Distinct(MergeAll(t, accounts))
    ensures HasKey(MergeAll(t, accounts), key) <==> HasKey(t, key) || HasKey(accounts, key)
    ensures Signs(MergeAll(t, accounts), key) <==> Signs(t, key) || Signs(accounts, key)
    ensures Writes(MergeAll(t, accounts), key) <==> Writes(t, key) || Writes(accounts, key)
    ensures var r := MergeAll(t, accounts);
      |t| <= |r| && forall i | 0 <= i < |t| :: r[i].pubkey == t[i].pubkey
  {
    if accounts != [] {
      var n := |accounts| - 1;
      hide Merge, Distinct;
      MergeAllUnion(t, accounts[..n], key);
      MergeUnion(MergeAll(t, accounts[..n]), accounts[n], key);
      assert accounts == accounts[..n] + [accounts[n]];
      SplitLast(accounts[..n], accounts[n], key);
    }
  }

  lemma SplitLast(front: seq<AccountMeta>, a: AccountMeta, key: bytes)
    ensures HasKey(front + [a], key) <==> HasKey(front, key) || a.pubkey == key
    ensures Signs(front + [a], key) <==> Signs(front, key) || (a.pubkey == key && a.isSigner)
    ensures Writes(front + [a], key) <==> Writes(front, key) || (a.pubkey == key && a.isWritable)
  {
    assert forall i | 0 <= i < |front| :: (front + [a])[i] == front[i];
    assert (front + [a])[|front|] == a;
  }

  // `rest.filter(a => a.isSigner === s && a.isWritable === w)`, where rest is
  // the table without the fee payer.
  function Select(t: Table, feePayer: bytes, s: bool, w: bool): Table {
    if t == [] then []
    else
      var rest := Select(t[1..], feePayer, s, w);
      if t[0].pubkey != feePayer && t[0].isSigner == s && t[0].isWritable == w then [t[0]] + rest else rest
  }

  // The fee payer, then the four privilege groups.
  function Ordered(t: Table, feePayer: bytes): Table
    requires IndexOf(t, feePayer) >= 0
  {
    [t[IndexOf(t, feePayer)]] + Select(t, feePayer, true, true) + Select(t, feePayer, true, false)
    + Select(t, feePayer, false, true) + Select(t, feePayer, false, false)
  }

  lemma {:induction false} SelectMembers(t: Table, feePayer: bytes, s: bool, w: bool)
    ensures forall a :: a in Select(t, feePayer, s, w) <==>
      a in t && a.pubkey != feePayer && a.isSigner == s && a.isWritable == w
    ensures Distinct(t) ==> Distinct(Select(t, feePayer, s, w))
  {
    if t != [] {
      var head := if t[0].pubkey != feePayer && t[0].isSigner == s && t[0].isWritable == w then [t[0]] else [];
      var tail := Select(t[1..], feePayer, s, w);
      SelectMembers(t[1..], feePayer, s, w);
      assert forall a :: a in t <==> a == t[0] || a in t[1..];
      if Distinct(t) {
        DistinctTail(t);
        if head != [] {
          forall a | a in tail ensures a.pubkey != t[0].pubkey {
            assert a in t[1..];
          }
        }
        DistinctAppend(head, tail);
      }
    }
  }

  lemma DistinctTail(t: Table)
    requires Distinct(t) && t != []
    ensures Distinct(t[1..]) && forall a | a in t[1..] :: a.pubkey != t[0].pubkey
  {
    forall i, j | 0 <= i < j < |t[1..]| ensures t[1..][i].pubkey != t[1..][j].pubkey {
      assert t[i + 1].pubkey != t[j + 1].pubkey;
    }
  }

  lemma DistinctAppend(a: Table, b: Table)
    requires Distinct(a) && Distinct(b)
    requires forall x, y | x in a && y in b :: x.pubkey != y.pubkey
    ensures Distinct(a + b)
  {
    var t := a + b;
    forall i, j | 0 <= i < j < |t| ensures t[i].pubkey != t[j].pubkey {
      if i < |a| <= j {
        assert t[i] in a && t[j] in b;
      }
    }
  }

  lemma DistinctKey(t: Table, a: AccountMeta, b: AccountMeta)
    requires Distinct(t) && a in t && b in t && a.pubkey == b.pubkey
    ensures a == b
  {
    var i :| 0 <= i < |t| && t[i] == a;
    var j :| 0 <= j < |t| && t[j] == b;
  }

  ghost function GroupStart(t: Table, feePayer: bytes, group: nat): nat
    requires group <= 3
  {
    1 + (if group > 0 then |Select(t, feePayer, true, true)| else 0)
    + (if group > 1 then |Select(t, feePayer, true, false)| else 0)
    + (if group > 2 then |Select(t, feePayer, false, true)| else 0)
  }

  // The fee payer and the four groups partition the table: no key twice, none
  // lost, none added, and an entry's privileges decide the group it stands in.
  lemma OrderedPartition(t: Table, feePayer: bytes)
    requires Distinct(t) && IndexOf(t, feePayer) >= 0
    ensures Distinct(Ordered(t, feePayer))
    ensures forall a :: a in Ordered(t, feePayer) <==> a in t
    ensures Ordered(t, feePayer)[0].pubkey == feePayer
    ensures forall i | 1 <= i < |Ordered(t, feePayer)| ::
      && (Ordered(t, feePayer)[i].isSigner <==> i < GroupStart(t, feePayer, 2))
      && (Ordered(t, feePayer)[i].isWritable <==>
          i < GroupStart(t, feePayer, 1) || GroupStart(t, feePayer, 2) <= i < GroupStart(t, feePayer, 3))
  {
    hide Select, Distinct, IndexOf;
    var fp := t[IndexOf(t, feePayer)];
    var sw, sr := Select(t, feePayer, true, true), Select(t, feePayer, true, false);
    var uw, ur := Select(t, feePayer, false, true), Select(t, feePayer, false, false);
    SelectMembers(t, feePayer, true, true);
    SelectMembers(t, feePayer, true, false);
    SelectMembers(t, feePayer, false, true);
    SelectMembers(t, feePayer, false, false);
    DistinctOne(fp);
    Disjoint(t, [fp], sw);
    Disjoint(t, [fp] + sw, sr);
    Disjoint(t, [fp] + sw + sr, uw);
    Disjoint(t, [fp] + sw + sr + uw, ur);
    forall a | a in t ensures a in Ordered(t, feePayer) {
      if a.pubkey == feePayer {
        DistinctKey(t, a, fp);
      }
    }
    GroupAt([fp], sw, sr, uw, ur);
  }

  lemma DistinctOne(a: AccountMeta)
    ensures Distinct([a])
  {
  }

  lemma Disjoint(t: Table, a: Table, b: Table)
    requires Distinct(t) && Distinct(a) && Distinct(b)
    requires (forall x | x in a :: x in t) && (forall y | y in b :: y in t)
    requires forall x | x in a :: x !in b
    ensures Distinct(a + b)
  {
    forall x, y | x in a && y in b ensures x.pubkey != y.pubkey {
      if x.pubkey == y.pubkey {
        DistinctKey(t, x, y);
      }
    }
    DistinctAppend(a, b);
  }

  lemma GroupAt(fp: Table, sw: Table, sr: Table, uw: Table, ur: Table)
    requires |fp| == 1
    requires forall a | a in sw :: a.isSigner && a.isWritable
    requires forall a | a in sr :: a.isSigner && !a.isWritable
    requires forall a | a in uw :: !a.isSigner && a.isWritable
    requires forall a | a in ur :: !a.isSigner && !a.isWritable
    ensures var all := fp + sw + sr + uw + ur;
      forall i | 1 <= i < |all| ::
        && (all[i].isSigner <==> i < 1 + |sw| + |sr|)
        && (all[i].isWritable <==> i < 1 + |sw| || 1 + |sw| + |sr| <= i < 1 + |sw| + |sr| + |uw|)
  {
    var all := fp + sw + sr + uw + ur;
    forall i | 1 <= i < |all|
      ensures (all[i].isSigner <==> i < 1 + |sw| + |sr|)
      ensures all[i].isWritable <==> i < 1 + |sw| || 1 + |sw| + |sr| <= i < 1 + |sw| + |sr| + |uw|
    {
      if i < 1 + |sw| {
        assert all[i] == sw[i - 1];
      } else if i < 1 + |sw| + |sr| {
        assert all[i] == sr[i - 1 - |sw|];
      } else if i < 1 + |sw| + |sr| + |uw| {
        assert all[i] == uw[i - 1 - |sw| - |sr|];
      } else {
        assert all[i] == ur[i - 1 - |sw| - |sr| - |uw|];
      }
    }
  }
}
