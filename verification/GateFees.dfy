// Fee accounting of a payment gate: go/paykit/gate.go keeps fees in maps,
// php/src/Gate.php in a list.
module GateFees {
  import opened Common

  datatype Price = Price(amount: real, currency: string)

  type Fees = map<string, Price>

  datatype Protocol = X402 | Mpp

  const GATE_FIXED := "fixed"
  const GATE_USAGE := "usage"

  // The fields of a gate that decide amounts.
  datatype Terms = Terms(amount: Price, payTo: string, feeWithin: Fees, feeOnTop: Fees)

  // ---- sums over maps ----

  ghost function SumOver(fees: Fees, addrs: set<string>): real
    requires addrs <= fees.Keys
  {
    if addrs == {} then 0.0
    else
      var addr :| addr in addrs;
      fees[addr].amount + SumOver(fees, addrs - {addr})
  }

  ghost function SumFees(fees: Fees): real {
    SumOver(fees, fees.Keys)
  }

  // The sum does not depend on the order in which the map is ranged over.
  lemma {:induction false} SumAnyOrder(fees: Fees, addrs: set<string>, addr: string)
    requires addrs <= fees.Keys && addr in addrs
    ensures SumOver(fees, addrs) == fees[addr].amount + SumOver(fees, addrs - {addr})
    decreases |addrs|
  {
    var first :| first in addrs && SumOver(fees, addrs) == fees[first].amount + SumOver(fees, addrs - {first});
    if first != addr {
      SumAnyOrder(fees, addrs - {first}, addr);
      SumAnyOrder(fees, addrs - {addr}, first);
      assert addrs - {first} - {addr} == addrs - {addr} - {first};
    }
  }

  lemma {:induction false} SumSplit(fees: Fees, a: set<string>, b: set<string>)
    requires a <= fees.Keys && b <= fees.Keys && a !! b
    ensures SumOver(fees, a + b) == SumOver(fees, a) + SumOver(fees, b)
    decreases |a|
  {
    if addr :| addr in a {
      SumAnyOrder(fees, a, addr);
      SumAnyOrder(fees, a + b, addr);
      assert a + b - {addr} == (a - {addr}) + b;
      SumSplit(fees, a - {addr}, b);
    } else {
      assert a + b == b;
    }
  }

  ghost function TotalAmount(t: Terms): real {
    t.amount.amount + SumFees(t.feeOnTop)
  }

  ghost function NetAmount(t: Terms): real {
    t.amount.amount - SumFees(t.feeWithin)
  }

  // What lands at an address, in the Go gate's order of lookups.
  ghost function GoPayout(t: Terms, addr: string): Option<real> {
    if addr in t.feeOnTop then Some(t.feeOnTop[addr].amount)
    else if addr in t.feeWithin then Some(t.feeWithin[addr].amount)
    else if addr != "" && addr == t.payTo then Some(NetAmount(t))
    else None
  }

  // ---- conservation ----

  ghost function Recipients(t: Terms): set<string> {
    t.feeOnTop.Keys + t.feeWithin.Keys + (if t.payTo == "" then {} else {t.payTo})
  }

  ghost function SumPayouts(t: Terms, addrs: set<string>): real {
    if addrs == {} then 0.0
    else
      var addr :| addr in addrs;
      GoPayout(t, addr).GetOr(0.0) + SumPayouts(t, addrs - {addr})
  }

  lemma {:induction false} SumPayoutsAnyOrder(t: Terms, addrs: set<string>, addr: string)
    requires addr in addrs
    ensures SumPayouts(t, addrs) == GoPayout(t, addr).GetOr(0.0) + SumPayouts(t, addrs - {addr})
    decreases |addrs|
  {
    var first :| first in addrs
      && SumPayouts(t, addrs) == GoPayout(t, first).GetOr(0.0) + SumPayouts(t, addrs - {first});
    if first != addr {
      SumPayoutsAnyOrder(t, addrs - {first}, addr);
      SumPayoutsAnyOrder(t, addrs - {addr}, first);
      assert addrs - {first} - {addr} == addrs - {addr} - {first};
    }
  }

  lemma {:induction false} SumPayoutsOfFees(t: Terms, fees: Fees, addrs: set<string>, rest: set<string>)
    requires addrs <= fees.Keys && addrs !! rest
    requires forall addr | addr in addrs :: GoPayout(t, addr) == Some(fees[addr].amount)
    ensures SumPayouts(t, addrs + rest) == SumOver(fees, addrs) + SumPayouts(t, rest)
    decreases |addrs|
  {
    if addr :| addr in addrs {
      SumPayoutsAnyOrder(t, addrs + rest, addr);
      SumAnyOrder(fees, addrs, addr);
      assert addrs + rest - {addr} == (addrs - {addr}) + rest;
      SumPayoutsOfFees(t, fees, addrs - {addr}, rest);
    } else {
      assert addrs + rest == rest;
    }
  }

  // What no address receives: a fee taken out of the amount for an address
  // that also has a fee on top, and the net of a main recipient that is absent
  // or has a fee of its own.
  ghost function Shortfall(t: Terms): real {
    SumOver(t.feeWithin, t.feeWithin.Keys * t.feeOnTop.Keys)
    + if t.payTo == "" || t.payTo in t.feeOnTop || t.payTo in t.feeWithin then NetAmount(t) else 0.0
  }

  // Every unit the customer pays is accounted for: it reaches one recipient or
  // it is in the shortfall.
  lemma PayoutsAccountForTotal(t: Terms)
    ensures SumPayouts(t, Recipients(t)) + Shortfall(t) == TotalAmount(t)
  {
    var within := t.feeWithin.Keys - t.feeOnTop.Keys;
    var main: set<string> := if t.payTo == "" || t.payTo in t.feeOnTop || t.payTo in t.feeWithin then {} else {t.payTo};
    assert Recipients(t) == t.feeOnTop.Keys + (within + main);
    SumPayoutsOfFees(t, t.feeOnTop, t.feeOnTop.Keys, within + main);
    SumPayoutsOfFees(t, t.feeWithin, within, main);
    SumSplit(t.feeWithin, within, t.feeWithin.Keys * t.feeOnTop.Keys);
    assert within + t.feeWithin.Keys * t.feeOnTop.Keys == t.feeWithin.Keys;
    if main != {} {
      SumPayoutsAnyOrder(t, main, t.payTo);
      assert main - {t.payTo} == {};
    }
  }

  ghost predicate PairwiseDisjoint(t: Terms) {
    && t.payTo != "" && t.payTo !in t.feeWithin && t.payTo !in t.feeOnTop
    && t.feeWithin.Keys !! t.feeOnTop.Keys
  }

  // Payouts add up to the total exactly when the shortfall is zero, and always
  // when the main recipient and the two fee maps are pairwise disjoint.
  lemma FeeConservation(t: Terms)
    ensures SumPayouts(t, Recipients(t)) == TotalAmount(t) <==> Shortfall(t) == 0.0
    ensures PairwiseDisjoint(t) ==> SumPayouts(t, Recipients(t)) == TotalAmount(t)
  {
    PayoutsAccountForTotal(t);
    if PairwiseDisjoint(t) {
      assert t.feeWithin.Keys * t.feeOnTop.Keys == {};
    }
  }

  // ---- validation ----

  datatype Reason =
    | NoCurrency | UsageWithFees | UsageProtocol | EmptyWithin | EmptyOnTop
    | MixedCurrencies | WithinExceedsAmount | X402WithFees

  ghost predicate SameCurrency(amount: Price, fees: Fees) {
    forall addr | addr in fees :: fees[addr].currency == amount.currency
  }

  // The checks on fees: named recipients, one currency, no more than the amount.
  ghost predicate Accepted(amount: Price, feeWithin: Fees, feeOnTop: Fees) {
    && "" !in feeWithin && "" !in feeOnTop
    && SameCurrency(amount, feeWithin) && SameCurrency(amount, feeOnTop)
    && SumFees(feeWithin) <= amount.amount
  }

  // The first check that fails, in the order they are made.
  ghost function FirstProblem(t: Terms, accept: seq<Protocol>, kind: string): Option<Reason> {
    var hasFees := t.feeWithin != map[] || t.feeOnTop != map[];
    if t.amount.currency == "" then Some(NoCurrency)
    else if kind == GATE_USAGE then
      if hasFees then Some(UsageWithFees)
      else if exists p :: p in accept && p != X402 then Some(UsageProtocol)
      else None
    else if "" in t.feeWithin then Some(EmptyWithin)
    else if "" in t.feeOnTop then Some(EmptyOnTop)
    else if !SameCurrency(t.amount, t.feeWithin) || !SameCurrency(t.amount, t.feeOnTop) then Some(MixedCurrencies)
    else if SumFees(t.feeWithin) > t.amount.amount then Some(WithinExceedsAmount)
    else if hasFees && X402 in accept then Some(X402WithFees)
    else None
  }

  // ---- conservation of validated gates ----

  // A usage gate passes validation exactly when it has a currency, no fees, and
  // asks for nothing but x402; any other gate exactly when it has a currency, its
  // fees are accepted, and x402 is not asked for with fees.
  lemma ValidatedExactly(t: Terms, accept: seq<Protocol>, kind: string)
    ensures kind == GATE_USAGE ==>
      (FirstProblem(t, accept, kind) == None <==>
        && t.amount.currency != "" && t.feeWithin == map[] && t.feeOnTop == map[]
        && forall p | p in accept :: p == X402)
    ensures kind != GATE_USAGE ==>
      (FirstProblem(t, accept, kind) == None <==>
        && t.amount.currency != ""
        && Accepted(t.amount, t.feeWithin, t.feeOnTop)
        && !((t.feeWithin != map[] || t.feeOnTop != map[]) && X402 in accept))
  {
  }

  // Each reason is given for its own check, with all the earlier ones passed.
  lemma ProblemExactly(t: Terms, accept: seq<Protocol>, kind: string)
    ensures var problem, usage := FirstProblem(t, accept, kind), kind == GATE_USAGE;
      var paid, fees := t.amount.currency != "", t.feeWithin.Keys + t.feeOnTop.Keys;
      var other := paid && !usage;
      var named := other && "" !in fees;
      var alike := named && SameCurrency(t.amount, t.feeWithin) && SameCurrency(t.amount, t.feeOnTop);
      && (problem == Some(NoCurrency) <==> !paid)
      && (problem == Some(UsageWithFees) <==> paid && usage && fees != {})
      && (problem == Some(UsageProtocol) <==> paid && usage && fees == {} && exists p :: p in accept && p != X402)
      && (problem == Some(EmptyWithin) <==> other && "" in t.feeWithin)
      && (problem == Some(EmptyOnTop) <==> other && "" !in t.feeWithin && "" in t.feeOnTop)
      && (problem == Some(MixedCurrencies) <==> named && !alike)
      && (problem == Some(WithinExceedsAmount) <==> alike && NetAmount(t) < 0.0)
      && (problem == Some(X402WithFees) <==> alike && NetAmount(t) >= 0.0 && fees != {} && X402 in accept)
  {
    assert t.feeWithin == map[] <==> t.feeWithin.Keys == {};
    assert t.feeOnTop == map[] <==> t.feeOnTop.Keys == {};
  }

  // The main recipient of a validated gate never nets less than nothing.
  lemma ValidatedNet(t: Terms, accept: seq<Protocol>, kind: string)
    requires FirstProblem(t, accept, kind) == None && (kind == GATE_USAGE ==> t.amount.amount >= 0.0)
    ensures NetAmount(t) >= 0.0
  {
    if kind == GATE_USAGE {
      assert SumFees(t.feeWithin) == 0.0;
    } else {
      ValidatedExactly(t, accept, kind);
    }
  }

  lemma {:induction false} PositiveSum(fees: Fees, addrs: set<string>)
    requires addrs <= fees.Keys && forall addr | addr in addrs :: fees[addr].amount > 0.0
    ensures SumOver(fees, addrs) >= 0.0 && (SumOver(fees, addrs) == 0.0 <==> addrs == {})
    decreases |addrs|
  {
    if addr :| addr in addrs {
      SumAnyOrder(fees, addrs, addr);
      PositiveSum(fees, addrs - {addr});
    }
  }

  // For fees that are worth something and a main recipient that nets something,
  // payouts add up to the total exactly when the recipients are pairwise disjoint.
  lemma ConservesExactly(t: Terms)
    requires NetAmount(t) > 0.0 && forall addr | addr in t.feeWithin :: t.feeWithin[addr].amount > 0.0
    ensures SumPayouts(t, Recipients(t)) == TotalAmount(t) <==> PairwiseDisjoint(t)
  {
    FeeConservation(t);
    PositiveSum(t.feeWithin, t.feeWithin.Keys * t.feeOnTop.Keys);
    var shared := t.feeWithin.Keys * t.feeOnTop.Keys;
    assert forall addr :: addr in shared <==> addr in t.feeWithin.Keys && addr in t.feeOnTop.Keys;
    if shared == {} {
      assert forall addr | addr in t.feeWithin.Keys :: addr !in t.feeOnTop.Keys by {
        assert forall addr :: addr !in shared;
      }
    }
  }

  // A main recipient that nets something but is absent or has a fee of its own.
  ghost predicate MainOverlaps(t: Terms) {
    && NetAmount(t) > 0.0 && (forall addr | addr in t.feeWithin :: t.feeWithin[addr].amount > 0.0)
    && (t.payTo == "" || t.payTo in t.feeWithin || t.payTo in t.feeOnTop)
  }

  // Such a recipient loses the net amount.
  lemma OverlapLosesNet(t: Terms)
    requires MainOverlaps(t)
    ensures SumPayouts(t, Recipients(t)) <= TotalAmount(t) - NetAmount(t) < TotalAmount(t)
  {
    PayoutsAccountForTotal(t);
    PositiveSum(t.feeWithin, t.feeWithin.Keys * t.feeOnTop.Keys);
  }

  // Validation lets such a gate through.
  lemma OverlapValidates()
    ensures exists t: Terms :: FirstProblem(t, [], GATE_FIXED) == None && MainOverlaps(t)
  {
    var fees: Fees := map["a" := Price(1.0, "USD")];
    var t := Terms(Price(3.0, "USD"), "a", fees, map[]);
    SumAnyOrder(fees, {"a"}, "a");
    assert fees.Keys == {"a"} && fees.Keys - {"a"} == {};
    ValidatedExactly(t, [], GATE_FIXED);
    assert NetAmount(t) == 2.0;
  }

  class Gate {
    var amount: Price
    var payTo: string
    var accept: seq<Protocol>
    var feeWithin: Fees
    var feeOnTop: Fees
    var kind: string

    constructor (amount: Price, payTo: string, accept: seq<Protocol>, feeWithin: Fees, feeOnTop: Fees, kind: string)
      ensures View() == Terms(amount, payTo, feeWithin, feeOnTop) && this.accept == accept && this.kind == kind
    {
      this.amount, this.payTo, this.accept := amount, payTo, accept;
      this.feeWithin, this.feeOnTop, this.kind := feeWithin, feeOnTop, kind;
    }

    ghost function View(): Terms
      reads this
    {
      Terms(amount, payTo, feeWithin, feeOnTop)
    }

    predicate HasFees()
      reads this
    {
      |feeWithin| > 0 || |feeOnTop| > 0
    }

    method Total() returns (r: Price)
      ensures r == Price(TotalAmount(View()), amount.currency)
    {
      var total := amount.amount;
      var rest := feeOnTop.Keys;
      while rest != {}
        invariant rest <= feeOnTop.Keys && total + SumOver(feeOnTop, rest) == TotalAmount(View())
        decreases |rest|
      {
        var addr :| addr in rest;
        SumAnyOrder(feeOnTop, rest, addr);
        total := total + feeOnTop[addr].amount;
        rest := rest - {addr};
      }
      return Price(total, amount.currency);
    }

    method Payout(addr: string) returns (r: Option<real>)
      ensures r == GoPayout(View(), addr)
    {
      if addr in feeOnTop {
        return Some(feeOnTop[addr].amount);
      }
      if addr in feeWithin {
        return Some(feeWithin[addr].amount);
      }
      if addr != "" && addr == payTo {
        var net := amount.amount;
        var rest := feeWithin.Keys;
        while rest != {}
          invariant rest <= feeWithin.Keys && net - SumOver(feeWithin, rest) == NetAmount(View())
          decreases |rest|
        {
          var k :| k in rest;
          SumAnyOrder(feeWithin, rest, k);
          net := net - feeWithin[k].amount;
          rest := rest - {k};
        }
        return Some(net);
      }
      return None;
    }

    // Checks the fee map for an empty recipient and collects its currencies.
    method CheckRecipients(fees: Fees, start: set<string>) returns (ok: bool, currencies: set<string>)
      ensures ok <==> "" !in fees
      ensures ok ==> currencies == start + set addr | addr in fees :: fees[addr].currency
    {
      currencies := start;
      var rest := fees.Keys;
      while rest != {}
        invariant rest <= fees.Keys && ("" in fees ==> "" in rest)
        invariant currencies == start + set addr | addr in fees.Keys - rest :: fees[addr].currency
        decreases |rest|
      {
        var addr :| addr in rest;
        if addr == "" {
          return false, currencies;
        }
        currencies := currencies + {fees[addr].currency};
        assert fees.Keys - (rest - {addr}) == (fees.Keys - rest) + {addr};
        rest := rest - {addr};
      }
      return true, currencies;
    }

    method SumOfWithin() returns (sum: real)
      ensures sum == SumFees(feeWithin)
    {
      sum := 0.0;
      var rest := feeWithin.Keys;
      while rest != {}
        invariant rest <= feeWithin.Keys && sum + SumOver(feeWithin, rest) == SumFees(feeWithin)
        decreases |rest|
      {
        var addr :| addr in rest;
        SumAnyOrder(feeWithin, rest, addr);
        sum := sum + feeWithin[addr].amount;
        rest := rest - {addr};
      }
    }

    // Ranges over the accept list for an entry that is x402, or one that is not.
    method Accepts(x402: bool) returns (found: bool)
      ensures found <==> exists p :: p in accept && (p == X402 <==> x402)
    {
      for i := 0 to |accept|
        invariant forall j | 0 <= j < i :: accept[j] == X402 <==> !x402
      {
        if (accept[i] == X402) == x402 {
          assert accept[i] in accept;
          return true;
        }
      }
      return false;
    }

    method Validate() returns (r: Option<Reason>)
      modifies this`kind
      ensures kind == if old(kind) == "" && amount.currency != "" then GATE_FIXED else old(kind)
      ensures r == FirstProblem(View(), accept, kind)
    {
      hide SumFees, SameCurrency;
      if amount.currency == "" {
        return Some(NoCurrency);
      }
      if kind == "" {
        kind := GATE_FIXED;
      }
      if kind == GATE_USAGE {
        if HasFees() {
          return Some(UsageWithFees);
        }
        var other := Accepts(false);
        if other {
          return Some(UsageProtocol);
        }
        return None;
      }
      var ok, currencies := CheckRecipients(feeWithin, {amount.currency});
      if !ok {
        return Some(EmptyWithin);
      }
      ok, currencies := CheckRecipients(feeOnTop, currencies);
      if !ok {
        return Some(EmptyOnTop);
      }
      OneCurrency(amount, feeWithin, feeOnTop, currencies);
      if |currencies| > 1 {
        return Some(MixedCurrencies);
      }
      var sumWithin := SumOfWithin();
      if sumWithin > amount.amount {
        return Some(WithinExceedsAmount);
      }
      if HasFees() {
        var x402 := Accepts(true);
        if x402 {
          return Some(X402WithFees);
        }
      }
      return None;
    }
  }

  lemma Foreign(amount: Price, feeWithin: Fees, feeOnTop: Fees) returns (other: string)
    requires !SameCurrency(amount, feeWithin) || !SameCurrency(amount, feeOnTop)
    ensures other != amount.currency
    ensures other in (set addr | addr in feeWithin :: feeWithin[addr].currency)
      || other in (set addr | addr in feeOnTop :: feeOnTop[addr].currency)
  {
    if !SameCurrency(amount, feeWithin) {
      var addr :| addr in feeWithin && feeWithin[addr].currency != amount.currency;
      other := feeWithin[addr].currency;
    } else {
      var addr :| addr in feeOnTop && feeOnTop[addr].currency != amount.currency;
      other := feeOnTop[addr].currency;
    }
  }

  lemma OneCurrency(amount: Price, feeWithin: Fees, feeOnTop: Fees, currencies: set<string>)
    requires currencies == {amount.currency}
      + (set addr | addr in feeWithin :: feeWithin[addr].currency)
      + (set addr | addr in feeOnTop :: feeOnTop[addr].currency)
    ensures |currencies| <= 1 <==> SameCurrency(amount, feeWithin) && SameCurrency(amount, feeOnTop)
  {
    if SameCurrency(amount, feeWithin) && SameCurrency(amount, feeOnTop) {
      assert currencies == {amount.currency};
    } else {
      var other := Foreign(amount, feeWithin, feeOnTop);
      assert other in currencies - {amount.currency};
      assert |currencies - {amount.currency}| > 0;
      assert currencies == {amount.currency} + (currencies - {amount.currency});
    }
  }

  // ---- the list form ----

  datatype FeeKind = Within | OnTop

  datatype Fee = Fee(recipient: string, amount: real, kind: FeeKind)

  ghost function SumKind(fees: seq<Fee>, kind: FeeKind): real {
    if fees == [] then 0.0
    else SumKind(fees[..|fees| - 1], kind) + (if fees[|fees| - 1].kind == kind then fees[|fees| - 1].amount else 0.0)
  }

  ghost function FirstFee(fees: seq<Fee>, addr: string): Option<real> {
    if fees == [] then None
    else if fees[0].recipient == addr then Some(fees[0].amount)
    else FirstFee(fees[1..], addr)
  }

  ghost function PhpPayoutOf(amount: real, payTo: Option<string>, fees: seq<Fee>, addr: string): Option<real> {
    if payTo == Some(addr) then Some(amount - SumKind(fees, Within)) else FirstFee(fees, addr)
  }

  // A PHP array key: numeric text turns into an integer.
  datatype ArrayKey = TextKey(text: string) | IntKey(n: int)

  type FeeArray = seq<(ArrayKey, Price)>

  datatype PhpReason = BadRecipient | PhpMixedCurrencies | PhpWithinExceedsAmount | PhpX402WithFees

  function ToFee(entry: (ArrayKey, Price), kind: FeeKind): Fee
    requires entry.0.TextKey?
  {
    Fee(entry.0.text, entry.1.amount, kind)
  }

  // What buildFee throws for an entry.
  function EntryProblem(amount: Price, entry: (ArrayKey, Price)): Option<PhpReason> {
    if !entry.0.TextKey? || entry.0.text == "" then Some(BadRecipient)
    else if entry.1.currency != amount.currency then Some(PhpMixedCurrencies)
    else None
  }

  // The exception of the first bad entry.
  function FirstBad(amount: Price, entries: FeeArray): (r: Option<PhpReason>)
    ensures r == None <==> forall i | 0 <= i < |entries| :: EntryProblem(amount, entries[i]) == None
  {
    if entries == [] then None
    else if EntryProblem(amount, entries[0]).Some? then EntryProblem(amount, entries[0])
    else FirstBad(amount, entries[1..])
  }

  // What the constructor throws: bad entries in order, then the two rules on sums and protocols.
  ghost function PhpProblem(
    amount: Price, accept: Option<seq<Protocol>>, feeWithin: FeeArray, feeOnTop: FeeArray): Option<PhpReason>
  {
    if FirstBad(amount, feeWithin).Some? then FirstBad(amount, feeWithin)
    else if FirstBad(amount, feeOnTop).Some? then FirstBad(amount, feeOnTop)
    else if SumKind(ToFees(feeWithin, Within), Within) > amount.amount then Some(PhpWithinExceedsAmount)
    else if feeWithin + feeOnTop != [] && accept.Some? && X402 in accept.value then Some(PhpX402WithFees)
    else None
  }

  function ToFees(entries: FeeArray, kind: FeeKind): (fees: seq<Fee>)
    requires forall i | 0 <= i < |entries| :: entries[i].0.TextKey?
    ensures |fees| == |entries| && forall i | 0 <= i < |entries| :: fees[i] == ToFee(entries[i], kind)
  {
    seq(|entries|, i requires 0 <= i < |entries| => ToFee(entries[i], kind))
  }

  // ---- which fee arrays the constructor takes ----

  predicate GoodEntry(amount: Price, entry: (ArrayKey, Price)) {
    entry.0.TextKey? && entry.0.text != "" && entry.1.currency == amount.currency
  }

  ghost predicate AllGood(amount: Price, entries: FeeArray) {
    forall i | 0 <= i < |entries| :: GoodEntry(amount, entries[i])
  }

  ghost predicate IsFirstBad(amount: Price, entries: FeeArray, i: nat) {
    i < |entries| && !GoodEntry(amount, entries[i]) && forall j | 0 <= j < i :: GoodEntry(amount, entries[j])
  }

  // What is wrong with an entry: its key, or else its currency.
  function Why(entry: (ArrayKey, Price)): PhpReason {
    if entry.0.IntKey? || entry.0.text == "" then BadRecipient else PhpMixedCurrencies
  }

  lemma {:induction false} FirstBadIs(amount: Price, entries: FeeArray, i: nat)
    requires IsFirstBad(amount, entries, i)
    ensures FirstBad(amount, entries) == Some(Why(entries[i]))
  {
    if i > 0 {
      assert forall j | 0 <= j < i - 1 :: entries[1..][j] == entries[j + 1];
      FirstBadIs(amount, entries[1..], i - 1);
      assert GoodEntry(amount, entries[0]);
    }
  }

  lemma NoneBad(amount: Price, entries: FeeArray)
    ensures FirstBad(amount, entries) == None <==> AllGood(amount, entries)
  {
    hide FirstBad;
    assert forall i | 0 <= i < |entries| :: GoodEntry(amount, entries[i]) <==> EntryProblem(amount, entries[i]) == None;
  }

  // The constructor takes exactly arrays whose entries are all good, with fees
  // within the amount, and without x402 beside a fee.
  lemma PhpTakesExactly(amount: Price, accept: Option<seq<Protocol>>, feeWithin: FeeArray, feeOnTop: FeeArray)
    ensures var problem := PhpProblem(amount, accept, feeWithin, feeOnTop);
      var good := AllGood(amount, feeWithin) && AllGood(amount, feeOnTop);
      var sum := if good then SumKind(ToFees(feeWithin, Within), Within) else 0.0;
      var x402 := (feeWithin != [] || feeOnTop != []) && accept.Some? && X402 in accept.value;
      && (problem == None <==> good && sum <= amount.amount && !x402)
      && (problem == Some(PhpWithinExceedsAmount) <==> good && sum > amount.amount)
      && (problem == Some(PhpX402WithFees) <==> good && sum <= amount.amount && x402)
  {
    hide SumKind, FirstBad, AllGood;
    NoneBad(amount, feeWithin);
    NoneBad(amount, feeOnTop);
    BadReasons(amount, feeWithin);
    BadReasons(amount, feeOnTop);
  }

  lemma {:induction false} BadReasons(amount: Price, entries: FeeArray)
    ensures FirstBad(amount, entries) in {None, Some(BadRecipient), Some(PhpMixedCurrencies)}
  {
    if entries != [] {
      BadReasons(amount, entries[1..]);
    }
  }

  // The first bad entry of the two arrays, one behind the other, says why it
  // throws otherwise.
  lemma PhpThrowsFirst(
    amount: Price, accept: Option<seq<Protocol>>, feeWithin: FeeArray, feeOnTop: FeeArray, i: nat)
    requires IsFirstBad(amount, feeWithin + feeOnTop, i)
    ensures PhpProblem(amount, accept, feeWithin, feeOnTop) == Some(Why((feeWithin + feeOnTop)[i]))
  {
    hide SumKind, FirstBad, GoodEntry;
    var all := feeWithin + feeOnTop;
    NoneBad(amount, feeWithin);
    NoneBad(amount, feeOnTop);
    if i < |feeWithin| {
      assert forall j | 0 <= j <= i :: all[j] == feeWithin[j];
      FirstBadIs(amount, feeWithin, i);
    } else {
      assert forall j | 0 <= j < |feeWithin| :: all[j] == feeWithin[j];
      assert forall j | 0 <= j <= i - |feeWithin| :: all[|feeWithin| + j] == feeOnTop[j];
      FirstBadIs(amount, feeOnTop, i - |feeWithin|);
    }
  }

  // The address an array key stands for.
  function KeyText(key: ArrayKey, show: int -> string): string {
    match key
    case TextKey(text) => text
    case IntKey(n) => show(n)
  }

  // The array that PHP makes of a map's entries.
  ghost predicate HoldsMap(entries: FeeArray, fees: Fees, show: int -> string) {
    && (forall i | 0 <= i < |entries| :: KeyText(entries[i].0, show) in fees && fees[KeyText(entries[i].0, show)] == entries[i].1)
    && (forall addr | addr in fees :: exists i :: 0 <= i < |entries| && KeyText(entries[i].0, show) == addr)
    && (forall i, j | 0 <= i < j < |entries| :: KeyText(entries[i].0, show) != KeyText(entries[j].0, show))
  }

  class PhpGate {
    const amount: Price
    const payTo: Option<string>
    const accept: Option<seq<Protocol>>
    var fees: seq<Fee>
    var problem: Option<PhpReason>

    // problem is the exception the constructor throws, if any.
    constructor (amount: Price, payTo: Option<string>, accept: Option<seq<Protocol>>, feeWithin: FeeArray, feeOnTop: FeeArray)
      ensures this.amount == amount && this.payTo == payTo && this.accept == accept
      ensures problem == PhpProblem(amount, accept, feeWithin, feeOnTop)
      ensures problem == None ==> fees == ToFees(feeWithin, Within) + ToFees(feeOnTop, OnTop)
    {
      this.amount, this.payTo, this.accept := amount, payTo, accept;
      fees, problem := [], None;
      new;
      Append(feeWithin, Within);
      if problem == None {
        Append(feeOnTop, OnTop);
      }
      if problem == None {
        assert fees == ToFees(feeWithin, Within) + ToFees(feeOnTop, OnTop);
        SumKindConcat(ToFees(feeWithin, Within), ToFees(feeOnTop, OnTop), Within);
        SumOtherKind(ToFees(feeOnTop, OnTop), Within);
        var withinSum := SumOf(Within);
        if withinSum > amount.amount {
          problem := Some(PhpWithinExceedsAmount);
        } else if |fees| > 0 && accept.Some? && X402 in accept.value {
          problem := Some(PhpX402WithFees);
        }
      }
    }

    method Append(entries: FeeArray, kind: FeeKind)
      requires problem == None
      modifies this
      ensures problem == FirstBad(amount, entries)
      ensures problem == None ==> fees == old(fees) + ToFees(entries, kind)
    {
      assert entries[0..] == entries;
      for i := 0 to |entries|
        invariant problem == None && FirstBad(amount, entries) == FirstBad(amount, entries[i..])
        invariant forall j | 0 <= j < i :: EntryProblem(amount, entries[j]) == None
        invariant fees == old(fees) + ToFees(entries[..i], kind)
      {
        assert entries[i..][1..] == entries[i + 1..];
        if !entries[i].0.TextKey? || entries[i].0.text == "" {
          problem := Some(BadRecipient);
          return;
        }
        if entries[i].1.currency != amount.currency {
          problem := Some(PhpMixedCurrencies);
          return;
        }
        fees := fees + [ToFee(entries[i], kind)];
        assert ToFees(entries[..i + 1], kind) == ToFees(entries[..i], kind) + [ToFee(entries[i], kind)];
      }
      assert entries[..|entries|] == entries;
    }

    method SumOf(kind: FeeKind) returns (sum: real)
      ensures sum == SumKind(fees, kind)
    {
      sum := 0.0;
      for i := 0 to |fees|
        invariant sum == SumKind(fees[..i], kind)
      {
        assert fees[..i + 1][..i] == fees[..i];
        if fees[i].kind == kind {
          sum := sum + fees[i].amount;
        }
      }
      assert fees[..|fees|] == fees;
    }

    method Total() returns (total: Price)
      ensures total == Price(amount.amount + SumKind(fees, OnTop), amount.currency)
    {
      var added := SumOf(OnTop);
      return Price(amount.amount + added, amount.currency);
    }

    method Payout(address: string) returns (r: Option<real>)
      ensures r == PhpPayoutOf(amount.amount, payTo, fees, address)
    {
      if payTo == Some(address) {
        var within := SumOf(Within);
        return Some(amount.amount - within);
      }
      for i := 0 to |fees|
        invariant FirstFee(fees, address) == FirstFee(fees[i..], address)
      {
        assert fees[i..][0] == fees[i] && fees[i..][1..] == fees[i + 1..];
        if fees[i].recipient == address {
          return Some(fees[i].amount);
        }
      }
      return None;
    }
  }

  // ---- the two forms agree ----

  // The list holds exactly the entries of the two maps, within first.
  ghost predicate Lists(t: Terms, within: seq<Fee>, onTop: seq<Fee>) {
    ListsMap(within, t.feeWithin, Within) && ListsMap(onTop, t.feeOnTop, OnTop)
  }

  ghost predicate ListsMap(list: seq<Fee>, fees: Fees, kind: FeeKind) {
    && (forall i | 0 <= i < |list| ::
          list[i].kind == kind && list[i].recipient in fees && fees[list[i].recipient].amount == list[i].amount)
    && (forall addr | addr in fees :: exists i :: 0 <= i < |list| && list[i].recipient == addr)
    && (forall i, j | 0 <= i < j < |list| :: list[i].recipient != list[j].recipient)
  }

  // The recipients of the first n entries.
  ghost function Named(list: seq<Fee>): set<string> {
    set i | 0 <= i < |list| :: list[i].recipient
  }

  lemma {:induction false} ListSum(list: seq<Fee>, fees: Fees, kind: FeeKind)
    requires forall i | 0 <= i < |list| ::
      list[i].kind == kind && list[i].recipient in fees && fees[list[i].recipient].amount == list[i].amount
    requires forall i, j | 0 <= i < j < |list| :: list[i].recipient != list[j].recipient
    ensures Named(list) <= fees.Keys && SumKind(list, kind) == SumOver(fees, Named(list))
    decreases |list|
  {
    if list != [] {
      var n := |list| - 1;
      var addr := list[n].recipient;
      ListSum(list[..n], fees, kind);
      forall a | a in Named(list) ensures a == addr || a in Named(list[..n]) {
        var i :| 0 <= i < |list| && list[i].recipient == a;
        assert i < n ==> list[..n][i].recipient == a;
      }
      forall a | a in Named(list[..n]) ensures a in Named(list) {
        var i :| 0 <= i < n && list[..n][i].recipient == a;
        assert list[i].recipient == a;
      }
      assert list[n].recipient in Named(list);
      assert Named(list) - {addr} == Named(list[..n]);
      SumAnyOrder(fees, Named(list), addr);
    }
  }

  lemma ListsMapSum(list: seq<Fee>, fees: Fees, kind: FeeKind)
    requires ListsMap(list, fees, kind)
    ensures SumKind(list, kind) == SumFees(fees)
  {
    ListSum(list, fees, kind);
    forall addr | addr in fees ensures addr in Named(list) {
      var i :| 0 <= i < |list| && list[i].recipient == addr;
    }
    assert Named(list) == fees.Keys;
  }

  lemma {:induction false} SumKindConcat(a: seq<Fee>, b: seq<Fee>, kind: FeeKind)
    ensures SumKind(a + b, kind) == SumKind(a, kind) + SumKind(b, kind)
    decreases |b|
  {
    if b == [] {
      assert a + b == a;
    } else {
      assert (a + b)[..|a + b| - 1] == a + b[..|b| - 1];
      SumKindConcat(a, b[..|b| - 1], kind);
    }
  }

  lemma {:induction false} SumOtherKind(list: seq<Fee>, kind: FeeKind)
    requires forall i | 0 <= i < |list| :: list[i].kind != kind
    ensures SumKind(list, kind) == 0.0
  {
    if list != [] {
      SumOtherKind(list[..|list| - 1], kind);
    }
  }

  lemma {:induction false} FirstFeeConcat(a: seq<Fee>, b: seq<Fee>, addr: string)
    ensures FirstFee(a + b, addr) == if FirstFee(a, addr).Some? then FirstFee(a, addr) else FirstFee(b, addr)
  {
    if a == [] {
      assert a + b == b;
    } else {
      assert (a + b)[1..] == a[1..] + b;
      FirstFeeConcat(a[1..], b, addr);
    }
  }

  lemma {:induction false} FirstFeeIs(list: seq<Fee>, addr: string)
    ensures FirstFee(list, addr).None? <==> forall i | 0 <= i < |list| :: list[i].recipient != addr
    ensures FirstFee(list, addr).Some? ==>
      exists i :: 0 <= i < |list| && list[i].recipient == addr && FirstFee(list, addr) == Some(list[i].amount)
  {
    if list != [] {
      FirstFeeIs(list[1..], addr);
      if FirstFee(list, addr).Some? && list[0].recipient != addr {
        var i :| 0 <= i < |list[1..]| && list[1..][i].recipient == addr && FirstFee(list[1..], addr) == Some(list[1..][i].amount);
        assert list[i + 1].recipient == addr;
      }
      assert FirstFee(list, addr).None? ==> forall i | 0 < i < |list| :: list[i] == list[1..][i - 1];
    }
  }

  lemma ListLookup(list: seq<Fee>, fees: Fees, kind: FeeKind, addr: string)
    requires ListsMap(list, fees, kind)
    ensures FirstFee(list, addr) == if addr in fees then Some(fees[addr].amount) else None
  {
    FirstFeeIs(list, addr);
  }

  // The list form charges the same total as the map form, and pays an address
  // the same unless that address has two roles with different amounts.
  lemma FormsAgree(t: Terms, within: seq<Fee>, onTop: seq<Fee>, addr: string)
    requires Lists(t, within, onTop) && addr != ""
    ensures t.amount.amount + SumKind(within + onTop, OnTop) == TotalAmount(t)
    ensures PairwiseDisjoint(t) ==>
      PhpPayoutOf(t.amount.amount, Some(t.payTo), within + onTop, addr) == GoPayout(t, addr)
    ensures PhpPayoutOf(t.amount.amount, Some(t.payTo), within + onTop, addr) == GoPayout(t, addr) <==>
      && (addr == t.payTo && addr in t.feeOnTop ==> t.feeOnTop[addr].amount == NetAmount(t))
      && (addr == t.payTo && addr in t.feeWithin && addr !in t.feeOnTop ==> t.feeWithin[addr].amount == NetAmount(t))
      && (addr != t.payTo && addr in t.feeWithin && addr in t.feeOnTop ==> t.feeWithin[addr].amount == t.feeOnTop[addr].amount)
  {
    hide SumKind, FirstFee, SumOver;
    ListsMapSum(within, t.feeWithin, Within);
    ListsMapSum(onTop, t.feeOnTop, OnTop);
    SumKindConcat(within, onTop, Within);
    SumKindConcat(within, onTop, OnTop);
    SumOtherKind(within, OnTop);
    SumOtherKind(onTop, Within);
    FirstFeeConcat(within, onTop, addr);
    ListLookup(within, t.feeWithin, Within, addr);
    ListLookup(onTop, t.feeOnTop, OnTop, addr);
  }

  ghost predicate AllTexts(entries: FeeArray) {
    forall i | 0 <= i < |entries| :: entries[i].0.TextKey?
  }

  lemma TextsListed(entries: FeeArray, fees: Fees, show: int -> string, kind: FeeKind)
    requires HoldsMap(entries, fees, show) && AllTexts(entries)
    ensures ListsMap(ToFees(entries, kind), fees, kind)
  {
    var list := ToFees(entries, kind);
    forall i | 0 <= i < |entries| ensures KeyText(entries[i].0, show) == list[i].recipient {
    }
    forall addr | addr in fees ensures exists i :: 0 <= i < |list| && list[i].recipient == addr {
      var i :| 0 <= i < |entries| && KeyText(entries[i].0, show) == addr;
      assert list[i].recipient == addr;
    }
  }

  lemma GoodMeansAccepted(amount: Price, entries: FeeArray, fees: Fees, show: int -> string)
    requires HoldsMap(entries, fees, show)
    ensures AllGood(amount, entries) <==> AllTexts(entries) && "" !in fees && SameCurrency(amount, fees)
    ensures entries == [] <==> fees == map[]
  {
    forall addr | addr in fees ensures exists i :: 0 <= i < |entries| && KeyText(entries[i].0, show) == addr {
    }
    if AllGood(amount, entries) {
      forall addr | addr in fees ensures addr != "" && fees[addr].currency == amount.currency {
        var i :| 0 <= i < |entries| && KeyText(entries[i].0, show) == addr;
        assert GoodEntry(amount, entries[i]);
      }
    }
    if entries != [] {
      assert KeyText(entries[0].0, show) in fees;
    }
    if addr :| addr in fees {
      var i :| 0 <= i < |entries| && KeyText(entries[i].0, show) == addr;
    } else {
      assert fees == map[];
    }
  }

  // The two constructors take the same gates, but for addresses that PHP turns
  // into integers: the list form takes a gate exactly if the map form validates
  // it and no recipient of a fee is such an address.
  lemma FormsValidateAlike(t: Terms, accept: Option<seq<Protocol>>, within: FeeArray, onTop: FeeArray, show: int -> string)
    requires t.amount.currency != "" && HoldsMap(within, t.feeWithin, show) && HoldsMap(onTop, t.feeOnTop, show)
    ensures PhpProblem(t.amount, accept, within, onTop) == None
      <==> FirstProblem(t, accept.GetOr([]), GATE_FIXED) == None && AllTexts(within) && AllTexts(onTop)
  {
    ValidatedExactly(t, accept.GetOr([]), GATE_FIXED);
    PhpTakesExactly(t.amount, accept, within, onTop);
    hide PhpProblem, FirstProblem, HoldsMap, SumKind, SumOver, ListsMap, AllGood, AllTexts, SameCurrency, ToFees;
    GoodMeansAccepted(t.amount, within, t.feeWithin, show);
    GoodMeansAccepted(t.amount, onTop, t.feeOnTop, show);
    if AllGood(t.amount, within) && AllGood(t.amount, onTop) {
      TextsSum(within, t.feeWithin, show);
    }
  }

  lemma TextsSum(entries: FeeArray, fees: Fees, show: int -> string)
    requires HoldsMap(entries, fees, show) && AllTexts(entries)
    ensures SumKind(ToFees(entries, Within), Within) == SumFees(fees)
  {
    hide SumKind, SumOver, HoldsMap;
    TextsListed(entries, fees, show, Within);
    ListsMapSum(ToFees(entries, Within), fees, Within);
  }
}
