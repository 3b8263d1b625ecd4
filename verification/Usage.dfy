// The usage gate of go/paykit/usage.go: a clamped meter, a writer that buffers
// the handler's response, and settlement after the handler has returned.
module Usage {
  import opened Common
  import opened GateFees
  import opened Powers

  type u64 = n: nat | n < TWO_64

  // ---- the ceiling ----

  // decimal.Truncate(0): toward zero.
  function Truncated(x: real): int {
    if x >= 0.0 then x.Floor else -((-x).Floor)
  }

  // Shift(6), Truncate(0), then the low 64 bits of the magnitude.
  function BaseUnits(amount: real): u64 {
    var units := Truncated(amount * 1000000.0);
    (if units >= 0 then units else -units) % TWO_64
  }

  method GateTotalBaseUnits(gate: Gate) returns (units: u64)
    ensures units == BaseUnits(TotalAmount(gate.View()))
  {
    var total := gate.Total();
    return BaseUnits(total.amount);
  }

  // For a validated usage gate the ceiling is its price in base units, rounded
  // down, exactly when the price fits in 64 bits.
  lemma CeilingIsPrice(t: Terms, accept: seq<Protocol>)
    requires FirstProblem(t, accept, GATE_USAGE) == None && t.amount.amount >= 0.0
    ensures var units := t.amount.amount * 1000000.0;
      var ceiling := BaseUnits(TotalAmount(t));
      ceiling as real <= units < ceiling as real + 1.0 <==> units < TWO_64 as real
  {
    assert t.feeOnTop == map[];
    assert TotalAmount(t) == t.amount.amount;
    var units := t.amount.amount * 1000000.0;
    assert units.Floor as real <= units < units.Floor as real + 1.0;
  }

  // The sign is lost: a negative price has the ceiling of the same positive one.
  lemma NegativeCeiling(amount: real)
    ensures BaseUnits(-amount) == BaseUnits(amount)
  {
  }

  // ---- values the writer handles ----

  type Headers = map<string, seq<string>>

  datatype Settlement = Settlement(transaction: string, headers: map<string, string>)

  // SettleActual's answer.
  datatype Answer = Settled(settlement: Option<Settlement>) | Rejected(error: string)

  datatype SettleError =
    | NotCharged
    | ChargedZero
    | NotChargedAndZeroFailed(error: string)
    | ChargedZeroAndZeroFailed(error: string)
    | AdapterFailed(error: string)

  // What the client's connection sees.
  datatype Downstream =
    | Head(status: int, headers: Headers)
    | Body(bs: bytes)
    | ErrorResponse(error: SettleError)

  // Everything a request's writer and meter hold, and what they did so far.
  datatype View = View(
    max: u64, amount: u64, charged: bool,
    header: Headers, body: bytes, status: int, wrote: bool,
    settled: bool, settlement: Option<Settlement>, settleErr: Option<SettleError>, flushed: bool,
    paidTransaction: string, paidHeaders: map<string, string>,
    verified: bool, dst: Headers,
    settleCalls: seq<u64>, releases: nat, downstream: seq<Downstream>)

  // What a handler can do with the writer and the meter.
  datatype Act =
    | ChargeAct(baseUnits: u64)
    | HeaderAct(key: string, values: seq<string>)
    | DeleteAct(key: string)
    | StatusAct(status: int)
    | WriteAct(bs: bytes)

  function Fresh(max: u64, verified: bool, dst: Headers): View {
    View(max, 0, false, map[], [], 0, false, false, None, None, false, "", map[], verified, dst, [], 0, [])
  }

  function Clamp(n: u64, max: u64): u64 {
    if n > max then max else n
  }

  function DoAct(v: View, a: Act): View {
    match a
    case ChargeAct(n) => v.(amount := Clamp(n, v.max), charged := true)
    case HeaderAct(key, values) => v.(header := v.header[key := values])
    case DeleteAct(key) => v.(header := v.header - {key})
    case StatusAct(status) => if v.wrote then v else v.(status := status, wrote := true)
    case WriteAct(bs) =>
      (if v.wrote then v else v.(status := 200, wrote := true)).(body := v.body + bs)
  }

  function DoActs(v: View, acts: seq<Act>): View {
    if acts == [] then v else DoAct(DoActs(v, acts[..|acts| - 1]), acts[|acts| - 1])
  }

  // http.Header.Set for every entry.
  function Overlay(h: Headers, extra: map<string, string>): Headers {
    h + map key | key in extra :: [extra[key]]
  }

  // The overlay with some keys still to come.
  function Overlaid(h: Headers, extra: map<string, string>, rest: set<string>): Headers {
    h + map key | key in extra && key !in rest :: [extra[key]]
  }

  lemma OverlaidAll(h: Headers, extra: map<string, string>)
    ensures Overlaid(h, extra, extra.Keys) == h && Overlaid(h, extra, {}) == Overlay(h, extra)
  {
  }

  lemma OverlaidNext(h: Headers, extra: map<string, string>, rest: set<string>, key: string)
    requires key in rest && rest <= extra.Keys
    ensures Overlaid(h, extra, rest - {key}) == Overlaid(h, extra, rest)[key := [extra[key]]]
  {
  }

  // dst.Del(key) and dst.Add for every value, with some of h's keys still to
  // come: a key without values disappears.
  function Merged(dst: Headers, h: Headers, rest: set<string>): Headers {
    map key | key in dst.Keys + h.Keys && (if key in h && key !in rest then h[key] != [] else key in dst) ::
      if key in h && key !in rest then h[key] else dst[key]
  }

  function Merge(dst: Headers, h: Headers): Headers {
    Merged(dst, h, {})
  }

  lemma MergedAll(dst: Headers, h: Headers)
    ensures Merged(dst, h, h.Keys) == dst
  {
  }

  lemma MergedNext(dst: Headers, h: Headers, rest: set<string>, key: string)
    requires key in rest && rest <= h.Keys
    ensures var front := Merged(dst, h, rest) - {key};
      Merged(dst, h, rest - {key}) == if h[key] != [] then front[key := h[key]] else front
  {
  }

  function First(h: Headers, key: string): string {
    if key in h && h[key] != [] then h[key][0] else ""
  }

  const CONTENT_TYPE := "Content-Type"

  // http.DetectContentType is a parameter.
  type Sniffer = bytes -> string

  // The connection's headers, then the response's; a body without a type gets one.
  function SentHeaders(dst: Headers, header: Headers, body: bytes, sniff: Sniffer): Headers {
    var merged := Merge(dst, header);
    if body != [] && First(merged, CONTENT_TYPE) == "" then merged[CONTENT_TYPE := [sniff(body)]] else merged
  }

  function FlushedHeaders(v: View, sniff: Sniffer): Headers {
    SentHeaders(v.dst, v.header, v.body, sniff)
  }

  function Flushed(v: View, sniff: Sniffer): View {
    if v.flushed then v
    else
      var headers := FlushedHeaders(v, sniff);
      v.(flushed := true, dst := headers,
         downstream := v.downstream + [Head(if v.status == 0 then 200 else v.status, headers)]
           + (if v.body == [] then [] else [Body(v.body)]))
  }

  function ZeroError(charged: bool, answer: Answer): SettleError {
    match answer
    case Settled(_) => if charged then ChargedZero else NotCharged
    case Rejected(e) => if charged then ChargedZeroAndZeroFailed(e) else NotChargedAndZeroFailed(e)
  }

  function WithPayment(v: View, result: Option<Settlement>): View {
    if result.None? then v
    else v.(paidTransaction := result.value.transaction, paidHeaders := v.paidHeaders + result.value.headers)
  }

  function SettledOnce(v: View, answer: Answer): View {
    if v.settled then v
    else
      var actual: u64 := if v.charged then v.amount else 0;
      var w := Calling(v, actual);
      if actual == 0 then w.(settleErr := Some(ZeroError(v.charged, answer)))
      else match answer
        case Rejected(e) => w.(settleErr := Some(AdapterFailed(e)))
        case Settled(result) => WithPayment(w.(settlement := result), result)
  }

  function Finalized(v: View, answer: Answer, sniff: Sniffer): View {
    var w := SettledOnce(v, answer);
    if w.settleErr.Some? then
      if w.flushed then w
      else w.(flushed := true, downstream := w.downstream + [ErrorResponse(w.settleErr.value)])
    else
      Flushed(if w.settlement.Some? then w.(header := Overlay(w.header, w.settlement.value.headers)) else w, sniff)
  }

  // finalizeSettlement called any number of times; only the first answer is used.
  function FinalizedAll(v: View, answers: seq<Answer>, sniff: Sniffer): View {
    if answers == [] then v
    else Finalized(FinalizedAll(v, answers[..|answers| - 1], sniff), answers[|answers| - 1], sniff)
  }

  // ---- what a handler's acts amount to ----

  ghost function LastCharge(acts: seq<Act>): Option<u64> {
    if acts == [] then None
    else if acts[|acts| - 1].ChargeAct? then Some(acts[|acts| - 1].baseUnits)
    else LastCharge(acts[..|acts| - 1])
  }

  ghost function Written(acts: seq<Act>): bytes {
    if acts == [] then []
    else Written(acts[..|acts| - 1]) + if acts[|acts| - 1].WriteAct? then acts[|acts| - 1].bs else []
  }

  // The status of the first WriteHeader, or 200 if a Write comes first.
  ghost function FirstStatus(acts: seq<Act>): Option<int> {
    if acts == [] then None
    else if acts[0].StatusAct? then Some(acts[0].status)
    else if acts[0].WriteAct? then Some(200)
    else FirstStatus(acts[1..])
  }

  // The first status other than zero, or 200 if a Write comes first or there is none.
  ghost function FirstNonzero(acts: seq<Act>): int {
    if acts == [] || acts[0].WriteAct? then 200
    else if acts[0].StatusAct? && acts[0].status != 0 then acts[0].status
    else FirstNonzero(acts[1..])
  }

  lemma {:induction false} NonzeroStatus(acts: seq<Act>)
    ensures FirstStatus(acts) != Some(0) ==> FirstNonzero(acts) == FirstStatus(acts).GetOr(200)
  {
    if acts != [] && !acts[0].WriteAct? && !acts[0].StatusAct? {
      NonzeroStatus(acts[1..]);
    }
  }

  ghost function HeaderSets(acts: seq<Act>): Headers {
    if acts == [] then map[]
    else
      var front, last := HeaderSets(acts[..|acts| - 1]), acts[|acts| - 1];
      if last.HeaderAct? then front[last.key := last.values]
      else if last.DeleteAct? then front - {last.key}
      else front
  }

  // The amount that settles: the last charge, never above the ceiling.
  ghost function SettleAmount(max: u64, acts: seq<Act>): u64 {
    match LastCharge(acts)
    case None => 0
    case Some(n) => Clamp(n, max)
  }

  ghost predicate Untouched(v: View, max: u64, verified: bool, dst: Headers) {
    && v.max == max && v.verified == verified && v.dst == dst
    && !v.settled && !v.flushed && v.settlement == None && v.settleErr == None
    && v.settleCalls == [] && v.releases == 0 && v.downstream == []
    && v.paidTransaction == "" && v.paidHeaders == map[]
  }

  lemma {:induction false} FirstStatusSnoc(acts: seq<Act>)
    requires acts != []
    ensures var front, last := acts[..|acts| - 1], acts[|acts| - 1];
      FirstStatus(acts) ==
        if FirstStatus(front).Some? then FirstStatus(front)
        else if last.StatusAct? then Some(last.status)
        else if last.WriteAct? then Some(200) else None
  {
    if |acts| > 1 {
      assert acts[1..][..|acts| - 2] == acts[..|acts| - 1][1..];
      FirstStatusSnoc(acts[1..]);
    }
  }

  // The writer holds what the acts amount to.
  ghost predicate Holds(v: View, acts: seq<Act>) {
    && v.amount == SettleAmount(v.max, acts) && v.charged == LastCharge(acts).Some?
    && v.body == Written(acts) && v.header == HeaderSets(acts)
    && v.wrote == FirstStatus(acts).Some? && v.status == FirstStatus(acts).GetOr(0)
  }

  lemma OneActHeld(v: View, acts: seq<Act>)
    requires acts != [] && Holds(v, acts[..|acts| - 1])
    ensures Holds(DoAct(v, acts[|acts| - 1]), acts)
  {
    hide FirstStatus, LastCharge, Written, HeaderSets, DoAct;
    FirstStatusSnoc(acts);
    LastActCounts(acts);
    FieldsAfter(v, acts[|acts| - 1]);
    assert Written(acts[..|acts| - 1]) + [] == Written(acts[..|acts| - 1]);
  }

  lemma FieldsAfter(v: View, a: Act)
    ensures var w, heads := DoAct(v, a), !v.wrote && (a.StatusAct? || a.WriteAct?);
      && w.max == v.max
      && w.amount == (if a.ChargeAct? then Clamp(a.baseUnits, v.max) else v.amount)
      && w.charged == (v.charged || a.ChargeAct?)
      && w.body == v.body + (if a.WriteAct? then a.bs else [])
      && w.header == (
        if a.HeaderAct? then v.header[a.key := a.values] else if a.DeleteAct? then v.header - {a.key} else v.header)
      && w.wrote == (v.wrote || heads)
      && w.status == (if !heads then v.status else if a.StatusAct? then a.status else 200)
  {
    assert v.body + [] == v.body;
  }

  lemma LastActCounts(acts: seq<Act>)
    requires acts != []
    ensures var front, last := acts[..|acts| - 1], acts[|acts| - 1];
      && LastCharge(acts) == (if last.ChargeAct? then Some(last.baseUnits) else LastCharge(front))
      && Written(acts) == Written(front) + (if last.WriteAct? then last.bs else [])
      && HeaderSets(acts) == (
        if last.HeaderAct? then HeaderSets(front)[last.key := last.values]
        else if last.DeleteAct? then HeaderSets(front) - {last.key}
        else HeaderSets(front))
  {
  }

  // Nothing reaches the adapter or the client while the handler runs; its acts
  // only fill the buffers.
  lemma {:induction false} ActsOnlyBuffer(max: u64, verified: bool, dst: Headers, acts: seq<Act>)
    ensures var v := DoActs(Fresh(max, verified, dst), acts);
      && Untouched(v, max, verified, dst)
      && v.amount == SettleAmount(max, acts) && v.charged == LastCharge(acts).Some?
      && v.body == Written(acts) && v.header == HeaderSets(acts)
      && v.wrote == FirstStatus(acts).Some? && v.status == FirstStatus(acts).GetOr(0)
  {
    if acts != [] {
      hide FirstStatus, SettleAmount, LastCharge, Written, HeaderSets;
      var front := acts[..|acts| - 1];
      ActsOnlyBuffer(max, verified, dst, front);
      OneActHeld(DoActs(Fresh(max, verified, dst), front), acts);
    }
  }

  // Later finalisations change nothing that anyone can see.
  ghost predicate SameOutcome(v: View, w: View) {
    && v.settleCalls == w.settleCalls && v.releases == w.releases && v.downstream == w.downstream
    && v.settled == w.settled && v.flushed == w.flushed && v.settleErr == w.settleErr && v.settlement == w.settlement
    && v.paidTransaction == w.paidTransaction && v.paidHeaders == w.paidHeaders && v.dst == w.dst
  }

  // What settling does: one call to the adapter, one release, no output.
  lemma SettledEffect(v: View, answer: Answer)
    requires !v.settled && (!v.charged ==> v.amount == 0)
    ensures var w := SettledOnce(v, answer);
      && w.settled && w.flushed == v.flushed && w.downstream == v.downstream && w.dst == v.dst
      && w.body == v.body && w.header == v.header && w.status == v.status
      && w.settleCalls == v.settleCalls + [v.amount]
      && w.releases == v.releases + (if v.verified then 1 else 0)
  {
    hide WithPayment, ZeroError;
    if answer.Settled? {
      PaymentOnly(v, v.amount, answer.settlement);
    }
  }

  // The state a settlement leaves before its result is recorded.
  function Calling(v: View, actual: u64): View {
    v.(settled := true, settleCalls := v.settleCalls + [actual], releases := v.releases + (if v.verified then 1 else 0))
  }

  lemma PaymentOnly(v: View, actual: u64, result: Option<Settlement>)
    ensures var w := WithPayment(Calling(v, actual).(settlement := result), result);
      && w.settled && w.flushed == v.flushed && w.downstream == v.downstream && w.dst == v.dst
      && w.body == v.body && w.header == v.header && w.status == v.status
      && w.settleCalls == v.settleCalls + [actual]
      && w.releases == v.releases + (if v.verified then 1 else 0)
      && w.settlement == result && w.settleErr == v.settleErr
  {
  }

  lemma SettledResult(v: View, answer: Answer)
    requires !v.settled && v.settleErr == None && v.settlement == None && (!v.charged ==> v.amount == 0)
    ensures var w := SettledOnce(v, answer);
      && (w.settleErr == None <==> v.amount > 0 && answer.Settled?)
      && w.settlement == (if v.amount > 0 && answer.Settled? then answer.settlement else None)
      && (w.settleErr.Some? ==> w.paidTransaction == v.paidTransaction && w.paidHeaders == v.paidHeaders)
  {
    hide WithPayment, ZeroError;
    if answer.Settled? {
      PaymentOnly(v, v.amount, answer.settlement);
    }
  }

  lemma FinalizedOnce(v: View, answer: Answer, sniff: Sniffer)
    requires !v.settled && !v.flushed && (!v.charged ==> v.amount == 0)
    ensures Finalized(v, answer, sniff).settled && Finalized(v, answer, sniff).flushed
  {
    hide FlushedHeaders, Overlay, SettledOnce;
    SettledEffect(v, answer);
  }

  lemma FinalizedAgain(v: View, answer: Answer, sniff: Sniffer)
    requires v.settled && v.flushed
    ensures SameOutcome(Finalized(v, answer, sniff), v)
  {
    hide FlushedHeaders, Overlay;
  }

  lemma {:induction false} OnlyFirstAnswerCounts(v: View, answers: seq<Answer>, sniff: Sniffer)
    requires answers != [] && !v.settled && !v.flushed && (!v.charged ==> v.amount == 0)
    ensures SameOutcome(FinalizedAll(v, answers, sniff), Finalized(v, answers[0], sniff))
    ensures Finalized(v, answers[0], sniff).settled && Finalized(v, answers[0], sniff).flushed
  {
    hide Finalized;
    var n := |answers| - 1;
    FinalizedOnce(v, answers[0], sniff);
    if n == 0 {
      assert answers[..0] == [];
    } else {
      OnlyFirstAnswerCounts(v, answers[..n], sniff);
      FinalizedAgain(FinalizedAll(v, answers[..n], sniff), answers[n], sniff);
    }
  }

  ghost predicate Succeeds(max: u64, acts: seq<Act>, answer: Answer) {
    SettleAmount(max, acts) > 0 && answer.Settled?
  }

  // The first finalisation, from the buffers a handler left.
  lemma FinalizedEffect(v: View, answer: Answer, sniff: Sniffer)
    requires Untouched(v, v.max, v.verified, v.dst) && (!v.charged ==> v.amount == 0)
    ensures var w := Finalized(v, answer, sniff);
      && w.settleCalls == [v.amount] && w.releases == (if v.verified then 1 else 0)
      && (v.amount > 0 && answer.Settled? <==> w.settleErr == None)
      && (w.settleErr.Some? ==> w.downstream == [ErrorResponse(w.settleErr.value)] && w.dst == v.dst
                                && w.paidTransaction == "" && w.paidHeaders == map[])
  {
    hide Flushed, Overlay, SettledOnce;
    SettledEffect(v, answer);
    SettledResult(v, answer);
    var w := SettledOnce(v, answer);
    FlushedKeeps(if w.settlement.Some? then w.(header := Overlay(w.header, w.settlement.value.headers)) else w, sniff);
  }

  lemma FlushedKeeps(v: View, sniff: Sniffer)
    ensures var w := Flushed(v, sniff);
      w.settleCalls == v.settleCalls && w.releases == v.releases && w.settleErr == v.settleErr
      && w.paidTransaction == v.paidTransaction && w.paidHeaders == v.paidHeaders
  {
    hide FlushedHeaders;
  }

  // For every handler and any number of finalisations: one settlement, of the
  // last charge clamped to the ceiling or of zero; one release of the verified
  // open; and one response. Unless a positive settlement succeeded that
  // response is the error, and nothing the handler wrote is sent.
  lemma SettlesOnceFailsClosed(
    max: u64, verified: bool, dst: Headers, acts: seq<Act>, answers: seq<Answer>, sniff: Sniffer)
    requires answers != []
    ensures var v := FinalizedAll(DoActs(Fresh(max, verified, dst), acts), answers, sniff);
      && v.settleCalls == [SettleAmount(max, acts)]
      && SettleAmount(max, acts) <= max
      && v.releases == (if verified then 1 else 0)
      && (Succeeds(max, acts, answers[0]) <==> v.settleErr == None)
      && (!Succeeds(max, acts, answers[0]) ==>
            |v.downstream| == 1 && v.downstream[0].ErrorResponse? && v.dst == dst
            && v.paidTransaction == "" && v.paidHeaders == map[])
  {
    ActsOnlyBuffer(max, verified, dst, acts);
    OnlyFirstAnswerCounts(DoActs(Fresh(max, verified, dst), acts), answers, sniff);
    FinalizedEffect(DoActs(Fresh(max, verified, dst), acts), answers[0], sniff);
    hide DoActs, FinalizedAll, Finalized, LastCharge, Written, FirstStatus, HeaderSets;
  }

  // The error a settlement ends in, by the last charge and the answer.
  ghost function ErrorOf(max: u64, acts: seq<Act>, answer: Answer): Option<SettleError> {
    match (LastCharge(acts), answer)
    case (None, Settled(_)) => Some(NotCharged)
    case (None, Rejected(e)) => Some(NotChargedAndZeroFailed(e))
    case (Some(n), Settled(_)) => if n == 0 || max == 0 then Some(ChargedZero) else None
    case (Some(n), Rejected(e)) => Some(if n == 0 || max == 0 then ChargedZeroAndZeroFailed(e) else AdapterFailed(e))
  }

  // The amount settled is the last charge or, if that is more, the ceiling; the
  // error says what went wrong; and the payment records the settlement's own
  // transaction and headers, or nothing if there is no settlement.
  lemma SettlementRecorded(
    max: u64, verified: bool, dst: Headers, acts: seq<Act>, answers: seq<Answer>, sniff: Sniffer)
    requires answers != []
    ensures var v := FinalizedAll(DoActs(Fresh(max, verified, dst), acts), answers, sniff);
      var charged, result := LastCharge(acts).GetOr(0), if answers[0].Settled? then answers[0].settlement else None;
      && |v.settleCalls| == 1 && (charged <= max ==> v.settleCalls[0] == charged) && (charged > max ==> v.settleCalls[0] == max)
      && v.settleErr == ErrorOf(max, acts, answers[0])
      && (v.settleErr.Some? ==> v.downstream == [ErrorResponse(v.settleErr.value)])
      && (v.settleErr == None && result.Some? ==>
            v.paidTransaction == result.value.transaction && v.paidHeaders == result.value.headers)
      && (v.settleErr.Some? || result.None? ==> v.paidTransaction == "" && v.paidHeaders == map[])
  {
    var v := DoActs(Fresh(max, verified, dst), acts);
    ActsOnlyBuffer(max, verified, dst, acts);
    OnlyFirstAnswerCounts(v, answers, sniff);
    FinalizedEffect(v, answers[0], sniff);
    hide DoActs, FinalizedAll, LastCharge, Written, FirstStatus, HeaderSets;
    RecordedOnce(v, answers[0], sniff);
  }

  lemma RecordedOnce(v: View, answer: Answer, sniff: Sniffer)
    requires Untouched(v, v.max, v.verified, v.dst) && (!v.charged ==> v.amount == 0)
    ensures var w, result := Finalized(v, answer, sniff), if answer.Settled? then answer.settlement else None;
      && (w.settleErr == if v.amount == 0
            then Some(match answer
              case Settled(_) => if v.charged then ChargedZero else NotCharged
              case Rejected(e) => if v.charged then ChargedZeroAndZeroFailed(e) else NotChargedAndZeroFailed(e))
            else if answer.Rejected? then Some(AdapterFailed(answer.error)) else None)
      && (w.settleErr == None ==> w.paidTransaction == (if result.Some? then result.value.transaction else ""))
      && (w.settleErr == None ==> w.paidHeaders == (if result.Some? then result.value.headers else map[]))
  {
    FinalizedKeeps(v, answer, sniff);
    SettledError(v, answer);
    SettledPayment(v, answer);
    hide Finalized, SettledOnce;
  }

  lemma FinalizedKeeps(v: View, answer: Answer, sniff: Sniffer)
    ensures var w, u := Finalized(v, answer, sniff), SettledOnce(v, answer);
      w.settleErr == u.settleErr && w.paidTransaction == u.paidTransaction && w.paidHeaders == u.paidHeaders
  {
    hide Flushed, Overlay, SettledOnce;
    var w := SettledOnce(v, answer);
    FlushedKeeps(if w.settlement.Some? then w.(header := Overlay(w.header, w.settlement.value.headers)) else w, sniff);
  }

  lemma SettledError(v: View, answer: Answer)
    requires Untouched(v, v.max, v.verified, v.dst) && (!v.charged ==> v.amount == 0)
    ensures SettledOnce(v, answer).settleErr == if v.amount == 0
      then Some(match answer
        case Settled(_) => if v.charged then ChargedZero else NotCharged
        case Rejected(e) => if v.charged then ChargedZeroAndZeroFailed(e) else NotChargedAndZeroFailed(e))
      else if answer.Rejected? then Some(AdapterFailed(answer.error)) else None
  {
  }

  lemma SettledPayment(v: View, answer: Answer)
    requires Untouched(v, v.max, v.verified, v.dst) && (!v.charged ==> v.amount == 0)
    ensures var w, result := SettledOnce(v, answer), if answer.Settled? then answer.settlement else None;
      && (w.settleErr == None ==> w.paidTransaction == (if result.Some? then result.value.transaction else ""))
      && (w.settleErr == None ==> w.paidHeaders == (if result.Some? then result.value.headers else map[]))
  {
    hide ZeroError;
  }

  // A successful first finalisation sends the buffers, once.
  lemma FlushedEffect(v: View, answer: Answer, sniff: Sniffer)
    requires Untouched(v, v.max, v.verified, v.dst) && v.charged && v.amount > 0 && answer.Settled?
    ensures var w := Finalized(v, answer, sniff);
      var extra := if answer.settlement.Some? then answer.settlement.value.headers else map[];
      var head := Head(if v.status == 0 then 200 else v.status, w.dst);
      && w.downstream == (if v.body == [] then [head] else [head, Body(v.body)])
      && w.dst == FlushedHeaders(v.(header := Overlay(v.header, extra)), sniff)
  {
    hide FlushedHeaders, SettledOnce, Overlay;
    SettledEffect(v, answer);
    SettledResult(v, answer);
    OverlayNothing(v.header);
    var w := SettledOnce(v, answer);
    var extra := if answer.settlement.Some? then answer.settlement.value.headers else map[];
    SameFlushedHeaders(w.(header := Overlay(v.header, extra)), v.(header := Overlay(v.header, extra)), sniff);
    assert answer.settlement.None? ==> w.(header := Overlay(v.header, extra)) == w;
  }

  lemma OverlayNothing(h: Headers)
    ensures Overlay(h, map[]) == h
  {
  }

  lemma SameFlushedHeaders(v: View, w: View, sniff: Sniffer)
    requires v.dst == w.dst && v.header == w.header && v.body == w.body
    ensures FlushedHeaders(v, sniff) == FlushedHeaders(w, sniff)
  {
  }

  function Lookup(h: Headers, key: string): Option<seq<string>> {
    if key in h then Some(h[key]) else None
  }

  // What a response says of one header: the settlement's value if it has one,
  // else what the handler set, where no values remove it, else the connection's.
  function Chosen(dst: Headers, sets: Headers, extra: map<string, string>, key: string): Option<seq<string>> {
    if key in extra then Some([extra[key]])
    else if key in sets then (if sets[key] == [] then None else Some(sets[key]))
    else Lookup(dst, key)
  }

  // A chosen content type that is empty gives way to the sniffed one.
  function SentHeader(
    dst: Headers, sets: Headers, extra: map<string, string>, body: bytes, sniff: Sniffer, key: string): Option<seq<string>>
  {
    var chosen := Chosen(dst, sets, extra, key);
    var untyped := chosen.None? || chosen.value == [] || chosen.value[0] == "";
    if key == CONTENT_TYPE && body != [] && untyped then Some([sniff(body)]) else chosen
  }

  lemma SentHeadersMean(dst: Headers, sets: Headers, extra: map<string, string>, body: bytes, sniff: Sniffer, key: string)
    ensures Lookup(SentHeaders(dst, Overlay(sets, extra), body, sniff), key) == SentHeader(dst, sets, extra, body, sniff, key)
  {
    hide Merge, Overlay;
    MergeChooses(dst, sets, extra, key);
    MergeChooses(dst, sets, extra, CONTENT_TYPE);
  }

  lemma MergeChooses(dst: Headers, sets: Headers, extra: map<string, string>, key: string)
    ensures Lookup(Merge(dst, Overlay(sets, extra)), key) == Chosen(dst, sets, extra, key)
  {
  }

  function ExtraHeaders(answer: Answer): map<string, string> {
    if answer.Settled? && answer.settlement.Some? then answer.settlement.value.headers else map[]
  }

  // On success the client gets the buffers: the first status, with 200 for a
  // first status of 0, all the bytes in order, and every header as the
  // settlement, the handler and the connection have it, in this order.
  lemma BufferedResponse(
    max: u64, verified: bool, dst: Headers, acts: seq<Act>, answers: seq<Answer>, sniff: Sniffer)
    requires answers != [] && Succeeds(max, acts, answers[0])
    ensures var v := FinalizedAll(DoActs(Fresh(max, verified, dst), acts), answers, sniff);
      var first := FirstStatus(acts).GetOr(200);
      var head := Head(if first == 0 then 200 else first, v.dst);
      && v.downstream == (if Written(acts) == [] then [head] else [head, Body(Written(acts))])
      && v.dst == SentHeaders(dst, Overlay(HeaderSets(acts), ExtraHeaders(answers[0])), Written(acts), sniff)
      && (forall key :: Lookup(v.dst, key)
            == SentHeader(dst, HeaderSets(acts), ExtraHeaders(answers[0]), Written(acts), sniff, key))
  {
    ActsOnlyBuffer(max, verified, dst, acts);
    OnlyFirstAnswerCounts(DoActs(Fresh(max, verified, dst), acts), answers, sniff);
    var v := DoActs(Fresh(max, verified, dst), acts);
    FlushedEffect(v, answers[0], sniff);
    hide DoActs, FinalizedAll, Finalized, SentHeaders, SentHeader, Overlay, LastCharge, Written, FirstStatus, HeaderSets;
    forall key
      ensures Lookup(SentHeaders(dst, Overlay(v.header, ExtraHeaders(answers[0])), v.body, sniff), key)
        == SentHeader(dst, v.header, ExtraHeaders(answers[0]), v.body, sniff, key)
    {
      SentHeadersMean(dst, v.header, ExtraHeaders(answers[0]), v.body, sniff, key);
    }
  }

  // The status the client gets is the first one other than zero, unless a zero
  // was written first and a later status was not 200.
  lemma FirstNonzeroIsSent(
    max: u64, verified: bool, dst: Headers, acts: seq<Act>, answers: seq<Answer>, sniff: Sniffer)
    requires answers != [] && Succeeds(max, acts, answers[0])
    ensures var v := FinalizedAll(DoActs(Fresh(max, verified, dst), acts), answers, sniff);
      && v.downstream != [] && v.downstream[0].Head?
      && (v.downstream[0].status == FirstNonzero(acts) <==> FirstStatus(acts) != Some(0) || FirstNonzero(acts) == 200)
  {
    hide DoActs, FinalizedAll, SentHeaders, SentHeader, Succeeds, Written, HeaderSets, Overlay;
    BufferedResponse(max, verified, dst, acts, answers, sniff);
    NonzeroStatus(acts);
  }

  // Status 0 and then 404: the client gets 200.
  lemma ZeroHidesNotFound(max: u64, sniff: Sniffer)
    requires max > 0
    ensures var acts := [ChargeAct(1), StatusAct(0), StatusAct(404)];
      var v := FinalizedAll(DoActs(Fresh(max, false, map[]), acts), [Settled(None)], sniff);
      FirstNonzero(acts) == 404 && v.downstream != [] && v.downstream[0].Head? && v.downstream[0].status == 200
  {
    var acts := [ChargeAct(1), StatusAct(0), StatusAct(404)];
    assert acts[1..] == [StatusAct(0), StatusAct(404)] && acts[1..][1..] == [StatusAct(404)];
    assert acts[..2] == [ChargeAct(1), StatusAct(0)] && acts[..2][..1] == [ChargeAct(1)];
    assert acts[..1] == [ChargeAct(1)] && LastCharge([ChargeAct(1)]) == Some(1);
    assert LastCharge(acts[..2]) == Some(1) && LastCharge(acts) == Some(1);
    hide DoActs, FinalizedAll, SentHeaders, SentHeader, Overlay, HeaderSets, Written, LastCharge;
    BufferedResponse(max, false, map[], acts, [Settled(None)], sniff);
  }

  // ---- the same handler without a buffer ----

  // Acts in front of the first WriteHeader or Write, where the head goes out.
  ghost function BeforeHead(acts: seq<Act>): seq<Act> {
    if acts == [] || acts[0].StatusAct? || acts[0].WriteAct? then [] else [acts[0]] + BeforeHead(acts[1..])
  }

  // What a handler that writes straight through sends: its first status as it
  // is, the headers it set before the head went out, and its bytes.
  ghost function Direct(dst: Headers, acts: seq<Act>, sniff: Sniffer): seq<Downstream> {
    [Head(FirstStatus(acts).GetOr(200), SentHeaders(dst, HeaderSets(BeforeHead(acts)), Written(acts), sniff))]
    + if Written(acts) == [] then [] else [Body(Written(acts))]
  }

  // Headers set or deleted once the head is out.
  ghost function LateKeys(acts: seq<Act>): set<string> {
    set i | |BeforeHead(acts)| <= i < |acts| && SetsHeader(acts[i]) :: acts[i].key
  }

  predicate SetsHeader(a: Act) {
    a.HeaderAct? || a.DeleteAct?
  }

  lemma {:induction false} BeforeHeadPrefix(acts: seq<Act>)
    ensures BeforeHead(acts) <= acts
  {
    if acts != [] && !acts[0].StatusAct? && !acts[0].WriteAct? {
      BeforeHeadPrefix(acts[1..]);
    }
  }

  // A key that no act from n on sets has the value it had before.
  lemma {:induction false} UnsetKeeps(acts: seq<Act>, n: nat, key: string)
    requires n <= |acts| && forall i | n <= i < |acts| && SetsHeader(acts[i]) :: acts[i].key != key
    ensures Lookup(HeaderSets(acts), key) == Lookup(HeaderSets(acts[..n]), key)
  {
    if n < |acts| {
      var front := acts[..|acts| - 1];
      UnsetKeeps(front, n, key);
      assert front[..n] == acts[..n];
    } else {
      assert acts[..n] == acts;
    }
  }

  lemma EarlyHeaderSame(dst: Headers, acts: seq<Act>, sniff: Sniffer, key: string)
    requires key !in LateKeys(acts)
    ensures SentHeader(dst, HeaderSets(acts), map[], Written(acts), sniff, key)
      == SentHeader(dst, HeaderSets(BeforeHead(acts)), map[], Written(acts), sniff, key)
  {
    hide HeaderSets, Written;
    BeforeHeadPrefix(acts);
    var n := |BeforeHead(acts)|;
    assert acts[..n] == BeforeHead(acts);
    forall i | n <= i < |acts| && SetsHeader(acts[i]) ensures acts[i].key != key {
      assert acts[i].key in LateKeys(acts);
    }
    UnsetKeeps(acts, n, key);
  }

  lemma SameHeaders(a: Headers, b: Headers)
    ensures a == b <==> forall key :: Lookup(a, key) == Lookup(b, key)
  {
    if forall key :: Lookup(a, key) == Lookup(b, key) {
      forall key
        ensures key in a <==> key in b
        ensures key in a ==> a[key] == b[key]
      {
        assert Lookup(a, key) == Lookup(b, key);
      }
    }
  }

  // With a settlement that adds no headers, the client gets exactly what the
  // handler would have sent directly if and only if its first status is not
  // zero and every header set after the head ends as it was before: the buffer
  // sends such headers, a direct writer no longer can.
  lemma BufferingAgreesWithDirect(
    max: u64, verified: bool, dst: Headers, acts: seq<Act>, answers: seq<Answer>, sniff: Sniffer)
    requires answers != [] && Succeeds(max, acts, answers[0]) && ExtraHeaders(answers[0]) == map[]
    ensures var v := FinalizedAll(DoActs(Fresh(max, verified, dst), acts), answers, sniff);
      var sent, early := HeaderSets(acts), HeaderSets(BeforeHead(acts));
      var late := forall key | key in LateKeys(acts) ::
        SentHeader(dst, sent, map[], Written(acts), sniff, key) == SentHeader(dst, early, map[], Written(acts), sniff, key);
      v.downstream == Direct(dst, acts, sniff) <==> FirstStatus(acts) != Some(0) && late
  {
    hide DoActs, FinalizedAll, Succeeds, HeaderSets, LateKeys, SentHeaders, SentHeader, Lookup, Overlay, BeforeHead;
    BufferedResponse(max, verified, dst, acts, answers, sniff);
    var v := FinalizedAll(DoActs(Fresh(max, verified, dst), acts), answers, sniff);
    var direct := SentHeaders(dst, HeaderSets(BeforeHead(acts)), Written(acts), sniff);
    SameHeaders(v.dst, direct);
    OverlayNothing(HeaderSets(BeforeHead(acts)));
    forall key
      ensures Lookup(direct, key) == SentHeader(dst, HeaderSets(BeforeHead(acts)), map[], Written(acts), sniff, key)
      ensures key !in LateKeys(acts) ==> Lookup(v.dst, key) == Lookup(direct, key)
    {
      SentHeadersMean(dst, HeaderSets(BeforeHead(acts)), map[], Written(acts), sniff, key);
      if key !in LateKeys(acts) {
        EarlyHeaderSame(dst, acts, sniff, key);
      }
    }
  }

  // The low 64 bits of a price never exceed it.
  lemma CeilingWithinPrice(t: Terms)
    requires t.amount.amount >= 0.0 && t.feeOnTop == map[]
    ensures BaseUnits(TotalAmount(t)) as real <= t.amount.amount * 1000000.0
  {
    assert TotalAmount(t) == t.amount.amount;
    var units := t.amount.amount * 1000000.0;
    assert units.Floor as real <= units;
    assert units.Floor % TWO_64 <= units.Floor;
  }

  lemma UsageGateHasNoFees(t: Terms, accept: seq<Protocol>)
    requires FirstProblem(t, accept, GATE_USAGE) == None
    ensures t.feeOnTop == map[]
  {
  }

  // What a usage gate settles never exceeds its price, in base units, whatever
  // the price.
  lemma SettledWithinPrice(
    t: Terms, accept: seq<Protocol>, verified: bool, dst: Headers,
    acts: seq<Act>, answers: seq<Answer>, sniff: Sniffer)
    requires FirstProblem(t, accept, GATE_USAGE) == None && answers != []
    requires t.amount.amount >= 0.0
    ensures var v := FinalizedAll(DoActs(Fresh(BaseUnits(TotalAmount(t)), verified, dst), acts), answers, sniff);
      |v.settleCalls| == 1 && v.settleCalls[0] as real <= t.amount.amount * 1000000.0
  {
    hide DoActs, FinalizedAll, FirstProblem, BaseUnits, TotalAmount, SettleAmount;
    UsageGateHasNoFees(t, accept);
    CeilingWithinPrice(t);
    SettlesOnceFailsClosed(BaseUnits(TotalAmount(t)), verified, dst, acts, answers, sniff);
  }

  // ---- the objects themselves ----

  class Charge {
    const maxBaseUnits: u64
    var amount: u64
    var charged: bool

    constructor (maxBaseUnits: u64)
      ensures this.maxBaseUnits == maxBaseUnits && amount == 0 && !charged
    {
      this.maxBaseUnits, amount, charged := maxBaseUnits, 0, false;
    }

    method Record(baseUnits: u64)
      modifies this
      ensures amount == Clamp(baseUnits, maxBaseUnits) && charged
    {
      amount := baseUnits;
      if amount > maxBaseUnits {
        amount := maxBaseUnits;
      }
      charged := true;
    }
  }

  class UsageWriter {
    const meter: Charge
    const verified: bool
    const sniff: Sniffer
    var header: Headers
    var body: bytes
    var status: int
    var settled: bool
    var settlement: Option<Settlement>
    var settleErr: Option<SettleError>
    var wrote: bool
    var flushed: bool
    var paidTransaction: string
    var paidHeaders: map<string, string>
    var dst: Headers
    // What the adapter, the verified open and the client have seen.
    var settleCalls: seq<u64>
    var releases: nat
    var downstream: seq<Downstream>

    ghost function State(): View
      reads this, meter
    {
      View(meter.maxBaseUnits, meter.amount, meter.charged, header, body, status, wrote,
                settled, settlement, settleErr, flushed, paidTransaction, paidHeaders,
                verified, dst, settleCalls, releases, downstream)
    }

    // NewCharge and the writer literal in RequireUsageFunc.
    constructor (max: u64, verified: bool, dst: Headers, sniff: Sniffer)
      ensures State() == Fresh(max, verified, dst) && this.sniff == sniff && fresh(meter)
    {
      meter := new Charge(max);
      this.verified, this.sniff, this.dst := verified, sniff, dst;
      header, body, status, wrote, flushed := map[], [], 0, false, false;
      settled, settlement, settleErr := false, None, None;
      paidTransaction, paidHeaders := "", map[];
      settleCalls, releases, downstream := [], 0, [];
    }

    method ChargeUnits(baseUnits: u64)
      modifies meter
      ensures State() == DoAct(old(State()), ChargeAct(baseUnits))
    {
      meter.Record(baseUnits);
    }

    method SetHeader(key: string, values: seq<string>)
      modifies this
      ensures State() == DoAct(old(State()), HeaderAct(key, values))
    {
      header := header[key := values];
    }

    method DeleteHeader(key: string)
      modifies this
      ensures State() == DoAct(old(State()), DeleteAct(key))
    {
      header := header - {key};
    }

    method WriteHeader(status: int)
      modifies this
      ensures State() == DoAct(old(State()), StatusAct(status))
    {
      if wrote {
        return;
      }
      this.status := status;
      wrote := true;
    }

    method Write(p: bytes)
      modifies this
      ensures State() == DoAct(old(State()), WriteAct(p))
    {
      if !wrote {
        status := 200;
        wrote := true;
      }
      body := body + p;
    }

    // The handler, act by act.
    method Serve(acts: seq<Act>)
      modifies this, meter
      ensures State() == DoActs(old(State()), acts)
    {
      hide DoAct;
      for i := 0 to |acts|
        invariant State() == DoActs(old(State()), acts[..i])
      {
        assert acts[..i + 1][..i] == acts[..i];
        match acts[i]
        case ChargeAct(n) => ChargeUnits(n);
        case HeaderAct(key, values) => SetHeader(key, values);
        case DeleteAct(key) => DeleteHeader(key);
        case StatusAct(status) => WriteHeader(status);
        case WriteAct(bs) => Write(bs);
      }
      assert acts[..|acts|] == acts;
    }

    method SettleActual(actual: u64, answer: Answer) returns (r: Answer)
      modifies this`settleCalls
      ensures settleCalls == old(settleCalls) + [actual] && r == answer
    {
      settleCalls := settleCalls + [actual];
      r := answer;
    }

    method SettleZeroAndFailClosed(charged: bool, answer: Answer)
      modifies this`settleCalls, this`settleErr
      ensures settleCalls == old(settleCalls) + [0] && settleErr == Some(ZeroError(charged, answer))
    {
      var r := SettleActual(0, answer);
      if r.Rejected? {
        settleErr := Some(if charged then ChargedZeroAndZeroFailed(r.error) else NotChargedAndZeroFailed(r.error));
      } else {
        settleErr := Some(if charged then ChargedZero else NotCharged);
      }
    }

    method Settle(answer: Answer)
      modifies this
      ensures State() == SettledOnce(old(State()), answer)
    {
      hide ZeroError, WithPayment;
      if settled {
        return;
      }
      settled := true;
      if verified {
        releases := releases + 1;
      }
      if !meter.charged || meter.amount == 0 {
        SettleZeroAndFailClosed(meter.charged, answer);
        return;
      }
      SettleCharge(answer);
    }

    // The positive settlement.
    method SettleCharge(answer: Answer)
      modifies this`settleCalls, this`settleErr, this`settlement, this`paidTransaction, this`paidHeaders
      ensures var w := old(State()).(settleCalls := old(settleCalls) + [meter.amount]);
        match answer
        case Rejected(e) => State() == w.(settleErr := Some(AdapterFailed(e)))
        case Settled(result) => State() == WithPayment(w.(settlement := result), result)
    {
      hide WithPayment;
      var result := SettleActual(meter.amount, answer);
      RecordResult(result);
    }

    // The tail of settle: keep the error, or the settlement and its payment.
    method RecordResult(result: Answer)
      modifies this`settleErr, this`settlement, this`paidTransaction, this`paidHeaders
      ensures result.Rejected? ==> State() == old(State()).(settleErr := Some(AdapterFailed(result.error)))
      ensures result.Settled? ==> State() == WithPayment(old(State()).(settlement := result.settlement), result.settlement)
    {
      if result.Rejected? {
        settleErr := Some(AdapterFailed(result.error));
        return;
      }
      settlement := result.settlement;
      if settlement.Some? {
        RecordPayment(settlement.value);
      }
    }

    method RecordPayment(result: Settlement)
      modifies this`paidTransaction, this`paidHeaders
      ensures paidTransaction == result.transaction
      ensures paidHeaders == old(paidHeaders) + result.headers
    {
      paidTransaction := result.transaction;
      var rest := result.headers.Keys;
      while rest != {}
        invariant rest <= result.headers.Keys && paidTransaction == result.transaction
        invariant paidHeaders == old(paidHeaders) + map key | key in result.headers && key !in rest :: result.headers[key]
        decreases |rest|
      {
        var key :| key in rest;
        paidHeaders := paidHeaders[key := result.headers[key]];
        rest := rest - {key};
      }
    }

    method FinalizeSettlement(answer: Answer)
      modifies this
      ensures State() == Finalized(old(State()), answer, sniff)
    {
      hide SettledOnce, Overlay, FlushedHeaders;
      ghost var w := SettledOnce(State(), answer);
      Settle(answer);
      assert State() == w;
      if settleErr.Some? {
        WriteSettlementError(settleErr.value);
        return;
      }
      if settlement.Some? {
        OverlayHeader(settlement.value.headers);
      }
      Flush();
    }

    method OverlayHeader(extra: map<string, string>)
      modifies this`header
      ensures header == Overlay(old(header), extra)
    {
      var rest := extra.Keys;
      OverlaidAll(header, extra);
      while rest != {}
        invariant rest <= extra.Keys && header == Overlaid(old(header), extra, rest)
        decreases |rest|
      {
        hide Overlaid;
        var key :| key in rest;
        OverlaidNext(old(header), extra, rest, key);
        header := header[key := [extra[key]]];
        rest := rest - {key};
      }
    }

    method WriteSettlementError(error: SettleError)
      modifies this
      ensures State() == if old(flushed) then old(State())
        else old(State()).(flushed := true, downstream := old(downstream) + [ErrorResponse(error)])
    {
      if flushed {
        return;
      }
      flushed := true;
      downstream := downstream + [ErrorResponse(error)];
    }

    method Flush()
      modifies this
      ensures State() == Flushed(old(State()), sniff)
    {
      if flushed {
        return;
      }
      flushed := true;
      MergeIntoDestination();
      if |body| > 0 && First(dst, CONTENT_TYPE) == "" {
        dst := dst[CONTENT_TYPE := [sniff(body)]];
      }
      var code := status;
      if code == 0 {
        code := 200;
      }
      downstream := downstream + [Head(code, dst)];
      if |body| > 0 {
        downstream := downstream + [Body(body)];
      }
    }

    method MergeIntoDestination()
      modifies this`dst
      ensures dst == Merge(old(dst), header)
    {
      var rest := header.Keys;
      MergedAll(dst, header);
      while rest != {}
        invariant rest <= header.Keys && dst == Merged(old(dst), header, rest)
        decreases |rest|
      {
        hide Merged;
        var key :| key in rest;
        MergedNext(old(dst), header, rest, key);
        dst := dst - {key};
        if header[key] != [] {
          dst := dst[key := header[key]];
        }
        rest := rest - {key};
      }
    }
  }

  // ---- the middleware ----

  // What a request meets on its way to the handler: whether its gate resolves,
  // an adapter is installed, a payment is detected, its open is accepted, and
  // whether the verified open is there to be released.
  datatype Request = Request(resolved: bool, adapter: bool, detected: bool, accepted: bool, lease: bool)

  datatype Refusal = GateResolutionFailed | InvalidGate | NotUsageGate | NoAdapter | NotDetected | OpenRejected

  // The first check that turns a request away.
  ghost function Refused(t: Terms, accept: seq<Protocol>, kind: string, q: Request): Option<Refusal> {
    var k := if kind == "" then GATE_USAGE else kind;
    if !q.resolved then Some(GateResolutionFailed)
    else if FirstProblem(t, accept, k).Some? then Some(InvalidGate)
    else if k != GATE_USAGE then Some(NotUsageGate)
    else if !q.adapter then Some(NoAdapter)
    else if !q.detected then Some(NotDetected)
    else if !q.accepted then Some(OpenRejected)
    else None
  }

  // What the adapter and the handler see of a request, in order.
  datatype Seen = Detect(found: bool) | VerifyOpen(accepted: bool) | Handle(act: Act) | Settle(actual: u64)

  // The calls in front of the handler, told by where the request ends.
  function Opening(refusal: Option<Refusal>): seq<Seen> {
    match refusal
    case None => [Detect(true), VerifyOpen(true)]
    case Some(NotDetected) => [Detect(false)]
    case Some(OpenRejected) => [Detect(true), VerifyOpen(false)]
    case Some(_) => []
  }

  function Handled(acts: seq<Act>): seq<Seen> {
    seq(|acts|, i requires 0 <= i < |acts| => Handle(acts[i]))
  }

  function Settles(calls: seq<u64>): seq<Seen> {
    seq(|calls|, i requires 0 <= i < |calls| => Settle(calls[i]))
  }

  function TraceOf(refusal: Option<Refusal>, acts: seq<Act>, calls: seq<u64>): seq<Seen> {
    Opening(refusal) + if refusal.Some? then [] else Handled(acts) + Settles(calls)
  }

  // RequireUsageFunc for one request. The handler's acts end where it returns
  // or panics; the deferred finalisation runs either way. A request that is
  // turned away gets no writer: no handler runs and nothing is settled.
  method RequireUsageFunc(gate: Gate, q: Request, acts: seq<Act>, answer: Answer, dst: Headers, sniff: Sniffer)
    returns (refusal: Option<Refusal>, writer: UsageWriter?, trace: seq<Seen>)
    modifies gate`kind
    ensures refusal == Refused(gate.View(), gate.accept, old(gate.kind), q)
    ensures writer == null <==> refusal.Some?
    ensures var served := Finalized(DoActs(Fresh(BaseUnits(TotalAmount(gate.View())), q.lease, dst), acts), answer, sniff);
      writer != null ==> writer.State() == served
    ensures trace == TraceOf(refusal, acts, if writer == null then [] else writer.settleCalls)
  {
    hide FirstProblem, BaseUnits, TotalAmount, Finalized, DoActs;
    writer := null;
    trace := [];
    if !q.resolved {
      return Some(GateResolutionFailed), null, [];
    }
    if gate.kind == "" {
      gate.kind := GATE_USAGE;
    }
    var problem := gate.Validate();
    if problem.Some? {
      return Some(InvalidGate), null, [];
    }
    if gate.kind != GATE_USAGE {
      return Some(NotUsageGate), null, [];
    }
    if !q.adapter {
      return Some(NoAdapter), null, [];
    }
    trace := trace + [Detect(q.detected)];
    if !q.detected {
      return Some(NotDetected), null, trace;
    }
    trace := trace + [VerifyOpen(q.accepted)];
    if !q.accepted {
      return Some(OpenRejected), null, trace;
    }
    var max := GateTotalBaseUnits(gate);
    writer := new UsageWriter(max, q.lease, dst, sniff);
    writer.Serve(acts);
    writer.FinalizeSettlement(answer);
    trace := trace + (Handled(acts) + Settles(writer.settleCalls));
    refusal := None;
  }

  // The terms of a usage gate that passes validation.
  predicate UsageTerms(t: Terms, accept: seq<Protocol>) {
    t.amount.currency != "" && t.feeWithin == map[] && t.feeOnTop == map[] && forall p | p in accept :: p == X402
  }

  // The terms of any other gate that does.
  ghost predicate OtherTerms(t: Terms, accept: seq<Protocol>) {
    && t.amount.currency != "" && Accepted(t.amount, t.feeWithin, t.feeOnTop)
    && !((t.feeWithin != map[] || t.feeOnTop != map[]) && X402 in accept)
  }

  // Which requests are served, and which check turns away each other one.
  lemma RefusedExactly(t: Terms, accept: seq<Protocol>, kind: string, q: Request)
    ensures var refusal, usage := Refused(t, accept, kind, q), kind == "" || kind == GATE_USAGE;
      var valid := if usage then UsageTerms(t, accept) else OtherTerms(t, accept);
      && (refusal == None <==> q.resolved && usage && valid && q.adapter && q.detected && q.accepted)
      && (refusal == Some(GateResolutionFailed) <==> !q.resolved)
      && (refusal == Some(InvalidGate) <==> q.resolved && !valid)
      && (refusal == Some(NotUsageGate) <==> q.resolved && !usage && valid)
      && (refusal == Some(NoAdapter) <==> q.resolved && usage && valid && !q.adapter)
      && (refusal == Some(NotDetected) <==> q.resolved && usage && valid && q.adapter && !q.detected)
      && (refusal == Some(OpenRejected) <==> q.resolved && usage && valid && q.adapter && q.detected && !q.accepted)
  {
    hide FirstProblem, Accepted;
    ValidatedExactly(t, accept, if kind == "" then GATE_USAGE else kind);
  }

  // Before every act of a handler and every settlement the adapter has accepted
  // the open, for every gate, request and handler.
  lemma NothingWithoutOpen(refusal: Option<Refusal>, acts: seq<Act>, calls: seq<u64>, i: nat)
    requires var trace := TraceOf(refusal, acts, calls); i < |trace| && (trace[i].Handle? || trace[i].Settle?)
    ensures exists j | 0 <= j < i :: TraceOf(refusal, acts, calls)[j] == VerifyOpen(true)
  {
    var trace := TraceOf(refusal, acts, calls);
    assert refusal == None && trace[1] == VerifyOpen(true);
  }

  // The calls a request shows tell how it ended.
  lemma TraceTells(refusal: Option<Refusal>, acts: seq<Act>, calls: seq<u64>)
    ensures var trace := TraceOf(refusal, acts, calls);
      && (Detect(false) in trace <==> refusal == Some(NotDetected))
      && (Detect(true) in trace <==> refusal in {None, Some(OpenRejected)})
      && (VerifyOpen(false) in trace <==> refusal == Some(OpenRejected))
      && (VerifyOpen(true) in trace <==> refusal == None)
      && (refusal == None ==>
            && |trace| == 2 + |acts| + |calls| && trace[0] == Detect(true)
            && (forall i | 0 <= i < |acts| :: trace[2 + i] == Handle(acts[i]))
            && (forall i | 0 <= i < |calls| :: trace[2 + |acts| + i] == Settle(calls[i])))
  {
    var opening, rest := Opening(refusal), Handled(acts) + Settles(calls);
    assert forall x | x in rest :: x.Handle? || x.Settle?;
    match refusal
    case None =>
      assert opening[0] == Detect(true) && opening[1] == VerifyOpen(true);
    case Some(NotDetected) =>
      assert opening[0] == Detect(false);
    case Some(OpenRejected) =>
      assert opening[0] == Detect(true) && opening[1] == VerifyOpen(false);
    case Some(_) =>
  }

  // A request that is served settles once and within the gate's price, and its
  // client gets the handler's response only if that settlement succeeded.
  lemma ServedRequestSettles(
    t: Terms, accept: seq<Protocol>, kind: string, q: Request, acts: seq<Act>, answer: Answer, dst: Headers, sniff: Sniffer)
    requires Refused(t, accept, kind, q) == None
    requires t.amount.amount >= 0.0
    ensures var max := BaseUnits(TotalAmount(t));
      var v := Finalized(DoActs(Fresh(max, q.lease, dst), acts), answer, sniff);
      && |v.settleCalls| == 1 && v.settleCalls[0] as real <= t.amount.amount * 1000000.0
      && v.releases == (if q.lease then 1 else 0)
      && (v.downstream != [] && v.downstream[0].Head? <==> Succeeds(max, acts, answer))
      && (!Succeeds(max, acts, answer) ==> |v.downstream| == 1 && v.downstream[0].ErrorResponse?)
  {
    hide DoActs, Finalized, FirstProblem, BaseUnits, TotalAmount, SettleAmount, Succeeds;
    var max := BaseUnits(TotalAmount(t));
    OneAnswer(DoActs(Fresh(max, q.lease, dst), acts), answer, sniff);
    SettledWithinPrice(t, accept, q.lease, dst, acts, [answer], sniff);
    SettlesOnceFailsClosed(max, q.lease, dst, acts, [answer], sniff);
    if Succeeds(max, acts, answer) {
      BufferedResponse(max, q.lease, dst, acts, [answer], sniff);
    }
  }

  lemma OneAnswer(v: View, answer: Answer, sniff: Sniffer)
    ensures FinalizedAll(v, [answer], sniff) == Finalized(v, answer, sniff)
  {
  }
}
