// The session server of go/protocols/mpp/server: open, vouchers, reserved
// deliveries, commits, top-ups and close over one record per channel.
module Session {
  import opened Common
  import opened Powers
  import Units

  type u64 = x: int | 0 <= x < TWO_64
  type i64 = x: int | -0x8000_0000_0000_0000 <= x < TWO_63

  const DEFAULT_EXPIRES_AT: i64 := 4_102_444_800

  // A signed voucher; its cumulative is what ParseUint makes of the text.
  datatype Voucher = Voucher(channelId: string, cumulative: Option<u64>, expiresAt: i64, signature: string)

  datatype Pending = Pending(id: string, amount: u64, sequence: u64, expiresAt: i64)

  datatype Committed = Committed(id: string, amount: u64, cumulative: u64, signature: string)

  datatype Channel = Channel(
    id: string,
    signer: string,
    deposit: u64,
    cumulative: u64,
    isSealed: bool,
    highestSignature: Option<string>,
    highestExpiresAt: Option<i64>,
    closeRequestedAt: Option<u64>,
    settled: Option<string>,
    sequence: u64,
    pending: seq<Pending>,
    committed: seq<Committed>)

  // The delegate is the operator when settlement is delegated; verifies is the
  // Ed25519 check of a voucher against a signer.
  datatype Config = Config(
    maxCap: u64, minDelta: u64, window: i64, delegate: Option<string>, verifies: (Voucher, string) -> bool)

  // What an open action says, and what the checks outside this model say of it.
  datatype OpenRequest = OpenRequest(
    supported: bool, sessionId: Option<string>, deposit: Option<u64>, signer: string, confirmed: bool)

  datatype DeliveryRequest = DeliveryRequest(sessionId: string, amount: u64, deliveryId: string, expiresAt: i64)

  datatype Refusal =
    | Unsupported | BadSession | BadAmount | ZeroDeposit | AboveCap | NotOperator | Unconfirmed
    | NotFound | AlreadySealed | ClosePending | WrongSigner | ChannelMismatch | NotMonotonic
    | ExceedsDeposit | BelowMinDelta | InvalidSignature | Expired | ExpiryTooSoon | DepositNotRaised
    | ZeroAmount | NoCapacity | Duplicate | OtherVoucher | NoDelivery | DeliveryExpired | ExceedsReserved

  // What a call returns. A close returns the record alone; how far it moved
  // the watermark is noted here for the books.
  datatype Answer =
    | Refused(why: Refusal)
    | Opened
    | ToppedUp
    | Directive(delivery: Pending)
    | Accepted(cumulative: u64, charged: u64, replayed: bool)
    | Receipt(id: string, amount: u64, cumulative: u64, replayed: bool)
    | Closing(cumulative: u64, charged: u64)
    | IsSealed

  datatype Verdict = Rejected(why: Refusal) | Replay | Accept

  function Fresh(id: string, signer: string, deposit: u64): Channel {
    Channel(id, signer, deposit, 0, false, None, None, None, None, 0, [], [])
  }

  // ---- checks ----

  function SaturatingAdd(a: i64, b: i64): i64
    requires b > 0
  {
    if a + b < TWO_63 then a + b else TWO_63 - 1
  }

  function ExpiryRejection(expiresAt: i64, now: i64, window: i64): Option<Refusal> {
    if expiresAt == 0 then None
    else if expiresAt <= now then Some(Expired)
    else if window > 0 && expiresAt <= SaturatingAdd(now, window) then Some(ExpiryTooSoon)
    else None
  }

  // The order the commit and close paths check in.
  function SessionVoucherRejection(cfg: Config, v: Voucher, signer: string, now: i64): Option<Refusal> {
    match ExpiryRejection(v.expiresAt, now, cfg.window)
    case Some(why) => Some(why)
    case None => if cfg.verifies(v, signer) then None else Some(InvalidSignature)
  }

  predicate IsReplay(c: Channel, v: Voucher) {
    v.cumulative == Some(c.cumulative) && c.highestSignature == Some(v.signature)
  }

  // The pinned order of the checks of a voucher against a record.
  function Judge(cfg: Config, minDelta: u64, c: Channel, v: Voucher, now: i64): Verdict {
    if v.channelId != c.id then Rejected(ChannelMismatch)
    else if v.cumulative.None? then Rejected(BadAmount)
    else if c.isSealed then Rejected(AlreadySealed)
    else if c.closeRequestedAt.Some? then Rejected(ClosePending)
    else if !IsReplay(c, v) && v.cumulative.value <= c.cumulative then Rejected(NotMonotonic)
    else if !IsReplay(c, v) && v.cumulative.value > c.deposit then Rejected(ExceedsDeposit)
    else if !IsReplay(c, v) && v.cumulative.value - c.cumulative < minDelta then Rejected(BelowMinDelta)
    else if !cfg.verifies(v, c.signer) then Rejected(InvalidSignature)
    else
      match ExpiryRejection(v.expiresAt, now, cfg.window)
      case Some(why) => Rejected(why)
      case None => if IsReplay(c, v) then Replay else Accept
  }

  // ---- the calls, each on the record of its channel ----

  function OpenChannel(cfg: Config, c: Option<Channel>, o: OpenRequest): (Option<Channel>, Answer) {
    if !o.supported then (c, Refused(Unsupported))
    else if o.sessionId.None? then (c, Refused(BadSession))
    else if o.deposit.None? then (c, Refused(BadAmount))
    else if o.deposit.value == 0 then (c, Refused(ZeroDeposit))
    else if o.deposit.value > cfg.maxCap then (c, Refused(AboveCap))
    else if cfg.delegate.Some? && o.signer != cfg.delegate.value then (c, Refused(NotOperator))
    else if !o.confirmed then (c, Refused(Unconfirmed))
    else if c.None? then (Some(Fresh(o.sessionId.value, o.signer, o.deposit.value)), Opened)
    else if c.value.isSealed then (c, Refused(AlreadySealed))
    else if c.value.signer != o.signer then (c, Refused(WrongSigner))
    else (c, Opened)
  }

  // The part of a voucher call in front of the store lock: its answer, or
  // nothing when the call goes on.
  function CheckVoucher(cfg: Config, c: Option<Channel>, v: Voucher, now: i64): Option<Answer> {
    if c.None? then Some(Refused(NotFound))
    else
      match Judge(cfg, cfg.minDelta, c.value, v, now)
      case Rejected(why) => Some(Refused(why))
      case Replay => Some(Accepted(c.value.cumulative, 0, true))
      case Accept => None
  }

  // The part under the lock.
  function LandVoucher(c: Option<Channel>, v: Voucher): (Option<Channel>, Answer)
    requires v.cumulative.Some?
  {
    if c.None? then (c, Refused(NotFound))
    else if c.value.isSealed then (c, Refused(AlreadySealed))
    else if c.value.closeRequestedAt.Some? then (c, Refused(ClosePending))
    else if IsReplay(c.value, v) then (c, Accepted(c.value.cumulative, 0, true))
    else if v.cumulative.value <= c.value.cumulative then (c, Refused(NotMonotonic))
    else (Some(Advanced(c.value, v)), Accepted(v.cumulative.value, v.cumulative.value - c.value.cumulative, false))
  }

  function Advanced(c: Channel, v: Voucher): Channel
    requires v.cumulative.Some?
  {
    c.(cumulative := v.cumulative.value, highestSignature := Some(v.signature), highestExpiresAt := Some(v.expiresAt))
  }

  function TopUp(cfg: Config, c: Option<Channel>, newDeposit: Option<u64>, confirmed: bool): (Option<Channel>, Answer) {
    if newDeposit.None? then (c, Refused(BadAmount))
    else if !confirmed then (c, Refused(Unconfirmed))
    else if c.None? then (c, Refused(NotFound))
    else if c.value.isSealed then (c, Refused(AlreadySealed))
    else if c.value.closeRequestedAt.Some? then (c, Refused(ClosePending))
    else if newDeposit.value <= c.value.deposit then (c, Refused(DepositNotRaised))
    else if newDeposit.value > cfg.maxCap then (c, Refused(AboveCap))
    else (Some(c.value.(deposit := newDeposit.value)), ToppedUp)
  }

  function Sum(ps: seq<Pending>): nat {
    if ps == [] then 0 else Sum(ps[..|ps| - 1]) + ps[|ps| - 1].amount
  }

  predicate FitsInDeposit(cumulative: u64, pendingTotal: u64, amount: u64, deposit: u64) {
    && pendingTotal <= TWO_64 - 1 - cumulative
    && amount <= TWO_64 - 1 - (cumulative + pendingTotal)
    && cumulative + pendingTotal + amount <= deposit
  }

  lemma EmptySum()
    ensures Sum([]) == 0
  {
  }

  lemma SumSnoc(ps: seq<Pending>, p: Pending)
    ensures Sum(ps + [p]) == Sum(ps) + p.amount
  {
    assert (ps + [p])[..|ps|] == ps;
  }

  lemma AddWraps(a: nat, b: nat)
    ensures (a % TWO_64 + b) % TWO_64 == (a + b) % TWO_64
  {
  }

  function NextSequence(c: Channel): u64 {
    (c.sequence + 1) % TWO_64
  }

  function DeliveryId(c: Channel, r: DeliveryRequest): string {
    if r.deliveryId == "" then r.sessionId + ":" + Units.Digits(NextSequence(c)) else r.deliveryId
  }

  predicate Known(c: Channel, id: string) {
    || PendingAt(c.pending, id) < |c.pending|
    || CommittedAt(c.committed, id) < |c.committed|
  }

  function Reservation(c: Channel, r: DeliveryRequest): Pending {
    Pending(DeliveryId(c, r), r.amount, NextSequence(c), if r.expiresAt == 0 then DEFAULT_EXPIRES_AT else r.expiresAt)
  }

  // The pending total is a uint64 sum.
  function Reserve(c: Option<Channel>, r: DeliveryRequest): (Option<Channel>, Answer) {
    if r.amount == 0 then (c, Refused(ZeroAmount))
    else if c.None? then (c, Refused(NotFound))
    else if c.value.isSealed then (c, Refused(AlreadySealed))
    else if c.value.closeRequestedAt.Some? then (c, Refused(ClosePending))
    else if !FitsInDeposit(c.value.cumulative, Sum(c.value.pending) % TWO_64, r.amount, c.value.deposit) then
      (c, Refused(NoCapacity))
    else if Known(c.value, DeliveryId(c.value, r)) then (c, Refused(Duplicate))
    else
      var p := Reservation(c.value, r);
      (Some(c.value.(sequence := p.sequence, pending := c.value.pending + [p])), Directive(p))
  }

  // The first delivery with an id; the length when there is none.
  function PendingAt(ps: seq<Pending>, id: string): (i: nat)
    ensures i <= |ps|
    ensures i < |ps| ==> ps[i].id == id
    ensures forall j :: 0 <= j < i ==> ps[j].id != id
  {
    if ps == [] || ps[0].id == id then 0 else 1 + PendingAt(ps[1..], id)
  }

  function CommittedAt(cs: seq<Committed>, id: string): (i: nat)
    ensures i <= |cs|
    ensures i < |cs| ==> cs[i].id == id
    ensures forall j :: 0 <= j < i ==> cs[j].id != id
  {
    if cs == [] || cs[0].id == id then 0 else 1 + CommittedAt(cs[1..], id)
  }

  predicate SameVoucher(k: Committed, v: Voucher) {
    v.cumulative == Some(k.cumulative) && k.signature == v.signature
  }

  function CheckCommit(cfg: Config, c: Option<Channel>, id: string, v: Voucher, now: i64): Option<Answer> {
    if v.cumulative.None? then Some(Refused(BadAmount))
    else if c.None? then Some(Refused(NotFound))
    else
      var k, i := CommittedAt(c.value.committed, id), PendingAt(c.value.pending, id);
      if k < |c.value.committed| then
        var done := c.value.committed[k];
        if !SameVoucher(done, v) then Some(Refused(OtherVoucher))
        else
          match SessionVoucherRejection(cfg, v, c.value.signer, now)
          case Some(why) => Some(Refused(why))
          case None => Some(Receipt(id, done.amount, done.cumulative, true))
      else if i == |c.value.pending| then Some(Refused(NoDelivery))
      else if c.value.pending[i].expiresAt <= now then Some(Refused(DeliveryExpired))
      else if v.cumulative.value <= c.value.cumulative then Some(Refused(NotMonotonic))
      else
        match SessionVoucherRejection(cfg, v, c.value.signer, now)
        case Some(why) => Some(Refused(why))
        case None => None
  }

  function LandCommit(c: Option<Channel>, id: string, v: Voucher, now: i64): (Option<Channel>, Answer)
    requires v.cumulative.Some?
  {
    if c.None? then (c, Refused(NotFound))
    else if c.value.isSealed then (c, Refused(AlreadySealed))
    else if c.value.closeRequestedAt.Some? then (c, Refused(ClosePending))
    else
      var k, i := CommittedAt(c.value.committed, id), PendingAt(c.value.pending, id);
      if k < |c.value.committed| then
        var done := c.value.committed[k];
        (c, if SameVoucher(done, v) then Receipt(id, done.amount, done.cumulative, true) else Refused(OtherVoucher))
      else if i == |c.value.pending| then (c, Refused(NoDelivery))
      else if c.value.pending[i].expiresAt <= now then (c, Refused(DeliveryExpired))
      else if v.cumulative.value <= c.value.cumulative then (c, Refused(NotMonotonic))
      else if v.cumulative.value - c.value.cumulative > c.value.pending[i].amount then (c, Refused(ExceedsReserved))
      else
        (Some(CommittedInto(c.value, i, v)),
         Receipt(id, v.cumulative.value - c.value.cumulative, v.cumulative.value, false))
  }

  // Pending delivery i moves to the committed ones under voucher v.
  function CommittedInto(c: Channel, i: nat, v: Voucher): Channel
    requires i < |c.pending| && v.cumulative.Some? && v.cumulative.value > c.cumulative
  {
    Advanced(c, v).(
      pending := c.pending[..i] + c.pending[i + 1..],
      committed := c.committed
        + [Committed(c.pending[i].id, v.cumulative.value - c.cumulative, v.cumulative.value, v.signature)])
  }

  function Closed(c: Channel, now: i64): Channel {
    c.(closeRequestedAt := Some(now % TWO_64))
  }

  function CloseChannel(cfg: Config, c: Option<Channel>, v: Option<Voucher>, now: i64): (Option<Channel>, Answer) {
    if c.None? then (c, Refused(NotFound))
    else if c.value.isSealed then (c, Refused(AlreadySealed))
    else if c.value.closeRequestedAt.Some? then (c, Refused(ClosePending))
    else if v.None? then (Some(Closed(c.value, now)), Closing(c.value.cumulative, 0))
    else if v.value.cumulative.None? then (c, Refused(BadAmount))
    else if v.value.cumulative.value <= c.value.cumulative && !IsReplay(c.value, v.value) then (c, Refused(NotMonotonic))
    else if v.value.cumulative.value > c.value.cumulative && v.value.cumulative.value > c.value.deposit then
      (c, Refused(ExceedsDeposit))
    else
      match SessionVoucherRejection(cfg, v.value, c.value.signer, now)
      case Some(why) => (c, Refused(why))
      case None =>
        if v.value.cumulative.value > c.value.cumulative then
          (Some(Closed(Advanced(c.value, v.value), now)),
           Closing(v.value.cumulative.value, v.value.cumulative.value - c.value.cumulative))
        else
          (Some(Closed(
             c.value.(highestExpiresAt := Some(c.value.highestExpiresAt.GetOr(v.value.expiresAt))), now)),
           Closing(c.value.cumulative, 0))
  }

  // The close of the HTTP handler: re-drivable until a settlement is recorded,
  // and its final voucher is judged like any other, without a minimum delta.
  function CloseByHandler(cfg: Config, c: Option<Channel>, v: Option<Voucher>, now: i64): (Option<Channel>, Answer) {
    if c.None? then (c, Refused(NotFound))
    else if c.value.isSealed then (c, Refused(AlreadySealed))
    else if c.value.closeRequestedAt.Some? then
      (c, if c.value.settled.None? then Closing(c.value.cumulative, 0) else Refused(ClosePending))
    else if v.None? then (Some(Closed(c.value, now)), Closing(c.value.cumulative, 0))
    else if IsReplay(c.value, v.value) then
      match SessionVoucherRejection(cfg, v.value, c.value.signer, now)
      case Some(why) => (c, Refused(why))
      case None => (Some(Closed(c.value, now)), Closing(c.value.cumulative, 0))
    else
      match Judge(cfg, 0, c.value, v.value, now)
      case Rejected(why) => (c, Refused(why))
      case Replay => (Some(Closed(c.value, now)), Closing(c.value.cumulative, 0))
      case Accept =>
        (Some(Closed(Advanced(c.value, v.value), now)),
         Closing(v.value.cumulative.value, v.value.cumulative.value - c.value.cumulative))
  }

  // Sealing, with the settlement's signature when this server settled.
  function Seal(c: Option<Channel>, settled: Option<string>): (Option<Channel>, Answer) {
    if c.None? then (c, Refused(NotFound))
    else
      (Some(c.value.(isSealed := true, settled := if settled.Some? then settled else c.value.settled)), IsSealed)
  }

  // ---- a call that nothing interrupts ----

  function VoucherAlone(cfg: Config, c: Option<Channel>, v: Voucher, now: i64): (Option<Channel>, Answer) {
    match CheckVoucher(cfg, c, v, now)
    case Some(a) => (c, a)
    case None => LandVoucher(c, v)
  }

  function CommitAlone(cfg: Config, c: Option<Channel>, id: string, v: Voucher, now: i64): (Option<Channel>, Answer) {
    match CheckCommit(cfg, c, id, v, now)
    case Some(a) => (c, a)
    case None => LandCommit(c, id, v, now)
  }

  // ---- the server ----

  function Stored(channels: map<string, Channel>, id: string, c: Option<Channel>): map<string, Channel> {
    if c.Some? then channels[id := c.value] else channels
  }

  class SessionServer {
    const cfg: Config
    var channels: map<string, Channel>

    constructor (cfg: Config)
      ensures this.cfg == cfg && channels == map[]
    {
      this.cfg := cfg;
      channels := map[];
    }

    function Get(id: string): Option<Channel>
      reads this
    {
      if id in channels then Some(channels[id]) else None
    }

    method ProcessOpen(o: OpenRequest) returns (a: Answer)
      modifies this
      ensures o.sessionId.None? ==> a.Refused? && channels == old(channels)
      ensures o.sessionId.Some? ==>
        var (c, answer) := OpenChannel(cfg, old(Get(o.sessionId.value)), o);
        a == answer && channels == Stored(old(channels), o.sessionId.value, c)
    {
      if !o.supported { return Refused(Unsupported); }
      if o.sessionId.None? { return Refused(BadSession); }
      if o.deposit.None? { return Refused(BadAmount); }
      var id, deposit := o.sessionId.value, o.deposit.value;
      if deposit == 0 { return Refused(ZeroDeposit); }
      if deposit > cfg.maxCap { return Refused(AboveCap); }
      if cfg.delegate.Some? && o.signer != cfg.delegate.value { return Refused(NotOperator); }
      if !o.confirmed { return Refused(Unconfirmed); }
      if id in channels {
        if channels[id].isSealed { return Refused(AlreadySealed); }
        if channels[id].signer != o.signer { return Refused(WrongSigner); }
        return Opened;
      }
      channels := channels[id := Fresh(id, o.signer, deposit)];
      return Opened;
    }

    // Runs under the lock of the voucher's channel.
    method UpdateVoucher(v: Voucher) returns (a: Answer)
      requires v.cumulative.Some?
      modifies this
      ensures var (c, answer) := LandVoucher(old(Get(v.channelId)), v);
        a == answer && channels == Stored(old(channels), v.channelId, c)
    {
      if v.channelId !in channels { return Refused(NotFound); }
      var current := channels[v.channelId];
      var previous, cumulative := current.cumulative, v.cumulative.value;
      if current.isSealed { return Refused(AlreadySealed); }
      if current.closeRequestedAt.Some? { return Refused(ClosePending); }
      if cumulative == previous && current.highestSignature == Some(v.signature) {
        return Accepted(previous, 0, true);
      }
      if cumulative <= previous { return Refused(NotMonotonic); }
      channels := channels[v.channelId := current.(
        cumulative := cumulative, highestSignature := Some(v.signature), highestExpiresAt := Some(v.expiresAt))];
      return Accepted(cumulative, cumulative - previous, false);
    }

    method VerifyVoucherDetailed(v: Voucher, now: i64) returns (a: Answer)
      modifies this
      ensures var (c, answer) := VoucherAlone(cfg, old(Get(v.channelId)), v, now);
        a == answer && channels == Stored(old(channels), v.channelId, c)
    {
      var state := Get(v.channelId);
      if state.None? { return Refused(NotFound); }
      match Judge(cfg, cfg.minDelta, state.value, v, now)
      case Rejected(why) => return Refused(why);
      case Replay => return Accepted(v.cumulative.value, 0, true);
      case Accept => a := UpdateVoucher(v);
    }

    method ProcessTopUp(id: string, newDeposit: Option<u64>, confirmed: bool) returns (a: Answer)
      modifies this
      ensures var (c, answer) := TopUp(cfg, old(Get(id)), newDeposit, confirmed);
        a == answer && channels == Stored(old(channels), id, c)
    {
      if newDeposit.None? { return Refused(BadAmount); }
      if !confirmed { return Refused(Unconfirmed); }
      if id !in channels { return Refused(NotFound); }
      var current := channels[id];
      if current.isSealed { return Refused(AlreadySealed); }
      if current.closeRequestedAt.Some? { return Refused(ClosePending); }
      if newDeposit.value <= current.deposit { return Refused(DepositNotRaised); }
      if newDeposit.value > cfg.maxCap { return Refused(AboveCap); }
      channels := channels[id := current.(deposit := newDeposit.value)];
      return ToppedUp;
    }

    method BeginDelivery(r: DeliveryRequest) returns (a: Answer)
      modifies this
      ensures var (c, answer) := Reserve(old(Get(r.sessionId)), r);
        a == answer && channels == Stored(old(channels), r.sessionId, c)
    {
      if r.amount == 0 { return Refused(ZeroAmount); }
      if r.sessionId !in channels { return Refused(NotFound); }
      var current := channels[r.sessionId];
      if current.isSealed { return Refused(AlreadySealed); }
      if current.closeRequestedAt.Some? { return Refused(ClosePending); }
      var total := PendingTotal(current.pending);
      if !FitsInDeposit(current.cumulative, total, r.amount, current.deposit) { return Refused(NoCapacity); }
      var id := DeliveryId(current, r);
      var i := FindPending(current.pending, id);
      if i < |current.pending| { return Refused(Duplicate); }
      var k := FindCommitted(current.committed, id);
      if k < |current.committed| { return Refused(Duplicate); }
      var p := Pending(
        id, r.amount, NextSequence(current), if r.expiresAt == 0 then DEFAULT_EXPIRES_AT else r.expiresAt);
      channels := channels[r.sessionId := current.(sequence := p.sequence, pending := current.pending + [p])];
      return Directive(p);
    }

    // Runs under the lock of the voucher's channel.
    method UpdateCommit(id: string, v: Voucher, now: i64) returns (a: Answer)
      requires v.cumulative.Some?
      modifies this
      ensures var (c, answer) := LandCommit(old(Get(v.channelId)), id, v, now);
        a == answer && channels == Stored(old(channels), v.channelId, c)
    {
      hide PendingAt, CommittedAt;
      if v.channelId !in channels { return Refused(NotFound); }
      var current := channels[v.channelId];
      if current.isSealed { return Refused(AlreadySealed); }
      if current.closeRequestedAt.Some? { return Refused(ClosePending); }
      var k := FindCommitted(current.committed, id);
      if k < |current.committed| {
        var done := current.committed[k];
        if !SameVoucher(done, v) { return Refused(OtherVoucher); }
        return Receipt(id, done.amount, done.cumulative, true);
      }
      var i := FindPending(current.pending, id);
      if i == |current.pending| { return Refused(NoDelivery); }
      if current.pending[i].expiresAt <= now { return Refused(DeliveryExpired); }
      var cumulative := v.cumulative.value;
      if cumulative <= current.cumulative { return Refused(NotMonotonic); }
      var amount := cumulative - current.cumulative;
      if amount > current.pending[i].amount { return Refused(ExceedsReserved); }
      channels := channels[v.channelId := current.(
        pending := current.pending[..i] + current.pending[i + 1..],
        cumulative := cumulative, highestSignature := Some(v.signature), highestExpiresAt := Some(v.expiresAt),
        committed := current.committed + [Committed(id, amount, cumulative, v.signature)])];
      return Receipt(id, amount, cumulative, false);
    }

    method ProcessCommit(id: string, v: Voucher, now: i64) returns (a: Answer)
      modifies this
      ensures var (c, answer) := CommitAlone(cfg, old(Get(v.channelId)), id, v, now);
        a == answer && channels == Stored(old(channels), v.channelId, c)
    {
      hide PendingAt, CommittedAt, LandCommit;
      if v.cumulative.None? { return Refused(BadAmount); }
      var state := Get(v.channelId);
      if state.None? { return Refused(NotFound); }
      var rejection := SessionVoucherRejection(cfg, v, state.value.signer, now);
      var k := FindCommitted(state.value.committed, id);
      if k < |state.value.committed| {
        var done := state.value.committed[k];
        if !SameVoucher(done, v) { return Refused(OtherVoucher); }
        if rejection.Some? { return Refused(rejection.value); }
        return Receipt(id, done.amount, done.cumulative, true);
      }
      var i := FindPending(state.value.pending, id);
      if i == |state.value.pending| { return Refused(NoDelivery); }
      if state.value.pending[i].expiresAt <= now { return Refused(DeliveryExpired); }
      if v.cumulative.value <= state.value.cumulative { return Refused(NotMonotonic); }
      if rejection.Some? { return Refused(rejection.value); }
      a := UpdateCommit(id, v, now);
    }

    method ProcessClose(id: string, v: Option<Voucher>, now: i64) returns (a: Answer)
      modifies this
      ensures var (c, answer) := CloseChannel(cfg, old(Get(id)), v, now);
        a == answer && channels == Stored(old(channels), id, c)
    {
      if id !in channels { return Refused(NotFound); }
      var current := channels[id];
      if current.isSealed { return Refused(AlreadySealed); }
      if current.closeRequestedAt.Some? { return Refused(ClosePending); }
      var next := current;
      if v.Some? {
        if v.value.cumulative.None? { return Refused(BadAmount); }
        var cumulative := v.value.cumulative.value;
        var rejection := SessionVoucherRejection(cfg, v.value, current.signer, now);
        if cumulative <= current.cumulative {
          if cumulative != current.cumulative || current.highestSignature != Some(v.value.signature) {
            return Refused(NotMonotonic);
          }
          if rejection.Some? { return Refused(rejection.value); }
          if next.highestExpiresAt.None? {
            next := next.(highestExpiresAt := Some(v.value.expiresAt));
          }
        } else {
          if cumulative > current.deposit { return Refused(ExceedsDeposit); }
          if rejection.Some? { return Refused(rejection.value); }
          next := Advanced(next, v.value);
        }
      }
      channels := channels[id := next.(closeRequestedAt := Some(now % TWO_64))];
      return Closing(next.cumulative, next.cumulative - current.cumulative);
    }

    method MarkSealed(id: string) returns (a: Answer)
      modifies this
      ensures var (c, answer) := Seal(old(Get(id)), None);
        a == answer && channels == Stored(old(channels), id, c)
    {
      if id !in channels { return Refused(NotFound); }
      channels := channels[id := channels[id].(isSealed := true)];
      return IsSealed;
    }
  }

  // The uint64 loop over the pending amounts.
  method PendingTotal(ps: seq<Pending>) returns (total: u64)
    ensures total == Sum(ps) % TWO_64
  {
    hide Sum;
    EmptySum();
    total := 0;
    for i := 0 to |ps|
      invariant total == Sum(ps[..i]) % TWO_64
    {
      SumSnoc(ps[..i], ps[i]);
      assert ps[..i + 1] == ps[..i] + [ps[i]];
      AddWraps(Sum(ps[..i]), ps[i].amount);
      total := (total + ps[i].amount) % TWO_64;
    }
    assert ps[..|ps|] == ps;
  }

  method FindPending(ps: seq<Pending>, id: string) returns (i: nat)
    ensures i == PendingAt(ps, id)
  {
    i := 0;
    while i < |ps| && ps[i].id != id
      invariant i <= |ps|
      invariant forall j :: 0 <= j < i ==> ps[j].id != id
    {
      i := i + 1;
    }
  }

  method FindCommitted(cs: seq<Committed>, id: string) returns (i: nat)
    ensures i == CommittedAt(cs, id)
  {
    i := 0;
    while i < |cs| && cs[i].id != id
      invariant i <= |cs|
      invariant forall j :: 0 <= j < i ==> cs[j].id != id
    {
      i := i + 1;
    }
  }
}
