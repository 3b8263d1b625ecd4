// Runs of a session channel: calls in any order, where other calls may come
// between the check and the update of a voucher or commit call.
module SessionRuns {
  import opened Common
  import opened Powers
  import opened Session
  import Units

  // A call that passed its check and waits for the lock.
  datatype Call = VoucherCall(v: Voucher) | CommitCall(delivery: string, v: Voucher, now: i64)

  // One channel. Calls for other channels do not touch its record.
  datatype State = State(id: string, channel: Option<Channel>, calls: map<nat, Call>, answers: seq<Answer>)

  datatype Event =
    | Open(o: OpenRequest)
    | StartVoucher(p: nat, v: Voucher, now: i64)
    | StartCommit(p: nat, delivery: string, v: Voucher, now: i64)
    | Land(p: nat)
    | RaiseDeposit(newDeposit: Option<u64>, confirmed: bool)
    | Begin(r: DeliveryRequest)
    | Close(final: Option<Voucher>, now: i64)
    | HandlerClose(final: Option<Voucher>, now: i64)
    | SealIt(settled: Option<string>)

  function Initial(id: string): State {
    State(id, None, map[], [])
  }

  function Answering(s: State, result: (Option<Channel>, Answer)): State {
    s.(channel := result.0, answers := s.answers + [result.1])
  }

  function Starting(s: State, p: nat, checked: Option<Answer>, call: Call): State {
    match checked
    case Some(a) => s.(answers := s.answers + [a])
    case None => s.(calls := s.calls[p := call])
  }

  function Landing(c: Option<Channel>, call: Call): (Option<Channel>, Answer)
    requires call.v.cumulative.Some?
  {
    match call
    case VoucherCall(v) => LandVoucher(c, v)
    case CommitCall(delivery, v, now) => LandCommit(c, delivery, v, now)
  }

  // One event; an event that is not enabled changes nothing.
  function Step(cfg: Config, s: State, e: Event): State {
    match e
    case Open(o) => if o.sessionId == Some(s.id) then Answering(s, OpenChannel(cfg, s.channel, o)) else s
    case StartVoucher(p, v, now) =>
      if p in s.calls || v.channelId != s.id then s
      else Starting(s, p, CheckVoucher(cfg, s.channel, v, now), VoucherCall(v))
    case StartCommit(p, delivery, v, now) =>
      if p in s.calls || v.channelId != s.id then s
      else Starting(s, p, CheckCommit(cfg, s.channel, delivery, v, now), CommitCall(delivery, v, now))
    case Land(p) =>
      if p !in s.calls || s.calls[p].v.cumulative.None? then s
      else Answering(s.(calls := s.calls - {p}), Landing(s.channel, s.calls[p]))
    case RaiseDeposit(newDeposit, confirmed) => Answering(s, TopUp(cfg, s.channel, newDeposit, confirmed))
    case Begin(r) => if r.sessionId == s.id then Answering(s, Reserve(s.channel, r)) else s
    case Close(final, now) => Answering(s, CloseChannel(cfg, s.channel, final, now))
    case HandlerClose(final, now) => Answering(s, CloseByHandler(cfg, s.channel, final, now))
    case SealIt(settled) => Answering(s, Seal(s.channel, settled))
  }

  function Run(cfg: Config, s: State, events: seq<Event>): State {
    if events == [] then s else Step(cfg, Run(cfg, s, events[..|events| - 1]), events[|events| - 1])
  }

  // ---- what a call can do to the record ----

  datatype Move =
    | Keeps
    | Opens(signer: string, deposit: u64)
    | Raises(deposit: u64)
    | Reserves(p: Pending)
    | Direct(v: Voucher)
    | Commits(i: nat, v: Voucher)
    | Closes(final: Option<Voucher>)
    | Seals

  function Charge(a: Answer): nat {
    match a
    case Accepted(_, charged, _) => charged
    case Receipt(_, amount, _, replayed) => if replayed then 0 else amount
    case Closing(_, charged) => charged
    case _ => 0
  }

  predicate IsReceiptOf(k: Committed, a: Answer) {
    a.Receipt? && a.id == k.id && a.amount == k.amount && a.cumulative == k.cumulative
  }

  ghost predicate Cached(c: Channel, a: Answer) {
    exists k | 0 <= k < |c.committed| :: IsReceiptOf(c.committed[k], a)
  }

  predicate IsOpen(c: Channel) {
    !c.isSealed && c.closeRequestedAt.None?
  }

  // A voucher of the channel's signer that raises the watermark.
  ghost predicate Raising(cfg: Config, c: Channel, v: Voucher) {
    IsOpen(c) && v.cumulative.Some? && c.cumulative < v.cumulative.value && cfg.verifies(v, c.signer)
  }

  ghost predicate Does(cfg: Config, id: string, c: Channel, m: Move, d: Channel, a: Answer) {
    match m
    case Keeps => d == c && Charge(a) == 0 && !a.Directive? && (a.Receipt? ==> Cached(c, a))
    case Opens(_, _) => false
    case Raises(deposit) => IsOpen(c) && c.deposit < deposit <= cfg.maxCap && d == c.(deposit := deposit) && a == ToppedUp
    case Reserves(p) =>
      && IsOpen(c) && p.amount > 0 && !Known(c, p.id) && p.sequence == (c.sequence + 1) % TWO_64
      && c.cumulative + Sum(c.pending) % TWO_64 + p.amount <= c.deposit
      && d == c.(sequence := p.sequence, pending := c.pending + [p]) && a == Directive(p)
    case Direct(v) =>
      && Raising(cfg, c, v) && v.cumulative.value <= c.deposit && v.channelId == id
      && d == Advanced(c, v) && a == Accepted(v.cumulative.value, v.cumulative.value - c.cumulative, false)
    case Commits(i, v) =>
      && Raising(cfg, c, v) && v.channelId == id
      && i < |c.pending| && i == PendingAt(c.pending, c.pending[i].id)
      && CommittedAt(c.committed, c.pending[i].id) == |c.committed|
      && v.cumulative.value - c.cumulative <= c.pending[i].amount
      && d == CommittedInto(c, i, v)
      && a == Receipt(c.pending[i].id, v.cumulative.value - c.cumulative, v.cumulative.value, false)
    case Closes(None) =>
      && IsOpen(c) && d.closeRequestedAt.Some? && (c.highestExpiresAt.Some? ==> d.highestExpiresAt == c.highestExpiresAt)
      && d == c.(closeRequestedAt := d.closeRequestedAt, highestExpiresAt := d.highestExpiresAt)
      && a == Closing(c.cumulative, 0)
    case Closes(Some(v)) =>
      && Raising(cfg, c, v) && v.cumulative.value <= c.deposit && d.closeRequestedAt.Some?
      && d == Advanced(c, v).(closeRequestedAt := d.closeRequestedAt)
      && a == Closing(v.cumulative.value, v.cumulative.value - c.cumulative)
    case Seals => d == c.(isSealed := true, settled := d.settled) && a == IsSealed
  }

  ghost predicate DoesFrom(cfg: Config, id: string, c: Option<Channel>, m: Move, d: Option<Channel>, a: Answer) {
    match c
    case None =>
      if m.Opens? then
        && d == Some(Fresh(id, m.signer, m.deposit)) && a == Opened
        && 0 < m.deposit <= cfg.maxCap && (cfg.delegate.Some? ==> m.signer == cfg.delegate.value)
      else m.Keeps? && d.None? && Charge(a) == 0 && !a.Directive? && !a.Receipt?
    case Some(c) => d.Some? && Does(cfg, id, c, m, d.value, a)
  }

  // Waiting calls still satisfy what their check saw and no call can undo.
  ghost predicate CallFine(cfg: Config, s: State, call: Call) {
    && s.channel.Some? && call.v.cumulative.Some? && call.v.channelId == s.id
    && cfg.verifies(call.v, s.channel.value.signer)
    && (call.VoucherCall? ==> call.v.cumulative.value <= s.channel.value.deposit)
  }

  ghost predicate InFlight(cfg: Config, s: State) {
    && (s.channel.Some? ==> s.channel.value.id == s.id)
    && forall p | p in s.calls :: CallFine(cfg, s, s.calls[p])
  }

  // The voucher by which an event moves the watermark without a reservation,
  // told by the guards of the three places that do so.
  function DirectVoucher(cfg: Config, s: State, e: Event): Option<Voucher> {
    if s.channel.None? || !IsOpen(s.channel.value) then None
    else
      var c := s.channel.value;
      match e
      case Land(p) =>
        if p in s.calls && s.calls[p].VoucherCall? && s.calls[p].v.cumulative.Some?
          && s.calls[p].v.cumulative.value > c.cumulative
        then Some(s.calls[p].v) else None
      case Close(Some(v), now) =>
        if v.cumulative.Some? && c.cumulative < v.cumulative.value <= c.deposit
          && SessionVoucherRejection(cfg, v, c.signer, now).None?
        then Some(v) else None
      case HandlerClose(Some(v), now) => if Judge(cfg, 0, c, v, now) == Accept then Some(v) else None
      case _ => None
  }

  function MoveVoucher(m: Move): Option<Voucher> {
    match m
    case Direct(v) => Some(v)
    case Closes(final) => final
    case _ => None
  }

  // What one event did: nothing to the record and the answers, or one move.
  ghost predicate Did(cfg: Config, s: State, e: Event, t: State, m: Move, a: Option<Answer>) {
    && t.id == s.id
    && match a {
         case None => t.channel == s.channel && t.answers == s.answers && DirectVoucher(cfg, s, e).None?
         case Some(a) =>
           && t.answers == s.answers + [a] && DoesFrom(cfg, s.id, s.channel, m, t.channel, a)
           && DirectVoucher(cfg, s, e) == MoveVoucher(m)
       }
  }

  lemma OpenMoves(cfg: Config, c: Option<Channel>, o: OpenRequest) returns (m: Move)
    requires o.sessionId.Some?
    ensures var (d, a) := OpenChannel(cfg, c, o); DoesFrom(cfg, o.sessionId.value, c, m, d, a)
    ensures MoveVoucher(m).None?
  {
    m := if c.None? && OpenChannel(cfg, c, o).0.Some? then Opens(o.signer, o.deposit.value) else Keeps;
  }

  lemma VoucherMoves(cfg: Config, s: State, v: Voucher) returns (m: Move)
    requires s.channel.Some? && CallFine(cfg, s, VoucherCall(v))
    ensures var (d, a) := LandVoucher(s.channel, v); DoesFrom(cfg, s.id, s.channel, m, d, a)
    ensures var c := s.channel.value;
      MoveVoucher(m) == if IsOpen(c) && v.cumulative.value > c.cumulative then Some(v) else None
  {
    var c := s.channel.value;
    m := if IsOpen(c) && v.cumulative.value > c.cumulative then Direct(v) else Keeps;
  }

  lemma CommitMoves(cfg: Config, s: State, delivery: string, v: Voucher, now: i64) returns (m: Move)
    requires s.channel.Some? && CallFine(cfg, s, CommitCall(delivery, v, now))
    ensures var (d, a) := LandCommit(s.channel, delivery, v, now); DoesFrom(cfg, s.id, s.channel, m, d, a)
    ensures MoveVoucher(m).None?
  {
    hide PendingAt, CommittedAt;
    var c := s.channel.value;
    var (d, a) := LandCommit(s.channel, delivery, v, now);
    var k, i := CommittedAt(c.committed, delivery), PendingAt(c.pending, delivery);
    m := if a.Receipt? && !a.replayed then Commits(i, v) else Keeps;
    if a.Receipt? && a.replayed {
      assert IsReceiptOf(c.committed[k], a);
    }
  }

  lemma CheckKeeps(cfg: Config, id: string, c: Option<Channel>, delivery: string, v: Voucher, now: i64)
    ensures var a := CheckCommit(cfg, c, delivery, v, now); a.Some? ==> DoesFrom(cfg, id, c, Keeps, c, a.value)
    ensures var a := CheckVoucher(cfg, c, v, now); a.Some? ==> DoesFrom(cfg, id, c, Keeps, c, a.value)
  {
    hide PendingAt, CommittedAt;
    var a := CheckCommit(cfg, c, delivery, v, now);
    if a.Some? && a.value.Receipt? {
      assert IsReceiptOf(c.value.committed[CommittedAt(c.value.committed, delivery)], a.value);
    }
  }

  lemma ReserveMoves(cfg: Config, id: string, c: Option<Channel>, r: DeliveryRequest) returns (m: Move)
    ensures var (d, a) := Reserve(c, r); DoesFrom(cfg, id, c, m, d, a)
    ensures MoveVoucher(m).None?
  {
    hide Sum, Known, DeliveryId;
    m := if Reserve(c, r).1.Directive? then Reserves(Reserve(c, r).1.delivery) else Keeps;
  }

  lemma TopUpMoves(cfg: Config, id: string, c: Option<Channel>, newDeposit: Option<u64>, confirmed: bool) returns (m: Move)
    ensures var (d, a) := TopUp(cfg, c, newDeposit, confirmed); DoesFrom(cfg, id, c, m, d, a)
    ensures MoveVoucher(m).None?
  {
    m := if TopUp(cfg, c, newDeposit, confirmed).1.ToppedUp? then Raises(newDeposit.value) else Keeps;
  }

  lemma CloseMoves(cfg: Config, s: State, final: Option<Voucher>, now: i64) returns (m: Move)
    ensures var (d, a) := CloseChannel(cfg, s.channel, final, now); DoesFrom(cfg, s.id, s.channel, m, d, a)
    ensures MoveVoucher(m) == DirectVoucher(cfg, s, Close(final, now))
  {
    var (d, a) := CloseChannel(cfg, s.channel, final, now);
    m := if a.Closing? then Closes(if a.charged > 0 then final else None) else Keeps;
  }

  lemma HandlerCloseMoves(cfg: Config, s: State, final: Option<Voucher>, now: i64) returns (m: Move)
    ensures var (d, a) := CloseByHandler(cfg, s.channel, final, now); DoesFrom(cfg, s.id, s.channel, m, d, a)
    ensures MoveVoucher(m) == DirectVoucher(cfg, s, HandlerClose(final, now))
  {
    var (d, a) := CloseByHandler(cfg, s.channel, final, now);
    m := if d != s.channel then Closes(if a.Closing? && a.charged > 0 then final else None) else Keeps;
  }

  lemma StepMoves(cfg: Config, s: State, e: Event) returns (m: Move, a: Option<Answer>)
    requires InFlight(cfg, s)
    ensures Did(cfg, s, e, Step(cfg, s, e), m, a)
  {
    hide DoesFrom, CheckVoucher, CheckCommit, LandVoucher, LandCommit, CloseChannel, CloseByHandler;
    hide OpenChannel, TopUp, Reserve, Seal;
    var t := Step(cfg, s, e);
    m, a := Keeps, if |t.answers| > |s.answers| then Some(t.answers[|s.answers|]) else None;
    match e
    case Open(o) => if o.sessionId == Some(s.id) { m := OpenMoves(cfg, s.channel, o); }
    case StartVoucher(p, v, now) => CheckKeeps(cfg, s.id, s.channel, "", v, now);
    case StartCommit(p, delivery, v, now) => CheckKeeps(cfg, s.id, s.channel, delivery, v, now);
    case Land(p) =>
      if p in s.calls {
        assert CallFine(cfg, s, s.calls[p]);
        match s.calls[p]
        case VoucherCall(v) => m := VoucherMoves(cfg, s, v);
        case CommitCall(delivery, v, now) => m := CommitMoves(cfg, s, delivery, v, now);
      }
    case RaiseDeposit(newDeposit, confirmed) => m := TopUpMoves(cfg, s.id, s.channel, newDeposit, confirmed);
    case Begin(r) => if r.sessionId == s.id { m := ReserveMoves(cfg, s.id, s.channel, r); }
    case Close(final, now) => m := CloseMoves(cfg, s, final, now);
    case HandlerClose(final, now) => m := HandlerCloseMoves(cfg, s, final, now);
    case SealIt(settled) => m := SealMoves(cfg, s.id, s.channel, settled);
  }

  lemma SealMoves(cfg: Config, id: string, c: Option<Channel>, settled: Option<string>) returns (m: Move)
    ensures var (d, a) := Seal(c, settled); DoesFrom(cfg, id, c, m, d, a)
    ensures MoveVoucher(m).None?
  {
    m := if c.Some? then Seals else Keeps;
  }

  // The signer, the id and the record itself stay; the deposit only grows.
  lemma DoesKeeps(cfg: Config, id: string, c: Option<Channel>, m: Move, d: Option<Channel>, a: Answer)
    requires DoesFrom(cfg, id, c, m, d, a)
    ensures c.Some? ==> d.Some? && d.value.id == c.value.id && d.value.signer == c.value.signer
    ensures c.Some? ==> c.value.deposit <= d.value.deposit
    ensures c.None? && d.Some? ==> d.value.id == id
  {
  }

  lemma StepKeepsInFlight(cfg: Config, s: State, e: Event)
    requires InFlight(cfg, s)
    ensures InFlight(cfg, Step(cfg, s, e))
  {
    hide DoesFrom, DirectVoucher, LandVoucher, LandCommit, CloseChannel, CloseByHandler, OpenChannel, TopUp, Reserve, Seal;
    var t := Step(cfg, s, e);
    var m, a := StepMoves(cfg, s, e);
    if a.Some? {
      DoesKeeps(cfg, s.id, s.channel, m, t.channel, a.value);
    }
    forall p | p in t.calls
      ensures CallFine(cfg, t, t.calls[p])
    {
      if p in s.calls {
        assert CallFine(cfg, s, s.calls[p]);
      }
    }
  }

  lemma {:induction false} RunKeepsInFlight(cfg: Config, id: string, events: seq<Event>)
    ensures InFlight(cfg, Run(cfg, Initial(id), events))
  {
    if events != [] {
      RunKeepsInFlight(cfg, id, events[..|events| - 1]);
      StepKeepsInFlight(cfg, Run(cfg, Initial(id), events[..|events| - 1]), events[|events| - 1]);
    }
  }

  // ---- the charges make the watermark ----

  function Mark(s: State): nat {
    if s.channel.Some? then s.channel.value.cumulative else 0
  }

  function Charged(answers: seq<Answer>): nat {
    if answers == [] then 0 else Charged(answers[..|answers| - 1]) + Charge(answers[|answers| - 1])
  }

  // The watermark an answer reports; every answer that charges reports one.
  function Reported(a: Answer): nat {
    if a.Accepted? || a.Receipt? || a.Closing? then a.cumulative else 0
  }

  // The charges add up, and each charge ends where the charges so far do.
  ghost predicate Books(answers: seq<Answer>, mark: nat) {
    && Charged(answers) == mark
    && forall i | 0 <= i < |answers| && Charge(answers[i]) > 0 :: Charged(answers[..i + 1]) == Reported(answers[i])
  }

  lemma MoveCharges(cfg: Config, id: string, c: Option<Channel>, m: Move, d: Option<Channel>, a: Answer)
    requires DoesFrom(cfg, id, c, m, d, a)
    ensures var before, after := (if c.Some? then c.value.cumulative else 0), if d.Some? then d.value.cumulative else 0;
      after == before + Charge(a) && (Charge(a) > 0 ==> Reported(a) == after)
  {
  }

  lemma BooksSnoc(answers: seq<Answer>, mark: nat, a: Answer)
    requires Books(answers, mark) && (Charge(a) > 0 ==> Reported(a) == mark + Charge(a))
    ensures Books(answers + [a], mark + Charge(a))
  {
    var more := answers + [a];
    assert more[..|answers|] == answers && more[..|more|] == more;
    forall i | 0 <= i < |more| && Charge(more[i]) > 0
      ensures Charged(more[..i + 1]) == Reported(more[i])
    {
      if i < |answers| {
        assert more[..i + 1] == answers[..i + 1];
      }
    }
  }

  // In every run, over every interleaving of checks and updates, the charged
  // amounts add up to the watermark, after every single charge.
  lemma {:induction false} ChargesMakeWatermark(cfg: Config, id: string, events: seq<Event>)
    ensures var s := Run(cfg, Initial(id), events); Books(s.answers, Mark(s))
  {
    hide Books, DoesFrom, Step;
    if events == [] {
      NoBooks();
    } else {
      var s, e := Run(cfg, Initial(id), events[..|events| - 1]), events[|events| - 1];
      ChargesMakeWatermark(cfg, id, events[..|events| - 1]);
      RunKeepsInFlight(cfg, id, events[..|events| - 1]);
      var m, a := StepMoves(cfg, s, e);
      if a.Some? {
        MoveCharges(cfg, s.id, s.channel, m, Step(cfg, s, e).channel, a.value);
        BooksSnoc(s.answers, Mark(s), a.value);
      }
    }
  }

  lemma NoBooks()
    ensures Books([], 0)
  {
  }

  lemma {:induction false} ChargedGrows(answers: seq<Answer>, i: nat, j: nat)
    requires i <= j <= |answers|
    ensures Charged(answers[..i]) <= Charged(answers[..j])
  {
    if i < j {
      ChargedGrows(answers, i, j - 1);
      assert answers[..j][..j - 1] == answers[..j - 1];
    }
  }

  // No two answers charge for the same voucher or delivery: later charges
  // report higher watermarks.
  lemma ChargesOnce(cfg: Config, id: string, events: seq<Event>, i: nat, j: nat)
    requires var answers := Run(cfg, Initial(id), events).answers;
      i < j < |answers| && Charge(answers[i]) > 0 && Charge(answers[j]) > 0
    ensures var answers := Run(cfg, Initial(id), events).answers; Reported(answers[i]) < Reported(answers[j])
  {
    hide Run;
    var answers := Run(cfg, Initial(id), events).answers;
    ChargesMakeWatermark(cfg, id, events);
    ChargedGrows(answers, i + 1, j);
    assert answers[..j + 1][..j] == answers[..j];
  }

  // ---- deliveries ----

  // A delivery id is pending once or committed once, not both.
  ghost predicate DistinctIds(c: Channel) {
    && (forall i, j | 0 <= i < j < |c.pending| :: c.pending[i].id != c.pending[j].id)
    && (forall i, j | 0 <= i < j < |c.committed| :: c.committed[i].id != c.committed[j].id)
    && (forall i, j | 0 <= i < |c.pending| && 0 <= j < |c.committed| :: c.pending[i].id != c.committed[j].id)
  }

  // Every receipt answered is still on record.
  ghost predicate Deliveries(s: State) {
    && (s.channel.Some? ==> DistinctIds(s.channel.value))
    && forall a | a in s.answers && a.Receipt? :: s.channel.Some? && Cached(s.channel.value, a)
  }

  lemma MoveKeepsDistinct(cfg: Config, id: string, c: Channel, m: Move, d: Channel, a: Answer)
    requires DistinctIds(c) && Does(cfg, id, c, m, d, a)
    ensures DistinctIds(d)
  {
    hide PendingAt, CommittedAt, Sum;
    if m.Commits? {
      CommitKeepsDistinct(c, m.i, m.v);
    } else if m.Reserves? {
      assert forall i | 0 <= i < |c.pending| :: c.pending[i].id != m.p.id;
      assert forall i | 0 <= i < |c.committed| :: c.committed[i].id != m.p.id;
    }
  }

  lemma CommitKeepsDistinct(c: Channel, i: nat, v: Voucher)
    requires DistinctIds(c) && i < |c.pending| && v.cumulative.Some? && v.cumulative.value > c.cumulative
    ensures DistinctIds(CommittedInto(c, i, v))
  {
    var d := CommittedInto(c, i, v);
    assert forall j | 0 <= j < |d.pending| :: d.pending[j] == if j < i then c.pending[j] else c.pending[j + 1];
  }

  // Committed deliveries are never dropped, and a receipt is one of them.
  lemma MoveKeepsCommitted(cfg: Config, id: string, c: Channel, m: Move, d: Channel, a: Answer)
    requires Does(cfg, id, c, m, d, a)
    ensures |c.committed| <= |d.committed| && d.committed[..|c.committed|] == c.committed
    ensures a.Receipt? ==> Cached(d, a)
  {
    hide PendingAt, CommittedAt, Sum;
    if m.Commits? {
      assert IsReceiptOf(d.committed[|c.committed|], a);
    }
  }

  lemma StillCached(c: Channel, d: Channel, a: Answer)
    requires |c.committed| <= |d.committed| && d.committed[..|c.committed|] == c.committed && Cached(c, a)
    ensures Cached(d, a)
  {
    var k :| 0 <= k < |c.committed| && IsReceiptOf(c.committed[k], a);
    assert d.committed[k] == c.committed[k];
  }

  lemma StepKeepsDeliveries(cfg: Config, s: State, e: Event)
    requires InFlight(cfg, s) && Deliveries(s)
    ensures Deliveries(Step(cfg, s, e))
  {
    hide Does, Step, DistinctIds, Cached;
    var t := Step(cfg, s, e);
    var m, a := StepMoves(cfg, s, e);
    if a.Some? && s.channel.Some? {
      var c, d := s.channel.value, t.channel.value;
      MoveKeepsDistinct(cfg, s.id, c, m, d, a.value);
      MoveKeepsCommitted(cfg, s.id, c, m, d, a.value);
      forall b | b in t.answers && b.Receipt?
        ensures Cached(d, b)
      {
        if b in s.answers {
          StillCached(c, d, b);
        }
      }
    } else if a.Some? && t.channel.Some? {
      FreshIsDistinct(s.id, m.signer, m.deposit);
    }
  }

  lemma FreshIsDistinct(id: string, signer: string, deposit: u64)
    ensures DistinctIds(Fresh(id, signer, deposit))
  {
  }

  lemma {:induction false} RunKeepsDeliveries(cfg: Config, id: string, events: seq<Event>)
    ensures Deliveries(Run(cfg, Initial(id), events))
  {
    if events != [] {
      var s := Run(cfg, Initial(id), events[..|events| - 1]);
      RunKeepsDeliveries(cfg, id, events[..|events| - 1]);
      RunKeepsInFlight(cfg, id, events[..|events| - 1]);
      hide Deliveries, InFlight, Step;
      StepKeepsDeliveries(cfg, s, events[|events| - 1]);
    }
  }

  // In every run all receipts for one delivery agree, and only one charges.
  lemma OneChargePerDelivery(cfg: Config, id: string, events: seq<Event>, i: nat, j: nat)
    requires var answers := Run(cfg, Initial(id), events).answers;
      i < j < |answers| && answers[i].Receipt? && answers[j].Receipt? && answers[i].id == answers[j].id
    ensures var answers := Run(cfg, Initial(id), events).answers;
      answers[i].amount == answers[j].amount && answers[i].cumulative == answers[j].cumulative
      && (Charge(answers[i]) == 0 || Charge(answers[j]) == 0)
  {
    var s := Run(cfg, Initial(id), events);
    var a, b := s.answers[i], s.answers[j];
    RunKeepsDeliveries(cfg, id, events);
    if Charge(a) > 0 && Charge(b) > 0 {
      ChargesOnce(cfg, id, events, i, j);
    }
    hide Run;
    var c := s.channel.value;
    assert Cached(c, a) && Cached(c, b);
    var k :| 0 <= k < |c.committed| && IsReceiptOf(c.committed[k], a);
    var l :| 0 <= l < |c.committed| && IsReceiptOf(c.committed[l], b);
    assert k == l;
  }

  // ---- reservations ----

  // A reservation is still pending, or committed for no more than it reserved.
  ghost predicate Honoured(c: Channel, p: Pending) {
    || p in c.pending
    || exists k | 0 <= k < |c.committed| :: c.committed[k].id == p.id && c.committed[k].amount <= p.amount
  }

  lemma MoveHonours(cfg: Config, id: string, c: Channel, m: Move, d: Channel, a: Answer, p: Pending)
    requires Does(cfg, id, c, m, d, a) && Honoured(c, p)
    ensures Honoured(d, p)
  {
    hide PendingAt, CommittedAt, Sum, Known;
    if p in c.pending {
      if m.Commits? {
        var k :| 0 <= k < |c.pending| && c.pending[k] == p;
        if k < m.i {
          assert d.pending[k] == p;
        } else if k > m.i {
          assert d.pending[k - 1] == p;
        } else {
          assert d.committed[|c.committed|].id == p.id;
        }
      } else if m.Reserves? {
        assert d.pending == c.pending + [m.p];
      }
    } else {
      var k :| 0 <= k < |c.committed| && c.committed[k].id == p.id && c.committed[k].amount <= p.amount;
      MoveKeepsCommitted(cfg, id, c, m, d, a);
      assert d.committed[k] == c.committed[k];
    }
  }

  // No run lets go of a reservation in any other way, not even after its
  // expiry.
  lemma {:induction false} ReservationsStay(cfg: Config, s: State, events: seq<Event>, p: Pending)
    requires InFlight(cfg, s) && s.channel.Some? && p in s.channel.value.pending
    ensures var t := Run(cfg, s, events); InFlight(cfg, t) && t.channel.Some? && Honoured(t.channel.value, p)
  {
    hide InFlight, Does, Step;
    if events != [] {
      var t, e := Run(cfg, s, events[..|events| - 1]), events[|events| - 1];
      ReservationsStay(cfg, s, events[..|events| - 1], p);
      StepKeepsInFlight(cfg, t, e);
      var m, a := StepMoves(cfg, t, e);
      if a.Some? {
        MoveHonours(cfg, t.id, t.channel.value, m, Step(cfg, t, e).channel.value, a.value, p);
      }
    }
  }

  // ---- the deposit ----

  // Reservations alone fit into the deposit. Reservations and watermark
  // together can reach twice the deposit, but not more.
  ghost predicate Bounded(c: Channel) {
    Sum(c.pending) <= c.deposit && c.cumulative + Sum(c.pending) <= 2 * c.deposit
  }

  ghost predicate Solvent(c: Channel) {
    c.cumulative + Sum(c.pending) <= c.deposit
  }

  lemma {:induction false} SumConcat(a: seq<Pending>, b: seq<Pending>)
    ensures Sum(a + b) == Sum(a) + Sum(b)
  {
    if b == [] {
      assert a + b == a;
    } else {
      assert (a + b)[..|a + b| - 1] == a + b[..|b| - 1];
      SumConcat(a, b[..|b| - 1]);
    }
  }

  lemma SumRemove(ps: seq<Pending>, i: nat)
    requires i < |ps|
    ensures Sum(ps) == Sum(ps[..i] + ps[i + 1..]) + ps[i].amount
  {
    hide Sum;
    SumConcat(ps[..i], ps[i + 1..]);
    SumSnoc(ps[..i], ps[i]);
    SumConcat(ps[..i] + [ps[i]], ps[i + 1..]);
    assert ps == ps[..i] + [ps[i]] + ps[i + 1..];
  }

  // The uint64 sum and test are exact: no capacity means none, and there is no
  // wrap-around.
  lemma CapacityExact(c: Channel, r: DeliveryRequest)
    requires Bounded(c) && IsOpen(c) && r.amount > 0
    ensures Reserve(Some(c), r).1 == Refused(NoCapacity) <==> c.cumulative + Sum(c.pending) + r.amount > c.deposit
  {
    hide Sum, Known, DeliveryId, NextSequence;
  }

  // What a move does to watermark, reservations and deposit.
  lemma MoveBalances(cfg: Config, id: string, c: Channel, m: Move, d: Channel, a: Answer)
    requires Bounded(c) && Does(cfg, id, c, m, d, a)
    ensures Bounded(d)
    ensures MoveVoucher(m).None? && Solvent(c) ==> Solvent(d)
    ensures MoveVoucher(m).Some? ==>
      var v := MoveVoucher(m).value;
      v.cumulative.Some? && d.cumulative == v.cumulative.value && d.pending == c.pending && d.deposit == c.deposit
  {
    hide Sum, PendingAt, CommittedAt, Known;
    match m
    case Reserves(p) => SumSnoc(c.pending, p);
    case Commits(i, v) => SumRemove(c.pending, i);
    case _ =>
  }

  ghost predicate BoundedState(s: State) {
    s.channel.Some? ==> Bounded(s.channel.value)
  }

  lemma {:induction false} AtMostTwice(cfg: Config, id: string, events: seq<Event>)
    ensures BoundedState(Run(cfg, Initial(id), events))
  {
    hide InFlight, Does, Step, Bounded;
    if events != [] {
      var s, e := Run(cfg, Initial(id), events[..|events| - 1]), events[|events| - 1];
      AtMostTwice(cfg, id, events[..|events| - 1]);
      RunKeepsInFlight(cfg, id, events[..|events| - 1]);
      StepKeepsBounded(cfg, s, e);
    }
  }

  lemma StepKeepsBounded(cfg: Config, s: State, e: Event)
    requires InFlight(cfg, s) && BoundedState(s)
    ensures BoundedState(Step(cfg, s, e))
  {
    hide InFlight, Does, Step, Bounded;
    var t := Step(cfg, s, e);
    var m, a := StepMoves(cfg, s, e);
    if a.Some? && s.channel.Some? {
      MoveBalances(cfg, s.id, s.channel.value, m, t.channel.value, a.value);
    } else if a.Some? && t.channel.Some? {
      FreshIsSolvent(s.id, m.signer, m.deposit);
    }
  }

  lemma FreshIsSolvent(id: string, signer: string, deposit: u64)
    ensures Bounded(Fresh(id, signer, deposit)) && Solvent(Fresh(id, signer, deposit))
  {
  }

  ghost predicate SolventState(s: State) {
    s.channel.Some? ==> Solvent(s.channel.value)
  }

  // The guard that is missing where a voucher moves the watermark past the
  // reservations.
  ghost predicate LeavesRoom(cfg: Config, s: State, e: Event) {
    match DirectVoucher(cfg, s, e)
    case None => true
    case Some(v) =>
      v.cumulative.GetOr(0) + Sum(s.channel.value.pending) <= s.channel.value.deposit
  }

  // Each step keeps solvency exactly if it leaves room for the reservations.
  lemma StepSolventExactly(cfg: Config, s: State, e: Event)
    requires InFlight(cfg, s) && BoundedState(s) && SolventState(s)
    ensures SolventState(Step(cfg, s, e)) <==> LeavesRoom(cfg, s, e)
  {
    hide InFlight, Does, Step, Bounded, Sum, DirectVoucher;
    var t := Step(cfg, s, e);
    var m, a := StepMoves(cfg, s, e);
    if a.Some? && s.channel.Some? {
      MoveBalances(cfg, s.id, s.channel.value, m, t.channel.value, a.value);
    } else if a.Some? && t.channel.Some? {
      FreshIsSolvent(s.id, m.signer, m.deposit);
    }
  }

  // At the end of the run and after every prefix of it.
  ghost predicate AlwaysSolvent(cfg: Config, id: string, events: seq<Event>) {
    && SolventState(Run(cfg, Initial(id), events))
    && (events == [] || AlwaysSolvent(cfg, id, events[..|events| - 1]))
  }

  // Every event, where it happens.
  ghost predicate AlwaysLeavesRoom(cfg: Config, id: string, events: seq<Event>) {
    events == [] || (
      && AlwaysLeavesRoom(cfg, id, events[..|events| - 1])
      && LeavesRoom(cfg, Run(cfg, Initial(id), events[..|events| - 1]), events[|events| - 1]))
  }

  // The interleavings that keep watermark and reservations within the deposit
  // at all times: those whose direct vouchers and closes leave room.
  lemma {:induction false} SolventExactly(cfg: Config, id: string, events: seq<Event>)
    ensures AlwaysSolvent(cfg, id, events) <==> AlwaysLeavesRoom(cfg, id, events)
  {
    hide Step, SolventState, LeavesRoom;
    if events == [] {
      NothingIsSolvent(id);
    } else {
      var front, e := events[..|events| - 1], events[|events| - 1];
      SolventExactly(cfg, id, front);
      RunKeepsInFlight(cfg, id, front);
      AtMostTwice(cfg, id, front);
      if AlwaysSolvent(cfg, id, front) {
        StepSolventExactly(cfg, Run(cfg, Initial(id), front), e);
      }
    }
  }

  lemma NothingIsSolvent(id: string)
    ensures SolventState(Initial(id))
  {
  }

  // Without reservations there is always room: a waiting voucher was at most
  // the deposit when it was checked, and the deposit does not shrink.
  lemma RoomWithoutReservations(cfg: Config, s: State, e: Event)
    requires InFlight(cfg, s) && (s.channel.Some? ==> s.channel.value.pending == [])
    ensures LeavesRoom(cfg, s, e)
  {
    EmptySum();
    if e.Land? && e.p in s.calls {
      assert CallFine(cfg, s, s.calls[e.p]);
    }
  }

  // In a solvent channel a reservation can be cashed in, up to its amount, and
  // the watermark stays within the deposit.
  lemma ReservedCanCommit(cfg: Config, s: State, i: nat, v: Voucher, now: i64)
    requires Deliveries(s) && s.channel.Some? && i < |s.channel.value.pending|
    requires var c := s.channel.value;
      && IsOpen(c) && Solvent(c) && c.pending[i].expiresAt > now
      && v.cumulative.Some? && c.cumulative < v.cumulative.value <= c.cumulative + c.pending[i].amount
      && SessionVoucherRejection(cfg, v, c.signer, now).None?
    ensures var c := s.channel.value;
      CommitAlone(cfg, s.channel, c.pending[i].id, v, now) == (
        Some(CommittedInto(c, i, v)),
        Receipt(c.pending[i].id, v.cumulative.value - c.cumulative, v.cumulative.value, false))
    ensures Solvent(CommittedInto(s.channel.value, i, v)) && v.cumulative.value <= s.channel.value.deposit
  {
    var c := s.channel.value;
    hide PendingAt, CommittedAt, SessionVoucherRejection, Sum;
    FoundPending(c, i);
    SumRemove(c.pending, i);
  }

  lemma FoundPending(c: Channel, i: nat)
    requires DistinctIds(c) && i < |c.pending|
    ensures PendingAt(c.pending, c.pending[i].id) == i
    ensures CommittedAt(c.committed, c.pending[i].id) == |c.committed|
  {
    hide PendingAt, CommittedAt;
    var k := PendingAt(c.pending, c.pending[i].id);
    assert k <= i;
    assert CommittedAt(c.committed, c.pending[i].id) < |c.committed| ==> false;
  }

  // ---- what a call asks for is what it gets ----

  function ExpiryOf(r: DeliveryRequest): int {
    if r.expiresAt == 0 then 4_102_444_800 else r.expiresAt
  }

  // An id that is made up says the session and, in decimal, the sequence.
  predicate MadeUp(session: string, p: Pending) {
    && |p.id| > |session| && p.id[..|session|] == session && p.id[|session|] == ':'
    && Units.AllDigits(p.id[|session| + 1..]) && Units.Value(p.id[|session| + 1..]) == p.sequence
  }

  lemma ReservationIs(c: Channel, r: DeliveryRequest)
    ensures var p := Reservation(c, r);
      && p.amount == r.amount && p.expiresAt == ExpiryOf(r) && p.sequence == (c.sequence + 1) % TWO_64
      && (if r.deliveryId != "" then p.id == r.deliveryId else MadeUp(r.sessionId, p))
  {
    var p := Reservation(c, r);
    if r.deliveryId == "" {
      assert p.id[|r.sessionId| + 1..] == Units.Digits(p.sequence);
    }
  }

  // A delivery is reserved exactly if the channel is open, its id is new and
  // its amount is positive and fits; and then it is what was asked for: its
  // amount joins the reservations and nothing else moves.
  lemma BeginReserves(cfg: Config, s: State, r: DeliveryRequest)
    requires r.sessionId == s.id && s.channel.Some? && Bounded(s.channel.value)
    ensures var c, t := s.channel.value, Step(cfg, s, Begin(r));
      && |t.answers| == |s.answers| + 1
      && var a := t.answers[|s.answers|];
      && (a.Directive? <==> (
            && IsOpen(c) && r.amount > 0 && !Known(c, DeliveryId(c, r))
            && c.cumulative + Sum(c.pending) + r.amount <= c.deposit))
      && (!a.Directive? ==> t.channel == s.channel)
      && (a.Directive? ==>
            && a.delivery.amount == r.amount && a.delivery.expiresAt == ExpiryOf(r)
            && (if r.deliveryId != "" then a.delivery.id == r.deliveryId else MadeUp(s.id, a.delivery))
            && t.channel == Some(c.(sequence := a.delivery.sequence, pending := c.pending + [a.delivery]))
            && Sum(t.channel.value.pending) == Sum(c.pending) + r.amount)
  {
    hide Sum, Known, Reservation, MadeUp, DeliveryId;
    var c := s.channel.value;
    ReservationIs(c, r);
    SumSnoc(c.pending, Reservation(c, r));
  }

  // Begin, then commit, whatever happens in between: while the delivery is
  // pending a commit for it is charged exactly if it comes before the asked
  // expiry and raises the watermark by no more than the asked amount, on an
  // open channel and with a signed voucher that outlasts the window.
  lemma BeginThenCommit(
    cfg: Config, id: string, before: seq<Event>, r: DeliveryRequest, later: seq<Event>, p: Pending, v: Voucher, now: i64)
    requires r.sessionId == id
    requires var s := Run(cfg, Initial(id), before); Step(cfg, s, Begin(r)).answers == s.answers + [Directive(p)]
    requires var t := Run(cfg, Initial(id), before + [Begin(r)] + later); t.channel.Some? && p in t.channel.value.pending
    ensures var c := Run(cfg, Initial(id), before + [Begin(r)] + later).channel.value;
      var a, rise := CommitAlone(cfg, Some(c), p.id, v, now).1, v.cumulative.GetOr(0) - c.cumulative;
      && (Charge(a) > 0 <==> (
            && IsOpen(c) && now < ExpiryOf(r) && 0 < rise <= r.amount
            && cfg.verifies(v, c.signer) && Outlasts(v.expiresAt, now, cfg.window)))
      && (Charge(a) > 0 ==> Charge(a) == rise)
      && (r.deliveryId != "" ==> p.id == r.deliveryId)
  {
    var s, t := Run(cfg, Initial(id), before), Run(cfg, Initial(id), before + [Begin(r)] + later);
    RunKeepsDeliveries(cfg, id, before + [Begin(r)] + later);
    AtMostTwice(cfg, id, before);
    RunKeepsId(cfg, Initial(id), before);
    DirectiveIs(cfg, s, r, p);
    hide Run, Deliveries, Step;
    DeliveriesDistinct(t);
    var c := t.channel.value;
    var i :| 0 <= i < |c.pending| && c.pending[i] == p;
    FoundPending(c, i);
    CommitChargesExactly(cfg, c, p.id, v, now);
    CommitCharge(cfg, c, p.id, v, now);
  }

  lemma DirectiveIs(cfg: Config, s: State, r: DeliveryRequest, p: Pending)
    requires r.sessionId == s.id && BoundedState(s) && Step(cfg, s, Begin(r)).answers == s.answers + [Directive(p)]
    ensures p.amount == r.amount && p.expiresAt == ExpiryOf(r) && (r.deliveryId != "" ==> p.id == r.deliveryId)
  {
    hide Sum, Known, MadeUp, DeliveryId, Bounded;
    assert (s.answers + [Directive(p)])[|s.answers|] == Directive(p);
    if s.channel.Some? {
      BeginReserves(cfg, s, r);
    }
  }

  lemma DeliveriesDistinct(s: State)
    requires Deliveries(s) && s.channel.Some?
    ensures DistinctIds(s.channel.value)
  {
  }

  lemma CommitCharge(cfg: Config, c: Channel, delivery: string, v: Voucher, now: i64)
    ensures var a := CommitAlone(cfg, Some(c), delivery, v, now).1;
      Charge(a) > 0 ==> Charge(a) == v.cumulative.GetOr(0) - c.cumulative
  {
    hide PendingAt, CommittedAt;
  }

  lemma {:induction false} RunKeepsId(cfg: Config, s: State, events: seq<Event>)
    ensures Run(cfg, s, events).id == s.id
  {
    if events != [] {
      RunKeepsId(cfg, s, events[..|events| - 1]);
    }
  }

  // ---- sequences ----

  function Directives(answers: seq<Answer>): nat {
    if answers == [] then 0
    else Directives(answers[..|answers| - 1]) + if answers[|answers| - 1].Directive? then 1 else 0
  }

  // The record counts the directives, and each has the number it is.
  ghost predicate Numbered(answers: seq<Answer>, sequence: int) {
    && sequence == Directives(answers) % TWO_64
    && forall i | 0 <= i < |answers| && answers[i].Directive? ::
         answers[i].delivery.sequence == (Directives(answers[..i]) + 1) % TWO_64
  }

  function SequenceOf(c: Option<Channel>): int {
    if c.Some? then c.value.sequence else 0
  }

  lemma MoveNumbers(cfg: Config, id: string, c: Option<Channel>, m: Move, d: Option<Channel>, a: Answer)
    requires DoesFrom(cfg, id, c, m, d, a)
    ensures SequenceOf(d) == if a.Directive? then (SequenceOf(c) + 1) % TWO_64 else SequenceOf(c)
    ensures a.Directive? ==> a.delivery.sequence == SequenceOf(d)
  {
    hide Sum, PendingAt, CommittedAt, Known, Cached;
  }

  lemma NumberedSnoc(answers: seq<Answer>, sequence: int, a: Answer)
    requires Numbered(answers, sequence) && (a.Directive? ==> a.delivery.sequence == (sequence + 1) % TWO_64)
    ensures Numbered(answers + [a], if a.Directive? then (sequence + 1) % TWO_64 else sequence)
  {
    hide Directives;
    var more := answers + [a];
    DirectivesSnoc(answers, a);
    AddWraps(Directives(answers), 1);
    forall i | 0 <= i < |more| && more[i].Directive?
      ensures more[i].delivery.sequence == (Directives(more[..i]) + 1) % TWO_64
    {
      if i < |answers| {
        assert more[..i] == answers[..i];
      } else {
        assert more[..i] == answers;
      }
    }
  }

  lemma DirectivesSnoc(answers: seq<Answer>, a: Answer)
    ensures Directives(answers + [a]) == Directives(answers) + if a.Directive? then 1 else 0
  {
    assert (answers + [a])[..|answers|] == answers;
  }

  // In every run the directives are numbered 1, 2, 3 and so on, modulo 2^64.
  lemma {:induction false} DirectivesInSequence(cfg: Config, id: string, events: seq<Event>)
    ensures var s := Run(cfg, Initial(id), events); Numbered(s.answers, SequenceOf(s.channel))
  {
    hide Numbered, DoesFrom, Step;
    if events == [] {
      NothingNumbered();
    } else {
      var s, e := Run(cfg, Initial(id), events[..|events| - 1]), events[|events| - 1];
      DirectivesInSequence(cfg, id, events[..|events| - 1]);
      RunKeepsInFlight(cfg, id, events[..|events| - 1]);
      var m, a := StepMoves(cfg, s, e);
      if a.Some? {
        MoveNumbers(cfg, s.id, s.channel, m, Step(cfg, s, e).channel, a.value);
        NumberedSnoc(s.answers, SequenceOf(s.channel), a.value);
      }
    }
  }

  lemma NothingNumbered()
    ensures Numbered([], 0)
  {
  }

  // ---- opening, topping up, closing ----

  // In every run the deposit is positive and within the cap, and with delegated
  // settlement the operator signs.
  ghost predicate Capped(cfg: Config, c: Channel) {
    0 < c.deposit <= cfg.maxCap && (cfg.delegate.Some? ==> c.signer == cfg.delegate.value)
  }

  lemma MoveKeepsCapped(cfg: Config, id: string, c: Option<Channel>, m: Move, d: Option<Channel>, a: Answer)
    requires DoesFrom(cfg, id, c, m, d, a) && (c.Some? ==> Capped(cfg, c.value))
    ensures d.Some? ==> Capped(cfg, d.value)
  {
    hide Sum, PendingAt, CommittedAt, Known, Cached;
  }

  lemma {:induction false} DepositWithinCap(cfg: Config, id: string, events: seq<Event>)
    ensures var c := Run(cfg, Initial(id), events).channel; c.Some? ==> Capped(cfg, c.value)
  {
    hide Capped, DoesFrom, Step;
    if events != [] {
      var s, e := Run(cfg, Initial(id), events[..|events| - 1]), events[|events| - 1];
      DepositWithinCap(cfg, id, events[..|events| - 1]);
      RunKeepsInFlight(cfg, id, events[..|events| - 1]);
      var m, a := StepMoves(cfg, s, e);
      if a.Some? {
        MoveKeepsCapped(cfg, s.id, s.channel, m, Step(cfg, s, e).channel, a.value);
      }
    }
  }

  // A channel comes into being exactly for a supported, confirmed open of a
  // positive deposit within the cap by the right signer, and starts empty.
  lemma OpensExactly(cfg: Config, s: State, o: OpenRequest)
    requires s.channel.None? && o.sessionId == Some(s.id)
    ensures var t := Step(cfg, s, Open(o));
      && (t.channel.Some? <==> (
            && o.supported && o.confirmed && o.deposit.Some? && 0 < o.deposit.value <= cfg.maxCap
            && (cfg.delegate.Some? ==> o.signer == cfg.delegate.value)))
      && (t.channel.Some? ==>
            var c := t.channel.value;
            c.id == s.id && c.signer == o.signer && c.deposit == o.deposit.value && IsOpen(c)
            && c.cumulative == 0 && c.pending == [] && c.committed == [] && c.sequence == 0
            && c.highestSignature == None && c.highestExpiresAt == None && c.settled == None)
  {
  }

  // A replayed open leaves the record as it is, whatever it says; it is
  // answered like the first one exactly if it would open the channel, the
  // channel is not sealed and the signer is the recorded one.
  lemma ReopenKeeps(cfg: Config, s: State, o: OpenRequest)
    requires s.channel.Some? && o.sessionId == Some(s.id)
    ensures var t := Step(cfg, s, Open(o));
      && t.channel == s.channel && |t.answers| == |s.answers| + 1
      && (t.answers[|s.answers|] == Opened <==> (
            && Step(cfg, s.(channel := None), Open(o)).channel.Some?
            && !s.channel.value.isSealed && o.signer == s.channel.value.signer))
  {
  }

  // A top-up raises the deposit to what it says, exactly if it is confirmed,
  // the channel is open and the new deposit is higher and within the cap.
  lemma TopsUpExactly(cfg: Config, s: State, newDeposit: Option<u64>, confirmed: bool)
    requires s.channel.Some?
    ensures var c, t := s.channel.value, Step(cfg, s, RaiseDeposit(newDeposit, confirmed));
      var raises := newDeposit.Some? && confirmed && IsOpen(c) && c.deposit < newDeposit.value <= cfg.maxCap;
      t.channel == Some(if raises then c.(deposit := newDeposit.value) else c)
  {
  }

  // A close without a voucher closes an open channel. With one it does exactly
  // if that is signed and outlasts the window and either repeats the recorded
  // voucher or raises the watermark within the deposit; and then the watermark
  // is the voucher's.
  lemma ClosesExactly(cfg: Config, s: State, final: Option<Voucher>, now: i64)
    requires s.channel.Some? && IsOpen(s.channel.value)
    ensures var c, d := s.channel.value, Step(cfg, s, Close(final, now)).channel.value;
      && (!IsOpen(d) <==> final.None? || ClosingVoucher(cfg, c, final.value, now))
      && (IsOpen(d) ==> d == c)
      && (!IsOpen(d) ==>
            && d.cumulative == (if final.None? then c.cumulative else final.value.cumulative.value)
            && d.closeRequestedAt == Some(now % TWO_64) && !d.isSealed)
  {
    if final.Some? {
      ExpiryExactly(final.value.expiresAt, now, cfg.window);
    }
  }

  predicate ClosingVoucher(cfg: Config, c: Channel, v: Voucher, now: i64) {
    && v.cumulative.Some? && (IsReplay(c, v) || c.cumulative < v.cumulative.value <= c.deposit)
    && cfg.verifies(v, c.signer) && Outlasts(v.expiresAt, now, cfg.window)
  }

  // The handler's close does too, but for a voucher of another channel; once a
  // close is pending it is accepted again, and changes nothing, until a
  // settlement is recorded.
  lemma HandlerClosesExactly(cfg: Config, s: State, final: Option<Voucher>, now: i64)
    requires s.channel.Some? && s.channel.value.id == s.id && (final.Some? ==> final.value.channelId == s.id)
    ensures var c, t := s.channel.value, Step(cfg, s, HandlerClose(final, now));
      && t.channel.Some? && |t.answers| == |s.answers| + 1
      && (IsOpen(c) ==>
            && (!IsOpen(t.channel.value) <==> final.None? || ClosingVoucher(cfg, c, final.value, now))
            && (IsOpen(t.channel.value) ==> t.channel == s.channel)
            && (!IsOpen(t.channel.value) ==>
                  t.channel.value.cumulative == (if final.None? then c.cumulative else final.value.cumulative.value)))
      && (!IsOpen(c) ==>
            && t.channel == s.channel
            && (t.answers[|s.answers|].Closing? <==> !c.isSealed && c.settled == None))
  {
    if final.Some? {
      ExpiryExactly(final.value.expiresAt, now, cfg.window);
    }
  }

  // Sealing keeps everything but the seal and a settlement's signature.
  lemma SealsOnly(cfg: Config, s: State, settled: Option<string>)
    requires s.channel.Some?
    ensures var c, t := s.channel.value, Step(cfg, s, SealIt(settled));
      t.channel == Some(c.(isSealed := true, settled := if settled.Some? then settled else c.settled))
  {
  }

  // ---- what stays within the deposit and what does not ----

  function Plain(id: string, cumulative: u64, signature: string): Voucher {
    Voucher(id, Some(cumulative), 0, signature)
  }

  // The whole deposit is reserved.
  function ReservedAll(id: string, signer: string, d: u64, delivery: string): Channel {
    Fresh(id, signer, d).(sequence := 1, pending := [Pending(delivery, d, 1, DEFAULT_EXPIRES_AT)])
  }

  // Reserve the whole deposit, pay it all by a direct voucher, and commit the
  // reservation on top.
  function Overcommitted(id: string, signer: string, d: u64, delivery: string, v: Voucher, w: Voucher): seq<Event> {
    [Open(OpenRequest(true, Some(id), Some(d), signer, true)), Begin(DeliveryRequest(id, d, delivery, 0)),
     StartVoucher(0, v, 0), Land(0), StartCommit(0, delivery, w, 0), Land(0)]
  }

  lemma RunTwo(cfg: Config, s: State, es: seq<Event>, n: nat)
    requires n + 2 <= |es|
    ensures Run(cfg, s, es[..n + 2]) == Step(cfg, Step(cfg, Run(cfg, s, es[..n]), es[n]), es[n + 1])
  {
    hide Step;
    assert es[..n + 2][..n + 1] == es[..n + 1] && es[..n + 1][..n] == es[..n];
  }

  lemma OpenAndReserve(cfg: Config, id: string, signer: string, d: u64, delivery: string)
    requires 0 < d <= cfg.maxCap && delivery != "" && (cfg.delegate.None? || cfg.delegate.value == signer)
    ensures
      var events := Overcommitted(id, signer, d, delivery, Plain(id, 0, ""), Plain(id, 0, ""));
      var s := Step(cfg, Step(cfg, Initial(id), events[0]), events[1]);
      s.id == id && s.calls == map[] && s.channel == Some(ReservedAll(id, signer, d, delivery))
  {
    EmptySum();
    var c, r := Fresh(id, signer, d), DeliveryRequest(id, d, delivery, 0);
    assert Reservation(c, r) == Pending(delivery, d, 1, DEFAULT_EXPIRES_AT);
    assert c.pending + [Reservation(c, r)] == [Reservation(c, r)];
  }

  lemma VoucherLands(cfg: Config, s: State, v: Voucher)
    requires s.calls == map[] && s.channel.Some? && v.cumulative.Some? && v.channelId == s.id == s.channel.value.id
    requires Raising(cfg, s.channel.value, v) && v.cumulative.value <= s.channel.value.deposit && v.expiresAt == 0
    requires v.cumulative.value - s.channel.value.cumulative >= cfg.minDelta
    ensures var t := Step(cfg, Step(cfg, s, StartVoucher(0, v, 0)), Land(0));
      t.id == s.id && t.calls == map[] && t.channel == Some(Advanced(s.channel.value, v))
      && t.answers == s.answers
        + [Accepted(v.cumulative.value, v.cumulative.value - s.channel.value.cumulative, false)]
  {
    assert s.calls[0 := VoucherCall(v)] - {0} == s.calls;
  }

  lemma CommitLands(cfg: Config, s: State, v: Voucher)
    requires s.calls == map[] && s.channel.Some? && v.channelId == s.id
    requires var c := s.channel.value;
      && |c.pending| == 1 && c.committed == [] && c.pending[0].expiresAt > 0 && Raising(cfg, c, v)
      && v.expiresAt == 0 && v.cumulative.value - c.cumulative <= c.pending[0].amount
    ensures var c := s.channel.value;
      var t := Step(cfg, Step(cfg, s, StartCommit(0, c.pending[0].id, v, 0)), Land(0));
      t.channel == Some(CommittedInto(c, 0, v))
  {
  }

  // For every deposit a run takes the watermark to twice of it.
  lemma TwiceIsReached(cfg: Config, id: string, signer: string, d: u64, delivery: string)
    requires 0 < d <= cfg.maxCap && 2 * d < TWO_64 && cfg.minDelta <= d && delivery != ""
    requires cfg.delegate.None? || cfg.delegate.value == signer
    requires cfg.verifies(Plain(id, d, "v"), signer) && cfg.verifies(Plain(id, 2 * d, "w"), signer)
    ensures var v, w := Plain(id, d, "v"), Plain(id, 2 * d, "w");
      var t := Run(cfg, Initial(id), Overcommitted(id, signer, d, delivery, v, w));
      t.channel.Some? && t.channel.value.cumulative == 2 * d && t.channel.value.deposit == d
  {
    var v, w := Plain(id, d, "v"), Plain(id, 2 * d, "w");
    var es := Overcommitted(id, signer, d, delivery, v, w);
    hide Step, Run;
    OpenAndReserve(cfg, id, signer, d, delivery);
    var s2 := Step(cfg, Step(cfg, Initial(id), es[0]), es[1]);
    VoucherLands(cfg, s2, v);
    var s4 := Step(cfg, Step(cfg, s2, es[2]), es[3]);
    CommitLands(cfg, s4, w);
    RunSix(cfg, Initial(id), es);
  }

  lemma RunEnds(cfg: Config, s: State, es: seq<Event>)
    ensures Run(cfg, s, es[..0]) == s && Run(cfg, s, es[..|es|]) == Run(cfg, s, es)
  {
    assert es[..|es|] == es;
  }

  lemma RunSix(cfg: Config, s: State, es: seq<Event>)
    requires |es| == 6
    ensures var s2 := Step(cfg, Step(cfg, s, es[0]), es[1]);
      var s4 := Step(cfg, Step(cfg, s2, es[2]), es[3]);
      Run(cfg, s, es) == Step(cfg, Step(cfg, s4, es[4]), es[5])
  {
    hide Step, Run;
    RunEnds(cfg, s, es);
    RunTwo(cfg, s, es, 0);
    RunTwo(cfg, s, es, 2);
    RunTwo(cfg, s, es, 4);
  }

  // ---- what vouchers prove ----

  // The voucher on record is one the signer signed for this very watermark.
  // ProcessClose does not compare the final voucher's channel with its own.
  ghost predicate BackedBy(cfg: Config, c: Channel, v: Voucher) {
    && v.cumulative == Some(c.cumulative) && cfg.verifies(v, c.signer)
    && c.highestSignature == Some(v.signature) && c.highestExpiresAt == Some(v.expiresAt)
    && (c.closeRequestedAt.None? ==> v.channelId == c.id)
  }

  ghost predicate Backed(cfg: Config, c: Channel) {
    c.cumulative > 0 ==> exists v :: BackedBy(cfg, c, v)
  }

  lemma MoveKeepsBacked(cfg: Config, c: Channel, m: Move, d: Channel, a: Answer)
    requires Backed(cfg, c) && Does(cfg, c.id, c, m, d, a)
    ensures Backed(cfg, d)
  {
    hide Sum, PendingAt, CommittedAt, Known, Cached;
    var raised := if m.Commits? then Some(m.v) else MoveVoucher(m);
    if raised.Some? {
      assert BackedBy(cfg, d, raised.value);
    } else if c.cumulative > 0 {
      var v :| BackedBy(cfg, c, v);
      assert BackedBy(cfg, d, v);
    }
  }

  ghost predicate BackedState(cfg: Config, s: State) {
    s.channel.Some? ==> Backed(cfg, s.channel.value)
  }

  // In every run the watermark is backed by a voucher of the signer.
  lemma {:induction false} WatermarkIsSigned(cfg: Config, id: string, events: seq<Event>)
    ensures BackedState(cfg, Run(cfg, Initial(id), events))
  {
    hide Does, Step, Backed;
    if events != [] {
      var s, e := Run(cfg, Initial(id), events[..|events| - 1]), events[|events| - 1];
      WatermarkIsSigned(cfg, id, events[..|events| - 1]);
      RunKeepsInFlight(cfg, id, events[..|events| - 1]);
      var m, a := StepMoves(cfg, s, e);
      if a.Some? && s.channel.Some? {
        MoveKeepsBacked(cfg, s.channel.value, m, Step(cfg, s, e).channel.value, a.value);
      } else if a.Some? && Step(cfg, s, e).channel.Some? {
        FreshIsBacked(cfg, s.id, m.signer, m.deposit);
      }
    }
  }

  lemma FreshIsBacked(cfg: Config, id: string, signer: string, deposit: u64)
    ensures Backed(cfg, Fresh(id, signer, deposit))
  {
  }

  // ---- after a close or a seal ----

  ghost predicate FrozenAs(c: Channel, d: Channel) {
    && !IsOpen(d) && d.cumulative == c.cumulative && d.deposit == c.deposit
    && d.highestSignature == c.highestSignature && d.highestExpiresAt == c.highestExpiresAt
    && d.pending == c.pending && d.committed == c.committed
  }

  lemma MoveKeepsFrozen(cfg: Config, id: string, c: Channel, b: Channel, m: Move, d: Channel, a: Answer)
    requires FrozenAs(c, b) && Does(cfg, id, b, m, d, a)
    ensures FrozenAs(c, d) && Charge(a) == 0
  {
  }

  // Nothing but the seal moves a channel that is closing or sealed, and no
  // call is charged, not even one that passed its check before.
  lemma {:induction false} ClosedIsFrozen(cfg: Config, s: State, events: seq<Event>)
    requires InFlight(cfg, s) && s.channel.Some? && !IsOpen(s.channel.value)
    ensures var t := Run(cfg, s, events);
      InFlight(cfg, t) && t.channel.Some? && FrozenAs(s.channel.value, t.channel.value)
      && Charged(t.answers) == Charged(s.answers)
  {
    hide InFlight, Does, Step;
    if events != [] {
      var t, e := Run(cfg, s, events[..|events| - 1]), events[|events| - 1];
      ClosedIsFrozen(cfg, s, events[..|events| - 1]);
      StepKeepsInFlight(cfg, t, e);
      var m, a := StepMoves(cfg, t, e);
      if a.Some? {
        MoveKeepsFrozen(cfg, t.id, s.channel.value, t.channel.value, m, Step(cfg, t, e).channel.value, a.value);
        assert (t.answers + [a.value])[..|t.answers|] == t.answers;
      }
    }
  }

  // ---- calls that nothing interrupts, and one that is overtaken ----

  lemma AloneIsARun(cfg: Config, s: State, p: nat, v: Voucher, now: i64)
    requires p !in s.calls && v.channelId == s.id
    ensures Step(cfg, Step(cfg, s, StartVoucher(p, v, now)), Land(p))
      == Answering(s, VoucherAlone(cfg, s.channel, v, now))
  {
    assert s.calls[p := VoucherCall(v)] - {p} == s.calls;
  }

  lemma CommitAloneIsARun(cfg: Config, s: State, p: nat, delivery: string, v: Voucher, now: i64)
    requires p !in s.calls && v.channelId == s.id
    ensures Step(cfg, Step(cfg, s, StartCommit(p, delivery, v, now)), Land(p))
      == Answering(s, CommitAlone(cfg, s.channel, delivery, v, now))
  {
    hide LandCommit;
    assert s.calls[p := CommitCall(delivery, v, now)] - {p} == s.calls;
  }

  // Saturating at 64 bits does not show: an expiry passes exactly if there is
  // none, or it lies beyond now and the settlement window as plain numbers.
  predicate Outlasts(expiresAt: i64, now: i64, window: i64) {
    expiresAt == 0 || (expiresAt > now && expiresAt > now + window)
  }

  lemma ExpiryExactly(expiresAt: i64, now: i64, window: i64)
    ensures ExpiryRejection(expiresAt, now, window).None? <==> Outlasts(expiresAt, now, window)
    ensures ExpiryRejection(expiresAt, now, window) in {None, Some(Expired), Some(ExpiryTooSoon)}
    ensures ExpiryRejection(expiresAt, now, window) == Some(Expired) <==> expiresAt != 0 && expiresAt <= now
  {
  }

  // Alone, a voucher is charged exactly if it is for this open channel, raises
  // the watermark by the minimum at least and to the deposit at most, is signed
  // and outlasts the window.
  lemma VoucherChargesExactly(cfg: Config, c: Channel, v: Voucher, now: i64)
    ensures var rise := v.cumulative.GetOr(0) - c.cumulative;
      Charge(VoucherAlone(cfg, Some(c), v, now).1) > 0
      <==> (
        && v.channelId == c.id && IsOpen(c) && rise > 0 && rise >= cfg.minDelta && v.cumulative.value <= c.deposit
        && cfg.verifies(v, c.signer) && Outlasts(v.expiresAt, now, cfg.window))
  {
    ExpiryExactly(v.expiresAt, now, cfg.window);
  }

  // Alone, a commit is charged exactly if its delivery is pending and has not
  // expired, and its voucher raises the watermark of the open channel by no
  // more than was reserved, is signed and outlasts the window.
  lemma CommitChargesExactly(cfg: Config, c: Channel, delivery: string, v: Voucher, now: i64)
    requires DistinctIds(c)
    ensures var i, rise := PendingAt(c.pending, delivery), v.cumulative.GetOr(0) - c.cumulative;
      Charge(CommitAlone(cfg, Some(c), delivery, v, now).1) > 0
      <==> (
        && i < |c.pending| && c.pending[i].expiresAt > now && IsOpen(c) && 0 < rise <= c.pending[i].amount
        && cfg.verifies(v, c.signer) && Outlasts(v.expiresAt, now, cfg.window))
  {
    hide PendingAt, CommittedAt, ExpiryRejection;
    ExpiryExactly(v.expiresAt, now, cfg.window);
    var i := PendingAt(c.pending, delivery);
    if i < |c.pending| {
      FoundPending(c, i);
    }
  }

  // Alone, a voucher is answered as a replay exactly if it is the recorded one,
  // the channel is open, and it still is signed and outlasts the window.
  lemma ReplaysExactly(cfg: Config, c: Channel, v: Voucher, now: i64)
    ensures var a := VoucherAlone(cfg, Some(c), v, now).1;
      && (a.Accepted? && a.replayed <==> (
            && v.channelId == c.id && IsOpen(c) && v.cumulative == Some(c.cumulative)
            && c.highestSignature == Some(v.signature)
            && cfg.verifies(v, c.signer) && Outlasts(v.expiresAt, now, cfg.window)))
      && (a.Accepted? && a.replayed ==> a.charged == 0 && a.cumulative == c.cumulative)
  {
    ExpiryExactly(v.expiresAt, now, cfg.window);
  }

  // Alone, a commit is answered from the record exactly if its delivery is
  // committed, with this very voucher, and that still is signed and outlasts
  // the window, on an open channel or not.
  lemma CachedReceiptExactly(cfg: Config, c: Channel, k: nat, v: Voucher, now: i64)
    requires DistinctIds(c) && k < |c.committed|
    ensures var a := CommitAlone(cfg, Some(c), c.committed[k].id, v, now).1;
      && (a.Receipt? <==> (
            && v.cumulative == Some(c.committed[k].cumulative) && v.signature == c.committed[k].signature
            && cfg.verifies(v, c.signer) && Outlasts(v.expiresAt, now, cfg.window)))
      && (a.Receipt? ==>
            a == Receipt(c.committed[k].id, c.committed[k].amount, c.committed[k].cumulative, true))
  {
    hide PendingAt, CommittedAt, ExpiryRejection;
    ExpiryExactly(v.expiresAt, now, cfg.window);
    assert CommittedAt(c.committed, c.committed[k].id) == k;
  }

  // The pinned order: each rejection is given for its own check, with all the
  // earlier ones passed; a replay skips the three checks of the amount.
  lemma JudgedInOrder(cfg: Config, minDelta: u64, c: Channel, v: Voucher, now: i64)
    ensures var verdict, cumulative := Judge(cfg, minDelta, c, v, now), v.cumulative.GetOr(0);
      var replay := v.cumulative == Some(c.cumulative) && c.highestSignature == Some(v.signature);
      var live := v.channelId == c.id && v.cumulative.Some? && IsOpen(c);
      var rises := replay || (c.cumulative < cumulative <= c.deposit && cumulative - c.cumulative >= minDelta);
      var signed := cfg.verifies(v, c.signer);
      && (verdict == Rejected(ChannelMismatch) <==> v.channelId != c.id)
      && (verdict == Rejected(BadAmount) <==> v.channelId == c.id && v.cumulative.None?)
      && (verdict == Rejected(AlreadySealed) <==> v.channelId == c.id && v.cumulative.Some? && c.isSealed)
      && (verdict == Rejected(ClosePending) <==> (
            v.channelId == c.id && v.cumulative.Some? && !c.isSealed && c.closeRequestedAt.Some?))
      && (verdict == Rejected(NotMonotonic) <==> live && !replay && cumulative <= c.cumulative)
      && (verdict == Rejected(ExceedsDeposit) <==> live && !replay && cumulative > c.cumulative && cumulative > c.deposit)
      && (verdict == Rejected(BelowMinDelta) <==> (
            live && !replay && c.cumulative < cumulative <= c.deposit && cumulative - c.cumulative < minDelta))
      && (verdict == Rejected(InvalidSignature) <==> live && rises && !signed)
      && (verdict in {Rejected(Expired), Rejected(ExpiryTooSoon)} <==> (
            live && rises && signed && !Outlasts(v.expiresAt, now, cfg.window)))
      && (verdict == Replay <==> live && replay && signed && Outlasts(v.expiresAt, now, cfg.window))
  {
    ExpiryExactly(v.expiresAt, now, cfg.window);
  }

  // ---- the order of the checks ----

  // The first check that fails names the refusal; none fails if `next` is None.
  function Unless(passed: bool, why: Refusal, next: Option<Refusal>): Option<Refusal> {
    if passed then next else Some(why)
  }

  function WhyOf(a: Answer): Option<Refusal> {
    if a.Refused? then Some(a.why) else None
  }

  // The three checks every call under the lock begins with.
  function LiveFirst(c: Option<Channel>, next: Option<Refusal>): Option<Refusal> {
    Unless(c.Some?, NotFound,
      Unless(c.Some? && !c.value.isSealed, AlreadySealed,
        Unless(c.Some? && c.value.closeRequestedAt.None?, ClosePending, next)))
  }

  lemma OpenInOrder(cfg: Config, c: Option<Channel>, o: OpenRequest)
    ensures var deposit := o.deposit.GetOr(0);
      WhyOf(OpenChannel(cfg, c, o).1) ==
        Unless(o.supported, Unsupported,
          Unless(o.sessionId.Some?, BadSession,
            Unless(o.deposit.Some?, BadAmount,
              Unless(deposit > 0, ZeroDeposit,
                Unless(deposit <= cfg.maxCap, AboveCap,
                  Unless(cfg.delegate.None? || cfg.delegate.value == o.signer, NotOperator,
                    Unless(o.confirmed, Unconfirmed,
                      Unless(c.None? || !c.value.isSealed, AlreadySealed,
                        Unless(c.None? || c.value.signer == o.signer, WrongSigner, None)))))))))
  {
  }

  lemma TopUpInOrder(cfg: Config, c: Option<Channel>, newDeposit: Option<u64>, confirmed: bool)
    ensures WhyOf(TopUp(cfg, c, newDeposit, confirmed).1) ==
      Unless(newDeposit.Some?, BadAmount,
        Unless(confirmed, Unconfirmed,
          LiveFirst(c,
            Unless(c.Some? && newDeposit.GetOr(0) > c.value.deposit, DepositNotRaised,
              Unless(newDeposit.GetOr(0) <= cfg.maxCap, AboveCap, None)))))
  {
  }

  lemma BeginInOrder(c: Option<Channel>, r: DeliveryRequest)
    requires c.Some? ==> Bounded(c.value)
    ensures WhyOf(Reserve(c, r).1) ==
      Unless(r.amount > 0, ZeroAmount,
        LiveFirst(c,
          Unless(c.Some? && c.value.cumulative + Sum(c.value.pending) + r.amount <= c.value.deposit, NoCapacity,
            Unless(c.Some? && !Known(c.value, DeliveryId(c.value, r)), Duplicate, None))))
  {
    hide Sum, Known, DeliveryId, NextSequence;
  }

  // A waiting voucher that is the recorded one by now is a replay; else it
  // must still raise the watermark.
  lemma LandInOrder(c: Option<Channel>, v: Voucher)
    requires v.cumulative.Some?
    ensures var a := LandVoucher(c, v).1;
      var replay := c.Some? && v.cumulative == Some(c.value.cumulative) && c.value.highestSignature == Some(v.signature);
      && WhyOf(a) == LiveFirst(c, Unless(c.Some? && (replay || v.cumulative.value > c.value.cumulative), NotMonotonic, None))
      && (a.Accepted? ==> a.replayed == replay && a.cumulative == v.cumulative.value)
  {
  }

  lemma CheckCommitInOrder(cfg: Config, c: Option<Channel>, delivery: string, v: Voucher, now: i64)
    ensures var k, i := CommittedAt(RecordOf(c).committed, delivery), PendingAt(RecordOf(c).pending, delivery);
      var done, waits := k < |RecordOf(c).committed|, i < |RecordOf(c).pending|;
      var a := CheckCommit(cfg, c, delivery, v, now);
      (if a.Some? then WhyOf(a.value) else None) ==
        Unless(v.cumulative.Some?, BadAmount,
          Unless(c.Some?, NotFound,
            Unless(done ==> SameVoucher(RecordOf(c).committed[k], v), OtherVoucher,
              Unless(done || waits, NoDelivery,
                Unless(done || (waits ==> RecordOf(c).pending[i].expiresAt > now), DeliveryExpired,
                  Unless(done || v.cumulative.GetOr(0) > RecordOf(c).cumulative, NotMonotonic,
                    SessionVoucherRejection(cfg, v, RecordOf(c).signer, now)))))))
  {
    hide PendingAt, CommittedAt, ExpiryRejection;
  }

  // The record, or an empty one to write a check of a missing channel over.
  function RecordOf(c: Option<Channel>): Channel {
    c.GetOr(Fresh("", "", 0))
  }

  lemma LandCommitInOrder(c: Option<Channel>, delivery: string, v: Voucher, now: i64)
    requires v.cumulative.Some?
    ensures var k, i := CommittedAt(RecordOf(c).committed, delivery), PendingAt(RecordOf(c).pending, delivery);
      var done, waits := k < |RecordOf(c).committed|, i < |RecordOf(c).pending|;
      var rise := v.cumulative.value - RecordOf(c).cumulative;
      var a := LandCommit(c, delivery, v, now).1;
      && WhyOf(a) ==
        LiveFirst(c,
          Unless(done ==> SameVoucher(RecordOf(c).committed[k], v), OtherVoucher,
            Unless(done || waits, NoDelivery,
              Unless(done || (waits ==> RecordOf(c).pending[i].expiresAt > now), DeliveryExpired,
                Unless(done || rise > 0, NotMonotonic,
                  Unless(done || (waits ==> rise <= RecordOf(c).pending[i].amount), ExceedsReserved, None))))))
      && (a.Receipt? ==> a.replayed == done)
  {
    hide PendingAt, CommittedAt;
  }

  lemma CloseInOrder(cfg: Config, c: Option<Channel>, final: Option<Voucher>, now: i64)
    ensures var v := final.GetOr(Voucher("", Some(0), 0, ""));
      var cumulative, watermark := v.cumulative.GetOr(0), RecordOf(c).cumulative;
      WhyOf(CloseChannel(cfg, c, final, now).1) ==
        LiveFirst(c,
          if final.None? then None
          else
            Unless(v.cumulative.Some?, BadAmount,
              Unless(cumulative > watermark || IsReplay(RecordOf(c), v), NotMonotonic,
                Unless(cumulative <= watermark || cumulative <= RecordOf(c).deposit, ExceedsDeposit,
                  SessionVoucherRejection(cfg, v, RecordOf(c).signer, now)))))
  {
    hide ExpiryRejection;
  }

  // The handler's close: a pending close is no failure until a settlement is
  // recorded, and a final voucher is judged without a minimum delta.
  lemma HandlerCloseInOrder(cfg: Config, c: Option<Channel>, final: Option<Voucher>, now: i64)
    ensures var v := final.GetOr(Voucher("", Some(0), 0, ""));
      WhyOf(CloseByHandler(cfg, c, final, now).1) ==
        Unless(c.Some?, NotFound,
          Unless(!RecordOf(c).isSealed, AlreadySealed,
            Unless(RecordOf(c).closeRequestedAt.None? || RecordOf(c).settled.None?, ClosePending,
              if RecordOf(c).closeRequestedAt.Some? || final.None? then None
              else if IsReplay(RecordOf(c), v) then SessionVoucherRejection(cfg, v, RecordOf(c).signer, now)
              else
                match Judge(cfg, 0, RecordOf(c), v, now)
                case Rejected(why) => Some(why)
                case _ => None)))
  {
    hide ExpiryRejection;
  }

  // Expiry first, then the signature.
  lemma RejectionInOrder(cfg: Config, v: Voucher, signer: string, now: i64)
    ensures SessionVoucherRejection(cfg, v, signer, now) ==
      Unless(v.expiresAt == 0 || v.expiresAt > now, Expired,
        Unless(Outlasts(v.expiresAt, now, cfg.window), ExpiryTooSoon,
          Unless(cfg.verifies(v, signer), InvalidSignature, None)))
  {
    ExpiryExactly(v.expiresAt, now, cfg.window);
  }

  lemma {:induction false} RunKeepsRecord(cfg: Config, s: State, events: seq<Event>)
    requires InFlight(cfg, s) && s.channel.Some?
    ensures var t := Run(cfg, s, events);
      InFlight(cfg, t) && t.channel.Some? && t.channel.value.id == s.channel.value.id
      && t.channel.value.signer == s.channel.value.signer && t.channel.value.deposit >= s.channel.value.deposit
  {
    hide InFlight, DoesFrom, Step;
    if events != [] {
      var t, e := Run(cfg, s, events[..|events| - 1]), events[|events| - 1];
      RunKeepsRecord(cfg, s, events[..|events| - 1]);
      StepKeepsInFlight(cfg, t, e);
      var m, a := StepMoves(cfg, t, e);
      if a.Some? {
        DoesKeeps(cfg, t.id, t.channel, m, Step(cfg, t, e).channel, a.value);
      }
    }
  }

  // The minimum is not checked again under the lock. A voucher that waited
  // while anything happened is charged at least the minimum exactly when its
  // check would still pass.
  lemma MinimumMetExactly(cfg: Config, s: State, v: Voucher, now: i64, later: seq<Event>)
    requires InFlight(cfg, s) && CheckVoucher(cfg, s.channel, v, now).None?
    requires var a := LandVoucher(Run(cfg, s, later).channel, v).1; a.Accepted? && !a.replayed
    ensures var c := Run(cfg, s, later).channel;
      LandVoucher(c, v).1.charged >= cfg.minDelta <==> CheckVoucher(cfg, c, v, now).None?
  {
    RunKeepsRecord(cfg, s, later);
    hide InFlight, Run;
  }

  // A voucher that another one overtakes is charged the difference between
  // the two, whatever the minimum.
  lemma OvertakenBelowMinimum(cfg: Config, s: State, v: Voucher, w: Voucher, now: i64)
    requires s.calls == map[] && s.channel.Some? && v.channelId == w.channelId == s.id
    requires CheckVoucher(cfg, s.channel, v, now).None? && CheckVoucher(cfg, s.channel, w, now).None?
    requires v.cumulative.value < w.cumulative.value
    ensures var waiting := Step(cfg, Step(cfg, s, StartVoucher(0, v, now)), StartVoucher(1, w, now));
      Step(cfg, Step(cfg, waiting, Land(0)), Land(1)).answers == s.answers
        + [Accepted(v.cumulative.value, v.cumulative.value - s.channel.value.cumulative, false)]
        + [Accepted(w.cumulative.value, w.cumulative.value - v.cumulative.value, false)]
  {
  }
}
