// The consumed-signature ledger of go/paycore/consumed.go: claim and release
// over a store that many replicas share, one atomic store operation a step.
module Ledger {
  import opened Common

  function ConsumedSignatureKey(signature: string): string {
    "solana:consumed-signature:" + signature
  }

  function LegacyKey(signature: string): string {
    "solana-charge:consumed:" + signature
  }

  // Neither key family collides with itself or with the other.
  lemma KeysNeverMeet(s: string, t: string)
    ensures ConsumedSignatureKey(s) == ConsumedSignatureKey(t) <==> s == t
    ensures LegacyKey(s) == LegacyKey(t) <==> s == t
    ensures ConsumedSignatureKey(s) != LegacyKey(t)
  {
    assert ConsumedSignatureKey(s)[26..] == s && ConsumedSignatureKey(t)[26..] == t;
    assert LegacyKey(s)[23..] == s && LegacyKey(t)[23..] == t;
    assert ConsumedSignatureKey(s)[6] == ':' && LegacyKey(t)[6] == '-';
  }

  // ---- the step system ----

  // What the network makes of one store operation: it answers, or the caller
  // gets an error and the operation never ran, ran, or will still run later.
  datatype Outcome = Answered | NeverRan | RanUnanswered | RunsLater

  // A replica of this release, or of the previous one, which claims and
  // releases the legacy key alone.
  datatype Release = Current | Previous

  // Where a Claim or Release call stands; the last four have returned.
  datatype Pc =
    | TakeLegacy
    | TakeLedger
    | GiveBack(failed: bool)
    | Won
    | DropLedger
    | DropLegacy
    | Refused
    | Failed
    | Released
    | ReleaseFailed

  datatype Process = Process(
    release: Release, signature: string, pc: Pc, latePuts: set<string>, lateDelete: Option<string>)

  datatype State = State(store: set<string>, procs: map<nat, Process>)

  datatype Event =
    | StartClaim(p: nat, release: Release, signature: string)
    | Operate(p: nat, outcome: Outcome)
    | StartRelease(p: nat)
    | LandPut(p: nat, key: string)
    | LandDelete(p: nat)

  function Initial(store: set<string>): State {
    State(store, map[])
  }

  function PutEffect(store: set<string>, key: string, o: Outcome): set<string> {
    if o == Answered || o == RanUnanswered then store + {key} else store
  }

  function DeleteEffect(store: set<string>, key: string, o: Outcome): set<string> {
    if o == Answered || o == RanUnanswered then store - {key} else store
  }

  function DelayPut(pr: Process, key: string, o: Outcome): Process {
    if o == RunsLater then pr.(latePuts := pr.latePuts + {key}) else pr
  }

  function DelayDelete(pr: Process, key: string, o: Outcome): Process {
    if o == RunsLater then pr.(lateDelete := Some(key)) else pr
  }

  // The next store operation of a call and what the call does with the answer.
  function Advance(store: set<string>, pr: Process, o: Outcome): (set<string>, Process) {
    var legacy, ledger := LegacyKey(pr.signature), ConsumedSignatureKey(pr.signature);
    match pr.pc
    case TakeLegacy =>
      (PutEffect(store, legacy, o),
       DelayPut(pr, legacy, o).(pc :=
         if o != Answered then Failed
         else if legacy in store then Refused
         else if pr.release == Current then TakeLedger else Won))
    case TakeLedger =>
      (PutEffect(store, ledger, o),
       DelayPut(pr, ledger, o).(pc :=
         if o != Answered then GiveBack(true)
         else if ledger in store then GiveBack(false)
         else Won))
    case GiveBack(failed) =>
      (DeleteEffect(store, legacy, o), DelayDelete(pr, legacy, o).(pc := if failed then Failed else Refused))
    case DropLedger =>
      (DeleteEffect(store, ledger, o),
       DelayDelete(pr, ledger, o).(pc := if o == Answered then DropLegacy else ReleaseFailed))
    case DropLegacy =>
      (DeleteEffect(store, legacy, o),
       DelayDelete(pr, legacy, o).(pc := if o == Answered then Released else ReleaseFailed))
    case _ => (store, pr)
  }

  // One event; an event that is not enabled changes nothing.
  function Step(s: State, e: Event): State {
    match e
    case StartClaim(p, release, signature) =>
      if p in s.procs then s
      else s.(procs := s.procs[p := Process(release, signature, TakeLegacy, {}, None)])
    case Operate(p, o) =>
      if p !in s.procs then s
      else
        var (store, pr) := Advance(s.store, s.procs[p], o);
        State(store, s.procs[p := pr])
    case StartRelease(p) =>
      if p in s.procs && s.procs[p].pc == Won
      then s.(procs := s.procs[p := s.procs[p].(pc := if s.procs[p].release == Current then DropLedger else DropLegacy)])
      else s
    case LandPut(p, key) =>
      if p in s.procs && key in s.procs[p].latePuts
      then State(s.store + {key}, s.procs[p := s.procs[p].(latePuts := s.procs[p].latePuts - {key})])
      else s
    case LandDelete(p) =>
      if p in s.procs && s.procs[p].lateDelete.Some?
      then State(s.store - {s.procs[p].lateDelete.value}, s.procs[p := s.procs[p].(lateDelete := None)])
      else s
  }

  function Run(s: State, events: seq<Event>): State {
    if events == [] then s else Step(Run(s, events[..|events| - 1]), events[|events| - 1])
  }

  // ---- safety ----

  // A call that took a key and may still delete it.
  ghost predicate HoldsLegacy(pr: Process) {
    || pr.pc in {TakeLedger, GiveBack(true), GiveBack(false), Won, DropLedger, DropLegacy}
    || pr.lateDelete == Some(LegacyKey(pr.signature))
  }

  ghost predicate HoldsLedger(pr: Process) {
    || (pr.release == Current && pr.pc in {Won, DropLedger})
    || pr.lateDelete == Some(ConsumedSignatureKey(pr.signature))
  }

  ghost predicate Sane(pr: Process) {
    && (pr.pc in {TakeLedger, GiveBack(true), GiveBack(false), DropLedger} ==> pr.release == Current)
    && pr.latePuts <= {LegacyKey(pr.signature), ConsumedSignatureKey(pr.signature)}
    && (pr.lateDelete == None || (pr.lateDelete == Some(LegacyKey(pr.signature)) && pr.pc in {Failed, Refused, ReleaseFailed})
        || (pr.lateDelete == Some(ConsumedSignatureKey(pr.signature)) && pr.pc == ReleaseFailed))
  }

  // Every key that someone may still delete is in the store and has one holder.
  ghost predicate Exclusive(s: State) {
    && (forall p | p in s.procs :: Sane(s.procs[p]))
    && (forall p | p in s.procs && HoldsLegacy(s.procs[p]) :: LegacyKey(s.procs[p].signature) in s.store)
    && (forall p | p in s.procs && HoldsLedger(s.procs[p]) :: ConsumedSignatureKey(s.procs[p].signature) in s.store)
    && (forall p, q | p in s.procs && q in s.procs && HoldsLegacy(s.procs[p]) && HoldsLegacy(s.procs[q])
          && s.procs[p].signature == s.procs[q].signature :: p == q)
    && (forall p, q | p in s.procs && q in s.procs && HoldsLedger(s.procs[p]) && HoldsLedger(s.procs[q])
          && s.procs[p].signature == s.procs[q].signature :: p == q)
  }

  // A move of one call on one of its keys: it deletes the key only as its
  // holder, and becomes the holder only of a key that was free.
  ghost predicate KeyMove(before: set<string>, after: set<string>, key: string, held: bool, holds: bool) {
    && (key in before && key !in after ==> held && !holds)
    && (holds ==> key in after && (held || key !in before))
  }

  ghost predicate LocalMove(store: set<string>, pr: Process, store': set<string>, pr': Process) {
    var legacy, ledger := LegacyKey(pr.signature), ConsumedSignatureKey(pr.signature);
    && Sane(pr') && pr'.signature == pr.signature
    && (forall key | key != legacy && key != ledger :: key in store <==> key in store')
    && KeyMove(store, store', legacy, HoldsLegacy(pr), HoldsLegacy(pr'))
    && KeyMove(store, store', ledger, HoldsLedger(pr), HoldsLedger(pr'))
  }

  lemma AdvanceIsLocal(store: set<string>, pr: Process, o: Outcome)
    requires Sane(pr)
    requires HoldsLegacy(pr) ==> LegacyKey(pr.signature) in store
    requires HoldsLedger(pr) ==> ConsumedSignatureKey(pr.signature) in store
    ensures var (store', pr') := Advance(store, pr, o); LocalMove(store, pr, store', pr')
  {
    KeysNeverMeet(pr.signature, pr.signature);
    hide LegacyKey, ConsumedSignatureKey;
  }

  lemma LocalMoveKeepsExclusive(s: State, p: nat, store: set<string>, pr: Process)
    requires Exclusive(s) && p in s.procs && LocalMove(s.store, s.procs[p], store, pr)
    ensures Exclusive(State(store, s.procs[p := pr]))
  {
    hide LegacyKey, ConsumedSignatureKey, HoldsLegacy, HoldsLedger, Sane;
    var t := State(store, s.procs[p := pr]);
    forall q | q in t.procs && HoldsLegacy(t.procs[q])
      ensures LegacyKey(t.procs[q].signature) in t.store
    {
      KeysNeverMeet(pr.signature, t.procs[q].signature);
    }
    forall q | q in t.procs && HoldsLedger(t.procs[q])
      ensures ConsumedSignatureKey(t.procs[q].signature) in t.store
    {
      KeysNeverMeet(t.procs[q].signature, pr.signature);
      KeysNeverMeet(pr.signature, t.procs[q].signature);
    }
  }

  // Every event but the start of a call is a local move of one call, or nothing.
  lemma EventIsLocal(s: State, e: Event)
    requires Exclusive(s) && !e.StartClaim?
    ensures var t := Step(s, e);
      t == s || (e.p in s.procs && e.p in t.procs && t == State(t.store, s.procs[e.p := t.procs[e.p]])
                 && LocalMove(s.store, s.procs[e.p], t.store, t.procs[e.p]))
  {
    if e.p in s.procs {
      var pr := s.procs[e.p];
      KeysNeverMeet(pr.signature, pr.signature);
      hide LegacyKey, ConsumedSignatureKey;
      if e.Operate? {
        hide Advance, Sane, HoldsLegacy, HoldsLedger, LocalMove;
        SaneHolder(s, e.p);
        AdvanceIsLocal(s.store, pr, e.outcome);
      }
    }
  }

  lemma SaneHolder(s: State, p: nat)
    requires Exclusive(s) && p in s.procs
    ensures var pr := s.procs[p];
      && Sane(pr)
      && (HoldsLegacy(pr) ==> LegacyKey(pr.signature) in s.store)
      && (HoldsLedger(pr) ==> ConsumedSignatureKey(pr.signature) in s.store)
  {
  }

  lemma StepKeepsExclusive(s: State, e: Event)
    requires Exclusive(s)
    ensures Exclusive(Step(s, e))
  {
    if e.StartClaim? {
      KeysNeverMeet(e.signature, e.signature);
    } else {
      hide LocalMove, Advance, Exclusive;
      EventIsLocal(s, e);
      var t := Step(s, e);
      if t != s {
        LocalMoveKeepsExclusive(s, e.p, t.store, t.procs[e.p]);
      }
    }
  }

  lemma {:induction false} RunKeepsExclusive(s: State, events: seq<Event>)
    requires Exclusive(s)
    ensures Exclusive(Run(s, events))
  {
    hide Step, Exclusive;
    if events != [] {
      RunKeepsExclusive(s, events[..|events| - 1]);
      StepKeepsExclusive(Run(s, events[..|events| - 1]), events[|events| - 1]);
    }
  }

  // At most one authorisation: whatever the store held at first, and however
  // calls, failures and late effects interleave, no two unreleased winners
  // hold the same signature, whichever release they run.
  lemma AtMostOneWinner(store: set<string>, events: seq<Event>, p: nat, q: nat)
    requires var s := Run(Initial(store), events);
      && p in s.procs && q in s.procs
      && s.procs[p].pc == Won && s.procs[q].pc == Won
      && s.procs[p].signature == s.procs[q].signature
    ensures p == q
  {
    RunKeepsExclusive(Initial(store), events);
  }

  // Calls for one signature leave the keys of every other signature alone.
  lemma OtherSignaturesUntouched(s: State, e: Event, signature: string)
    requires Exclusive(s)
    requires e.p in s.procs ==> s.procs[e.p].signature != signature
    ensures LegacyKey(signature) in Step(s, e).store <==> LegacyKey(signature) in s.store
    ensures ConsumedSignatureKey(signature) in Step(s, e).store <==> ConsumedSignatureKey(signature) in s.store
  {
    if e.p in s.procs {
      KeysNeverMeet(s.procs[e.p].signature, signature);
      KeysNeverMeet(signature, s.procs[e.p].signature);
      hide LegacyKey, ConsumedSignatureKey;
      assert Sane(s.procs[e.p]);
    }
  }

  // ---- a record from before the ledger ----

  // No call for this signature ever got past the legacy key.
  ghost predicate Frozen(s: State, signature: string, inLedger: bool) {
    && LegacyKey(signature) in s.store
    && (ConsumedSignatureKey(signature) in s.store <==> inLedger)
    && forall p | p in s.procs && s.procs[p].signature == signature ::
         && s.procs[p].pc in {TakeLegacy, Refused, Failed}
         && s.procs[p].latePuts <= {LegacyKey(signature)}
         && s.procs[p].lateDelete == None
  }

  lemma StepKeepsFrozen(s: State, e: Event, signature: string, inLedger: bool)
    requires Exclusive(s) && Frozen(s, signature, inLedger)
    ensures Frozen(Step(s, e), signature, inLedger)
  {
    if e.p in s.procs && s.procs[e.p].signature == signature {
      KeysNeverMeet(signature, signature);
      hide LegacyKey, ConsumedSignatureKey, Exclusive;
    } else {
      OtherSignaturesUntouched(s, e, signature);
      hide LegacyKey, ConsumedSignatureKey, Exclusive;
    }
  }

  // A legacy key present before any call makes every claim of that signature
  // fail, in every run; the record is never rewritten and never migrated.
  lemma {:induction false} LegacyRecordIsFinal(store: set<string>, events: seq<Event>, signature: string)
    requires LegacyKey(signature) in store
    ensures Frozen(Run(Initial(store), events), signature, ConsumedSignatureKey(signature) in store)
  {
    if events != [] {
      var front := events[..|events| - 1];
      LegacyRecordIsFinal(store, front, signature);
      RunKeepsExclusive(Initial(store), front);
      StepKeepsFrozen(Run(Initial(store), front), events[|events| - 1], signature, ConsumedSignatureKey(signature) in store);
    }
  }

  // ---- runs without store errors ----

  ghost predicate FaultFree(events: seq<Event>) {
    forall i | 0 <= i < |events| :: events[i].Operate? ==> events[i].outcome == Answered
  }

  // Every key in the store has a holder.
  ghost predicate Owned(s: State) {
    && (forall p | p in s.procs :: s.procs[p].latePuts == {} && s.procs[p].lateDelete == None)
    && (forall p | p in s.procs :: s.procs[p].pc !in {GiveBack(true), GiveBack(false), Failed, ReleaseFailed})
    && (forall signature {:trigger LegacyKey(signature)} | LegacyKey(signature) in s.store :: HeldBy(s, signature))
    && (forall signature {:trigger ConsumedSignatureKey(signature)} | ConsumedSignatureKey(signature) in s.store ::
          LedgerHeldBy(s, signature))
  }

  ghost predicate HeldBy(s: State, signature: string) {
    exists p :: p in s.procs && s.procs[p].signature == signature && HoldsLegacy(s.procs[p])
  }

  ghost predicate LedgerHeldBy(s: State, signature: string) {
    exists p :: p in s.procs && s.procs[p].signature == signature && HoldsLedger(s.procs[p])
  }

  // Without late effects, whoever holds the ledger key holds the legacy key.
  lemma LedgerHolder(s: State, signature: string)
    requires Owned(s) && ConsumedSignatureKey(signature) in s.store
    ensures exists q ::
      q in s.procs && s.procs[q].signature == signature && HoldsLegacy(s.procs[q]) && s.procs[q].pc in {Won, DropLedger}
  {
    hide LegacyKey, ConsumedSignatureKey;
    assert LedgerHeldBy(s, signature);
    var q :| q in s.procs && s.procs[q].signature == signature && HoldsLedger(s.procs[q]);
    assert HoldsLegacy(s.procs[q]);
  }

  // Who took the legacy key finds the ledger key free, because a release
  // deletes the ledger key first.
  lemma LedgerFree(s: State, p: nat)
    requires Exclusive(s) && Owned(s) && p in s.procs && s.procs[p].pc == TakeLedger
    ensures ConsumedSignatureKey(s.procs[p].signature) !in s.store
  {
    hide LegacyKey, ConsumedSignatureKey;
    assert HoldsLegacy(s.procs[p]);
    if ConsumedSignatureKey(s.procs[p].signature) in s.store {
      LedgerHolder(s, s.procs[p].signature);
    }
  }

  lemma StepKeepsOwned(s: State, e: Event)
    requires Exclusive(s) && Owned(s) && (e.Operate? ==> e.outcome == Answered)
    ensures Owned(Step(s, e))
  {
    CallsStayPlain(s, e);
    hide Exclusive, Step, HeldBy, LedgerHeldBy, LegacyKey, ConsumedSignatureKey;
    var t := Step(s, e);
    forall signature | LegacyKey(signature) in t.store ensures HeldBy(t, signature) {
      HolderMoves(s, e, signature);
    }
    forall signature | ConsumedSignatureKey(signature) in t.store ensures LedgerHeldBy(t, signature) {
      HolderMoves(s, e, signature);
    }
  }

  // Without store errors no call fails, gives back or leaves a late effect.
  lemma CallsStayPlain(s: State, e: Event)
    requires Exclusive(s) && Owned(s) && (e.Operate? ==> e.outcome == Answered)
    ensures var t := Step(s, e);
      && (forall p | p in t.procs :: t.procs[p].latePuts == {} && t.procs[p].lateDelete == None)
      && (forall p | p in t.procs :: t.procs[p].pc !in {GiveBack(true), GiveBack(false), Failed, ReleaseFailed})
  {
    if e.Operate? && e.p in s.procs && s.procs[e.p].pc == TakeLedger {
      LedgerFree(s, e.p);
    }
    hide Exclusive, HeldBy, LedgerHeldBy, LegacyKey, ConsumedSignatureKey;
  }

  lemma HolderMoves(s: State, e: Event, signature: string)
    requires Exclusive(s) && Owned(s) && (e.Operate? ==> e.outcome == Answered)
    ensures LegacyKey(signature) in Step(s, e).store ==> HeldBy(Step(s, e), signature)
    ensures ConsumedSignatureKey(signature) in Step(s, e).store ==> LedgerHeldBy(Step(s, e), signature)
  {
    var t := Step(s, e);
    if e.p in s.procs && s.procs[e.p].signature == signature {
      OwnHolderMoves(s, e);
    } else {
      OtherSignaturesUntouched(s, e, signature);
      hide LegacyKey, ConsumedSignatureKey, Exclusive, Step, HoldsLegacy, HoldsLedger;
      if LegacyKey(signature) in t.store {
        assert HeldBy(s, signature);
        var q :| q in s.procs && s.procs[q].signature == signature && HoldsLegacy(s.procs[q]);
        OthersKept(s, e, q);
      }
      if ConsumedSignatureKey(signature) in t.store {
        assert LedgerHeldBy(s, signature);
        var q :| q in s.procs && s.procs[q].signature == signature && HoldsLedger(s.procs[q]);
        OthersKept(s, e, q);
      }
    }
  }

  lemma OthersKept(s: State, e: Event, q: nat)
    requires q in s.procs && (q != e.p || e.StartClaim?)
    ensures q in Step(s, e).procs && Step(s, e).procs[q] == s.procs[q]
  {
  }

  lemma OwnHolderMoves(s: State, e: Event)
    requires Exclusive(s) && Owned(s) && (e.Operate? ==> e.outcome == Answered)
    requires e.p in s.procs
    ensures var signature := s.procs[e.p].signature;
      && (LegacyKey(signature) in Step(s, e).store ==> HeldBy(Step(s, e), signature))
      && (ConsumedSignatureKey(signature) in Step(s, e).store ==> LedgerHeldBy(Step(s, e), signature))
  {
    var signature := s.procs[e.p].signature;
    var t := Step(s, e);
    KeysNeverMeet(signature, signature);
    if s.procs[e.p].pc == TakeLedger {
      LedgerFree(s, e.p);
    }
    hide LegacyKey, ConsumedSignatureKey;
    assert e.p in t.procs && t.procs[e.p].signature == signature;
    if LegacyKey(signature) in s.store {
      assert HeldBy(s, signature);
      var q :| q in s.procs && s.procs[q].signature == signature && HoldsLegacy(s.procs[q]);
      if q != e.p {
        OthersKept(s, e, q);
      }
    }
    if ConsumedSignatureKey(signature) in s.store {
      assert LedgerHeldBy(s, signature);
      var q :| q in s.procs && s.procs[q].signature == signature && HoldsLedger(s.procs[q]);
      if q != e.p {
        OthersKept(s, e, q);
      }
    }
  }

  lemma {:induction false} RunKeepsOwned(events: seq<Event>)
    requires FaultFree(events)
    ensures Owned(Run(Initial({}), events)) && Exclusive(Run(Initial({}), events))
  {
    if events != [] {
      var front := events[..|events| - 1];
      RunKeepsOwned(front);
      StepKeepsOwned(Run(Initial({}), front), events[|events| - 1]);
      StepKeepsExclusive(Run(Initial({}), front), events[|events| - 1]);
    }
  }

  // Without store errors, a claim that took the legacy key wins with its next
  // operation: it never has to give the key back.
  lemma LegacyTakerWins(events: seq<Event>, p: nat)
    requires FaultFree(events)
    requires var s := Run(Initial({}), events); p in s.procs && s.procs[p].pc == TakeLedger
    ensures Step(Run(Initial({}), events), Operate(p, Answered)).procs[p].pc == Won
  {
    hide LegacyKey, ConsumedSignatureKey, Exclusive, Owned;
    RunKeepsOwned(events);
    LedgerFree(Run(Initial({}), events), p);
  }

  ghost predicate Quiet(s: State) {
    forall p | p in s.procs :: s.procs[p].pc !in {TakeLegacy, TakeLedger, DropLedger, DropLegacy}
  }

  // Without store errors and with no call in flight, the legacy key is in the
  // store exactly when one unreleased winner holds the signature.
  lemma LegacyKeyMeansWinner(events: seq<Event>, signature: string)
    requires FaultFree(events) && Quiet(Run(Initial({}), events))
    ensures var s := Run(Initial({}), events);
      LegacyKey(signature) in s.store <==>
        exists p :: p in s.procs && s.procs[p].signature == signature && s.procs[p].pc == Won
  {
    RunKeepsOwned(events);
    hide LegacyKey, ConsumedSignatureKey;
    var s := Run(Initial({}), events);
    if LegacyKey(signature) in s.store {
      assert HeldBy(s, signature);
    }
    if p :| p in s.procs && s.procs[p].signature == signature && s.procs[p].pc == Won {
      assert HoldsLegacy(s.procs[p]);
    }
  }

  // ---- releasing again ----

  // A Release call that no winner stands behind: the retry of one that failed,
  // or one for a signature the caller never claimed.
  function ReleaseAgain(s: State, r: nat, signature: string): State {
    s.(procs := s.procs[r := Process(Current, signature, DropLedger, {}, None)])
  }

  // The half of the invariant that keeps winners apart: it is about the legacy
  // keys only, and holds on its own.
  ghost predicate LegacyExclusive(s: State) {
    && (forall p | p in s.procs :: Sane(s.procs[p]))
    && (forall p | p in s.procs && HoldsLegacy(s.procs[p]) :: LegacyKey(s.procs[p].signature) in s.store)
    && (forall p, q | p in s.procs && q in s.procs && HoldsLegacy(s.procs[p]) && HoldsLegacy(s.procs[q])
          && s.procs[p].signature == s.procs[q].signature :: p == q)
  }

  ghost predicate LegacyMove(store: set<string>, pr: Process, store': set<string>, pr': Process) {
    var legacy := LegacyKey(pr.signature);
    && Sane(pr') && pr'.signature == pr.signature
    && (forall signature | signature != pr.signature :: LegacyKey(signature) in store <==> LegacyKey(signature) in store')
    && KeyMove(store, store', legacy, HoldsLegacy(pr), HoldsLegacy(pr'))
  }

  lemma OtherKeysStay(pr: Process)
    ensures forall signature | signature != pr.signature ::
      LegacyKey(signature) != LegacyKey(pr.signature) && LegacyKey(signature) != ConsumedSignatureKey(pr.signature)
  {
    forall signature | signature != pr.signature
      ensures LegacyKey(signature) != LegacyKey(pr.signature) && LegacyKey(signature) != ConsumedSignatureKey(pr.signature)
    {
      KeysNeverMeet(pr.signature, signature);
    }
  }

  lemma EventMovesLegacy(s: State, e: Event)
    requires LegacyExclusive(s) && !e.StartClaim?
    ensures var t := Step(s, e);
      t == s || (e.p in s.procs && e.p in t.procs && t == State(t.store, s.procs[e.p := t.procs[e.p]])
                 && LegacyMove(s.store, s.procs[e.p], t.store, t.procs[e.p]))
  {
    if e.p in s.procs {
      var pr := s.procs[e.p];
      KeysNeverMeet(pr.signature, pr.signature);
      OtherKeysStay(pr);
      assert Sane(pr) && (HoldsLegacy(pr) ==> LegacyKey(pr.signature) in s.store);
      hide LegacyKey, ConsumedSignatureKey, LegacyExclusive;
      if e.Operate? {
        hide Advance, LegacyMove;
        AdvanceMovesLegacy(s.store, pr, e.outcome);
      }
    }
  }

  lemma AdvanceMovesLegacy(store: set<string>, pr: Process, o: Outcome)
    requires Sane(pr) && (HoldsLegacy(pr) ==> LegacyKey(pr.signature) in store)
    ensures var (store', pr') := Advance(store, pr, o); LegacyMove(store, pr, store', pr')
  {
    KeysNeverMeet(pr.signature, pr.signature);
    OtherKeysStay(pr);
    hide LegacyKey, ConsumedSignatureKey;
  }

  lemma LegacyMoveKeepsExclusive(s: State, p: nat, store: set<string>, pr: Process)
    requires LegacyExclusive(s) && p in s.procs && LegacyMove(s.store, s.procs[p], store, pr)
    ensures LegacyExclusive(State(store, s.procs[p := pr]))
  {
    hide LegacyKey, ConsumedSignatureKey, HoldsLegacy, Sane;
  }

  lemma StepKeepsLegacy(s: State, e: Event)
    requires LegacyExclusive(s)
    ensures LegacyExclusive(Step(s, e))
  {
    if e.StartClaim? {
      KeysNeverMeet(e.signature, e.signature);
      hide LegacyKey, ConsumedSignatureKey;
    } else {
      hide LegacyMove, Advance, LegacyExclusive, Step;
      EventMovesLegacy(s, e);
      var t := Step(s, e);
      if t != s {
        LegacyMoveKeepsExclusive(s, e.p, t.store, t.procs[e.p]);
      }
    }
  }

  lemma {:induction false} RunKeepsLegacy(s: State, events: seq<Event>)
    requires LegacyExclusive(s)
    ensures LegacyExclusive(Run(s, events))
  {
    hide Step, LegacyExclusive;
    if events != [] {
      RunKeepsLegacy(s, events[..|events| - 1]);
      StepKeepsLegacy(Run(s, events[..|events| - 1]), events[|events| - 1]);
    }
  }

  ghost predicate OneWinnerEach(s: State) {
    forall p, q | p in s.procs && q in s.procs && s.procs[p].pc == Won && s.procs[q].pc == Won
      && s.procs[p].signature == s.procs[q].signature :: p == q
  }

  // The legacy key was left behind: it is in the store and nobody holds it.
  ghost predicate LeftBehind(s: State, signature: string) {
    LegacyKey(signature) in s.store && !HeldBy(s, signature)
  }

  lemma {:induction false} RunAppend(s: State, a: seq<Event>, b: seq<Event>)
    ensures Run(s, a + b) == Run(Run(s, a), b)
  {
    hide Step;
    if b == [] {
      assert a + b == a;
    } else {
      var n := |b| - 1;
      RunAppend(s, a, b[..n]);
      assert (a + b)[..|a + b| - 1] == a + b[..n];
    }
  }

  lemma RunOne(s: State, e: Event)
    ensures Run(s, [e]) == Step(s, e)
  {
    hide Step;
    assert [e][..0] == [];
  }

  lemma RunTwo(s: State, e: Event, f: Event)
    ensures Run(s, [e, f]) == Step(Step(s, e), f)
  {
    hide Step;
    assert [e, f][..1] == [e];
    RunOne(s, e);
  }

  function PreviousWinner(signature: string): Process {
    Process(Previous, signature, Won, {}, None)
  }

  // A replica of the previous release wins a signature whose legacy key is free.
  lemma PreviousWins(s: State, a: nat, signature: string)
    requires a !in s.procs && LegacyKey(signature) !in s.store
    ensures Run(s, [StartClaim(a, Previous, signature), Operate(a, Answered)])
      == State(s.store + {LegacyKey(signature)}, s.procs[a := PreviousWinner(signature)])
  {
    hide LegacyKey, ConsumedSignatureKey;
    RunTwo(s, StartClaim(a, Previous, signature), Operate(a, Answered));
  }

  // A release that is answered deletes both keys.
  lemma ReleaseDrops(s: State, r: nat, signature: string)
    requires r in s.procs && s.procs[r].signature == signature && s.procs[r].pc == DropLedger
    ensures Run(s, [Operate(r, Answered), Operate(r, Answered)])
      == State(s.store - {ConsumedSignatureKey(signature)} - {LegacyKey(signature)}, s.procs[r := s.procs[r].(pc := Released)])
  {
    hide LegacyKey, ConsumedSignatureKey;
    RunTwo(s, Operate(r, Answered), Operate(r, Answered));
  }

  // A holder that is not on its way to winning deletes the key.
  lemma HolderDrops(s: State, q: nat) returns (events: seq<Event>)
    requires q in s.procs && HoldsLegacy(s.procs[q]) && s.procs[q].pc !in {Won, TakeLedger}
    ensures var t, signature := Run(s, events), s.procs[q].signature;
      && q in t.procs && t == State(t.store, s.procs[q := t.procs[q]]) && LegacyKey(signature) !in t.store
  {
    KeysNeverMeet(s.procs[q].signature, s.procs[q].signature);
    var pr := s.procs[q];
    hide LegacyKey, ConsumedSignatureKey;
    if pr.pc == DropLedger {
      events := [Operate(q, Answered), Operate(q, Answered)];
      ReleaseDrops(s, q, pr.signature);
    } else if pr.pc in {GiveBack(true), GiveBack(false), DropLegacy} {
      events := [Operate(q, Answered)];
      RunOne(s, Operate(q, Answered));
    } else {
      events := [LandDelete(q)];
      RunOne(s, LandDelete(q));
    }
  }

  // A claim that took the legacy key and finds the ledger key free wins.
  lemma TakerWins(s: State, q: nat)
    requires q in s.procs && s.procs[q].pc == TakeLedger && ConsumedSignatureKey(s.procs[q].signature) !in s.store
    ensures Run(s, [Operate(q, Answered)])
      == State(s.store + {ConsumedSignatureKey(s.procs[q].signature)}, s.procs[q := s.procs[q].(pc := Won)])
  {
    hide LegacyKey, ConsumedSignatureKey;
    RunOne(s, Operate(q, Answered));
  }

  // With the key gone and one winner there, a second one follows.
  lemma SecondWinner(s: State, a: nat, b: nat, signature: string)
    requires a in s.procs && s.procs[a] == PreviousWinner(signature) && b !in s.procs && LegacyKey(signature) !in s.store
    ensures !OneWinnerEach(Run(s, [StartClaim(b, Previous, signature), Operate(b, Answered)]))
  {
    hide Run, Step;
    PreviousWins(s, b, signature);
    var t := State(s.store + {LegacyKey(signature)}, s.procs[b := PreviousWinner(signature)]);
    assert t.procs[a].pc == Won && t.procs[b].pc == Won;
  }

  // If no key is left behind, a release on nobody's behalf can be run into two
  // winners: it deletes a key that someone else holds or is about to take.
  lemma ReleaseAgainBreaks(s: State, r: nat, a: nat, b: nat, signature: string) returns (events: seq<Event>)
    requires LegacyExclusive(s) && !LeftBehind(s, signature)
    requires r !in s.procs && a !in s.procs && b !in s.procs && r != a && r != b && a != b
    ensures !OneWinnerEach(Run(ReleaseAgain(s, r, signature), events))
  {
    hide Run, Step, LegacyKey, ConsumedSignatureKey, OneWinnerEach;
    var t := ReleaseAgain(s, r, signature);
    var claimA := [StartClaim(a, Previous, signature), Operate(a, Answered)];
    var claimB := [StartClaim(b, Previous, signature), Operate(b, Answered)];
    var drop := [Operate(r, Answered), Operate(r, Answered)];
    if LegacyKey(signature) !in s.store {
      PreviousWins(t, a, signature);
      var t1 := Run(t, claimA);
      ReleaseDrops(t1, r, signature);
      var t2 := Run(t1, drop);
      SecondWinner(t2, a, b, signature);
      RunAppend(t, claimA, drop);
      RunAppend(t, claimA + drop, claimB);
      events := claimA + drop + claimB;
    } else {
      var q :| q in s.procs && s.procs[q].signature == signature && HoldsLegacy(s.procs[q]);
      KeysNeverMeet(signature, signature);
      ReleaseDrops(t, r, signature);
      var t1 := Run(t, drop);
      PreviousWins(t1, a, signature);
      var t2 := Run(t1, claimA);
      RunAppend(t, drop, claimA);
      assert t2.procs[q] == s.procs[q] && t2.procs[a] == PreviousWinner(signature) && b !in t2.procs;
      if s.procs[q].pc == Won {
        events := drop + claimA;
        TwoWinners(t2, q, a);
      } else if s.procs[q].pc == TakeLedger {
        TakerWins(t2, q);
        RunAppend(t, drop + claimA, [Operate(q, Answered)]);
        events := drop + claimA + [Operate(q, Answered)];
        TwoWinners(Run(t2, [Operate(q, Answered)]), q, a);
      } else {
        var rest := HolderDrops(t2, q);
        var t3 := Run(t2, rest);
        SecondWinner(t3, a, b, signature);
        RunAppend(t, drop + claimA, rest);
        RunAppend(t, drop + claimA + rest, claimB);
        events := drop + claimA + rest + claimB;
      }
    }
  }

  lemma TwoWinners(s: State, p: nat, q: nat)
    requires p in s.procs && q in s.procs && p != q && s.procs[p].pc == Won && s.procs[q].pc == Won
    requires s.procs[p].signature == s.procs[q].signature
    ensures !OneWinnerEach(s)
  {
  }

  lemma {:induction false} FreshIds(ids: set<nat>) returns (n: nat)
    ensures forall m | m >= n :: m !in ids
  {
    if id :| id in ids {
      var rest := FreshIds(ids - {id});
      n := if rest > id then rest else id + 1;
      forall m | m >= n ensures m !in ids {
        assert m !in ids - {id};
      }
    } else {
      n := 0;
    }
  }

  // Releasing again is safe exactly when the legacy key was left behind: the
  // failed release never got to delete it, no delete of it is still to come,
  // and so nobody else can hold it. A retry after the key was deleted, or while
  // its delete may still land, can lead to two winners.
  lemma ReleaseAgainSafeExactly(s: State, r: nat, signature: string)
    requires LegacyExclusive(s) && r !in s.procs
    ensures (forall events :: OneWinnerEach(Run(ReleaseAgain(s, r, signature), events))) <==> LeftBehind(s, signature)
  {
    if LeftBehind(s, signature) {
      var t := ReleaseAgain(s, r, signature);
      LeftBehindIsExclusive(s, r, signature);
      forall events ensures OneWinnerEach(Run(t, events)) {
        RunKeepsLegacy(t, events);
      }
    } else {
      hide LegacyExclusive, Run, LeftBehind, OneWinnerEach;
      var n := FreshIds(s.procs.Keys + {r});
      var events := ReleaseAgainBreaks(s, r, n, n + 1, signature);
    }
  }

  lemma LeftBehindIsExclusive(s: State, r: nat, signature: string)
    requires LegacyExclusive(s) && LeftBehind(s, signature) && r !in s.procs
    ensures LegacyExclusive(ReleaseAgain(s, r, signature))
  {
    hide LegacyKey, ConsumedSignatureKey;
    var t := ReleaseAgain(s, r, signature);
    assert forall p | p in s.procs && s.procs[p].signature == signature :: !HoldsLegacy(s.procs[p]);
  }

  // ---- retrying a release that failed ----

  // Whether the operation a release failed at leaves the legacy key behind: it
  // was the ledger delete, or the legacy delete that never ran.
  ghost predicate RetrySafe(pr: Process, o: Outcome) {
    pr.pc == DropLedger || o == NeverRan
  }

  lemma FailedRelease(s: State, p: nat, o: Outcome)
    requires LegacyExclusive(s) && p in s.procs && s.procs[p].pc in {DropLedger, DropLegacy} && o != Answered
    ensures var t := Step(s, Operate(p, o));
      && t.procs.Keys == s.procs.Keys && t.procs[p].pc == ReleaseFailed && LegacyExclusive(t)
      && (LeftBehind(t, s.procs[p].signature) <==> RetrySafe(s.procs[p], o))
  {
    var t, pr := Step(s, Operate(p, o)), s.procs[p];
    StepKeepsLegacy(s, Operate(p, o));
    KeysNeverMeet(pr.signature, pr.signature);
    hide LegacyKey, ConsumedSignatureKey;
    assert HoldsLegacy(pr) && Sane(pr);
    if !RetrySafe(pr, o) && LegacyKey(pr.signature) in t.store {
      assert HoldsLegacy(t.procs[p]);
    }
  }

  // A release fails at an operation that is not answered. Retrying it keeps
  // winners unique in every further run exactly when that was the ledger
  // delete, or the legacy delete and it never ran. After a legacy delete that
  // ran unanswered, or may still run, a retry can lead to two winners.
  lemma RetrySafeExactly(s: State, p: nat, o: Outcome, r: nat)
    requires LegacyExclusive(s) && p in s.procs && s.procs[p].pc in {DropLedger, DropLegacy} && o != Answered
    requires r !in s.procs
    ensures var t, signature := Step(s, Operate(p, o)), s.procs[p].signature;
      (forall events :: OneWinnerEach(Run(ReleaseAgain(t, r, signature), events))) <==> RetrySafe(s.procs[p], o)
  {
    hide LegacyExclusive, LeftBehind, RetrySafe, Step, Run, OneWinnerEach;
    FailedRelease(s, p, o);
    ReleaseAgainSafeExactly(Step(s, Operate(p, o)), r, s.procs[p].signature);
  }

  // A key that was left behind stays so: claims find it taken, and nobody may
  // delete it.
  lemma {:induction false} StaysBehind(s: State, events: seq<Event>, signature: string)
    requires LegacyExclusive(s) && LeftBehind(s, signature)
    ensures LegacyExclusive(Run(s, events)) && LeftBehind(Run(s, events), signature)
  {
    if events != [] {
      var front, last := events[..|events| - 1], events[|events| - 1];
      StaysBehind(s, front, signature);
      StepKeepsLegacy(Run(s, front), last);
      StepStaysBehind(Run(s, front), last, signature);
    }
  }

  lemma StepStaysBehind(s: State, e: Event, signature: string)
    requires LegacyExclusive(s) && LeftBehind(s, signature)
    ensures LeftBehind(Step(s, e), signature)
  {
    var t := Step(s, e);
    if e.StartClaim? {
      KeysNeverMeet(e.signature, e.signature);
      hide LegacyKey, ConsumedSignatureKey;
      assert t.store == s.store;
      assert forall p | p in t.procs && HoldsLegacy(t.procs[p]) :: p in s.procs && t.procs[p] == s.procs[p];
    } else {
      EventMovesLegacy(s, e);
      hide LegacyKey, ConsumedSignatureKey, Step, HoldsLegacy;
      assert forall p | p in s.procs && s.procs[p].signature == signature :: !HoldsLegacy(s.procs[p]);
    }
  }

  // In the safe case a retry stays safe, whatever happens before it.
  lemma RetrySafeLater(s: State, p: nat, o: Outcome, later: seq<Event>, r: nat)
    requires LegacyExclusive(s) && p in s.procs && s.procs[p].pc in {DropLedger, DropLegacy} && o != Answered
    requires RetrySafe(s.procs[p], o) && r !in Run(Step(s, Operate(p, o)), later).procs
    ensures var u, signature := Run(Step(s, Operate(p, o)), later), s.procs[p].signature;
      forall events :: OneWinnerEach(Run(ReleaseAgain(u, r, signature), events))
  {
    hide LegacyExclusive, LeftBehind, RetrySafe, Step, Run, OneWinnerEach;
    FailedRelease(s, p, o);
    StaysBehind(Step(s, Operate(p, o)), later, s.procs[p].signature);
    ReleaseAgainSafeExactly(Run(Step(s, Operate(p, o)), later), r, s.procs[p].signature);
  }

  // What happens, and Release calls on nobody's behalf in between.
  datatype Move = Happens(e: Event) | Retries(r: nat, signature: string)

  function Moved(s: State, m: Move): State {
    match m
    case Happens(e) => Step(s, e)
    case Retries(r, signature) => ReleaseAgain(s, r, signature)
  }

  function MovedAll(s: State, moves: seq<Move>): State {
    if moves == [] then s else Moved(MovedAll(s, moves[..|moves| - 1]), moves[|moves| - 1])
  }

  // Every retry is a call of its own, for a key that was left behind.
  ghost predicate RetriesSafely(s: State, moves: seq<Move>) {
    moves == [] || (
      var front, last := moves[..|moves| - 1], moves[|moves| - 1];
      RetriesSafely(s, front)
      && (last.Retries? ==> last.r !in MovedAll(s, front).procs && LeftBehind(MovedAll(s, front), last.signature)))
  }

  // Any number of safe retries keeps winners unique.
  lemma {:induction false} SafeRetriesKeepWinnersUnique(s: State, moves: seq<Move>)
    requires LegacyExclusive(s) && RetriesSafely(s, moves)
    ensures LegacyExclusive(MovedAll(s, moves)) && OneWinnerEach(MovedAll(s, moves))
  {
    if moves != [] {
      var front, last := moves[..|moves| - 1], moves[|moves| - 1];
      SafeRetriesKeepWinnersUnique(s, front);
      match last
      case Happens(e) => StepKeepsLegacy(MovedAll(s, front), e);
      case Retries(r, signature) => LeftBehindIsExclusive(MovedAll(s, front), r, signature);
    }
    LegacyExclusiveMeansUnique(MovedAll(s, moves));
  }

  lemma LegacyExclusiveMeansUnique(s: State)
    requires LegacyExclusive(s)
    ensures OneWinnerEach(s)
  {
  }

  // ---- one call, running alone ----

  function NewClaim(signature: string): Process {
    Process(Current, signature, TakeLegacy, {}, None)
  }

  // The up to three store operations of a Claim that nothing interrupts.
  function ClaimAlone(store: set<string>, signature: string, o1: Outcome, o2: Outcome, o3: Outcome): (set<string>, Process) {
    var (s1, p1) := Advance(store, NewClaim(signature), o1);
    var (s2, p2) := Advance(s1, p1, o2);
    Advance(s2, p2, o3)
  }

  function ReleaseAlone(store: set<string>, signature: string, o1: Outcome, o2: Outcome): (set<string>, Process) {
    var (s1, p1) := Advance(store, NewClaim(signature).(pc := DropLedger), o1);
    Advance(s1, p1, o2)
  }

  // A claim whose operations are all answered wins exactly when neither key is
  // taken. A refused one leaves the store as it was, and a release undoes a
  // won one.
  lemma AnsweredClaim(store: set<string>, signature: string)
    ensures var (after, pr) := ClaimAlone(store, signature, Answered, Answered, Answered);
      var legacy, ledger := LegacyKey(signature), ConsumedSignatureKey(signature);
      && (pr.pc == Won <==> legacy !in store && ledger !in store)
      && (pr.pc != Won ==> pr.pc == Refused && after == store)
      && (pr.pc == Won ==> after == store + {legacy, ledger}
                           && ReleaseAlone(after, signature, Answered, Answered).0 == store)
  {
    KeysNeverMeet(signature, signature);
    hide LegacyKey, ConsumedSignatureKey;
  }

  // What a claim returns, for every combination of outcomes: an error if a put
  // was not answered, even where the key was given back; a refusal if a key was
  // taken. The outcome of giving back makes no difference.
  lemma ClaimReturns(store: set<string>, signature: string, o1: Outcome, o2: Outcome, o3: Outcome)
    ensures ClaimAlone(store, signature, o1, o2, o3).1.pc ==
      if o1 != Answered then Failed
      else if LegacyKey(signature) in store then Refused
      else if o2 != Answered then Failed
      else if ConsumedSignatureKey(signature) in store then Refused
      else Won
  {
    KeysNeverMeet(signature, signature);
    hide LegacyKey, ConsumedSignatureKey;
  }

  // What the network makes of a put: it takes effect at once, or later, or not
  // at all.
  lemma PutOutcomes(s: State, p: nat, o: Outcome)
    requires p in s.procs && s.procs[p].pc == TakeLegacy && s.procs[p].latePuts == {}
    ensures var key, t := LegacyKey(s.procs[p].signature), Step(s, Operate(p, o));
      && t.store == (if o in {Answered, RanUnanswered} then s.store + {key} else s.store)
      && Step(t, LandPut(p, key)).store == (if o == RunsLater then t.store + {key} else t.store)
  {
  }

  // Events of one process only are that process's operations in a row.
  lemma ClaimAloneIsARun(s: State, p: nat, signature: string, o1: Outcome, o2: Outcome, o3: Outcome)
    requires p !in s.procs
    ensures var (store, pr) := ClaimAlone(s.store, signature, o1, o2, o3);
      Run(s, [StartClaim(p, Current, signature), Operate(p, o1), Operate(p, o2), Operate(p, o3)])
      == State(store, s.procs[p := pr])
  {
    hide Advance;
    var e0, e1, e2, e3 := StartClaim(p, Current, signature), Operate(p, o1), Operate(p, o2), Operate(p, o3);
    RunSnoc(s, [], e0);
    RunSnoc(s, [e0], e1);
    RunSnoc(s, [e0, e1], e2);
    RunSnoc(s, [e0, e1, e2], e3);
    assert [e0] + [e1] == [e0, e1] && [e0, e1] + [e2] == [e0, e1, e2] && [e0, e1, e2] + [e3] == [e0, e1, e2, e3];
  }

  lemma RunSnoc(s: State, events: seq<Event>, e: Event)
    ensures Run(s, events + [e]) == Step(Run(s, events), e)
  {
    assert (events + [e])[..|events + [e]| - 1] == events;
  }

  // The replay store, with the operations whose effect is still to come.
  class ClaimStore {
    var keys: set<string>
    var latePuts: set<string>
    var lateDelete: Option<string>

    constructor ()
      ensures keys == {} && latePuts == {} && lateDelete == None
    {
      keys, latePuts, lateDelete := {}, {}, None;
    }

    method PutIfAbsent(key: string, o: Outcome) returns (took: bool, err: bool)
      modifies this
      ensures keys == PutEffect(old(keys), key, o) && lateDelete == old(lateDelete)
      ensures latePuts == if o == RunsLater then old(latePuts) + {key} else old(latePuts)
      ensures err == (o != Answered) && took == (o == Answered && key !in old(keys))
    {
      took, err := o == Answered && key !in keys, o != Answered;
      if o == RunsLater {
        latePuts := latePuts + {key};
      } else if o != NeverRan {
        keys := keys + {key};
      }
    }

    method Delete(key: string, o: Outcome) returns (err: bool)
      modifies this
      ensures keys == DeleteEffect(old(keys), key, o) && latePuts == old(latePuts)
      ensures lateDelete == if o == RunsLater then Some(key) else old(lateDelete)
      ensures err == (o != Answered)
    {
      err := o != Answered;
      if o == RunsLater {
        lateDelete := Some(key);
      } else if o != NeverRan {
        keys := keys - {key};
      }
    }
  }

  class ConsumedSignatures {
    const store: ClaimStore

    constructor (store: ClaimStore)
      ensures this.store == store
    {
      this.store := store;
    }

    // Takes the legacy key, then the ledger key; gives the legacy key back
    // when the ledger key cannot be taken.
    method Claim(signature: string, o1: Outcome, o2: Outcome, o3: Outcome) returns (claimed: bool, err: bool)
      modifies store
      ensures var (keys, pr) := ClaimAlone(old(store.keys), signature, o1, o2, o3);
        && store.keys == keys && store.latePuts == old(store.latePuts) + pr.latePuts
        && store.lateDelete == (if pr.lateDelete.Some? then pr.lateDelete else old(store.lateDelete))
        && claimed == (pr.pc == Won) && err == (pr.pc == Failed)
    {
      hide LegacyKey, ConsumedSignatureKey;
      var legacy := LegacyKey(signature);
      var took;
      took, err := store.PutIfAbsent(legacy, o1);
      if err || !took {
        return false, err;
      }
      claimed, err := store.PutIfAbsent(ConsumedSignatureKey(signature), o2);
      if err || !claimed {
        var _ := store.Delete(legacy, o3);
        return false, err;
      }
      return true, false;
    }

    // The ledger key goes first, then the legacy key.
    method Release(signature: string, o1: Outcome, o2: Outcome) returns (err: bool)
      modifies store
      ensures var (keys, pr) := ReleaseAlone(old(store.keys), signature, o1, o2);
        && store.keys == keys && store.latePuts == old(store.latePuts) + pr.latePuts
        && store.lateDelete == (if pr.lateDelete.Some? then pr.lateDelete else old(store.lateDelete))
        && err == (pr.pc == ReleaseFailed)
    {
      hide LegacyKey, ConsumedSignatureKey;
      err := store.Delete(ConsumedSignatureKey(signature), o1);
      if err {
        return;
      }
      err := store.Delete(LegacyKey(signature), o2);
    }
  }
}
