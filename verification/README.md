# Verification models for the payment kit

Dafny models of the parts of the kit where a mistake costs money, and proofs of
what those parts promise. `dafny verify dfyconfig.toml` checks everything.

| file | what it models |
|---|---|
| `Radix.dfy`, `Base58.dfy` | the in-place carry loops of the payment page's base58 |
| `Wire.dfy` | the version-0 message format: a serialiser and a strict reader |
| `KeyTable.dfy`, `Compiler.dfy` | `compileMessage`: account table, privilege groups, indices, bytes |
| `Payment.dfy`, `ProgramKeys.dfy` | the instructions the page builds, the signature slots, the program ids |
| `Shape.dfy` | the transaction shape decoders of the Python and PHP runners |
| `Draws.dfy` | whose money a compiled payment moves, read off its bytes |
| `Ledger.dfy` | the consumed-signature ledger, as a step system and as the Go methods |
| `Session.dfy`, `SessionRuns.dfy` | session channels: vouchers, reserved deliveries, commits and close, as the Go methods and as a step system |
| `GateFees.dfy` | fee accounting of a gate: the Go map form and the PHP list form |
| `Usage.dfy` | the usage gate: meter, buffering writer, settlement, middleware |
| `Expectations.dfy` | the reconciliation of declared and observed test outcomes |
| `Challenge.dfy` | the `WWW-Authenticate` scanner of the TypeScript client |
| `Units.dfy` | three base-unit printers and the price parser that reads them |
| `Dotenv.dfy` | the `.env` file that keeps the challenge-binding secret |
| `Common.dfy`, `Powers.dfy` | options, results, powers, word sizes |

Methods follow the loops of the sources and are proved against specification
functions; the lemmas say what those functions are good for.

## How it hangs together

- **A compiler that preserves meaning.** `Compiler.CompilationPreservesMeaning`
  reads the compiled bytes back with a reader that knows only the wire format
  and finds the same instructions, the same blockhash, and every privilege
  exactly where something asked for it. `Shape.PaymentMeansRequest` puts the
  page's instruction lists in front and the conformance runners' decoders
  behind: what a runner reports of a built payment is the request.
  `Draws.PaymentMovesWallet` says of the same bytes whose account is drawn on,
  who signs for it, who pays the fees, and which accounts are created.
- **A protocol that is safe in every interleaving.** `Ledger.AtMostOneWinner`
  covers any number of calls, both releases, releases by winners, and store
  operations that answer, never run, run without an answer, or run late.
  `Ledger.RetrySafeExactly` says at which failed operation a release may be
  retried, and `Ledger.SafeRetriesKeepWinnersUnique` covers any number of
  retries.
- **Money that adds up under concurrency.** In every interleaving of a session
  channel's calls the charges add up to the watermark after each single charge
  (`SessionRuns.ChargesMakeWatermark`), and `SessionRuns.SolventExactly` says
  which interleavings keep watermark and reservations within the deposit.
- **A writer that settles once.** `Usage.SettlesOnceFailsClosed` and
  `Usage.BufferedResponse` cover every sequence of handler acts and every
  number of finalisations; `Usage.BufferingAgreesWithDirect` compares them with
  the same handler without a buffer.
- **A green run.** `Expectations.GreenMeansObserved` is an equivalence: a run is
  green if and only if what it observed is what was declared, and
  `Expectations.GreenProvesExactly` says for which lists of cases that is so;
  `Expectations.TestedIdsProve` shows that the protocol driver's is one.

## Where the code differs from what it is said to do

Each of these has a lemma that gives the exact condition or a concrete input.

- Base58: a byte array of n zeros is encoded as n + 1 ones, so the byte round
  trip holds exactly for arrays with a nonzero byte, and the text round trip
  exactly for texts with a character other than `1`
  (`Base58.BytesRoundTrip`, `Base58.TextRoundTrip`).
- Signature slots: if a request names the paying wallet itself as the separate
  fee payer, the page reserves two slots while the header asks for one
  signature (`Payment.SlotsMatchHeader`; `Shape.OwnFeePayerBuilds` is one).
- Amounts: `setBigUint64` keeps 64 bits, so a leg outside [0, 2^64) is decoded
  as a different amount; PHP's reader agrees with Python's below 2^63 only
  (`Shape.PythonAmountsExact`, `Shape.NegativeLegIsLost`,
  `Shape.PhpAgreesBelow2To63`).
- Releases: retrying a release that failed is safe exactly if it failed at the
  ledger delete, or at a legacy delete that never ran; after a legacy delete
  that ran unanswered, or may still run, two callers can win
  (`Ledger.RetrySafeExactly`, `Ledger.ReleaseAgainBreaks`).
- Sessions: a voucher that is not for a reservation is checked against the
  deposit but not against what is reserved, and a commit is not checked against
  the deposit. So watermark and reservations stay within the deposit exactly
  while every such voucher leaves room (`SessionRuns.SolventExactly`); in any
  run they stay within twice the deposit (`SessionRuns.AtMostTwice`), and for
  every deposit below 2^63 a run takes the watermark that far
  (`SessionRuns.TwiceIsReached`).
  The minimum voucher delta is not checked again under the lock, so a waiting
  voucher meets it exactly when its check would still pass
  (`SessionRuns.MinimumMetExactly`). A reservation is never given back, not even
  after its expiry (`SessionRuns.ReservationsStay`). `ProcessClose` does not
  compare the final voucher's channel id with the channel's own
  (`SessionRuns.WatermarkIsSigned`).
- Gates: validation accepts a gate whose main recipient also has a fee, and
  every such gate pays out less than it charges, by the net amount at least
  (`GateFees.OverlapLosesNet`, `GateFees.OverlapValidates`); for fees and
  a net that are worth something, payouts make up the total exactly when the
  recipients are pairwise disjoint (`GateFees.ConservesExactly`). A recipient
  whose address PHP takes for an integer is refused by the list form alone
  (`GateFees.FormsValidateAlike`).
- Usage: `WriteHeader(0)` counts as a written status, so the client gets the
  first status other than zero exactly if zero did not come first or that
  status is 200 (`Usage.FirstNonzeroIsSent`, `Usage.ZeroHidesNotFound`). Headers
  set after the first write are still sent, unlike without the buffer
  (`Usage.BufferingAgreesWithDirect`).
  A price of 2^64 base units or more wraps (`Usage.CeilingIsPrice`), and a
  negative one loses its sign (`Usage.NegativeCeiling`).
- Expectations: two claimed places of a list under one key hide each other: a
  green run can leave out one of them, and only then one at all
  (`Expectations.GreenProvesExactly`). The protocol driver tests its ids; the
  flow driver does not, so two flow cases of one name are such places
  (`Expectations.FlowNamesHide`).
- Challenges: white space around `=` and a tab directly behind a token change
  what is read, although sections 11.2 and 5.6.3 of RFC 9110 allow a sender
  the latter and ask a recipient to accept the former. One list with such white
  space is read right: a last quoted value, if what stands in front of the
  first space behind its `=` happens to be its meaning
  (`Challenge.ScanRoundTrip`).
- Printers: for a negative amount with a fraction, Go and PHP print a text that
  is not a number (`Units.GoPhpDenote`). From 2^63 on, Go hands the base units
  on as dollars and PHP prints the largest integer (`Units.ConvertsExactly`).
- Secrets: a line `KEY=` without a value makes every boot generate and append a
  new secret that no later boot reads (`Dotenv.EmptyDefinitionSticks`); a write
  that is cut off leaves a shorter secret that the next boot accepts
  (`Dotenv.NextBootResolves`). `Dotenv.NextBootResolvesSame` has the exact
  condition for every file and write.

## Model

| member | source | states |
|---|---|---|
| Radix.MulAddValue | html/src/transaction.ts:38 | one pass over the digit list, carries included, multiplies the number it denotes by m, adds c, and leaves proper digits |
| Radix.MulAddCanonical | html/src/transaction.ts:38 | a pass never leaves a zero in the most significant place |
| Radix.ConvertValue | html/src/transaction.ts:38 | all passes together denote the same number in the new base, without leading zeros |
| Radix.ConvertFromZero | html/src/transaction.ts:44-45 | starting the digit list from [0] instead of [] changes the result only for an input of zeros |
| Radix.DigitsUnique | html/src/transaction.ts:36-49 | two canonical digit lists of the same number are the same list |
| Radix.RebaseKeeps | html/src/transaction.ts:36-49 | a conversion keeps the number and the count of leading zeros |
| Radix.RebaseRoundTrip | html/src/transaction.ts:36-49 | converting to another base and back returns the same digits, leading zeros included |
| Base58.DecodePass | html/src/transaction.ts:38 | the inner decoding loops compute multiply-and-add; the carry stays at most 57, so the 32-bit operators are plain arithmetic |
| Base58.MultiplyDigits | html/src/transaction.ts:45 | the inner encoding loop leaves digits and a carry of at most 255 that together are multiply-and-add; the 32-bit operators never leave their range |
| Base58.EncodePass | html/src/transaction.ts:45 | one byte's pass, with its carry loop, is multiply-and-add and keeps base-58 digits |
| Base58.Bs58Decode | html/src/transaction.ts:36-41 | decoding is change of base with leading ones kept as zero bytes, and fails exactly on a character outside the alphabet |
| Base58.Bs58Encode | html/src/transaction.ts:43-49 | encoding is change of base with leading zero bytes kept as ones, one more for an input of zeros |
| Base58.IndexOfSymbol | html/src/transaction.ts:34 | a character's index in the alphabet is its digit, and -1 for every other character |
| Base58.BytesRoundTrip | html/src/transaction.ts:36-49 | decode after encode is the identity exactly on arrays with a nonzero byte; zeros gain one byte |
| Base58.TextRoundTrip | html/src/transaction.ts:36-49 | encode after decode is the identity exactly on alphabet texts with a character other than 1 |
| Base58.DecodeInjective | html/src/transaction.ts:36-41 | two texts that decode to the same bytes are the same text |
| Base58.OnesDecode | html/src/transaction.ts:39 | n ones decode to n zero bytes |
| Base58.DecodedAllZero | html/src/transaction.ts:36-41 | only texts of ones decode to zeros |
| Wire.CompactRoundTrip | html/src/transaction.ts:107 | a compact-u16 length is read back, with what follows it, exactly when it is below 65536 |
| Wire.ReadCompactInverse | html/src/transaction.ts:107 | the reader accepts only the encoding the writer produces |
| Wire.ReadKeysRoundTrip | html/src/transaction.ts:132 | 32-byte keys written in a row are read back in order |
| Wire.ReadInstructionRoundTrip | html/src/transaction.ts:135 | one instruction's bytes are read back, and nothing more |
| Wire.ReadInstructionsRoundTrip | html/src/transaction.ts:134-135 | all instructions are read back in order |
| Wire.DecodeInverse | html/src/transaction.ts:109-114 | the reader returns only messages that fit the format, and only for the bytes written for them |
| Wire.SerializeRoundTrip | html/src/transaction.ts:109-138 | a message is read back from its bytes exactly when every number fits its field |
| KeyTable.HexInjective | html/src/transaction.ts:106 | different keys have different hex texts, so a map by hex is a map by key |
| KeyTable.MergeUnion | html/src/transaction.ts:120 | merging an account keeps keys once, adds its privileges to the entry it has, and moves no earlier entry |
| KeyTable.MergeAllUnion | html/src/transaction.ts:120 | after all accounts every key is there once with the union of its privileges |
| KeyTable.SelectMembers | html/src/transaction.ts:122-124 | a filtered group holds exactly the entries with its two privileges, fee payer excepted |
| KeyTable.OrderedPartition | html/src/transaction.ts:122-125 | fee payer and four groups partition the table, and position tells an entry's privileges |
| Compiler.TableUnion | html/src/transaction.ts:116-121 | the finished table holds exactly the mentioned keys, once, signer and writable exactly if marked so somewhere; fee payer first, signer second |
| Compiler.AllPlaced | html/src/transaction.ts:125-127 | every key an instruction names has an index |
| Compiler.CompiledMeaning | html/src/transaction.ts:126-127 | resolving each compiled instruction through the key list gives its program, accounts and data, in order |
| Compiler.CompiledPrivileges | html/src/transaction.ts:116-131 | position and header counts mark a key as signer or writable exactly if something asked for it |
| Compiler.SignerSecond | html/src/transaction.ts:118 | a signer other than the fee payer has index 1 |
| Compiler.KeyIndexBelow256 | html/src/transaction.ts:126-127 | a message that fits has at most 256 keys |
| Compiler.CompiledFits | html/src/transaction.ts:128-138 | a compiled message fits its format exactly when keys, lengths and counts are in range |
| Compiler.RangeOfInputs | html/src/transaction.ts:115-139 | a compiled message fits exactly when its inputs do: 32-byte keys and blockhash, at most 256 keys and 255 signers, lengths below 65536 |
| Compiler.KeysOfInputs | html/src/transaction.ts:116-131 | the message has as many keys as the inputs name, and as many signers as they mark |
| Compiler.CompileRoundTrip | html/src/transaction.ts:115-139 | the compiled bytes are read back as the intended message exactly when the inputs are in range |
| Compiler.CompilationPreservesMeaning | html/src/transaction.ts:109-139 | a reader of the bytes alone finds the same instructions, blockhash, distinct keys with the fee payer first, and the exact union of privileges |
| Compiler.SmallInputsCompile | html/src/transaction.ts:115-139 | inputs with 32-byte keys and blockhash, base58 program ids, short data and at most 255 mentions of keys compile, and everything is in range |
| Compiler.CollectKeys | html/src/transaction.ts:116-121 | the three loops that fill the map build the specified table, and fail exactly on a program id that is not base58 |
| Compiler.MergeAccounts | html/src/transaction.ts:120 | the loop over an instruction's accounts is repeated merging |
| Compiler.CompileInstructions | html/src/transaction.ts:126-127 | the index map replaces every key by its place in the ordered list |
| Compiler.PushInstructions | html/src/transaction.ts:135 | the pushed parts are the instructions' bytes |
| Compiler.SetAt | html/src/transaction.ts:138 | copying a part to its offset keeps the bytes before it and behind it |
| Compiler.Concatenate | html/src/transaction.ts:138 | copying parts to running offsets of one buffer is their concatenation |
| Compiler.WriteMessage | html/src/transaction.ts:128-138 | pushing and copying the parts gives the serialised message |
| Compiler.CompileMessage | html/src/transaction.ts:115-139 | the whole function returns the specified bytes or the base58 failure |
| Payment.LittleEndianRoundTrip | html/src/transaction.ts:97 | little-endian numbers below the width are read back |
| Payment.U64RoundTrip | html/src/transaction.ts:97-102 | a 64-bit amount field holds the amount modulo 2^64 |
| Payment.CreateAta | html/src/transaction.ts:70-83 | the account-creation instruction, with the failure of an undecodable program |
| Payment.AppendMemo | html/src/transaction.ts:89-94 | appends one memo instruction, nothing for an empty memo, and fails above 566 bytes |
| Payment.BuildLeg | html/src/main.ts:189-212 | one leg of a payment: account creation if asked for, transfer, memo |
| Payment.BuildPayment | html/src/main.ts:164-212 | the loops of the page build the specified legs, fee payer and blockhash |
| Payment.LegSigners | html/src/main.ts:189-212 | a leg asks for no signature but the fee payer's and the wallet's |
| Payment.LegsSigners | html/src/main.ts:188-212 | neither does the whole instruction list |
| Payment.TwoSigners | html/src/transaction.ts:115-131 | such a list compiles to one or two required signatures, the wallet's being the last |
| Payment.SlotsMatchHeader | html/src/main.ts:184-218 | reserved slots equal required signatures unless the wallet is named as the separate fee payer; the wallet's slot is its key index |
| Payment.SignTestTransaction | html/src/main.ts:349-354 | the signature is written to its slot, the other slot stays empty and the message is untouched |
| ProgramKeys.DecodesTo32 | html/src/transaction.ts:36-41 | which base58 texts of 43 or 44 characters decode to 32 bytes, by their first digit |
| ProgramKeys.ProgramKeysAre32Bytes | html/src/transaction.ts:54-57 | every program id the page writes is a 32-byte key |
| ProgramKeys.ProgramKeysDiffer | html/src/main.ts:421-422 | different program ids are different keys, the two token programs included |
| Shape.PhpReadU64Le | php/conformance/runner.php:310-320 | the shift loop reads the number modulo 2^64 as a signed 64-bit integer |
| Shape.ShapeFromMessage | python/conformance_runner.py:195-258 | the loop over the instructions collects the specified shape, or fails on a missing key or a memo that is no text |
| Shape.StepsMean | php/conformance/runner.php:174-219 | on a message that means a list of instructions, the decoder sees exactly that list |
| Shape.LegStep | python/conformance_runner.py:204-243 | a leg adds its one transfer and its memo to the shape and nothing else; no transfer for a token program the decoder does not know |
| Shape.TokenTransferStep | python/conformance_runner.py:216-243 | a token transfer is reported for the two token programs, as a memo for the memo program, and not at all for any other |
| Shape.LegsSteps | python/conformance_runner.py:204-258 | a payment's instruction list decodes to its transfers, memos and compute budget |
| Shape.PaymentMeansRequest | html/src/main.ts:177-215 | decoding the compiled payment gives primary transfer and splits to the requested destinations, non-empty memos in order, compute budget and fee payer, for every token program, and fails exactly if a reported memo is no text; the transfers of an unknown token program are not reported |
| Shape.OwnFeePayerBuilds | html/src/main.ts:184-218 | a payment that names its wallet as separate fee payer builds, compiles and fits, with two slots for one signature |
| Shape.LegsSum | html/src/main.ts:177-181 | the legs of a request add up to its amount |
| Shape.PythonAmountsExact | python/conformance_runner.py:169-170 | the decoded amounts are the requested ones, and add up to the total, exactly when every leg is an unsigned 64-bit number |
| Shape.NegativeLegIsLost | html/src/main.ts:177-181 | a split above the amount makes a negative leg that is decoded as another amount |
| Shape.PhpAgreesBelow2To63 | php/conformance/runner.php:310-320 | PHP decodes the same amounts as Python exactly when all are below 2^63 |
| Draws.PaymentMovesWallet | html/src/main.ts:184-215 | for every request that builds and fits, the compiled bytes hold exactly one transfer per leg, in order: out of the wallet, or out of its token account with the wallet as signing authority, to the leg's account, with its amount and decimals; a split's transfer stands directly behind the creation of its account by the fee payer exactly if the wallet pays the fees or the split asks for one; the fee payer signs first |
| Draws.LegsTransfer | html/src/main.ts:188-212 | the same of the instruction list in front of the compiler |
| Draws.TransferIsOne | html/src/transaction.ts:96-104 | what the two transfer builders say: program, accounts in order with their privileges, amount and decimals |
| Draws.CreationIsOne | html/src/transaction.ts:70-83 | what the account-creation builder says: payer, account, owner, mint and the two programs, in this order |
| Draws.PaymentBuildsExactly | html/src/main.ts:174-212 | a request builds exactly if all its texts are base58, those of the accounts found for it included, and no memo is longer than 566 bytes |
| Ledger.KeysNeverMeet | go/paycore/consumed.go:37-50 | neither key family collides with itself or with the other |
| Ledger.AdvanceIsLocal | go/paycore/consumed.go:62-84 | every store operation of a call moves only its own keys: it deletes a key only as its holder and takes only a free one |
| Ledger.EventIsLocal | go/paycore/consumed.go:62-84 | so does every event, late effects included |
| Ledger.StepKeepsExclusive | go/paycore/consumed.go:62-84 | every event keeps the invariant that each held key is in the store and has one holder |
| Ledger.RunKeepsExclusive | go/paycore/consumed.go:62-84 | so does every run |
| Ledger.AtMostOneWinner | go/paycore/consumed.go:52-74 | in every reachable state each signature has at most one unreleased winner, whatever failed and whichever release ran |
| Ledger.ReleaseAgainSafeExactly | go/paycore/consumed.go:76-84 | from every state runs and safe retries lead to: one more Release call keeps winners unique in every further run exactly when the legacy key is in the store and nobody holds it |
| Ledger.RetrySafeExactly | go/paycore/consumed.go:79-84 | a release that fails at one of its two deletes may be retried, with unique winners in every further run, exactly if that was the ledger delete, or the legacy delete and it never ran |
| Ledger.RetrySafeLater | go/paycore/consumed.go:76-84 | in the safe case the retry stays safe after any later events |
| Ledger.SafeRetriesKeepWinnersUnique | go/paycore/consumed.go:76-84 | so does any number of retries among any events, each for a key left behind |
| Ledger.ReleaseAgainBreaks | go/paycore/consumed.go:76-84 | otherwise there is a run of it into two winners |
| Ledger.OtherSignaturesUntouched | go/paycore/consumed.go:37-50 | calls for one signature leave the keys of every other alone |
| Ledger.LegacyRecordIsFinal | go/paycore/consumed.go:58-60 | a legacy record from before any call makes every claim fail for ever, and is neither rewritten nor migrated |
| Ledger.LedgerFree | go/paycore/consumed.go:76-83 | without store errors, who took the legacy key finds the ledger key free |
| Ledger.RunKeepsOwned | go/paycore/consumed.go:62-84 | without store errors every key in the store has a holder |
| Ledger.LegacyTakerWins | go/paycore/consumed.go:62-74 | without store errors, who took the legacy key wins with the next operation |
| Ledger.LegacyKeyMeansWinner | go/paycore/consumed.go:76-84 | without store errors and with no call in flight, the legacy key is there exactly when one unreleased winner exists |
| Ledger.AnsweredClaim | go/paycore/consumed.go:62-84 | a claim that is answered wins exactly when neither key is taken; a refused one changes nothing; a release undoes a won one |
| Ledger.ClaimReturns | go/paycore/consumed.go:62-74 | what a claim returns for every combination of outcomes: an error exactly if a put was not answered before a key was found taken |
| Ledger.PutOutcomes | go/paycore/consumed.go:52-60 | a put takes effect at once, later, or not at all |
| Ledger.ClaimAloneIsARun | go/paycore/consumed.go:62-74 | the Go method's three operations are a run of the step system |
| Ledger.ClaimStore.PutIfAbsent | go/paycore/consumed.go:62-69 | what one put does to the store and tells its caller under each outcome |
| Ledger.ClaimStore.Delete | go/paycore/consumed.go:70-83 | what one delete does and tells |
| Ledger.ConsumedSignatures.Claim | go/paycore/consumed.go:62-74 | legacy key first, ledger key second, legacy key given back on failure, for every combination of outcomes |
| Ledger.ConsumedSignatures.Release | go/paycore/consumed.go:79-84 | ledger key first, legacy key only if that was answered |
| Session.PendingTotal | go/protocols/mpp/server/session.go:549-552 | the uint64 loop computes the sum of the pending amounts modulo 2^64 |
| Session.FindPending | go/protocols/mpp/server/session.go:688-694 | the first pending delivery with an id, or none |
| Session.FindCommitted | go/protocols/mpp/server/session.go:756-763 | the first committed delivery with an id, or none |
| Session.SessionServer.ProcessOpen | go/protocols/mpp/server/session.go:255-323 | refuses in the order of the checks; a replayed open leaves the record, a new one starts at watermark zero |
| Session.SessionServer.UpdateVoucher | go/protocols/mpp/server/session.go:434-473 | under the lock: a replay charges nothing, a higher watermark charges the difference, everything else is refused |
| Session.SessionServer.VerifyVoucherDetailed | go/protocols/mpp/server/session.go:394-474 | check and update of a voucher on one record, other channels untouched |
| Session.SessionServer.ProcessTopUp | go/protocols/mpp/server/session.go:482-518 | raises the deposit of an open channel, up to the cap |
| Session.SessionServer.BeginDelivery | go/protocols/mpp/server/session.go:526-604 | reserves an amount under a new id and the next sequence if it fits |
| Session.SessionServer.UpdateCommit | go/protocols/mpp/server/session.go:670-727 | under the lock: a cached receipt for a known delivery, else the reservation becomes a committed delivery and the watermark moves |
| Session.SessionServer.ProcessCommit | go/protocols/mpp/server/session.go:624-732 | check and update of a commit on one record, other channels untouched |
| Session.SessionServer.ProcessClose | go/protocols/mpp/server/session.go:775-835 | the close with its final voucher, which may raise the watermark, repeat it, or be refused |
| Session.SessionServer.MarkSealed | go/protocols/mpp/server/session_store.go:340-349 | seals the record and nothing else |
| SessionRuns.StepMoves | go/protocols/mpp/server/session.go:394-835 | every call's effect on the record, check and update apart, is one of eight moves; the guards tell when it is a direct voucher |
| SessionRuns.StepKeepsInFlight | go/protocols/mpp/server/session.go:408-434 | what a waiting call's check found of deposit, signer and signature still holds whenever it lands |
| SessionRuns.ChargesMakeWatermark | go/protocols/mpp/server/session.go:356-368 | in every interleaving the charged amounts add up to the watermark, and after each charge to the watermark it reports |
| SessionRuns.ChargesOnce | go/protocols/mpp/server/session.go:384-393 | no two answers charge for one watermark: a voucher is charged once however often it is sent |
| SessionRuns.RunKeepsDeliveries | go/protocols/mpp/server/session.go:562-571 | in every run a delivery id is pending once or committed once, and every receipt answered is on record |
| SessionRuns.OneChargePerDelivery | go/protocols/mpp/server/session.go:619-623 | in every run all receipts for one delivery agree and only one charges |
| SessionRuns.ReservationsStay | go/protocols/mpp/server/session.go:670-727 | in every run a reservation stays pending until it is committed, for no more than it reserved |
| SessionRuns.CapacityExact | go/protocols/mpp/server/session.go:606-617 | capacity is refused exactly when watermark, reservations and amount exceed the deposit, as unbounded numbers |
| SessionRuns.AtMostTwice | go/protocols/mpp/server/session.go:394-835 | in every run reservations stay within the deposit, and watermark and reservations within twice of it |
| SessionRuns.TwiceIsReached | go/protocols/mpp/server/session.go:394-732 | for every deposit below 2^63 and at least the minimum delta a run takes the watermark to twice of it |
| SessionRuns.StepSolventExactly | go/protocols/mpp/server/session.go:520-525 | a step keeps watermark and reservations within the deposit exactly if a direct voucher in it leaves room for the reservations |
| SessionRuns.SolventExactly | go/protocols/mpp/server/session.go:520-525 | a run keeps them within the deposit at all times exactly if every direct voucher and closing voucher leaves room where it lands |
| SessionRuns.RoomWithoutReservations | go/protocols/mpp/server/session_voucher.go:205-209 | where nothing is reserved there is always room, however long the voucher waited |
| SessionRuns.ReservedCanCommit | go/protocols/mpp/server/session.go:624-732 | in a solvent open channel an unexpired reservation can be cashed in up to its amount, within the deposit |
| SessionRuns.WatermarkIsSigned | go/protocols/mpp/server/session.go:457-461 | in every run the watermark and the stored signature and expiry are those of one voucher of the authorized signer, for this channel while no close is pending |
| SessionRuns.ClosedIsFrozen | go/protocols/mpp/server/session.go:768-774 | after a close or seal no call moves watermark, deposit or deliveries, and none is charged, whatever was waiting |
| SessionRuns.AloneIsARun | go/protocols/mpp/server/session.go:394-474 | a voucher call that nothing interrupts is a run of the step system |
| SessionRuns.CommitAloneIsARun | go/protocols/mpp/server/session.go:624-732 | so is a commit |
| SessionRuns.ExpiryExactly | go/protocols/mpp/server/session_voucher.go:249-272 | an expiry passes exactly if there is none or it lies beyond now and the settlement window; saturation at 64 bits makes no difference |
| SessionRuns.VoucherChargesExactly | go/protocols/mpp/server/session_voucher.go:157-234 | alone, a voucher is charged exactly if it is for this open channel, raises the watermark by the minimum delta at least and to the deposit at most, is signed and outlasts the window |
| SessionRuns.CommitChargesExactly | go/protocols/mpp/server/session.go:624-732 | alone, a commit is charged exactly if its delivery is pending and unexpired and its voucher raises the watermark by no more than was reserved, is signed and outlasts the window |
| SessionRuns.MinimumMetExactly | go/protocols/mpp/server/session.go:453-461 | a voucher that waited is charged at least the minimum exactly when its check would still pass where it lands |
| SessionRuns.OvertakenBelowMinimum | go/protocols/mpp/server/session.go:453-461 | a voucher overtaken by another is charged the difference of the two, whatever the minimum |
| SessionRuns.ReplaysExactly | go/protocols/mpp/server/session_voucher.go:185-197 | alone, a voucher is answered as a replay, charging nothing, exactly if it is the recorded one on an open channel and still signed and in time |
| SessionRuns.CachedReceiptExactly | go/protocols/mpp/server/session.go:640-648 | alone, a commit for a committed delivery gets the cached receipt exactly if it repeats that voucher and it still is signed and in time |
| SessionRuns.JudgedInOrder | go/protocols/mpp/server/session_voucher.go:157-234 | the pinned order of the checks: each rejection for its own check with all earlier ones passed |
| SessionRuns.BeginReserves | go/protocols/mpp/server/session.go:526-604 | a delivery is reserved exactly if the channel is open, its id new and its amount positive and within what is left; its amount, id and expiry are those asked for, the reservations grow by exactly that amount, and nothing else moves |
| SessionRuns.BeginThenCommit | go/protocols/mpp/server/session.go:520-732 | whatever happens after a delivery was reserved, while it is pending a commit for it is charged exactly if it comes before the asked expiry and raises the watermark by no more than the asked amount, on an open channel, signed and in time |
| SessionRuns.DirectivesInSequence | go/protocols/mpp/server/session.go:557-580 | in every run the directives are numbered one after the other |
| SessionRuns.DepositWithinCap | go/protocols/mpp/server/session.go:268-277 | in every run the deposit is positive and within the cap, and with delegated settlement the operator signs |
| SessionRuns.OpensExactly | go/protocols/mpp/server/session.go:255-323 | which opens make a channel, and what it holds then |
| SessionRuns.ReopenKeeps | go/protocols/mpp/server/session.go:306-322 | an open of a known channel never changes its record |
| SessionRuns.TopsUpExactly | go/protocols/mpp/server/session.go:482-518 | which top-ups raise the deposit, to what they say |
| SessionRuns.ClosesExactly | go/protocols/mpp/server/session.go:775-835 | which closes close an open channel, and at which watermark |
| SessionRuns.HandlerClosesExactly | go/protocols/mpp/server/session_method.go:715-775 | which closes of the handler do, and that a pending close is accepted again until a settlement is recorded |
| SessionRuns.SealsOnly | go/protocols/mpp/server/session_store.go:340-349 | sealing changes the seal and the settlement's signature alone |
| SessionRuns.OpenInOrder | go/protocols/mpp/server/session.go:256-321 | an open is refused by the first of its nine checks that fails |
| SessionRuns.TopUpInOrder | go/protocols/mpp/server/session.go:483-513 | so is a top-up |
| SessionRuns.BeginInOrder | go/protocols/mpp/server/session.go:527-571 | so is a delivery, where capacity is counted without wrap-around |
| SessionRuns.LandInOrder | go/protocols/mpp/server/session.go:436-461 | so is a voucher under the lock, where one that another call landed first is a replay |
| SessionRuns.CheckCommitInOrder | go/protocols/mpp/server/session.go:626-662 | so is a commit before the lock |
| SessionRuns.LandCommitInOrder | go/protocols/mpp/server/session.go:671-708 | and under it, where a committed delivery is answered from the record |
| SessionRuns.CloseInOrder | go/protocols/mpp/server/session.go:781-823 | so is a close |
| SessionRuns.HandlerCloseInOrder | go/protocols/mpp/server/session_method.go:720-771 | and the handler's |
| SessionRuns.RejectionInOrder | go/protocols/mpp/server/session_voucher.go:314-319 | on commit and close the expiry is checked before the signature |
| GateFees.SumAnyOrder | go/paykit/gate.go:58-62 | a sum over a map does not depend on the order of ranging |
| GateFees.PayoutsAccountForTotal | go/paykit/gate.go:58-84 | payouts over all recipients plus the shortfall are the total, for every gate |
| GateFees.FeeConservation | go/paykit/gate.go:58-84 | payouts add up to the total exactly when the shortfall is zero, always for pairwise disjoint recipients |
| GateFees.ConservesExactly | go/paykit/gate.go:58-84 | for positive fees and a positive net, payouts add up to the total exactly when the recipients are pairwise disjoint |
| GateFees.ValidatedExactly | go/paykit/gate.go:96-168 | validation passes a gate exactly when it has a currency, named recipients, one currency, fees within the amount, and no x402 with fees; a usage gate exactly when it has a currency, no fees, and accepts nothing but x402 |
| GateFees.ProblemExactly | go/paykit/gate.go:96-168 | each reason of a refusal is given for its own check with all earlier ones passed |
| GateFees.ValidatedNet | go/paykit/gate.go:145-155 | a validated gate's main recipient nets nothing below zero |
| GateFees.OverlapLosesNet | go/paykit/gate.go:58-84 | every gate with a positive net and positive fees within, whose main recipient is absent or also has a fee, pays out less than its total, by the net amount at least |
| GateFees.OverlapValidates | go/paykit/gate.go:96-168 | validation passes such gates |
| GateFees.Gate.Total | go/paykit/gate.go:58-64 | the ranging loop adds the fees on top to the amount |
| GateFees.Gate.Payout | go/paykit/gate.go:68-84 | fee on top, else fee within, else the net for the named main recipient |
| GateFees.Gate.Validate | go/paykit/gate.go:96-168 | reports the first check that fails, for every gate, and defaults the kind |
| GateFees.Gate.Accepts | go/paykit/gate.go:114-118 | the loop over the accept list finds an entry that is x402, or one that is not |
| GateFees.OneCurrency | go/paykit/gate.go:125-150 | the collected currencies are one exactly when every fee has the gate's |
| GateFees.PhpGate.constructor | php/src/Gate.php:41-86 | throws for the first bad entry, then for fees above the amount, then for x402 with fees; keeps fees in order, within first |
| GateFees.PhpGate.Append | php/src/Gate.php:41-86 | one loop over a fee array appends its fees, or stops at the first bad one |
| GateFees.PhpTakesExactly | php/src/Gate.php:41-86 | the list form takes exactly fee arrays with named recipients of the gate's currency, within the amount, and without x402 beside a fee |
| GateFees.PhpThrowsFirst | php/src/Gate.php:50-57 | the first bad entry of the two arrays decides the exception |
| GateFees.PhpGate.Total | php/src/Gate.php:91-100 | the running total is the amount plus the fees on top |
| GateFees.PhpGate.Payout | php/src/Gate.php:105-123 | the main recipient's net first, else the first fee of the address |
| GateFees.ListsMapSum | php/src/Gate.php:91-100 | a list that holds a map's entries has the map's sum |
| GateFees.FormsAgree | php/src/Gate.php:91-123 | the list form charges the map form's total, and pays an address the same exactly when no two roles of it differ in amount |
| GateFees.FormsValidateAlike | php/src/Gate.php:41-86 | for one gate the list form takes what the map form validates, but for recipients that PHP turns into integers |
| Usage.GateTotalBaseUnits | go/paykit/usage.go:294-297 | the ceiling is the gate's total, truncated to base units, in 64 bits |
| Usage.CeilingIsPrice | go/paykit/usage.go:294-297 | for a validated usage gate the ceiling is its price rounded down exactly when the price is below 2^64 base units |
| Usage.NegativeCeiling | go/paykit/usage.go:294-297 | the sign of a price is lost in its ceiling |
| Usage.ActsOnlyBuffer | go/paykit/usage.go:361-382 | whatever a handler does, setting and deleting headers included, reaches neither adapter nor client; buffers hold its charge, bytes, headers and first status |
| Usage.OnlyFirstAnswerCounts | go/paykit/usage.go:386-400 | finalising again changes nothing |
| Usage.SettlesOnceFailsClosed | go/paykit/usage.go:319-412 | one settlement, of the clamped last charge or zero, one release, and only the error response unless a positive settlement succeeded |
| Usage.SettlementRecorded | go/paykit/usage.go:319-359 | the amount settled is the last charge or the ceiling; the error says what failed; the payment has the settlement's transaction and headers, or nothing |
| Usage.BufferedResponse | go/paykit/usage.go:361-439 | on success the client gets the first status, all bytes in order and every header by settlement, handler and connection in this order, the sniffed type included |
| Usage.BufferingAgreesWithDirect | go/paykit/usage.go:361-439 | the response is what the handler would send without a buffer exactly if its first status is not zero and no header set later changes anything |
| Usage.SettledWithinPrice | go/paykit/usage.go:53-75 | a usage gate never settles more than its price, even where the ceiling wraps |
| Usage.FirstNonzeroIsSent | go/paykit/usage.go:361-367 | the client gets the first nonzero status exactly if zero did not come first or that status is 200 |
| Usage.ZeroHidesNotFound | go/paykit/usage.go:361-367 | status 0 and then 404: the client gets 200 |
| Usage.Charge.Record | go/paykit/usage.go:53-61 | a charge is clamped to the ceiling |
| Usage.UsageWriter.Settle | go/paykit/usage.go:319-352 | at most one settlement; zero and missing charges settle zero and fail |
| Usage.UsageWriter.SettleCharge | go/paykit/usage.go:336-351 | the settlement of a positive charge, with its error, or its record, transaction and headers |
| Usage.UsageWriter.SettleZeroAndFailClosed | go/paykit/usage.go:354-359 | settles zero and always leaves an error, with the adapter's own if there is one |
| Usage.UsageWriter.WriteHeader | go/paykit/usage.go:361-367 | the first status is kept |
| Usage.UsageWriter.Write | go/paykit/usage.go:369-375 | bytes are buffered, with 200 as status if none was written |
| Usage.UsageWriter.FinalizeSettlement | go/paykit/usage.go:386-400 | settle, then the error or the merged response |
| Usage.UsageWriter.WriteSettlementError | go/paykit/usage.go:402-412 | one error response, unless a response went out |
| Usage.UsageWriter.Flush | go/paykit/usage.go:414-439 | one response from the buffers, unless one went out |
| Usage.UsageWriter.MergeIntoDestination | go/paykit/usage.go:420-426 | the handler's headers replace the destination's, value lists included |
| Usage.UsageWriter.OverlayHeader | go/paykit/usage.go:394-398 | every settlement header replaces the handler's |
| Usage.UsageWriter.Serve | go/paykit/usage.go:219 | the handler's acts, one after the other |
| Usage.RequireUsageFunc | go/paykit/usage.go:136-222 | a request is turned away by the first check that fails, with no handler run and nothing settled; otherwise handler and finalisation run once, and adapter and handler are called in this order |
| Usage.RefusedExactly | go/paykit/usage.go:139-180 | which requests are served, over gate and request, and which check turns away each other one |
| Usage.TraceTells | go/paykit/usage.go:164-219 | which calls to adapter and handler each way to end has made, in order |
| Usage.NothingWithoutOpen | go/paykit/usage.go:168-219 | no act of a handler and no settlement without an accepted open before it |
| Usage.ServedRequestSettles | go/paykit/usage.go:182-219 | a served request settles once, within the gate's price, and gets the handler's response exactly if that settlement succeeded |
| Expectations.GlobKeepsPrefix | harness/src/expectations.ts:92-98 | a pattern with a literal prefix matches only keys with that prefix |
| Expectations.LiteralMatches | harness/src/expectations.ts:90-98 | a pattern without a star matches itself alone |
| Expectations.ConcatMatches | harness/src/expectations.ts:92-98 | two patterns one behind the other match exactly texts one behind the other |
| Expectations.GlobStarMatches | harness/src/expectations.ts:92-98 | a star between two patterns takes any characters of one line between their texts |
| Expectations.PrefixStarMatches | harness/src/expectations.ts:92-98 | a literal text with a star behind matches exactly the keys that start with it and go on in one line |
| Expectations.PrefixDecides | harness/src/expectations.ts:279-292 | what such an entry decides of a claimed case |
| Expectations.SuiteOfPrefix | harness/src/expectations.ts:108-114 | a text has the one suite whose prefix it starts with |
| Expectations.EntryStaysInSuite | harness/src/expectations.ts:106-114 | a list entry matches only cases of the suite it names |
| Expectations.CaseKeyInjective | harness/src/expectations.ts:68-70 | a case key tells suite and id |
| Expectations.SeeIds | harness/src/expectations.ts:195-199 | accepts exactly ids that are new and distinct |
| Expectations.PushIds | harness/src/expectations.ts:200-208 | one entry for each id, or the failure of an id without a suite |
| Expectations.ParseUnsupported | harness/src/expectations.ts:173-211 | accepts exactly lists of well-formed tables with no id twice, and returns their entries in order |
| Expectations.AddKnown | harness/src/expectations.ts:238-242 | adds exactly distinct, unlisted ids that name a suite |
| Expectations.ParseKnownFailing | harness/src/expectations.ts:213-243 | accepts exactly well-formed tables with no id twice, and maps every id to its table's reason |
| Expectations.CheckSuites | harness/src/expectations.ts:245-255 | passes exactly when every listed entry belongs to a claimed suite |
| Expectations.ParseExpectations | harness/src/expectations.ts:173-265 | returned lists are the tables' entries, each with its suite, each suite claimed; it fails for nothing else |
| Expectations.ReconcilesMeansEqual | harness/src/expectations.ts:324-360 | a verdict is ok exactly when the observation is of the decided kind |
| Expectations.LastExecutionIsRecorded | harness/src/expectations-run.ts:86-94 | after a run the recorder holds of every executed key what its last execution showed |
| Expectations.CaseRecorder.Verdict | harness/src/expectations-run.ts:98-103 | records in any case, and throws exactly on a contradiction outside discovery |
| Expectations.CaseRecorder.AssertComplete | harness/src/expectations-run.ts:107-117 | silent exactly when every claimed case has an observation |
| Expectations.CollectClaimed | harness/src/expectations.ts:299-301 | collects exactly the keys of the claimed cases |
| Expectations.DanglingUnsupported | harness/src/expectations.ts:303-308 | no problem exactly when every entry of the suite matches a claimed case |
| Expectations.DanglingKnown | harness/src/expectations.ts:309-312 | no problem exactly when every listed id of the suite is a claimed case's key |
| Expectations.DanglingEntries | harness/src/expectations.ts:294-314 | empty exactly when every entry of the suite matches a claimed case |
| Expectations.CheckIds | harness/test/protocol-conformance.test.ts:55-59 | the protocol driver's test of its ids passes exactly if they are pairwise different |
| Expectations.RunSuite | harness/test/protocol-conformance.test.ts:95-138 | a driver's run over the places of its list is green exactly when no verdict threw, nothing is missing, nothing dangles, and its ids are different where it tests that |
| Expectations.GreenMeansObserved | harness/src/expectations-run.ts:96-117 | where claimed places have different keys, a run is green exactly when every claimed place ran, every execution showed what was declared and every entry was borne out |
| Expectations.TestedIdsProve | harness/test/protocol-conformance.test.ts:55-59 | so for the protocol driver, whose list is of one suite and whose ids are tested, without any condition |
| Expectations.GreenProvesExactly | harness/src/expectations-run.ts:86-117 | every green run of a list executes every claimed place, and so observes what is declared, exactly when claimed places have pairwise different keys |
| Expectations.HiddenRunIsGreen | harness/src/expectations-run.ts:86-117 | two claimed places under one key: from any green run, a green run that leaves one of them out |
| Expectations.FlowNamesHide | harness/test/flow-conformance.test.ts:47 | two flow cases of one name: a green run without the second |
| Expectations.CountCell | harness/coverage-table.ts:44-47 | a cell's four counts are the decisions of its cases and add up to them |
| Expectations.CoverageIsObserved | harness/coverage-table.ts:41-53 | after a green run a cell's counts are those of the places that showed each kind |
| Challenge.ScanQuoted | harness/ts-client/main.ts:114-127 | the loop over a quoted value undoes its escapes and stops behind the closing quote, or at the end |
| Challenge.ScanToken | harness/ts-client/main.ts:129-131 | an unquoted value ends at the first comma or space |
| Challenge.ScanFirst | harness/ts-client/main.ts:100-134 | one turn of the scan reads the first parameter, or finds none, and says where it stopped |
| Challenge.ScanParams | harness/ts-client/main.ts:99-134 | the scan ends on every input with the map of the pairs it read, the last one of a name winning |
| Challenge.LastWins | harness/ts-client/main.ts:133 | the map has exactly the names read, each with its last value |
| Challenge.ParseWwwAuthenticate | harness/ts-client/main.ts:89-151 | scheme check, trimming, scan and the first missing name, in that order |
| Challenge.SchemeExactly | harness/ts-client/main.ts:89-94 | a header has the scheme exactly if it starts with payment in any case and a space |
| Challenge.SchemeDecides | harness/ts-client/main.ts:89-94 | every other header is refused, and the case of the scheme makes no difference |
| Challenge.TrimIs | harness/ts-client/main.ts:94 | trimming takes the white space at both ends and nothing else |
| Challenge.EscapedMeans | harness/ts-client/main.ts:114-127 | escaping quotes and backslashes is a quoted-string of the value |
| Challenge.QuotedRoundTrip | harness/ts-client/main.ts:114-127 | every quoted-string, whatever it escapes, is read as its value, and reading stops behind its quote |
| Challenge.ScanRoundTrip | harness/ts-client/main.ts:99-134 | a printed parameter list is read as its meaning exactly when no token stands directly before a tab and there is no white space around an `=`, but for a last quoted value whose meaning it is |
| Challenge.QuoteHidden | harness/ts-client/main.ts:113-131 | white space behind `=` is read as the value up to its first space; without a space the quoted value is never read |
| Challenge.TrimKeepsScan | harness/ts-client/main.ts:94 | trimming a printed list does not change what is read |
| Challenge.HeaderRoundTrip | harness/ts-client/main.ts:89-151 | a printed header, names in any order and repeated at will, parses to what it means |
| Challenge.AcceptedExactly | harness/ts-client/main.ts:136-150 | a parameter list is a challenge exactly when all five required names occur |
| Challenge.ChallengeRoundTrip | harness/ts-client/main.ts:89-151 | every challenge survives printing and parsing, whatever its values contain |
| Units.PowerOfTen | harness/go-server/main.go:366-372 | the loop computes the power |
| Units.DecimalOfDigits | go/paykit/price.go:55-69 | a sign, digits, a dot and digits denote the number they spell |
| Units.GoPhpDenote | harness/go-server/main.go:356-364 | Go's and PHP's text denotes n / 10^decimals exactly for n not negative or without a fraction, and otherwise is no number |
| Units.ConvertsExactly | harness/go-server/main.go:356-364 | from the digits of n, Go and PHP print its price exactly below 2^63; above, Go returns the digits; Python always prints it |
| Units.PythonDenotes | harness/python-server/server.py:135-146 | Python's text denotes n / 10^decimals for every n |
| Units.PrintersInverted | harness/php-server/server.php:194-207 | for every non-negative n the three texts parse to one price, worth n base units modulo 2^64 |
| Units.PrintersInvertedBelow2To63 | go/paykit/usage.go:294-297 | below 2^63 a gate priced by any of the texts charges n base units |
| Units.NegativeRefused | go/paykit/price.go:55-63 | a negative amount is refused, whichever server printed it |
| Dotenv.LinesAppend | go/paykit/preflight.go:261-262 | appending behind a newline keeps the earlier lines and adds the new ones, ended or not |
| Dotenv.AppendRead | go/paykit/preflight.go:287-306 | what any key reads after an append, for every amount that was written |
| Dotenv.OtherKeysUntouched | go/paykit/preflight.go:287-306 | every other key reads as before, even after a write that was cut off |
| Dotenv.AppendedIsRead | go/paykit/preflight.go:255-306 | the value is read back exactly when the key had it, or had no line and the whole value was written |
| Dotenv.CompleteMeansWhole | go/paykit/preflight.go:287-306 | appending succeeds exactly if the file then ends in the whole entry on a line of its own |
| Dotenv.NextBootResolves | go/paykit/preflight.go:233-250 | what the next boot resolves, for every file and however much was written |
| Dotenv.StepsInOrder | go/paykit/preflight.go:233-250 | the environment comes first and leaves the file alone; there is no secret exactly if no step has one |
| Dotenv.NextBootResolvesSame | go/paykit/preflight.go:233-250 | exactly when that is the same secret, for every file and write |
| Dotenv.EmptyDefinitionSticks | go/paykit/preflight.go:277-281 | a first line that defines the key as empty is such a file, whatever follows it |
| Dotenv.DefinesExactly | go/paykit/preflight.go:263-274 | a line defines a name exactly if it is blanks, the name, blanks, an equals sign and anything |
| Dotenv.ValueExactly | go/paykit/preflight.go:275-281 | one pair of equal quotes around the value is taken off, whatever it holds, blanks around it or not; every other value is kept |
| Dotenv.CommentDefinesNothing | go/paykit/preflight.go:264-266 | a line whose first character after blanks is # defines no key |
| Dotenv.FirstDefinitionRead | go/paykit/preflight.go:262-283 | the first line that defines the key is read, wherever it stands and however it ends |
| Dotenv.QuotedSecretResolves | go/paykit/preflight.go:233-250 | a boot resolves the text between the quotes of such a line |
| Dotenv.DotenvFile.Read | go/paykit/preflight.go:255-285 | the value of the first line that defines the key; found only if it is not empty |
| Dotenv.DotenvFile.Append | go/paykit/preflight.go:287-306 | a newline first if the file existed, then the entry, as far as it could be written; an error if not all was |
| Dotenv.DotenvFile.ResolveSecret | go/paykit/preflight.go:233-250 | environment, then file, then a generated value that is appended and used even if appending fails |

## Left out

- HTTP, RPC, DOM, wallets and service workers: their answers are parameters.
- Cryptography, base64 and the derivation of token account addresses: signatures are 64 given bytes, `findATA` is a function parameter.
- Text encodings: memos are their UTF-8 bytes (the 566 limit is on bytes), which bytes are text is a parameter of the decoder, and request amounts are integers already parsed from their decimal strings.
- `payTestMode`'s own instruction loop: it repeats `payWithWallet`'s statement by statement, so one method models both; only its signature write is separate.
- Third-party transaction parsers (solders, solana-php): the message reader in `Wire.dfy` stands for them, so legacy and version-1 messages and address tables are not read.
- Shape.ShapeFromMessage: compares program keys as bytes where the runners compare base58 texts; `Base58.DecodeInjective` makes the two equal.
- KeyTable.MergeUnion: tables are found by key where the source uses the key's hex text; `KeyTable.HexInjective` makes the two equal.
- The replay store behind the ledger: any store with atomic put-if-absent and delete; expiry of keys is not modelled.
- Ledger.AtMostOneWinner: a winner releases at most once; further Release calls are the subject of `Ledger.RetrySafeExactly` and `Ledger.SafeRetriesKeepWinnersUnique`.
- The previous release's code is not in the repository: it is modelled as the comments of `go/paycore/consumed.go` describe it, claiming and releasing the legacy key alone.
- Decimal arithmetic (shopspring/decimal, PHP decimals) is exact over the reals.
- Settlement coins of a price are copied around and never compared, so prices carry amount and currency only.
- The messages of the PHP gate's exceptions.
- The mutex of the usage meter: charges are one sequence of calls.
- Usage.BufferingAgreesWithDirect: status codes that net/http refuses or treats as informational, and when a direct writer sniffs, are not modelled.
- Canonical header names and content sniffing: header keys compare as given, `http.DetectContentType` is a parameter.
- The 402 bodies and challenge headers of a refused usage request: only which check refused it.
- Expectations.ParseExpectations: TOML parsing, the language, the capabilities table, unknown-key checks and all messages of the expectations files are not modelled; `ParseUnsupported` and `ParseKnownFailing` start from tables whose value types are right.
- Flake handling of the drivers: discovery mode of a whole run and the duration budget that fails a case regardless of its decision.
- The markdown text of the coverage table; only its counts.
- Units.GoPhpDenote: 64-bit overflow of 10^decimals is not modelled (the servers use 6 decimals); PHP's cast is modelled for digits only.
- Units.DecimalOfDigits: exponents, which the decimal library also reads, are not modelled.
- Units.PythonDenotes: input strings are integers already.
- Dotenv.DotenvFile.Read: a line beyond the scanner's 64 KiB limit, which ends the scan, is not modelled, nor is a file that exists but cannot be read.
- Session.SessionServer.ProcessOpen: modes, the session id of a payload and on-chain confirmation are given answers; operator and open slot are not kept. The HTTP handler's open has the same effect on the record and is not modelled apart.
- Session vouchers carry the number of their cumulative text, so the handler's textual replay test is the numeric one; deleting channels and durable stores are not modelled, and sequence numbers wrap at 2^64.
- Session.SessionServer.VerifyVoucherDetailed: the method runs alone; what other calls may do between its check and its update is the subject of `SessionRuns`.
- The metering directive's currency, URL and proof, streaming, idle close and on-chain settlement of sessions.
- Subscriptions, batch settlement and the exact and upto verifiers are not part of this model.
