# p2poker, verified

A Dafny model of the hard core of p2poker: a peer-to-peer Texas hold'em game in which every seat keeps its
own copy of a signed action log, agrees on each action by exchanging receipts, and deals cards with
commutative (SRA) encryption. `dafny verify dfyconfig.toml` checks the whole project.

The model is layered the way the program is.

- **Encoding and signatures** (`Bytes`, `Entries`, `Wire`, `History`): entries and signed payloads byte for byte, and
  what one signature commits its signer to. Signatures are ideal: 64 bytes, each valid under a key for one payload.
- **Betting** (`Betting`, `LogRules`, `BettingProofs`, `StreetClosure`, `FreeRide`): `Replay`, `ValidateAction`,
  the turn rule, and what every *accepted* log keeps, an accepted log being one whose every entry passed
  `VerifyProposal` or `VerifyAutoFoldEntry` against the log before it. 64-bit arithmetic wraps explicitly.
- **Agreement** (`Consensus`, `ConsensusInv`, `Agreement`, `RoundFiles`, `Disagreement`, `LeftBehind`, and
  the runs of `Divergence` and `Straggler` put together with `Scenario`): the round protocol as a step relation over all
  replicas, with any interleaving of polls and deadlines.
- **The runner** (`Keys`, `Store`, `Hosting`, `LocalMoves`, `Runner`, `Network`): log, store and runner as
  objects. A runner keeps its round files under string keys and polls the stores of the others; whatever the
  runners of a hand are made to do is a run of the protocol.
- **Cards** (`NumberTheory`, `Text`, `Sra`, `Shuffling`, `Cards`, `MentalPoker`, `Peers`, `DealRun`, `DealSteps`,
  `DealTrace`, `DealProgress`, `DealNetwork`, `DealRing`): Fermat's little theorem up to a whole table of peers
  shuffling, dealing and revealing in any interleaving, the node objects whose calls are its steps, and the
  in-memory dealing ring on capacity-one channels.
- **Showdown** (`Sorting`, `HandOrder`, `HandSpec`, `HandExact`, `HandLadder`, `HandEval`, `HandArrange`,
  `HandRanking`, `BestHand`, `Showdown`, `ShowdownRun`): hand ranking against a specification that only counts
  ranks, the order of hands at the table, the search for the best five cards, claims and winners.
- **A hand from start to end** (`HandFlow`, `HandEnd`, `Outcome`): which board cards are opened when, and that
  rounds, deal and showdown together give all peers the same winners.

`Arith` and `Sequences` hold the few facts about numbers and sequences that several layers use.

## Where the code and its promises differ

- `docs/whitepaper/consistency.md:193` says that the log is "always committed everywhere or nowhere". That is not
  so: logs can come to differ, and an entry can be committed by some live seats and never by another.
  - *Logs that differ.* Receipts outlive a rollback, so the proposer can commit while the others time out and fold it:
    `Divergence.LogsDiverge` is such a run of two seats. And nobody waits for the receipt of a folded seat, so its
    replica can commit an attempt that the live seats give up for another: `Straggler.ReceiptCommitsDiffer` is such a
    run of three seats, with no auto-fold in it. `Disagreement.FirstDifferenceOfAny` shows that two logs that differ
    first do so in one of these two ways. `Disagreement.AgreeIffClosedAlike` says for any two replicas exactly when
    their logs agree as far as both reach; `Agreement.AgreementIff` does so for two seats that are in, by who has folded
    whom. `Disagreement.DisagreesIffAttested` and `Disagreement.DisagreesIffWentBack` are conditions that a seat can
    check on itself.
  - *Entries that never arrive.* `LeftBehind.SeatLeftBehind` is a run of three seats, all in, in which two commit and
    the third, whose deadline fired, never commits anything in any continuation. `LeftBehind.EverywhereIff` is the exact
    condition: an entry committed by receipts is or can still be committed by a seat that is in after it if and only if
    that seat has committed it or is still in the committed attempt. A seat can check that at its own deadline: once it
    has gone past the attempt, `LeftBehind.LeftForGood` says that its log never changes again. And it takes the others
    with it: `LeftBehind.AtMostOneAhead` shows that nobody is ever more than one round ahead of a seat that is in, so by
    `LeftBehind.HandStops` the hand stops after the next round, unless the seat left behind is itself folded, which by
    `LeftBehind.GoesOnOnlyByFold` takes its auto-fold in that very round.
- `internal/round/runner.go:458` says that folded seats "can stay disconnected". For receipts they can. But a board
  card needs every seat's layer off, and `DealTrace.BoardNeedsEverySeat` shows that nobody ever records a board card
  that some seat, folded or not, has not stripped.
- The turn moves to `round mod n`, skipping folded seats, so after a fold a seat can act twice on a street while
  another is passed over. `FreeRide.StreetClosesUnmatched` gives an accepted hand in which a street closes on a seat
  that has chips and has not paid. `StreetClosure.StreetClosureIff` and `StreetMatchedIff` say exactly when a street
  closes with everybody having acted, and with everybody having paid; `FoldFreeClosure` says that without folds it
  always does.
- The co-signers of a self-signed entry are not part of its bytes, so `Log.Bytes` is injective only up to that field:
  `Entries.LogBytesInjective` is the exact statement and `Entries.SelfSignedCoSignersNotCovered` the example.
- The comment on `buildOrderedDeck` says that cards are numbered from one so that the cipher never sees the zero
  element. The bytes of "0" are not zero, and `Sra.AllLayersOff` shows that the exact condition on a card is another
  one: no leading zero byte, and a value below the prime. With the prime 13619 the largest card, "52", has value
  13618, so the prime has no room to spare.

## Model

| member | source | states |
|---|---|---|
| `Entries.ActionRoundTrip` | internal/game/action.go:23-38 | decoding the nine bytes of an action gives the action back, whatever follows them |
| `Entries.EncodeEntry` | internal/game/log.go:50-79 | read place by place, the buffer holds the round in bytes 0-7, the seat in byte 8, the kind in 9, the amount in 10-17, the length of the signature modulo 65536 in 18-19 and then the signature; for kind 0 without a signature the number of co-signers modulo 256 and, for each, seat, length and signature; at the end the data behind its length modulo 2^32; nothing else |
| `Entries.EncodeLog` | internal/game/log.go:103-109 | the loop over the entries yields their byte strings one after the other, lengths that do not fit their field cut off as in the source |
| `Entries.EntryPrefixFree` | internal/game/log.go:50-79 | two entries followed by any bytes give the same string only if the entries agree on every encoded field and the rests are equal |
| `Entries.LogTailUnique` | internal/game/log.go:103-109 | a log followed by a tail of at most 18 bytes can be split into entries and tail in one way only |
| `Entries.LogBytesInjective` | internal/game/log.go:103-109 | two logs have the same bytes if and only if they agree on every encoded field |
| `Entries.SelfSignedCoSignersNotCovered` | internal/game/log.go:50-79 | two different self-signed entries with equal bytes |
| `Entries.ProposalPayloadInjective` | internal/game/log.go:268-277 | a proposal payload determines the encoded log and the action |
| `Entries.AutoFoldPayloadInjective` | internal/game/log.go:174-184 | an auto-fold payload determines the encoded log, the round and the seat |
| `Entries.PayloadKindsDisjoint` | internal/game/log.go:174-332 | a proposal payload is never an auto-fold payload, whatever logs and values they are built from; and neither is ever a receipt payload when every entry of its log is signed or co-signed |
| `Wire.ProposalLaidOut` | internal/game/log.go:268-270 | what a proposal signs: the log, one byte for the kind, eight for the amount |
| `Wire.AutoFoldLaidOut` | internal/game/log.go:173-184 | what an auto-fold signs: the log, the word auto_fold, eight bytes for the round, one for the seat |
| `Wire.ReceiptLaidOut` | internal/game/log.go:313-324 | what a receipt signs: the hash, the word verify, eight bytes for the round |
| `History.SignaturePinsHistory` | internal/game/log.go:284-303 | if two accepted logs hold a self-signed entry with the same key and signature, it is at the same place in both, everything before it agrees on every encoded field, and its action, round and seat are equal |
| `History.CoSignaturePinsHistory` | internal/game/log.go:217-254 | an auto-fold co-signature fixes the place, the encoded fields of everything before it, and the folded seat in the same way |
| `History.SignatureKindsApart` | internal/game/log.go:284-303 | no signature serves both a proposal and an auto-fold |
| `History.AcceptedSigned` | internal/game/log.go:217-303 | every entry of an accepted log carries a 64-byte signature or 64-byte co-signatures |
| `Betting.NumNonFolded` | internal/game/state.go:30-38 | counts the seats that are still in |
| `Betting.Replay` | internal/game/state.go:42-108 | the loop that stops when the hand is over computes the same state as applying the entries one at a time |
| `Betting.ExpectedNextPlayer` | internal/game/log.go:119-136 | for a log of r entries and n seats, the seat (r + j) mod n for a j below n such that it is unfolded and the seats (r + i) mod n for i below j are all folded; with all seats folded, r mod n; with no seats, 0 |
| `Betting.NextLiveIff` | internal/game/log.go:127-135 | the seat found by going round is the one described by position, and no other seat is that |
| `Betting.TurnIsLive` | internal/game/log.go:119-136 | if any seat is unfolded, the seat to act is unfolded |
| `LogRules.ExpectedAutoFoldAttestors` | internal/game/log.go:203-213 | exactly the unfolded seats but the target, ascending |
| `LogRules.CheckCoSignatures` | internal/game/log.go:235-253 | accepts if and only if the co-signers are the expected seats in order, each with a key and a valid signature |
| `LogRules.VerifyAutoFoldEntry` | internal/game/log.go:217-254 | accepts if and only if the entry folds an unfolded seat in this round and every other unfolded seat signed that |
| `LogRules.AcceptedAppend` | internal/game/log.go:257-303 | an entry that verifies against an accepted log extends it to an accepted log |
| `LogRules.AdmittedPlays` | internal/game/log.go:217-303 | an admitted entry is for its own position and plays a legal action of an unfolded seat, or folds one |
| `LogRules.NonFoldHadTurn` | internal/game/log.go:284-303 | only a fold can be entered for a seat whose turn it is not |
| `BettingProofs.PlayIsExact` | internal/game/state.go:55-86 | no subtraction or addition of an admitted action wraps; the chips moved are the cost; a raise sets the bet to its raise-to amount |
| `BettingProofs.StepKeeps` | internal/game/state.go:55-106 | an admitted action keeps the table sound, opens at most one street and lowers the potential unless it ends the hand |
| `BettingProofs.AcceptedSound` | internal/game/state.go:42-108 | on every accepted log chips and pot add up to n times the stack, no contribution exceeds the bet, and in an open hand at least two seats are in and the settlement counter lies between one and their number |
| `BettingProofs.TurnUnfolded` | internal/game/log.go:119-136 | in an open hand the seat to act is unfolded |
| `BettingProofs.LegalMoves` | internal/game/state.go:111-160 | for an unfolded seat exactly one of check and call is legal, and a raise exactly when it exceeds the bet and can be paid |
| `BettingProofs.LegalIff` | internal/game/state.go:111-160 | at a sound table an action passes if and only if the hand is open, the seat is in, and it is a fold (0), a check (1) with the bet matched, a call (2) with it not matched, each of amount zero, or a raise (3) above the bet that the seat can pay |
| `BettingProofs.PlayByKind` | internal/game/state.go:55-86 | kind 0 only folds the seat, 1 moves nothing, 2 pays what is owed or all there is, 3 makes the amount the bet and the seat's contribution; chips move from stack to pot, and all but 3 settle one seat |
| `BettingProofs.StreetMovesIff` | internal/game/state.go:88-105 | a street ends if and only if the last unsettled seat does not raise and two seats are left; the next opens with no bet, no contributions and every seat left unsettled; the hand is over if and only if one seat is left or four streets are played |
| `BettingProofs.PotentialBound` | internal/game/state.go:55-106 | potential plus length of an open accepted log never exceeds 4n + n * n * stack |
| `BettingProofs.HandTerminates` | internal/game/state.go:42-108 | an accepted log of 4n + n * n * stack entries is over |
| `StreetClosure.StreetClosureIff` | internal/game/state.go:77-105 | when a street closes, every seat that was in has acted since the last raise or the opening if and only if no seat acted twice |
| `StreetClosure.StreetMatchedIff` | internal/game/state.go:77-105 | when a street closes, every seat is out, has matched the bet or is out of chips if and only if nobody raised or every seat still in with chips acted since the last raise |
| `StreetClosure.FoldFreeClosure` | internal/game/state.go:77-105 | on a log without folds every closing street has seen every seat act and match the bet or run out of chips |
| `FreeRide.StreetClosesUnmatched` | internal/game/log.go:119-136 | an accepted hand under ideal signatures in which a street closes on a seat with chips that has not matched the bet |
| `ConsensusInv.NextGrows` | internal/round/runner.go:212-345 | no move shrinks a committed log or rewrites anything a replica ever hosted |
| `ConsensusInv.NextLocal` | internal/round/runner.go:212-254 | every move keeps the per-replica invariant: slots are used in order, one entry per slot, commits are of what was hosted |
| `ConsensusInv.NextBacked` | internal/round/runner.go:270-491 | every move keeps that commits are backed by the peers' receipts and folds by their attestations |
| `Agreement.StepsKeep` | internal/round/runner.go:212-504 | every step of the protocol keeps the whole invariant |
| `Agreement.RunInv` | internal/round/runner.go:129-504 | every state of every run satisfies it |
| `RoundFiles.RunHostsExactly` | internal/round/runner.go:223-238 | in every state of every run a replica hosts no proposal but its own of the current round and attempt, and that one throughout the attempt; of all receipts and attestations it ever hosted, exactly those are gone whose next round was committed by receipts; attempts stay below the maximum and auto-folding starts when they are used up |
| `Agreement.CommitIsProposal` | internal/round/runner.go:270-345 | a receipt commit is of the entry that the seat to act hosted for that very attempt |
| `Agreement.ReceiptCommitsAgree` | internal/round/runner.go:459-491 | receipt commits of one round by two seats that were in share attempt and entry |
| `Agreement.ReceiptCommitExcludesFold` | internal/round/runner.go:350-434 | a seat that committed a round by receipts co-signs no auto-fold of it |
| `Agreement.ReceiptCommitRulesOutFold` | internal/round/runner.go:350-434 | a receipt commit by a seat other than the one to act rules out the auto-fold of that round |
| `Agreement.FoldsAgree` | internal/round/runner.go:350-434 | two replicas that auto-fold the same round of the same log append the same entry |
| `Agreement.FirstDivergence` | internal/round/runner.go:212-491 | where two logs first differ, both seats being in, one seat is the proposer with its own proposal committed by receipts and the other holds its fully co-signed fold |
| `Agreement.OthersNeverDisagree` | internal/round/runner.go:212-491 | two seats that were in, neither of them to act, never commit different entries |
| `Agreement.AgreementIff` | internal/round/runner.go:212-491 | two logs whose owners are both in agree as far as both reach if and only if neither has folded the other's owner |
| `Disagreement.FirstDifferenceOfAny` | internal/round/runner.go:212-491 | where the logs of any two replicas first differ, owners in or folded: the seat to act committed its own proposal against its co-signed fold, or a folded owner's replica committed an attempt in which every seat took part, against a later attempt or the fold |
| `Disagreement.AgreeIffClosedAlike` | internal/round/runner.go:212-491 | the logs of any two replicas, owners in or folded, agree up to m if and only if every round below m was closed alike: both by the fold, or both by receipts in the same attempt, or in attempts in which the seat to act proposed the same again |
| `Disagreement.DisagreesIffAttested` | internal/round/runner.go:212-434 | once the seat to act has committed a round by receipts, a seat that was in and has left it disagrees if and only if it attested that round |
| `Disagreement.DisagreesIffWentBack` | internal/round/runner.go:212-491 | whoever committed a round by receipts, in or folded, every seat that was in stood for that very entry in that attempt, and one that has left the round disagrees if and only if it committed another than it stood for |
| `Straggler.ReceiptCommitsDiffer` | docs/whitepaper/consistency.md:193 | a run of three seats under ideal signatures in which a folded seat and the two others commit different entries for the same round, both by receipts |
| `LeftBehind.SeatLeftBehind` | docs/whitepaper/consistency.md:193 | a run of three seats under ideal signatures in which two commit an entry and the third, in as they are, commits nothing in any continuation |
| `LeftBehind.EverywhereIff` | docs/whitepaper/consistency.md:193 | an entry that a seat which was in committed by receipts is or can still be committed, in some continuation, by a seat in after it with the same history, if and only if that seat has committed it or runs and is still in that attempt |
| `LeftBehind.MayCommitIff` | internal/round/runner.go:212-254 | for a running seat still at that round: some continuation has it commit the entry if and only if it is still in the committed attempt |
| `LeftBehind.NothingLost` | internal/round/runner.go:459-504 | a seat still in the attempt that another one committed is collecting that very entry, and every receipt it waits for is still hosted, whatever the others did since |
| `LeftBehind.LeftForGood` | internal/round/runner.go:212-412 | once a seat that was in and not to act committed a round by receipts, a seat that was in and has gone past that attempt keeps its log unchanged in every later state of the run |
| `LeftBehind.AtMostOneAhead` | internal/round/runner.go:350-491 | in every run no replica is more than one round ahead of a seat that is in on its log |
| `LeftBehind.GoesOnOnlyByFold` | internal/round/runner.go:350-434 | a replica that gets two rounds ahead of a seat that was in has auto-folded that very seat in the second of them |
| `LeftBehind.HandStops` | internal/round/runner.go:129-171 | after such a missed deadline no replica ever gets past the next round without the seat left behind being folded on its log |
| `Agreement.FinishedLogsAgree` | internal/round/runner.go:129-171 | two seats that have finished the hand, each in on both logs, have the same log |
| `Agreement.NothingLostTooEarly` | internal/round/runner.go:231-238 | a seat that is in and still at round r finds every receipt and attestation that was ever hosted for round r |
| `Agreement.RunLogsSound` | internal/round/runner.go:129-171 | in every state of every run every log is accepted, its table is sound and its length is within the bound of a hand |
| `Divergence.LogsDiverge` | docs/whitepaper/consistency.md:193 | a run of two seats under ideal signatures that ends with different first entries |
| `Runner.GameLog.Append` | internal/game/log.go:158-162 | the log grows by the entry |
| `Runner.GameLog.RollbackLast` | internal/game/log.go:165-171 | the last entry goes; an empty log stays empty |
| `Runner.GameLog.AppendAutoFold` | internal/game/log.go:257-265 | appends if and only if the auto-fold verifies, and changes nothing otherwise |
| `Runner.AppendThenRollback` | internal/game/log.go:158-171 | rolling back an append restores the log |
| `Runner.RoundRunner.Offer` | internal/round/runner.go:270-295 | the proposer's turn is taken exactly when the protocol's Propose move is allowed, and is that move on what the store then holds; otherwise nothing changes |
| `Runner.RoundRunner.Examine` | internal/round/runner.go:313-333 | a poll of the store of the seat to act by key, and the verdict on what is found, is the Fetch move exactly when that is allowed, and nothing otherwise |
| `Runner.RoundRunner.HostVerifyReceipt` | internal/round/runner.go:296-300 | the tentative append and the receipt put under its key are the Host move, and nothing happens without a verified proposal |
| `Runner.RoundRunner.SeeReceipt` | internal/round/runner.go:476-486 | a poll of a peer's string-keyed store finds the receipt exactly when the protocol's Observe move is allowed, whatever else is hosted there |
| `Runner.RoundRunner.Collected` | internal/round/runner.go:459-491 | true if and only if every other seat that is unfolded after the tentative entry has been seen |
| `Runner.RoundRunner.CleanupAttempt` | internal/round/runner.go:496-504 | the deletions by key take away the hosted proposal of that attempt and leave every other proposal, the own receipts and the own attestations |
| `Runner.RoundRunner.ForgetRound` | internal/round/runner.go:233-236 | the two deletions by prefix take away the own receipts and attestations of exactly that round, and no proposal |
| `Runner.RoundRunner.Settle` | internal/round/runner.go:229-238 | with every receipt seen, and only then, commit, deletions by key and deletions by prefix together are the Commit move; the log keeps the tentative entry, the next attempt is 0 and the proposal of the committed attempt is no longer in the store |
| `Runner.RoundRunner.TimeOut` | internal/round/runner.go:223-225 | rollback, the deletions by key and the attempt counter are the Abort move exactly when that is allowed; then the committed log is as before, the attempt is counted, and no proposal of the ended attempt is in the store |
| `Runner.RoundRunner.HostAttestation` | internal/round/runner.go:350-361 | refused before all attempts failed, to the seat to act and without a valid signature of the fold; otherwise the file put under its key is the Attest move |
| `Runner.RoundRunner.AwaitOwnFold` | internal/round/runner.go:354-361 | only the seat to act, after all attempts failed, goes on without hosting anything: the Await move |
| `Runner.RoundRunner.TakeAttestation` | internal/round/runner.go:379-403 | a poll of an expected attestor's string-keyed store yields the signature that it hosts for this round, exactly when the Gather move is allowed |
| `Runner.RoundRunner.AppendFold` | internal/round/runner.go:404-434 | assembling and appending the co-signed fold is the FinishFold move exactly when every attestation is there and the fold verifies, and nothing otherwise |
| `LocalMoves.AllowedIff` | internal/round/runner.go:212-504 | for every move: the tests that the runner makes on its log, its place in the round and what it polls hold if and only if the protocol allows the move |
| `LocalMoves.KeptIsNext` | internal/round/runner.go:212-504 | for every move: a runner whose log, place and round files change as the move asks is the next state of the protocol |
| `Network.Seat` | internal/round/runner.go:71-97 | fresh runners, each with its own log and store, are the initial state of the protocol |
| `Network.Act` | internal/round/runner.go:212-504 | a runner asked for a move makes it exactly if the protocol allows it; then all runners together have made that one step, and otherwise nothing has changed |
| `Network.Play` | internal/round/runner.go:129-171 | runners asked for moves in any order go through a run of the protocol, which ends in what their logs and stores hold |
| `Network.PlayHand` | internal/round/runner.go:129-171 | whatever the runners of a hand are asked for, every log is accepted and within the bound of a hand, and seats that finish without folding each other have the same log |
| `HandFlow.NextStreet` | internal/game/state.go:88-105 | an admitted entry stays on the street or moves to the next, and never folds the last seat |
| `HandFlow.FinishHand` | internal/round/runner.go:174-193 | a showdown if and only if two seats are in; otherwise the winner is the one seat that is |
| `HandFlow.RunHand` | internal/round/runner.go:129-208 | whatever entries the rounds commit, the board indices opened are exactly the board in order up to the current street, all five before any showdown |
| `HandFlow.EnoughRounds` | internal/round/runner.go:143-171 | after 4n + n * n * stack rounds the hand is over with a seat in |
| `Keys.KeysInjective` | internal/ephemeral/store.go:30-72 | two keys are equal if and only if they name the same file, across all builders, rounds, attempts, seats and node names |
| `Wire.KeyTexts` | internal/ephemeral/store.go:30-84 | one key of every builder and both prefixes, spelled out |
| `Keys.RoundPrefixExact` | internal/ephemeral/store.go:82-84 | a key starts with a round's prefix if and only if it is a receipt of that round |
| `Keys.AutoFoldPrefixExact` | internal/ephemeral/store.go:77-79 | a key starts with a round's auto-fold prefix if and only if it is an attestation of that round |
| `EphemeralStore.Store.Put` | internal/ephemeral/store.go:87-91 | exactly that key changes |
| `EphemeralStore.Store.Get` | internal/ephemeral/store.go:94-99 | the value if and only if the key is present |
| `EphemeralStore.Store.Delete` | internal/ephemeral/store.go:102-106 | exactly that key goes |
| `EphemeralStore.Store.DeletePrefix` | internal/ephemeral/store.go:110-118 | exactly the keys with the prefix go, in whatever order the map is walked |
| `EphemeralStore.Store.Clear` | internal/ephemeral/store.go:121-125 | nothing is left |
| `EphemeralStore.CleanupIsExact` | internal/round/runner.go:231-238 | deleting by a round's prefixes drops that round's receipts or attestations and keeps every other file as it was |
| `EphemeralStore.HostingByKey` | internal/ephemeral/store.go:87-91 | hosting by file name and hosting by key string are the same thing |
| `EphemeralStore.DeletingByKey` | internal/ephemeral/store.go:102-106 | deleting a key deletes exactly the file of that name |
| `EphemeralStore.DroppingReceipts` | internal/round/runner.go:233-236 | deleting by a round's prefix leaves exactly the store of all files but that round's receipts |
| `EphemeralStore.DroppingFolds` | internal/round/runner.go:233-236 | deleting by a round's auto-fold prefix leaves exactly the store of all files but that round's attestations |
| `NumberTheory.Fermat` | internal/crypto/deck/deck.go:50-81 | a to the p is a modulo a prime p |
| `Sra.PrimeIsPrime` | internal/peer/node.go:32 | 13619 is prime |
| `Sra.EncryptDeck` | internal/crypto/deck/deck.go:31-40 | every card is raised to the exponent modulo the prime, order kept |
| `Sra.KeyCancels` | internal/crypto/deck/deck.go:43-81 | inverse exponents modulo p - 1 cancel on every number |
| `Sra.EncryptAddsLayer` | internal/crypto/deck/deck.go:31-40 | encrypting adds one seat's layer, whichever are on already |
| `Sra.AllLayersOff` | internal/crypto/deck/deck.go:31-47 | once every layer is stripped, in any order, the card comes back byte for byte if and only if it has no leading zero byte and its value is below the prime |
| `Shuffling.Shuffle` | internal/crypto/deck/deck.go:15-28 | the in-place loop computes the specified exchanges |
| `Shuffling.ShuffleExact` | internal/crypto/deck/deck.go:15-28 | for distinct cards every rearrangement comes from exactly one sequence of draws, and nothing else comes from any |
| `Shuffling.ShuffledAt` | internal/crypto/deck/deck.go:15-28 | a shuffled deck is the old deck read at a permutation of its positions |
| `Shuffling.LastDrawFirst` | internal/crypto/deck/deck.go:15-28 | the last place gets the card at the last draw, that card's place gets the old last card, and the rest is shuffled with the other draws |
| `Cards.IndexOfCard` | internal/card/card.go:153-163 | an index decodes to a card if and only if the card is valid and has that index; exactly the indices 0 to 51 decode |
| `Cards.WireLayout` | internal/card/card.go:151-173 | the decimal string of 13 * suit + rank + 1 parses to the card of that suit and rank |
| `Cards.WireCorners` | internal/card/card.go:151-173 | "1", "13", "40" and "52" are the lowest and highest cards of the first and the last suit; "0", "53" and "" are refused |
| `Cards.ParseExact` | internal/card/card.go:167-173 | exactly the strings that read as 1 to 52 parse, to the card with that index |
| `Cards.WireRoundTrip` | internal/card/card.go:167-178 | a card's wire string parses back to the card |
| `MentalPoker.BuildOrderedDeck` | internal/peer/shuffle.go:78-84 | the cards "1" to "52" in order |
| `MentalPoker.WireCard` | internal/peer/shuffle.go:76-84 | every card's bytes have no leading zero and a value of at most 13618, reached by "52" |
| `MentalPoker.OriginInjective` | internal/peer/shuffle.go:17-74 | after any number of shuffles different positions hold different cards |
| `MentalPoker.DeckLayers` | internal/peer/shuffle.go:17-74 | after k seats each position holds the card that the composed permutation put there, under exactly those seats' layers |
| `MentalPoker.FullyStripped` | internal/peer/deal.go:36-82 | whoever strips first, once every seat has stripped, the bytes are exactly the card of the composed permutation |
| `MentalPoker.NonOwnerRing` | internal/peer/deal.go:84-92 | all seats but the owner, ascending |
| `MentalPoker.RingPosition` | internal/peer/deal.go:94-101 | the first position of the seat, or -1 if and only if it is absent |
| `Peers.Node.ShuffleTurn` | internal/peer/shuffle.go:17-57 | shuffle, encrypt, host; fails if and only if there are too few seats or no deck to poll, and then changes nothing |
| `Peers.Node.TakeDeck` | internal/peer/shuffle.go:60-73 | the polled final deck becomes the peer's deck |
| `Peers.Node.DealHoleSlot` | internal/peer/deal.go:36-82 | the owner records the card, any other seat hosts the card less its layer, the first of the ring from its own deck; exactly when it fails, and that it then changes nothing |
| `DealRun.TakeHoleKeeps` | internal/peer/deal.go:49-60 | what the owner of a slot reads from the last relay and records, first card or second by the slot, is the card dealt to that slot |
| `Peers.Node.SetCommunity` | internal/peer/community.go:94-109 | the card goes to its place if that is empty or new; every other place, and a place that is taken, stays as it is, and new places before it are empty |
| `Peers.Node.StripCommunity` | internal/peer/community.go:20-53 | hosts the card less the seat's layer; the last seat also publishes and records the plaintext |
| `Peers.Node.TakeCommunity` | internal/peer/community.go:55-61 | the polled plaintext is recorded at its board place |
| `DealRun.PublishKeeps` | internal/peer/showdown.go:100-115 | a published claim names its own seat, no card but those dealt to it, and the exponent that opens them |
| `DealRun.OwnerReads` | internal/peer/deal.go:49-60 | what the owner reads after the ring is exactly the card string of the composed permutation |
| `DealRun.LastSeatReads` | internal/peer/community.go:42-52 | what the last seat publishes for a board card is exactly the card string of the composed permutation |
| `DealRun.StepKeeps` | internal/peer/shuffle.go:17-74 | one step of one seat keeps every deck, relay, card, board and claim at the table right |
| `DealRun.RunIsRight` | internal/peer/deal.go:13-82 | in every run, for any keys, draws and interleaving, nothing hosted or recorded is ever wrong |
| `DealSteps.StepRecords` | internal/peer/community.go:20-62 | a step records what it is for, and nothing that was recorded is lost |
| `DealTrace.RunIsLinked` | internal/peer/deal.go:36-82 | in every run, behind every hosted relay lies the relay of the seat before, behind every card in a hand or a claim the last relay of its ring, and behind every board place the published card |
| `DealTrace.BoardNeedsEverySeat` | internal/peer/community.go:20-62 | in every run a board card is recorded by anybody only if every seat has stripped it |
| `DealTrace.HoleNeedsEverySeat` | internal/peer/deal.go:36-82 | in every run a hole card is in its owner's hand only if every other seat has stripped it |
| `DealTrace.StaysHosted` | internal/peer/ephemeral.go:97-120 | what a peer hosts in shuffle, deal and reveal it hosts for the rest of the run |
| `DealTrace.PlacedIffTook` | internal/peer/community.go:94-109 | after any run a seat's board place is filled if and only if that seat took its step for that card |
| `DealTrace.BoardIsDealt` | internal/peer/community.go:20-62 | a seat that took exactly the steps for the first k board cards has exactly these k cards on its board, each the one dealt there |
| `DealNetwork.Act` | internal/peer/deal.go:36-82 | a node asked for a step takes it exactly if what it polls is hosted; then all nodes together have made that one step, and otherwise nothing has changed |
| `DealNetwork.Play` | internal/peer/deal.go:13-82 | nodes asked for steps in any order go through a run of the table, which ends in what they hold |
| `DealNetwork.PlayTable` | internal/peer/deal.go:13-82 | whatever the nodes of a table are asked for, every card anybody holds is the card of the composed permutation |
| `DealProgress.NeverStuck` | internal/peer/deal.go:13-82 | in every run, with any number of board cards open that the deck has room for: every seat is done with shuffle, deal and these cards, or some seat's next step in the order of the program is enabled and records something new |
| `DealProgress.UsedUp` | internal/peer/community.go:20-62 | a step adds nothing after it is taken, and what adds nothing now adds nothing later |
| `DealRing.NoDeadlock` | internal/sim/sim.go:199-233 | in every reachable state some node can move if and only if not all have returned |
| `DealRing.DealingTerminates` | internal/sim/sim.go:199-233 | every run makes at most 2n² channel operations, and exactly that many when all nodes have returned |
| `DealRing.OrderOfRequests` | internal/sim/sim.go:218-232 | the k-th request that node i receives is that of node (i - k) mod n |
| `DealRing.NodesReturnTheirCards` | internal/sim/sim.go:199-233 | a node that has returned holds exactly the plaintexts of its two slots |
| `Sorting.SortSlice` | internal/card/eval.go:145-147 | a permutation in order; nothing about the order of equal elements |
| `HandOrder.Compare` | internal/card/eval.go:56-72 | 1 if and only if the category of the first is higher, or the categories are equal and the tiebreakers agree up to one that is higher in the first; -1 if and only if that holds the other way round; 0 if and only if category and tiebreakers are equal |
| `HandOrder.CompareIsTotalPreorder` | internal/card/eval.go:56-72 | antisymmetric, transitive and total, with ties exactly between equal category and tiebreakers |
| `HandSpec.RankingIgnoresOrder` | internal/card/eval.go:143-228 | permuted hands have the same category and tiebreakers |
| `HandExact.TieIff` | internal/card/eval.go:56-228 | two hands of different cards tie if and only if their rank multisets are equal and both or neither is of one suit |
| `HandExact.GroupTests` | internal/card/eval.go:165-221 | the tests on the first two groups hold exactly when the rank counts have a four, a full house, a three, two pairs or a pair |
| `HandEval.DetectStraight` | internal/card/eval.go:255-265 | true if and only if the ranks are five in a row or the wheel, with the right high rank |
| `HandEval.GroupByRank` | internal/card/eval.go:235-251 | every rank once with its multiplicity, larger groups first, then higher ranks, however the map is walked |
| `HandArrange.ArrangeByGroups` | internal/card/eval.go:267-279 | the nested loops list the cards group by group |
| `HandArrange.ByGroupsPermutes` | internal/card/eval.go:267-279 | arranging neither loses nor repeats a card |
| `HandArrange.ArrangeStraight` | internal/card/eval.go:283-297 | the wheel's ace moves behind the five, any other straight stays |
| `HandRanking.Rank5` | internal/card/eval.go:143-228 | any five cards get the category and tiebreakers of the counting specification and show the same cards, strongest group first |
| `HandLadder.HigherKindWins` | internal/card/eval.go:10-20 | of two hands of five different cards, the one of the kind higher on the ladder from high card to straight flush wins, the kinds being told by rank counts and suits |
| `HandLadder.OneKind` | internal/card/eval.go:143-228 | every five different cards are of exactly one kind |
| `HandLadder.StraightIff` | internal/card/eval.go:255-265 | a straight is five consecutive ranks, or ace, two, three, four, five |
| `HandLadder.HigherStraightWins` | internal/card/eval.go:157-193 | of two straights, both or neither of one suit, the one reaching higher wins, and ace to five loses to every other |
| `HandLadder.AheadIff` | internal/card/eval.go:165-228 | of two hands of one kind that are no straights, one wins if and only if, going through the groups from the largest and within a size from the highest rank, it has the first that the other lacks: quadruple or triple before pair, higher pair before lower, then kickers from the highest |
| `HandLadder.WinsIff` | internal/card/eval.go:56-228 | the whole order by the cards: a hand beats another if and only if its kind is higher, or the kinds are equal and it is the higher straight or ahead in that sense |
| `BestHand.Popcount` | internal/card/eval.go:299-306 | the number of set bits |
| `BestHand.MaskForPicks` | internal/card/eval.go:122-132 | every selection of the cards is picked by some mask |
| `BestHand.FirstDuplicate` | internal/card/eval.go:308-317 | found if and only if some card repeats; the first repeated position |
| `BestHand.Best` | internal/card/eval.go:105-140 | the errors exactly for fewer than five, more than seven or repeated cards; otherwise five of the cards reach the result and no five are stronger |
| `BestHand.BestIgnoresOrder` | internal/card/eval.go:105-140 | the strength found does not depend on the order of the cards |
| `BestHand.MoreCardsNeverWeaker` | internal/card/eval.go:105-140 | another card never makes the result weaker |
| `Showdown.Winners` | internal/peer/showdown.go:71-88 | exactly the unbeaten seats, ascending, for claims in any order; none if and only if there are no claims |
| `Showdown.WinnersAgree` | internal/peer/showdown.go:71-88 | claims of the same strengths, however listed, have the same winners |
| `ShowdownRun.CheckClaimCard` | internal/peer/showdown.go:164-182 | passes if and only if there is a ring, the last relay was read and it decrypts to the claimed string |
| `ShowdownRun.PollAndVerifyClaim` | internal/peer/showdown.go:117-161 | exactly the acceptable claims are verified, and the hand is the best of the claimed cards and the verifier's board |
| `ShowdownRun.ClaimedCardIff` | internal/peer/showdown.go:164-182 | at a right table a claimed card passes if and only if it is the card dealt to that slot |
| `ShowdownRun.SevenDistinct` | internal/peer/showdown.go:138-160 | with at most 23 seats nobody's seven cards contain a card twice |
| `ShowdownRun.RelaysUnderClaim` | internal/peer/showdown.go:164-182 | in every run the relays under a claim with both cards are hosted from the moment of the claim on, so a poll that is served finds them |
| `ShowdownRun.HonestClaimAccepted` | internal/peer/showdown.go:117-161 | in every run with at most 23 seats, whoever polls a seat's claim and the relays under it, at whatever tables, each poll possibly without an answer, and has a full board, accepts if and only if all three come back, the claim with both cards, which are then the two dealt |
| `ShowdownRun.SameWinnersEverywhere` | internal/peer/showdown.go:38-98 | all verifiers of the same seats name the same winners |
| `ShowdownRun.WinnersHoldTheBest` | internal/peer/showdown.go:76-88 | a seat wins if and only if no seat at the showdown was dealt a stronger hand |
| `HandEnd.RoundsFillTheBoard` | internal/round/runner.go:197-208 | in every run, a seat that has taken its board steps for what its rounds opened has exactly these cards on its board, each the one dealt there, and all five from the river on and at every showdown |
| `HandEnd.RunShowdown` | internal/peer/showdown.go:38-98 | exactly the standing claims of unfolded seats are gathered, and the winners are those of these claims |
| `HandEnd.FinishCollects` | internal/peer/showdown.go:38-98 | a peer at its showdown, in any run, has collected exactly the seats still in about which all polls came back, the claim with both cards, each with the best hand of its seven cards |
| `HandEnd.AllPeersAgree` | internal/peer/showdown.go:38-98 | in any run, two peers that end with the same log and have seen the same claims name the same winners, at whatever moments they run their showdowns |
| `HandEnd.AgreeIffSameStrongest` | internal/peer/showdown.go:38-98 | in any run, with polls that may never return, two peers that end with the same log name the same winners if and only if the strongest seats among those each has seen are the same |
| `Outcome.ClaimsAreWhole` | internal/peer/showdown.go:100-115 | if nobody publishes before the deal has returned, every claim ever hosted has both cards |
| `Outcome.HandIsDecided` | internal/round/runner.go:129-193 | in every run of the rounds and every run of the deal, two peers that finish with all their polls answered, neither having folded the other, have the same log and name the same winners |
| `Outcome.DecidedIff` | internal/round/runner.go:129-193 | the same with polls that may never return: the logs are equal, and the winners are if and only if the strongest seats among those each has seen are the same |
| `Outcome.BestHandWins` | internal/peer/showdown.go:38-98 | with all polls answered a seat is named winner if and only if it is in and nobody who is in was dealt a stronger hand |

## Left out

- The TCP mesh, gob and gRPC transport, dispatch server, event bus, display strings and `cmd`: plumbing around the core.
- Ed25519, SHA-256, random numbers and big integers: signatures are an ideal relation, draws are parameters, numbers are exact.
- `GenerateKey`: only the relation it guarantees, exponents inverse modulo p - 1, not its retry loop.
- Deadlines and polling intervals: a poll returns a stored value or never, and a deadline may fire at any step.
- Adversarial seats and secrecy: only runs of peers that follow the program are modelled.
- Several hands in one session: the reset between hands would only repeat the start.
- The simulator's own shuffle relay over channels: it does what `RunShuffle` does, on cards numbered from zero.
- Negative card indices in `RevealCommunityCard`, and seats outside the table: the callers never pass them.
- The 64-bit limit on the length of a log: no accepted log comes near it.
- Entries.EncodeLog: an auto-fold with fewer signatures than co-signers, on which the source panics, is excluded.
- Network.Act: a request is one turn of a waiting loop; the loops, goroutines and locks around the runner's methods appear as the order of requests. Signatures come with the requests.
- DealNetwork.Act: files of one node are kept by name and decoded; `EphemeralStore.HostingByKey` relates this to the string-keyed store.
- DealProgress.NeverStuck: says that a step is enabled, not that a seat takes it; `DealTrace.BoardNeedsEverySeat` says what a seat that never does blocks.
- Outcome.HandIsDecided: takes the run of the rounds and the run of the deal as two runs, whose files never share a key by `Keys.KeysInjective`.
- Shuffling.Shuffle: the error return of the random source is not modelled.
- HandFlow.RunHand: the entries that the rounds commit are given; how they come about is `Consensus`.
- HandLadder.AheadIff: five cards of one rank, which no deck of four suits has, are excluded.
- HandRanking.Rank5: fixed arrays of five are sequences of length five.
- DealRing.NodesReturnTheirCards: takes the shuffled deck as given, each card under all layers.
- HandEnd.RunShowdown: the polls' answers are given and claims are gathered in seat order, `Showdown.Winners` being independent of it.
- Keys.KeysInjective: seats, slots, rounds and attempts are natural numbers.
