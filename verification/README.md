# Verified model of the e2-chain pallets

This project models the three storage pallets of the chain and its stake-to-vote conversion in Dafny, and proves
what holds of them over every run.

- **Micropayment channels** (`Micropayment*.dfy`, `SignedMessage.dfy`): a sender opens a channel to a receiver; the
  receiver claims payments the sender signed off chain, once per session; closing or expiry forgets the consumed
  sessions. `MicropaymentModel` gives the state and the effect of each call, `MicropaymentPallet` is the object whose
  dispatchables update the storage maps in place and are proved against it, and the other modules prove properties
  of all runs. The central result is that forgetting the session index is harmless: the pallet behaves exactly like
  a ledger of spent tuples that is never pruned, up to 2^64 openings of a pair, and that bound is exact
  (`MicropaymentLedger.RunRefines`, `MicropaymentWrap.RefinementThreshold`).
- **Multi-token ledger** (`Erc20*.dfy`): token creation, transfers, additive allowances, transfers against allowances.
- **Device and server registry** (`DeeperNode*.dfy`): device records, server lists by country, the deposit, the log.
- **Vote conversion** (`VoteConversion.dfy`): u128 division, truncating cast to u64, multiplication back.
- `Bytes.dfy` and `MapSums.dfy` hold byte encodings and sums over finite maps.

## How the chain is represented

- A run is a sequence of calls from the empty genesis state. A call carries its signer, the clock value it sees,
  and, where the pallet asks the currency to transfer or reserve, the currency's verdict. So the theorems hold for
  every signer, every clock and every behaviour of the balances pallet that either fails without writing or moves
  exactly the amount.
- A call that returns an error keeps what it wrote before: the dispatchables carry no transactional annotation. This
  matters in `transfer_from`, which spends the allowance before the transfer is tried.
- Integer widths are explicit: `duration * 1000` wraps as a u32 and `nonce + 1` as a u64 (release arithmetic), the
  expiration saturates. `Wrap` is the remainder, written as repeated subtraction (`Bytes.WrapIsRemainder`).
- A signature that is not 64 bytes long makes the claim panic; that is the outcome `Trap`, without effect.
- The hash and the signature check are parameters (`Crypto`), arbitrary functions. Collision freedom and
  unforgeability are hypotheses of the lemmas that need them, about the messages of the run only: no hash from 60
  bytes to 32 can be injective on all inputs.
- Each executed currency transfer is recorded in a trail, `paid`, with the number of earlier openings of the pair.
- The registry's currency is represented by the amount it holds in reserve for each account.

Where documentation and code differ, the model follows the code. The README of the micropayment pallet
(pallets/micropayment/README.md:14-19) describes messages without a session id and says that all nonces become
available again when a channel is reopened; in the code the nonce is bumped at each opening and is part of the
signed bytes. The unit test at pallets/micropayment/src/lib.rs:190-210 hashes an older layout too.

## Properties that fail, and when exactly

- *A signed payment is claimable at most once* fails after 2^64 + 1 openings of one pair, because the nonce wraps.
  `MicropaymentWrap.ReplayAfterWrap` gives the run, `MicropaymentWrap.AtMostOnceThreshold` the exact bound, and
  `MicropaymentSafety.PaidOncePerRound` what holds beyond it (the rounds it counts are openings / 2^64 rounded up,
  `MicropaymentSafety.RoundsIsCeiling`).
- *The pruned session index answers like an unpruned ledger* fails from the same opening on;
  `MicropaymentWrap.RefinementThreshold` gives the exact bound.
- *A channel stays open for the requested duration* fails from 4294968 seconds on, where the u32 product wraps:
  `MicropaymentModel.LongDurationWraps` shows the first, `MicropaymentModel.ExpirationWindow` the exact condition.
- *Supply is conserved* fails for a transfer to oneself, where the second write wins. `Erc20Supply.SupplyInflated`
  gives a run, `Erc20Supply.ConservesIff` the exact guard, `Erc20Supply.SupplyEquation` the exact sum.
- *The receiver's addition cannot overflow* fails after self-transfers. `Erc20Overflow.OverflowAfterSelfTransfer`
  gives a run; `Erc20Overflow.OverflowFreeIff` gives the exact condition: supply plus self-transferred value is
  below 2^64. `Erc20Overflow.MovesSafeIff` gives the condition within one state.
- *A listed server's record names its country* fails when an account enters a second list
  (`DeeperNodeConsistency.TwoListsReachable`) or re-registers with another country
  (`DeeperNodeConsistency.StaleCountryReachable`); `DeeperNodeConsistency.ConsistentIff` gives the exact guard.
- *Unregistering frees the whole deposit* fails after a repeated registration: `DeeperNodeReserve.DepositLeftLocked`
  gives a run, `DeeperNodeReserve.NothingLeftLockedIff` the exact condition.
- *The vote cast loses nothing on any balance up to the issuance* fails for some issuances from 2^64 on:
  `VoteConversion.WholeIssuanceLost` shows the smallest, `VoteConversion.WholeIssuanceIff` says which.

## Model

| member | source | states |
|---|---|---|
| MicropaymentPallet.Pallet.OpenChannel | pallets/micropayment/src/lib.rs:71-91 | the new storage and outcome are those of the modelled opening, error cases included |
| MicropaymentPallet.Pallet.CloseChannel | pallets/micropayment/src/lib.rs:96-104 | only an open channel is closed, by its receiver, with its sessions and a log entry |
| MicropaymentPallet.Pallet.RemoveChannel | pallets/micropayment/src/lib.rs:134-138 | exactly the pair's channel and sessions disappear |
| MicropaymentPallet.Pallet.ClaimPayment | pallets/micropayment/src/lib.rs:108-129 | the new storage and outcome are those of the modelled claim: expiry closes, else session, signature and transfer decide |
| MicropaymentPallet.Pallet.VerifySignature | pallets/micropayment/src/lib.rs:144-166 | accepts exactly the 64-byte signatures the primitive accepts for the digest and the sender's key; other lengths trap |
| MicropaymentPallet.Pallet.ConstructByteArrayAndHash | pallets/micropayment/src/lib.rs:169-182 | hashes the one byte string that parses back to the given receiver, nonce, session and amount |
| MicropaymentPallet.Pallet.Dispatch | pallets/micropayment/src/lib.rs:64-130 | each call reaches its dispatchable: one call on the object is one modelled step |
| MicropaymentPallet.Run | pallets/micropayment/src/lib.rs:64-130 | a run of calls on a new object ends in the state, and returns the outcomes, of the modelled run |
| SignedMessage.ParseLayout | pallets/micropayment/src/lib.rs:175-179 | decoding the 60 signed bytes gives back the message, for all in-range values |
| SignedMessage.LayoutParse | pallets/micropayment/src/lib.rs:175-179 | every 60-byte string, and no other, is the layout of the message it parses to |
| SignedMessage.LayoutInjective | pallets/micropayment/src/lib.rs:175-179 | equal bytes if and only if equal messages |
| SignedMessage.WalletAgrees | tests/index.js:13-20 | the off-chain signer builds the pallet's bytes exactly for the same receiver, nonce, session and amount |
| Bytes.BigEndianDecodes | pallets/micropayment/src/lib.rs:177-178 | big-endian encoding of an in-range integer is undone by decoding |
| Bytes.LittleEndianDecodes | pallets/micropayment/src/lib.rs:179 | little-endian encoding of an in-range integer is undone by decoding |
| MicropaymentModel.ExpirationWindow | pallets/micropayment/src/lib.rs:76-78 | expiration lies between opening and the requested end, and equals it exactly when neither width is exceeded |
| MicropaymentModel.ExpirationExact | pallets/micropayment/src/lib.rs:76-78 | for every clock and duration the expiration is the clock plus the milliseconds modulo 2^32, cut off at the last moment |
| MicropaymentModel.LongDurationWraps | pallets/micropayment/src/lib.rs:77-78 | 4294968 seconds is the shortest duration that does not last as asked: it lasts 0.7 seconds |
| MicropaymentEffects.OpenEffect | pallets/micropayment/src/lib.rs:71-91 | in any state: which opening is refused and why, and exactly what an accepted one stores, bumps and logs |
| MicropaymentEffects.CloseEffect | pallets/micropayment/src/lib.rs:96-104 | in any state: the pair's channel and sessions go, its nonce and all other pairs stay; refused without a channel |
| MicropaymentEffects.ClaimAnswer | pallets/micropayment/src/lib.rs:108-129 | in any state with the channel open: which answer under which of expiry, spent session, signature length, signature, transfer |
| MicropaymentEffects.ClaimEffect | pallets/micropayment/src/lib.rs:108-129 | in any state: a refusal changes nothing, expiry closes, a paid claim marks the session, logs and pays exactly the amount |
| MicropaymentSafety.RunInv | pallets/micropayment/src/lib.rs:71-138 | every run keeps: nonce counts openings, stored sessions exist only for open channels and equal the transfers of the current opening, each transfer was validly signed |
| MicropaymentSafety.AtMostOncePerOpening | pallets/micropayment/src/lib.rs:122-137 | in every run whatever, one opening pays a session at most once |
| MicropaymentSafety.PaidOncePerRound | pallets/micropayment/src/lib.rs:73-137 | in every run whatever, a tuple is paid at most once per begun round of 2^64 openings of the pair |
| MicropaymentSafety.AtMostOncePerKey | pallets/micropayment/src/lib.rs:73-137 | without nonce wrap-around each (sender, receiver, nonce, session) leads to at most one transfer over the whole run |
| MicropaymentSafety.DigestPaidOncePerRound | pallets/micropayment/src/lib.rs:114-126 | in every run, if its paid messages do not collide, the payments of one sender under one digest are at most one per begun round of 2^64 openings of the pair they share |
| MicropaymentSafety.OneDigestPaysOnce | pallets/micropayment/src/lib.rs:114-126 | without nonce wrap-around, and if the run's paid messages do not collide, one digest of one sender pays once across receivers, channels and reopenings |
| MicropaymentSafety.EveryPaymentSigned | pallets/micropayment/src/lib.rs:122-125 | every transfer was backed by the sender's signature over exactly the paid receiver, nonce, session and amount |
| MicropaymentLedger.SessionCheckAgrees | pallets/micropayment/src/lib.rs:122 | the pruned session check answers as the unpruned ledger of spent tuples would |
| MicropaymentLedger.StepRefines | pallets/micropayment/src/lib.rs:71-138 | one pallet call is one ledger call with the same outcome |
| MicropaymentLedger.RunRefines | pallets/micropayment/src/lib.rs:71-138 | over every run without wrap-around, pallet and unpruned ledger have equal outcomes, channels, nonces and logs |
| MicropaymentLedger.LedgerNeverForgets | pallets/micropayment/src/lib.rs:108-129 | the reference ledger only grows, and spends a tuple exactly when a claim is open, in time, fresh, signed and funded |
| MicropaymentWrap.ReplayAfterWrap | pallets/micropayment/src/lib.rs:75-87 | after 2^64 further openings the same signed claim is paid a second time |
| MicropaymentWrap.AtMostOnceThreshold | pallets/micropayment/src/lib.rs:73-137 | at most one payment per tuple holds for all runs with at most k openings per pair if and only if k <= 2^64 |
| MicropaymentLedger.AgreeingRun | pallets/micropayment/src/lib.rs:71-138 | equal outcomes of pallet and unpruned ledger, wrap-around or not, mean equal states and no tuple paid twice |
| MicropaymentWrap.RefinementThreshold | pallets/micropayment/src/lib.rs:71-138 | pallet and unpruned ledger return the same outcomes in all runs with at most k openings per pair if and only if k <= 2^64 |
| MicropaymentLog.LogShape | pallets/micropayment/src/lib.rs:71-129 | each pair's log is (Opened Claim* Closed)* cut off at the end, nonces count up, claims are the transfers, the channel is open exactly inside a block |
| MicropaymentLog.PeriodDurations | pallets/micropayment/src/lib.rs:76-85 | the i-th period starts at the clock of the i-th successful opening and lasts for the milliseconds asked modulo 2^32, cut off at the last moment |
| MicropaymentLog.PeriodTimes | pallets/micropayment/src/lib.rs:101-118 | under a clock that never runs backwards all times of a period lie between its opening and now |
| MicropaymentLog.ClaimWindow | pallets/micropayment/src/lib.rs:76-120 | a claim at t has opened <= t <= expiration <= opened + 1000 * duration |
| MicropaymentPairs.OtherPairUntouched | pallets/micropayment/src/lib.rs:134-138 | a call on one pair, closing included, changes nothing another pair can see |
| MicropaymentPairs.StepLocal | pallets/micropayment/src/lib.rs:71-138 | states that look alike to a pair answer its calls alike |
| MicropaymentPairs.PairsIndependent | pallets/micropayment/src/lib.rs:71-138 | a pair's storage, log, transfers and outcomes are those of the run of its own calls |
| MicropaymentLiability.TotalIsSumOfSlots | pallets/micropayment/src/lib.rs:125-127 | when no slot is paid twice, the total paid is the sum over the paid (nonce, session) slots |
| MicropaymentLiability.PaidWithinCap | pallets/micropayment/src/lib.rs:122-125 | if accepted signatures are unforged and signed messages do not collide with paid ones, a paid slot was signed by the sender for at least the paid amount |
| MicropaymentLiability.LiabilityBound | pallets/micropayment/src/lib.rs:108-129 | in every run, if accepted signatures are unforged and signed messages do not collide with paid ones, the total from a sender to a receiver is at most the sum, over signed (nonce, session) slots, of the largest amount signed, once per begun round of 2^64 openings |
| MicropaymentLiability.LiabilityBeforeWrap | pallets/micropayment/src/lib.rs:108-129 | under the same two hypotheses and at most 2^64 openings of the pair, that sum itself is the bound |
| Erc20Pallet.Pallet.Init | pallets/erc20/src/lib.rs:76-98 | the new storage and outcome are those of the modelled creation |
| Erc20Pallet.Pallet.Transfer | pallets/erc20/src/lib.rs:103-106 | a transfer moves from the origin |
| Erc20Pallet.Pallet.Approve | pallets/erc20/src/lib.rs:111-122 | an owner's approval adds to the allowance or fails without effect |
| Erc20Pallet.Pallet.TransferFrom | pallets/erc20/src/lib.rs:128-139 | the allowance towards the recipient is spent, then the move is tried; a failed move keeps it spent |
| Erc20Pallet.Pallet.DoTransfer | pallets/erc20/src/lib.rs:149-177 | both balances are read before either is written |
| Erc20Pallet.Pallet.Dispatch | pallets/erc20/src/lib.rs:65-140 | each call reaches its dispatchable: one call on the object is one modelled step |
| Erc20Pallet.Run | pallets/erc20/src/lib.rs:65-140 | a run of calls on a new object ends in the state, and returns the outcomes, of the modelled run |
| Erc20Effects.InitEffect | pallets/erc20/src/lib.rs:76-98 | in any state: which creation is refused and why, and exactly the details, id and balance an accepted one stores |
| Erc20Effects.TransferEffect | pallets/erc20/src/lib.rs:103-106 | in any state: the answer under each guard, who gains and loses, and the event |
| Erc20Effects.ApproveEffect | pallets/erc20/src/lib.rs:111-122 | in any state: accepted exactly for an owner whose allowance stays below 2^64; it grows by the value, all else stays |
| Erc20Effects.TransferFromEffect | pallets/erc20/src/lib.rs:128-139 | in any state: the answer under each guard, the allowance spent first, then the move and both events |
| Erc20Effects.RefusalKeepsState | pallets/erc20/src/lib.rs:76-177 | a refused call leaves the whole state equal, except a `transfer_from` that lost its allowance: it changes that entry and logs one approval |
| Erc20Supply.MoveBalances | pallets/erc20/src/lib.rs:159-173 | the recipient gains the value, another sender loses it, nobody else changes |
| Erc20Supply.MoveTotals | pallets/erc20/src/lib.rs:159-173 | a move keeps every total, except that a move to oneself adds the value |
| Erc20Supply.RunInv | pallets/erc20/src/lib.rs:76-177 | in every reachable state the token ids are exactly those below the counter, every key uses such an id, and the supply equation holds |
| Erc20Supply.SupplyEquation | pallets/erc20/src/lib.rs:84-177 | the balances of a token sum to its supply plus the value of its successful self-transfers |
| Erc20Supply.SupplyConserved | pallets/erc20/src/lib.rs:84-177 | in runs without positive self-transfers on the token the balances sum to the supply |
| Erc20Supply.ConservesIff | pallets/erc20/src/lib.rs:155-177 | in every reachable state a call conserves all totals if and only if the guards for minting do not hold before it |
| Erc20Supply.SupplyInflated | pallets/erc20/src/lib.rs:159-173 | a token's creator who transfers the supply to itself holds twice the supply |
| Erc20Overflow.OverflowFreeIff | pallets/erc20/src/lib.rs:155-173 | from a reachable state, no continuation that self-transfers nothing on the token (or contains no self-transfer) overflows a receiver if and only if supply plus self-transferred value is below 2^64 |
| Erc20Overflow.Gather | pallets/erc20/src/lib.rs:155-173 | otherwise the holders can send their balances to one account until a transfer overflows |
| Erc20Overflow.MovesSafeIff | pallets/erc20/src/lib.rs:159-168 | in one state no move between accounts overflows if and only if no two balances sum to 2^64 |
| Erc20Overflow.MoveSucceedsIff | pallets/erc20/src/lib.rs:155-168 | while less than 2^64 was issued, a move to another account succeeds exactly when the sender has an entry covering the value |
| Erc20Overflow.NeverOverflows | pallets/erc20/src/lib.rs:165-168 | a run without positive self-transfers on a token never meets the receiver's overflow error on it |
| Erc20Overflow.OverflowAfterSelfTransfer | pallets/erc20/src/lib.rs:165-173 | with self-transfers an owner of 1 unit can fail to send it |
| Erc20Supply.DetailsPermanent | pallets/erc20/src/lib.rs:84-95 | a token's details never change in any continuation of a run |
| Erc20Supply.InitWritesFreshKeys | pallets/erc20/src/lib.rs:84-95 | a creation overwrites nothing |
| Erc20Supply.OtherTokenUntouched | pallets/erc20/src/lib.rs:113-173 | a call on one token leaves all others untouched |
| Erc20Allowance.AllowanceAccounting | pallets/erc20/src/lib.rs:111-139 | approved equals remaining plus moved plus lost to failed moves, so moved never exceeds approved |
| Erc20Allowance.AllowancesBacked | pallets/erc20/src/lib.rs:113-117 | an allowance exists only where the owner has a balance entry |
| Erc20Allowance.TransferFromExact | pallets/erc20/src/lib.rs:128-168 | in every reachable state: exactly when a transfer against an allowance succeeds, exactly when it loses the allowance, and that otherwise nothing changes |
| DeeperNodePallet.Pallet.RegisterDevice | pallets/deeper-node/src/lib.rs:61-73 | the new storage and outcome are those of the modelled registration |
| DeeperNodePallet.Pallet.UnregisterDevice | pallets/deeper-node/src/lib.rs:76-86 | the account leaves its country's list, then its record and deposit go |
| DeeperNodePallet.Pallet.RegisterServer | pallets/deeper-node/src/lib.rs:89-97 | a registered device is admitted; a double admission is not an error |
| DeeperNodePallet.Pallet.UnregisterServer | pallets/deeper-node/src/lib.rs:100-106 | a registered device leaves the list if it is on it |
| DeeperNodePallet.Pallet.TryRemoveServer | pallets/deeper-node/src/lib.rs:112-125 | the first occurrence is removed, logged, and the record's country reset |
| DeeperNodePallet.Pallet.TryAddServer | pallets/deeper-node/src/lib.rs:128-146 | the account is appended unless it is listed |
| DeeperNodePallet.Pallet.Dispatch | pallets/deeper-node/src/lib.rs:55-108 | each call reaches its dispatchable: one call on the object is one modelled step |
| DeeperNodePallet.Run | pallets/deeper-node/src/lib.rs:55-108 | a run of calls on a new object ends in the state, and returns the outcomes, of the modelled run |
| DeeperNodePallet.FindPosition | pallets/deeper-node/src/lib.rs:114 | the search finds the first occurrence, or none exactly when the account is not listed |
| DeeperNodeEffects.RegisterDeviceEffect | pallets/deeper-node/src/lib.rs:61-73 | refused exactly without a reserve; otherwise the record holds account, address and country, 100 is reserved, the event logged |
| DeeperNodeEffects.UnregisterDeviceEffect | pallets/deeper-node/src/lib.rs:76-86 | in every reachable state: the record goes, its country's list loses the account, 100 is freed, events say so; refused if not registered |
| DeeperNodeEffects.RegisterServerEffect | pallets/deeper-node/src/lib.rs:89-97 | a registered account not yet listed is appended and its country set; listed, nothing changes; refused if not registered |
| DeeperNodeEffects.UnregisterServerEffect | pallets/deeper-node/src/lib.rs:100-106 | in every reachable state: the list loses exactly the account and its country becomes 0 if it was listed; all else stays |
| DeeperNodeLog.EventSourced | pallets/deeper-node/src/lib.rs:61-146 | replaying the log rebuilds the device records and every list, order included |
| DeeperNodeLog.ListsAreOrderedSets | pallets/deeper-node/src/lib.rs:112-138 | every list is duplicate-free and holds the accounts admitted since their last removal, in order of latest admission |
| DeeperNodeLog.AdmissionOrderUnique | pallets/deeper-node/src/lib.rs:112-138 | the log leaves only one list with that description |
| DeeperNodeLog.AdmitAndRemove | pallets/deeper-node/src/lib.rs:112-138 | admission is idempotent, removal filters out exactly the account, other lists are untouched |
| DeeperNodeLog.RemovalIsFiltering | pallets/deeper-node/src/lib.rs:113-116 | search and positional removal equals filtering on duplicate-free lists |
| DeeperNodeLog.WithoutDropsOne | pallets/deeper-node/src/lib.rs:113-116 | filtering drops every occurrence of the one account and no other |
| DeeperNodeReserve.ReserveAccounting | pallets/deeper-node/src/lib.rs:61-86 | the reserve is 100 times registrations minus unregistrations, covers the deposit while registered, and exceeds it by 100 per repeated registration |
| DeeperNodeReserve.UnreserveFindsAll | pallets/deeper-node/src/lib.rs:83 | every unregistration frees its full 100 |
| DeeperNodeReserve.NothingLeftLockedIff | pallets/deeper-node/src/lib.rs:61-86 | an unregistered account has nothing locked if and only if it never registered twice in a row |
| DeeperNodeReserve.DepositLeftLocked | pallets/deeper-node/src/lib.rs:61-86 | registering twice and unregistering leaves 100 in reserve |
| DeeperNodeConsistency.ConsistentIff | pallets/deeper-node/src/lib.rs:61-146 | a call keeps a consistent reachable state consistent if and only if it is a leaving call, or its account is on no list of another country, or it registers and the reserve is refused |
| DeeperNodeConsistency.RunConsistent | pallets/deeper-node/src/lib.rs:61-146 | under that discipline every listed server is a registered device of that country, on one list only |
| DeeperNodeConsistency.TwoListsReachable | pallets/deeper-node/src/lib.rs:89-97 | without it an account can be on two lists |
| DeeperNodeConsistency.StaleCountryReachable | pallets/deeper-node/src/lib.rs:61-73 | without it a listed server's record can name another country |
| VoteConversion.FactorExact | runtime/src/lib.rs:157-161 | the factor is 1 below 2^64 - 1 and otherwise the number of times 2^64 - 1 fits the issuance |
| VoteConversion.SmallIssuanceIsIdentity | runtime/src/lib.rs:157-173 | below an issuance of 2^64 - 1 both conversions are the identity on 64-bit values |
| VoteConversion.LossIsAMultiple | runtime/src/lib.rs:163-173 | the truncating cast loses a multiple of 2^64, the wrapping product a multiple of 2^128 |
| VoteConversion.LosslessIff | runtime/src/lib.rs:163-167 | the cast loses nothing exactly for x < factor * 2^64 |
| VoteConversion.SafeBalances | runtime/src/lib.rs:157-167 | that covers x up to half the issuance, and all x when the issuance fits 64 bits |
| VoteConversion.WholeIssuanceIff | runtime/src/lib.rs:157-167 | every balance up to the issuance converts without loss if and only if the issuance is below 2^64 or its remainder by 2^64 - 1 is below its quotient |
| VoteConversion.WholeIssuanceLost | runtime/src/lib.rs:157-167 | 2^64 is the smallest issuance whose holder of everything loses votes, and it loses them all |
| VoteConversion.BackIsExact | runtime/src/lib.rs:169-173 | a u64 vote count never overflows u128 on the way back |
| VoteConversion.RoundTrip | runtime/src/lib.rs:163-173 | there and back loses less than one factor and never gains |
| VoteConversion.VotesSurvive | runtime/src/lib.rs:163-173 | votes to balance to votes is the identity |
| VoteConversion.MonotoneOnSafe | runtime/src/lib.rs:163-167 | conversion is monotone on the lossless range |

## Left out

- sr25519 and BLAKE2b: arbitrary functions here; their security is a hypothesis of the lemmas that use it.
- The balances pallet: transfers and reserves are verdicts of the environment plus an exact effect; existential
  deposits, account death and reserves made by other parties are not modelled.
- The `checked_sub` failures after a passed comparison (pallets/erc20/src/lib.rs:134, 162-164): they cannot happen.
- FRAME storage hashing, weights, fees, origins that are not signed, and event delivery.
- Debug builds, in which the wrapping products and sums would panic instead.
- The rest of the runtime, the node, the template pallet, the scripts and the network client: configuration,
  wiring, input and output.
