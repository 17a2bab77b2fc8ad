# Archway: escrowed callbacks, the error store and their wire codec

This project models the parts of the Archway chain that keep their own state across
blocks, and proves what they promise.

- **x/callback** lets a contract, its admin or its owner reserve a call at a future
  height. The fees are paid in advance into the module account, partly returned on
  cancellation, and settled when the EndBlocker runs the callback.
- **x/cwerrors** keeps errors of contracts: for contracts without a subscription in
  three indexes until a deletion height, for subscribed ones in a per-block transient
  queue that is delivered at the end of the block.
- **x/cwfees** keeps the set of contracts that grant fees.
- **pkg/utils.go** holds the gas-limited executor all three use.
- The **SudoError wire codec** is the generated Protocol Buffers code ("Base 128
  Varints" and "Length-Delimited Records" of the Protocol Buffers Encoding
  specification), with its 64-bit index arithmetic written out.

## How the model is built

`Store.dfy` holds the shared state: heights, balances of one denom, contracts, the
stores of the three modules, and a log of what happened: registrations with their fees,
gas limit and gas price, cancellations, executions, new reservation limits, errors stored
with their stored-time or queued, errors delivered or carried by a record, and paid
subscription periods. No step reads the log; the run theorems are stated over it. `CallbackModule.dfy`,
`ErrorsModule.dfy` and `FeeGrants.dfy` give every handler as one atomic step.
`Chain.dfy` puts them into messages, transactions with rollback, the executor, the two
EndBlockers in the order of app/app.go:845-849, and runs of whole blocks.
`Keeper.dfy` is the code as the source runs it, on a mutable context: handlers that
write before their later checks (a callback is stored before it is paid, a subscription
index entry is removed before the fee is compared), early error returns, branches that
are committed or dropped, loops over walks. Each method there is proved to amount to the
atomic step. The theorems are proved about the steps: `Invariants.dfy` (every message),
`Settlement.dfy` (money), `Lifecycle.dfy` (exactly once), `Delivery.dfy` (errors),
`Runs.dfy`, `Exactness.dfy`, `Subscriptions.dfy`, `Admission.dfy` and `Refunds.dfy`
(whole runs). `Machine.dfy`, `Varint.dfy` and `SudoErrorCodec.dfy` are the codec,
`WireGrammar.dfy` the wire format it is proved against. `Authority.dfy` says which
messages are accepted and from whom, `TransientQueue.dfy` is the byte-level
error queue, `Genesis.dfy` the granter genesis, `Witness.dfy` concrete runs.

What is assumed, all of it as explicit parameters or preconditions:

- `Env` stands for what is fixed outside the modules: bech32 decoding and encoding,
  case-insensitive comparison, JSON encodings, the iteration order of stores, the blocked
  accounts. `EnvOk` says what the libraries promise: encoding inverts decoding, a walk
  visits every key once, the callback account and the fee collector are different and
  blocked.
- A Sudo call is an arbitrary list of gas-charged message batches with an arbitrary
  verdict (`SudoRun`). It may request, cancel, subscribe, move prices and balances. It
  panics by running out of gas, which the executor catches, and by dispatching a request
  whose quote is a negative coin, which it does not.
- Other modules appear as messages: they report errors, move the gas price, change
  balances other than the callback account's, add and reconfigure contracts.
- A store walk visits the entries present when it started; later writes do not change
  what it visits.
- Block heights stay below 2^63. Other sums and conversions wrap as int64 does.
- LegacyDec is an integer scaled by 10^18, multiplication by an int64 is exact and
  RoundInt rounds half to even.

Where the documentation and the code differ, the model follows the code. The spec of
x/cwerrors declares the error code as uint32; the code and the wire use int32. The spec of
x/callback says a callback runs under the current gas limit parameter; the code uses the
limit stored at registration.

## What the callback theorems depend on

Three things can go wrong in the callback EndBlocker, and each has its exact condition,
for arbitrary contracts.

- **Exactly once.** A callback that is cancelled while its own block is being settled is
  executed all the same, so its registration gets two ends. `ExactlyOnceIff` states that
  over a completed run from genesis the log says exactly once if and only if every due
  callback was still stored when it was paid out, and `EndsOfKey` what holds of every key
  in any case. `FreeCancelEndsTwice` is a run in which this happens without any coin
  being missed.
- **Escrow.** If such a callback had fees, they are paid out twice. `EscrowRunIff` states
  that over a completed run the account is exact if and only if every due callback with
  fees was still stored when it was paid out. `SelfCancelBreaksEscrow` is a run that ends
  ten coins short.
- **Completion.** `RunCompletesIff` says exactly when a run from genesis goes through: in
  each block no dispatched message panics, no charged fee is negative, and the account
  holds what is due (`CallbackEndCompletesIff`). From exact escrow, with nothing cancelled,
  only negative fees are left (`ExactEndCompletesIff`); `NegativeFeeIff` says for which gas
  and price, and `ExecuteNoPanic` that below 2^63 it never happens. `SelfCancelStopsChain`
  and `OutsizedGasStopsChain` are runs that panic, one for each reason.

With gas limits below 2^63, that is, as long as governance sets no larger one
(`ModestBlock`), the first and the last come together: `CompletesOnceIff` states that a run
goes through with a right log if and only if every due callback was still stored when it
was paid out. `ExactlyOnce` and `RunKeepsBooks` spell out what then holds. `CalmRunStored`
is a condition on the messages alone that suffices: no executed callback dispatches a
cancellation for the height being settled. It is not exact, since such a message might be
refused or rolled back.

The error, subscription and admission theorems need no such condition, only that the run
completed. Heights that pass the int64 range wrap, and the theorems say what happens then:
a stored error stays, a subscription stays until it is renewed. `DeletionHeight` and
`EndHeightAhead` say exactly when.

## Model

| member | source | states |
|---|---|---|
| Machine.SameBits | x/cwerrors/keeper/subscriptions.go:41-45 | the 32-bit and 64-bit conversions and sums keep the bits: the result is in range and equal modulo the word |
| Varint.SovIsLength | x/cwerrors/types/cwerrors.pb.go:267-269 | the closed size formula equals the length of the base-128 spelling, for every number |
| Varint.EncodeVarint | x/cwerrors/types/cwerrors.pb.go:228-238 | the in-place writer puts exactly the spelling in front of what was written and touches nothing below it |
| Varint.ReadVarint | x/cwerrors/types/cwerrors.pb.go:279-292 | the shift-and-or loop, with its bitwise or, computes the untruncated number modulo the word size, with the overflow and end-of-input errors |
| Varint.ReadInvertsWrite | x/cwerrors/types/cwerrors.pb.go:228-292 | every number the writer spells is read back, wherever it stands in the input |
| Varint.OrBits | x/cwerrors/types/cwerrors.pb.go:288 | the or used by the reader is bitwise: a bit is set exactly when it is set in an operand |
| Varint.OrIsTruncatedSum | x/cwerrors/types/cwerrors.pb.go:288-348 | the bitwise or of a shifted group into a 64-bit or 32-bit word that lies below the shift is the sum, truncated to the word |
| SudoErrorCodec.SizeIsExact | x/cwerrors/types/cwerrors.pb.go:239-265 | Size is exactly the number of bytes of the encoding |
| SudoErrorCodec.MarshalToSizedBuffer | x/cwerrors/types/cwerrors.pb.go:187-226 | the backwards writer fills the buffer's tail with the encoding, leaves the rest alone and returns Size |
| SudoErrorCodec.Marshal | x/cwerrors/types/cwerrors.pb.go:172-180 | a buffer of Size bytes is filled exactly, from index 0 |
| SudoErrorCodec.SkipUnknown | x/cwerrors/types/cwerrors.pb.go:470-547 | the depth-counter loop ends on every input, stays inside the buffer and finds where the record ends, including index overflow |
| SudoErrorCodec.SkipFrom | x/cwerrors/types/cwerrors.pb.go:474-546 | a skip always advances and its result is a valid int64 index |
| SudoErrorCodec.DepthIsNesting | x/cwerrors/types/cwerrors.pb.go:527-544 | closing d + e groups is closing d and then e from where that ended |
| SudoErrorCodec.SkipLocal | x/cwerrors/types/cwerrors.pb.go:470-547 | skipping a record does not depend on the bytes behind it |
| SudoErrorCodec.ParseRecord | x/cwerrors/types/cwerrors.pb.go:276-463 | every outer step of the parser takes at least one byte and never passes the end of the input |
| SudoErrorCodec.UnmarshalString | x/cwerrors/types/cwerrors.pb.go:302-333 | the length-delimited case, with negative lengths and wrapped end indices refused |
| SudoErrorCodec.UnmarshalRecord | x/cwerrors/types/cwerrors.pb.go:277-462 | one turn of the outer loop over absolute indices is one record of the remaining input |
| SudoErrorCodec.Unmarshal | x/cwerrors/types/cwerrors.pb.go:273-469 | total on every byte string; the result is the record-by-record parse |
| SudoErrorCodec.ParseConcat | x/cwerrors/types/cwerrors.pb.go:273-469 | parsing a concatenation is parsing the parts in turn into the same message |
| WireGrammar.SkipIsGrammar | x/cwerrors/types/cwerrors.pb.go:470-547 | on every input the skipper stops behind the first n bytes if and only if they are one record of the wire grammar: a tag, then by wire type a varint, eight bytes, a length and that many bytes, records and an end-group tag, or four bytes |
| WireGrammar.UnmarshalIsGrammar | x/cwerrors/types/cwerrors.pb.go:273-469 | on every input Unmarshal turns a message into r if and only if the input is a list of records of the wire grammar, with positive field numbers and known fields in their wire types, that replace its fields one after the other and leave r; every other input is refused |
| WireGrammar.SkipsRecord | x/cwerrors/types/cwerrors.pb.go:470-547 | every record of the grammar is skipped as a whole, wherever it stands and however deep in groups |
| WireGrammar.VarintRead | x/cwerrors/types/cwerrors.pb.go:279-292 | what the reader accepts is a varint of at most ten bytes, and its value is the base-128 number of its digits |
| WireGrammar.UnknownFieldsIgnored | x/cwerrors/types/cwerrors.pb.go:449-461 | a record of the grammar whose field number is above 5, nested groups included, can stand between any two records without effect |
| WireGrammar.EncodeIsMessage | x/cwerrors/types/cwerrors.pb.go:187-226 | the encoding is, record by record, fields 1 to 5 of the proto definition, with empty fields left out and the code as a sign-extended varint |
| SudoErrorCodec.EncodeMerges | x/cwerrors/types/cwerrors.pb.go:187-469 | unmarshalling an encoding into any message replaces exactly the fields that were sent |
| SudoErrorCodec.RoundTrip | x/cwerrors/types/cwerrors.pb.go:172-469 | Unmarshal of Marshal into a fresh value gives the message back, negative codes and empty fields included |
| TransientQueue.KeyOrderIsIdOrder | x/cwerrors/types/keys.go:42-44 | for all uint64 ids the keys are distinct and byte order is id order |
| TransientQueue.TransientStore.SetSudoErrorCallback | x/cwerrors/keeper/sudo_errors.go:143-148 | the store holds the marshalled queue extended by the new error |
| TransientQueue.TransientStore.GetAllSudoErrorCallbacks | x/cwerrors/keeper/sudo_errors.go:150-175 | a prefix iteration returns exactly the queued errors, unmarshalled, in the id order of the delivery loop |
| Decimal.RoundIsNearest | x/callback/keeper/fees.go:52-57 | for every decimal there is exactly one nearest integer, the even one of two, and RoundInt gives it |
| Decimal.RoundMonotone | x/callback/keeper/fees.go:31-48 | a larger amount never rounds to fewer coins |
| Store.Send | x/callback/keeper/keeper.go:90-114 | a transfer succeeds exactly when the payer holds the coins, and moves exactly them |
| CallbackModule.Admit | x/callback/keeper/callback.go:73-93 | a quoted request is refused only for its address, its contract, its sender or an entry under its key; an admitted one has a free key, an existing contract and a sender that can be refunded |
| CallbackModule.FeeIsNearest | x/callback/keeper/fees.go:52-57 | the transaction fee is the nearest number of coins to price times gas, the gas read as int64 |
| CallbackModule.Reserve | x/callback/keeper/msg_server.go:84-130 | an accepted request leaves one new entry under its key, filed for its sender with the gas limit in force, split into fees that sum to the offer with the surplus over the quote, logged at the current price, and changes nothing else |
| CallbackModule.ChargeFor | x/callback/abci.go:112-124 | the consumed part and the refund always add up to the transaction fees paid |
| Admission.QuoteIs | x/callback/keeper/fees.go:15-50 | there is a quote if and only if the height lies in the window, has room and no amount is a negative coin; each of its three fees is the nearest number of coins to its own amount, and each refusal has its cause |
| Admission.QuoteIsThreshold | x/callback/keeper/msg_server.go:84-117 | a quoted request goes through if and only if it is admitted, offers at least the quoted total and the sender holds the offer |
| Admission.QuoteGrows | x/callback/keeper/fees.go:15-50 | a later height and a fuller height are never cheaper; the transaction fee depends on neither |
| Admission.LargestIsMax | x/callback/keeper/fees.go:33-41 | the logged bound is the least one: the first limit and every one that was set, and nothing larger |
| Admission.RunStaysWithin | x/callback/keeper/fees.go:33-41 | from genesis over every run, between blocks and inside them, whoever sends whatever: no height holds more callbacks than the largest reservation limit ever in force so far |
| Admission.NegativeFeeIff | x/callback/keeper/fees.go:52-57 | the fee is a negative coin exactly for gas of 2^63 or more at a price that rounds away from zero |
| Refunds.FailureRefundsNothing | x/callback/abci.go:81-134 | from genesis, wherever the walk of a block has got to: the entry is the value of its latest registration, and if its execution fails the reserver gets back exactly what the registered transaction fee exceeds the fee of the registered gas limit at the current price, which is nothing unless the price fell since registration |
| Refunds.FailedRefund | x/callback/abci.go:81-124 | the refund of one failed settlement, by the nearest fee at the current price and the price at registration |
| Authority.RequestAuthority | x/callback/keeper/callback.go:126-142 | a request is accepted if and only if it is quoted and paid, its contract exists, its key is free, and its sender can be paid back and is the contract, its admin or its owner; it is refused as unauthorized exactly when only the last fails |
| Authority.CancelAuthority | x/callback/keeper/msg_server.go:29-75 | a cancellation is accepted if and only if the callback is pending, the sender is one of those three and can be paid back, and the account holds its fees; it is refused as unauthorized exactly for other senders |
| Authority.SubscribeAuthority | x/cwerrors/keeper/subscriptions.go:13-95 | a subscription is accepted if and only if the contract exists, the sender is one of those three, offers exactly the fee in force and holds it; it is refused as unauthorized exactly for other senders |
| Authority.CallbackParamsAuthority | x/callback/keeper/msg_server.go:132-158 | callback parameters are replaced by exactly the valid ones the authority sends |
| Authority.ErrorParamsAuthority | x/cwerrors/keeper/msg_server.go:64-95 | error parameters are replaced by exactly the valid ones the authority sends, and nothing else changes |
| Authority.ParamsStay | x/cwerrors/keeper/msg_server.go:64-95 | no other message touches either set of parameters |
| Authority.SetErrorIff | x/cwerrors/keeper/sudo_errors.go:11-22 | a reported error is taken if and only if its address decodes, its module name is not empty and its contract exists; each refusal has its cause |
| Invariants.HandleKeeps | x/callback/keeper/msg_server.go:29-158 | every accepted message keeps all invariants: keys rebuilt from values, agreeing indexes, heights ahead, a disjoint queue |
| Invariants.ReserveKeeps | x/callback/keeper/callback.go:72-124 | a stored callback lies in the future under the key its value rebuilds, for an existing contract and a refundable reserver |
| Invariants.CancelKeeps | x/callback/keeper/callback.go:59-70 | removing by the rebuilt key removes the requested entry |
| Invariants.StoreErrorKeeps | x/cwerrors/keeper/sudo_errors.go:32-67 | a stored error enters all three indexes under one fresh id |
| Invariants.SetErrorKeeps | x/cwerrors/keeper/sudo_errors.go:11-77 | storing or queueing an error keeps the indexes in agreement and the queue disjoint |
| Invariants.SubscribeKeeps | x/cwerrors/keeper/subscriptions.go:13-46 | the two subscription indexes agree after a first subscription and after a renewal |
| Invariants.ExecuteKeepsInv | pkg/utils.go:12-33 | whatever a Sudo call dispatches under any gas limit keeps all invariants |
| Chain.ExecuteIs | pkg/utils.go:12-49 | the metered run panics exactly when a step within the limit dispatches a message that does; otherwise it succeeds exactly when the body needs no more than the limit and reports no error; then it is the unmetered body, otherwise the state is the caller's; the problem is the contract's own or that gas ran out; the gas reported is exact on success and above the limit when out of gas |
| Settlement.ReservePays | x/callback/keeper/msg_server.go:97-117 | a request moves exactly the offered fees, stores a split that sums to them, and changes no other balance or entry |
| Settlement.CancelSplits | x/callback/keeper/msg_server.go:29-75 | a cancellation returns transaction and surplus fees, passes block and future fees on, and removes exactly that entry |
| Settlement.HandleBalances | x/callback/keeper/keeper.go:90-114 | no message changes the difference between the account and what pending callbacks paid |
| Settlement.PayOutCompletes | x/callback/abci.go:112-146 | the payout panics exactly when the fee is negative or the account does not hold the four fees |
| Settlement.RefundGoes | x/callback/keeper/keeper.go:100-114 | a refund is paid exactly when the address decodes and the module account holds it, to the recipient or, when that account is blocked, to the fee collector; no other balance moves |
| Settlement.PayOutSplits | x/callback/abci.go:112-134 | the charge is the nearest number of coins to price times gas; refund and collector amount sum to the four fees, the refund reaches the non-blocked reserver, nobody else is touched |
| Settlement.RecordAccepted | x/callback/abci.go:69-79 | the failure record of a pending callback is always accepted and moves no money |
| Settlement.FailureIsRecorded | x/callback/abci.go:58-79 | the record of a failed callback has the module's name, its contract and message, the text of the failure, and the code 2, 1 or 0 for a failed execution, spent gas or another cause |
| Settlement.SettleCompletes | x/callback/abci.go:23-150 | exactly when the settlement of one callback goes through, for any contract behaviour: no dispatched message panics, the charged fee is no negative coin, the account holds the four fees |
| Settlement.SettleSplits | x/callback/abci.go:37-134 | the refund is max(0, transaction fees - fee), where the fee is the nearest number of coins to price times gas, with the whole gas limit charged on failure |
| Settlement.SettleAllKeeps | x/callback/keeper/callback.go:31-38 | the whole walk, for arbitrary contracts, keeps the invariants, leaves no walked entry, and is short by exactly the fees paid twice |
| Settlement.CallbackEndKeeps | x/callback/abci.go:16-20 | after the EndBlocker no callback is pending at or below its height |
| Settlement.EscrowExactIff | x/callback/abci.go:112-146 | a completed block end stays exact if and only if every due callback with fees was still stored when it was paid |
| Settlement.SettleExactly | x/callback/abci.go:112-146 | with the account any amount short, the settlement of one callback goes through if and only if no dispatched message panics, the charged fee is a coin and the shortage leaves enough for its fees |
| Settlement.CallbackEndCompletesIff | x/callback/abci.go:16-150 | for arbitrary contracts, whatever was cancelled and whatever is missing, the EndBlocker completes if and only if at each entry no message panics, no fee is negative and the shortage so far leaves enough for its fees |
| Settlement.ExactEndCompletesIff | x/callback/abci.go:16-150 | from exact escrow, with every due callback with fees still stored when it is paid, the EndBlocker completes if and only if no fee quoted to a dispatched request and no charged fee is negative |
| Lifecycle.LoggedIff | x/callback/abci.go:136-146 | a traced log says exactly once if and only if no key was both cancelled at its own height and executed |
| Lifecycle.HandleTraced | x/callback/keeper/msg_server.go:29-158 | no message, by any contract, gives a key one end too many |
| Lifecycle.SettleTraced | x/callback/abci.go:23-150 | settling one callback ends its key twice exactly if its entry was gone when it was paid out, and no other key |
| Lifecycle.CallbackEndOnceIff | x/callback/abci.go:16-20 | for arbitrary contracts a completed block end keeps the log right if and only if every due callback, with fees or without, was still stored when it was paid out |
| Lifecycle.HandleBooks | x/callback/keeper/msg_server.go:29-158 | every message keeps the escrow exact and the log right, unless governance sets a gas limit of 2^63 or more |
| Lifecycle.ExecuteNoPanic | x/callback/keeper/fees.go:15-57 | with a gas limit parameter below 2^63 every quote is a coin, so no Sudo call panics unless governance raises that limit in it |
| Lifecycle.SettleStored | x/callback/abci.go:23-150 | with gas limits below 2^63 a due callback that is still stored when it is paid out is always settled, for arbitrary contracts |
| Lifecycle.CallbackEndStored | x/callback/abci.go:16-20 | with gas limits below 2^63 and everything paid out still stored, the settlement loop always completes: no panic is reached, the books stay exact, nothing due remains |
| Lifecycle.CalmIsStored | x/callback/keeper/callback.go:31-38 | if no executed callback dispatches a cancellation for the current height, everything the walk pays out is still stored |
| Delivery.QueuedIffSubscribed | x/cwerrors/keeper/sudo_errors.go:23-29 | an accepted error is queued exactly when its contract is subscribed and stored exactly otherwise, under the next id, and logged as such |
| Delivery.DeliverErrorsComplete | x/cwerrors/abci.go:29-59 | the delivery loop completes exactly when every queued error names an address and no dispatched message panics; no error, gas use or refusal of a contract stops it |
| Delivery.DeliverErrorResolves | x/cwerrors/abci.go:29-59 | a queued error is delivered once and not carried if its call went through within 150000 gas, otherwise carried once and not delivered by a record stored past the block, which names x/cwerrors, code 1 and its contract, has the error itself as payload and the text of the failed call; no other error is resolved |
| Delivery.DeliverErrorsResolve | x/cwerrors/keeper/sudo_errors.go:163-175 | for arbitrary contracts the delivery loop resolves every error it started on, each in one way, in id order, and no other |
| Delivery.DeliveryByCall | x/cwerrors/abci.go:29-59 | at the end of the whole loop each error's fate is that of its own call, made in the state in which the loop came to it |
| Delivery.PruneExact | x/cwerrors/abci.go:18-25 | with agreeing indexes pruning meets no missing error and removes exactly the due errors from all indexes and exactly the subscriptions ending now |
| Delivery.CallbackEndErrors | x/callback/abci.go:69-79 | up to the error EndBlocker the error store only grows, with fresh ids, and every accepted error is stored or queued |
| Runs.RunBlockSound | app/app.go:845-849 | one block, for arbitrary contracts, keeps all invariants and clears everything filed for its height |
| Runs.RunBlocksSound | app/app.go:845-849 | every reachable state has agreeing error indexes, agreeing subscription indexes and rightly filed callbacks |
| Runs.RunBlockStored | x/callback/abci.go:16-150 | with gas limits below 2^63, a block that pays out only what is stored never stops the chain and keeps the books exact |
| Runs.RunKeepsBooks | x/callback/abci.go:16-150 | escrow exactness and the lifecycle count over every such run, across prices, parameters and nested messages |
| Runs.ExactlyOnce | x/callback/abci.go:16-150 | from genesis, with gas limits below 2^63 and only stored callbacks paid out, the run completes: the account holds exactly the pending fees; at every moment of the log a key has at most one registration without an end, so each has its own end before the next; at most one of the ends is an execution, at the key's height; nothing is pending for a past height |
| Exactness.ExactlyOnceIff | x/callback/abci.go:16-150 | from genesis over every completed run and for arbitrary contracts: every registration has exactly one end of its own or is pending if and only if no walked callback was gone when it was paid out |
| Exactness.CompletesOnceIff | x/callback/abci.go:16-150 | from genesis with gas limits below 2^63, for arbitrary contracts: a run goes through with a right log if and only if no walked callback was gone when it was paid out |
| Exactness.CalmRunStored | x/callback/keeper/callback.go:31-38 | a condition on the messages alone that suffices: no executed callback dispatches a cancellation for its height |
| Exactness.EndsOfKey | x/callback/abci.go:16-150 | from genesis over every completed run and for arbitrary contracts: a key is executed at most once and only at its height, nothing is pending for a past height, and its ends are as many as its registrations except for one more exactly if it was cancelled at its own height and executed |
| Exactness.RunBlocksShort | x/callback/abci.go:112-146 | the shortage after a run is exactly the fees it paid out twice, so it never shrinks |
| Exactness.EscrowRunIff | x/callback/abci.go:112-146 | from genesis over every completed run and for arbitrary contracts: the account is exact if and only if no walked callback with fees was gone when it was paid out |
| Exactness.BlockCompletesIff | app/app.go:845-849 | one block from any sound state goes through if and only if its callback EndBlocker can afford every entry and every Sudo call of its error EndBlocker returns; pruning never stops it |
| Exactness.RunCompletesIff | app/app.go:845-849 | from genesis, for arbitrary contracts and parameters: a run goes through if and only if that holds of each of its blocks |
| Runs.ErrorLifetime | x/cwerrors/keeper/sudo_errors.go:45-67 | from genesis, between blocks and inside them: an error stored at height s under stored-time T is readable unchanged until the EndBlocker of s + T prunes and gone after it, whatever parameters become; if s + T passes int64 it stays; nothing else is stored |
| Runs.DeletionHeight | x/cwerrors/keeper/sudo_errors.go:50-53 | the deletion height lies ahead exactly when the int64 sum does not wrap |
| Runs.NoErrorLost | x/cwerrors/abci.go:14-59 | for arbitrary contracts: a stored error is readable after its block; a queued one is not stored, and if it was queued before the error EndBlocker it was delivered by exactly one call or carried by exactly one stored record whose payload is that error, never both |
| Runs.DeliveryOrder | x/cwerrors/keeper/sudo_errors.go:163-175 | from genesis over every run: of two queued errors the one raised first is resolved first, and no error is resolved twice |
| Subscriptions.PaidTimeIsKept | x/cwerrors/keeper/subscriptions.go:41-80 | from genesis, between blocks and inside them, a contract is subscribed exactly while the int64 end of its payments lies ahead or has wrapped; while the plain sum fits int64 that is if and only if the height it paid for has not passed |
| Subscriptions.RenewalsAddUp | x/cwerrors/keeper/subscriptions.go:41-45 | renewals without a lapse add all their periods to the first end height |
| Subscriptions.SubscribeCosts | x/cwerrors/keeper/subscriptions.go:28-39 | a subscription moves exactly the fee in force to the fee collector |
| Subscriptions.EndHeightAhead | x/cwerrors/keeper/subscriptions.go:41-45 | the end height lies ahead exactly when the int64 sum does not wrap |
| Keeper.Context.Branch | pkg/utils.go:14-18 | a branch starts with the parent's stores |
| Keeper.Context.Commit | pkg/utils.go:29-32 | a commit makes the parent's stores the branch's and leaves its gas meter |
| Keeper.Context.ExecuteWithGasLimit | pkg/utils.go:12-49 | the imperative executor is the reference one: a panic of the body is raised again before anything is charged, every other run charges the parent, and only a successful one is committed |
| Keeper.Context.RequestGrant | x/cwfees/keeper.go:81-106 | granted exactly when the call succeeds within min(remaining, 100000) gas and no step panics; then it never exceeds the transaction limit, and a refusal changes nothing |
| Keeper.Context.GetCallbacksByHeight | x/callback/keeper/callback.go:21-29 | the walk returns exactly the callbacks of the height, as many as there are keys |
| Keeper.Context.SaveCallback | x/callback/keeper/callback.go:72-124 | saves exactly when contract, authority, key, height window and reservation limit allow it; after a quote only the first three can refuse; the stored gas limit is the parameter's |
| Keeper.Context.RefundFromCallbackModule | x/callback/keeper/keeper.go:99-109 | succeeds exactly when the address decodes and the account holds the amount; then exactly that moves, to the collector for a blocked recipient; a failure moves nothing |
| Keeper.Context.RequestCallback | x/callback/keeper/msg_server.go:77-130 | store first, pay later, amounts to the atomic request or to its error |
| Keeper.Context.CancelCallback | x/callback/keeper/msg_server.go:29-75 | remove first, pay later, amounts to the atomic cancellation or to its error |
| Keeper.Context.StoreErrorInState | x/cwerrors/keeper/sudo_errors.go:32-67 | the writes amount to one new id in all indexes |
| Keeper.Context.RecordError | x/cwerrors/keeper/sudo_errors.go:11-30 | stored or queued by subscription; a refused error changes nothing |
| Keeper.Context.SetSubscription | x/cwerrors/keeper/subscriptions.go:13-46 | unindex, check, pay, index amounts to the atomic subscription or to its error |
| Keeper.Context.PruneErrorsCurrentBlock | x/cwerrors/keeper/sudo_errors.go:109-141 | on every store: succeeds exactly when each due id has an error that names an address, and then removes exactly the due ids and the entries they name |
| Keeper.Context.PruneSubscriptionsEndBlock | x/cwerrors/keeper/subscriptions.go:66-80 | the walk and the range clear drop exactly the subscriptions ending now |
| Keeper.Context.GetErrorsByContractAddress | x/cwerrors/keeper/sudo_errors.go:79-94 | succeeds exactly when no indexed error is missing and returns them in index order |
| Keeper.IndexIsFilter | x/cwerrors/keeper/sudo_errors.go:79-94 | with agreeing indexes the query is the plain filter: exactly the contract's errors, once each, in id order |
| Keeper.QueryIsFilter | x/cwerrors/keeper/sudo_errors.go:79-94 | after every run from genesis the query meets no missing error and is that filter |
| Keeper.Context.HandleMsg | x/cwerrors/keeper/msg_server.go:29-95 | each message handler agrees with its atomic step, error by error |
| Keeper.Context.DeliverTx | x/callback/keeper/msg_server.go:97-117 | a callback stored before its payment fails does not survive: the writes of a transaction are dropped unless every message succeeded |
| Keeper.Context.PayCallback | x/callback/abci.go:112-146 | refund, collector payment and removal amount to the atomic payout or to its panic |
| Keeper.Context.CallbackExec | x/callback/abci.go:23-150 | execution, failure record and payout amount to the atomic settlement or to its panic |
| Keeper.Context.EndBlockCallbacks | x/callback/abci.go:16-20 | the loop over the entries found at its start is the callback EndBlocker |
| Keeper.Context.SudoErrorCallbackExec | x/cwerrors/abci.go:29-59 | an error callback is delivered, or its failure stored |
| Keeper.Context.EndBlockErrors | x/cwerrors/abci.go:14-27 | from every state: deliver in id order, prune subscriptions, prune errors amounts to the cwerrors EndBlocker or to its error |
| Keeper.Context.RunOneBlock | app/app.go:845-849 | from every state the imperative block is the block of the run theorems |
| Keeper.Context.RegisterGranter | x/cwfees/keeper.go:48-62 | succeeds exactly for a contract that is no granter yet, adds exactly it, and changes nothing otherwise |
| Keeper.Context.UnregisterGranter | x/cwfees/keeper.go:64-74 | succeeds exactly for a granter, takes exactly it away, and changes nothing otherwise |
| Genesis.Validate | x/cwfees/types/genesis.go:9-23 | accepts exactly the lists of distinct decodable addresses, and each error has its cause |
| Genesis.ExportState | x/cwfees/keeper.go:124-133 | the walk exports the encoded granters in store order |
| Genesis.ImportState | x/cwfees/keeper.go:108-122 | the loop is the sequence of registrations, stopping at the first error |
| Genesis.ExportImports | x/cwfees/keeper.go:108-133 | the export of a sound state validates, and importing it into an empty store rebuilds the same set |
| Genesis.ReachableExportImports | x/cwfees/keeper.go:108-133 | that holds of every state a run from genesis reaches |
| Witness.SelfCancelBreaksEscrow | x/callback/abci.go:136-146 | a run from genesis in which a callback cancels itself while it is executed completes, ends ten coins short, and has two ends for one registration |
| Witness.FreeCancelEndsTwice | x/callback/abci.go:136-146 | a run from genesis in which a callback without fees does the same keeps the account exact and still has two ends for one registration |
| Witness.SelfCancelStopsChain | x/callback/abci.go:117-134 | one block later the same run panics: the emptied account cannot refund the callback that is left |
| Witness.OutsizedGasStopsChain | x/callback/abci.go:112-116 | a run from genesis with a gas limit of 2^64 - 1, a booking at half a coin per unit and a failure at one coin panics on a negative fee, without any dispatched message |

## Left out

- Multiple denoms: amounts are of one fixed denom, so the panics of coin arithmetic on mixed denoms are not modelled.
- Size limits of LegacyDec and Int (315 and 256 bits): amounts are unbounded integers.
- Keeper.Context.DeliverTx: the gas that transaction messages consume is not metered; only Sudo calls are.
- Runs.NoErrorLost: an error that a contract has reported while errors are being delivered leaves with the transient store undelivered, and the lemma says so; in the source only the callback EndBlocker and IBC handlers call SetError.
- TransientQueue.TransientStore.SetSudoErrorCallback: ids stay below 2^64 and encodings below 2^63 bytes; the run theorems keep the queue as a map from ids to errors.
- Runs.ExactlyOnce: assumes gas limits below 2^63 and that only stored callbacks are paid out; Exactness.ExactlyOnceIff, Exactness.EscrowRunIff and Exactness.RunCompletesIff have the exact conditions without either.
- Keeper.Context.PruneErrorsCurrentBlock: a missing error and an error without an address are one failure here; in the source the second is a panic. Both stop the block.
- Nil requests, logging, emitted event payloads and error texts.
- Genesis of x/callback and x/cwerrors: InitGenesis restores only parameters, so there is no round trip to state.
- x/rewards, x/tracking and x/cwica: the gas price, contract owners and reported errors enter as arbitrary messages.
- The JSON encodings, bech32 itself and the Wasm VM: kept as arbitrary functions and arbitrary runs.
- The other generated protobuf and gateway files, the CLI, the bindings and the application wiring: the same patterns or plain forwarding.
