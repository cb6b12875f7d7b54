# Bridge transfer record

A model of the transfer-state reducer of an ERC20 bridge front end
(`src/redux/transfer.ts`). The reducer keeps the record of the one
cross-chain transfer in progress — a deposit (home to foreign chain) or a
withdrawal (foreign to home chain) — and updates it, one action at a time,
as the rest of the application reports what happened: a transfer started,
the amount changed, a step was reached, the bridge's required signature
count became known, a validator signature arrived, the withdrawal gas
estimate changed, or the deposit or withdrawal procedure succeeded or
failed.

- `wrappers.dfy` — `Option`, for the record's optional fields and the
  optional signature of a signature event.
- `transfer.dfy` (module `Transfer`) — the status, type and step
  enumerations, the record `TransferState`, the action kinds `Action`, the
  initial record and the reducer `Apply`, with the facts about a single
  action. The signature object is the type parameter `Sig`; the reducer only
  stores it.
- `transfer_runs.dfy` (module `TransferRuns`) — `Run`, a sequence of actions
  applied in arrival order, and the facts about the records reachable from
  the initial one.

Modelling choices:

- The record's `type` property is `transferType` (`type` is a Dafny keyword)
  and the status value `None` is `Idle` (`None` is `Option`'s constructor).
- The two step enumerations are numeric and share one number space, so the
  stored step is a `StepCode` from 0 to 4. `DepositStepCode`,
  `WithdrawalStepCode`, `DepositStepOf` and `WithdrawalStepOf` translate
  between the enumerations and the stored number, as the enumerations'
  numeric values and reverse mapping do. The reducer stores any code without
  checking it against the transfer type.
- Action kinds are the variants of `Action`, and the variants are the action
  creators: `AddSignature()` is `addSignature()` called without a signature.
  The handlers are modelled as receiving the payload fields the creators put
  under `payload`.
- `REQUEST_DEPOSIT`, `REQUEST_WITHDRAW`, `FOREIGN_BRIDGE_EVENT` and
  `CONTINUE_WITHDRAW` have no handler. The reducer factory
  (`createReducer` in `./utils`) is not part of this model; that it returns
  the state unchanged for a kind without a handler is a modelling
  assumption, written into `Apply`, not a verified fact.
- `amount` and `estimateWithdrawGas` are opaque strings: the code never
  parses or compares them.
- `requiredSignatureCount` is an `int`, since its setter accepts any number;
  `signatureCount` is a `nat`, since it starts at 0, a start resets it to 0, and every other change adds 1.
- The intended protocol is that a status moves one way
  (`Pending` only after a start, terminal until the next start) and that a
  step belongs to the active type. The code guards neither: a success report
  on an idle record sets `Success`, a failure report after a success sets
  `Failure`, and any step code is stored. The model follows the code;
  `StatusMovesOnlyOnLifecycleEvents`, `TerminalStatusPersists` and
  `StepNotCheckedAgainstType` state what does hold.

## Model

| member | source | states |
|---|---|---|
| Transfer.DepositStepCode | src/redux/transfer.ts:47-52 | a deposit step is stored as a code of at most 3, the deposit range of the shared number space (the exact numbering is `StepCodesFollowDeclarationOrder`) |
| Transfer.DepositStepOf | src/redux/transfer.ts:47-52 | a stored code names a deposit step exactly when it is at most 3, and that step's code is the stored one |
| Transfer.WithdrawalStepOf | src/redux/transfer.ts:54-60 | every stored code names the withdrawal step whose code it is |
| Transfer.DepositStepCodeRoundTrip | src/redux/transfer.ts:47-52 | reading a deposit step's code back gives the same step |
| Transfer.WithdrawalStepCodeRoundTrip | src/redux/transfer.ts:54-60 | reading a withdrawal step's code back gives the same step |
| Transfer.StepCodesFollowDeclarationOrder | src/redux/transfer.ts:47-60 | each enumeration starts at 0 and its codes rise strictly in declaration order, which with the code ranges fixes Init 0, Sent 1, Signed 2, then Minted 3 for deposits and Withdrawing 3, Received 4 for withdrawals |
| Transfer.SharedStepCodes | src/redux/transfer.ts:47-60 | Init, Sent and Signed share their codes across the two enumerations, Minted and Withdrawing share code 3, and no deposit step has Received's code |
| Transfer.WithdrawalStepCode | src/redux/transfer.ts:54-60 | a withdrawal step is stored as code 4 exactly when it is Received, the one step beyond the deposit range (the exact numbering is `StepCodesFollowDeclarationOrder`) |
| Transfer.InitialState | src/redux/transfer.ts:77-84 | the initial record satisfies the invariant `Consistent` |
| Transfer.InitialStateIsIdle | src/redux/transfer.ts:77-84 | initially the status is idle, type and step are absent, both counts are 0, no signature is stored, amount and gas estimate are "0", so the invariant `Consistent` holds |
| Transfer.Started | src/redux/transfer.ts:86-88 | a started record is pending with the given type, step and amount, every other field equals the initial record's, and it satisfies `Consistent` |
| Transfer.Apply | src/redux/transfer.ts:98-129 | an action changes no field outside the footprint `Writes` of its kind; it preserves `Consistent`; any action other than a start keeps the stored signatures as a prefix and does not lower the counter |
| Transfer.StartResetsWholesale | src/redux/transfer.ts:86-88 | a start gives the same record from any prior record: pending, the started type, step code 0, the given amount, no signatures, both counts 0, gas estimate "0" |
| Transfer.AddSignatureCountsEveryEvent | src/redux/transfer.ts:120-124 | a signature event always adds 1 to the counter, appends its signature exactly when it carries one, and changes no other field |
| Transfer.ProcedureReportsTouchOnlyStatus | src/redux/transfer.ts:90-96 | a success report sets `Success` and a failure report `Failure`; every other field is unchanged; reporting twice equals reporting once |
| Transfer.SettersReplaceTheirField | src/redux/transfer.ts:101-128 | each setter writes exactly one field, stores its payload there and leaves all other fields, the status included, as they were |
| Transfer.UnhandledIsNoOp | src/redux/transfer.ts:11-28 | the four kinds without a handler leave the record unchanged |
| Transfer.StatusMovesOnlyOnLifecycleEvents | src/redux/transfer.ts:98-129 | the status changes only on a start or a success or failure report, becomes `Pending` only through a start, and never returns to idle |
| Transfer.CreatorsAgreeWithHandlers | src/redux/transfer.ts:145-182 | reducing `newDeposit(x)`, `newWithdraw(x)` or `setAmount(x)` leaves amount `x`; reducing `addSignature()` only increments the counter |
| Transfer.StepNotCheckedAgainstType | src/redux/transfer.ts:112-115 | a started deposit stores step code 4, which names no deposit step |
| TransferRuns.RunPreservesConsistent | src/redux/transfer.ts:98-129 | any sequence of actions applied to a consistent record leaves it consistent |
| TransferRuns.ReachableIsConsistent | src/redux/transfer.ts:77-129 | every record reachable from the initial one has at least as many counted signature events as stored signatures, and a started transfer there has a step and a non-idle status |
| TransferRuns.ReachableIsClosed | src/redux/transfer.ts:98-129 | applying any action to a record reachable from the initial one gives a reachable record |
| TransferRuns.ApplyTracksSignatures | src/redux/transfer.ts:101-128 | one action other than a start raises the counter by 1 exactly when it is a signature event and appends exactly the signature it carries |
| TransferRuns.RunTracksSignatures | src/redux/transfer.ts:120-124 | over actions without a start, the counter grows by exactly the number of signature events and the list by exactly the signatures they carry, in order |
| TransferRuns.SignaturePayloads | src/redux/transfer.ts:120-124 | a sequence of actions carries no more signatures than it has signature events |
| TransferRuns.RunIsAppendOnly | src/redux/transfer.ts:101-128 | over actions without a start, the old signature list stays a prefix of the new one and the counter does not decrease |
| TransferRuns.FreshTransferCountsSignatureEvents | src/redux/transfer.ts:86-88 | after a start followed by k signature events the counter is k and the list holds exactly the signatures carried |
| TransferRuns.RestartForgetsHistory | src/redux/transfer.ts:86-88 | a run beginning with a start ends in the same record from any prior record |
| TransferRuns.TerminalStatusPersists | src/redux/transfer.ts:90-96 | a succeeded or failed transfer stays succeeded or failed until the next start |
| TransferRuns.ThreeSignedEvents | src/redux/transfer.ts:116-124 | a withdrawal of "100" with requirement 3 and three signed events ends with count 3 and the three signatures |
| TransferRuns.OneEventWithoutSignature | src/redux/transfer.ts:116-124 | the same with the middle event unsigned ends with count 3 and two stored signatures |

## Left out

- The reducer and context factories (`createReducer`, `createContext` in `./utils`) are not part of this model; action kinds are variants rather than prefixed strings, and the no-op for a kind without a handler is an assumption.
- The `EventLog` payload of `FOREIGN_BRIDGE_EVENT` and the `ISignature` type come from outside this file; the event's payload is dropped, since no handler reads it, and the signature is the type parameter `Sig`.
- A signature threshold check (count at least the requirement, requirement above 0) is not in this file, so it is not modelled.
- JavaScript number semantics: the counts are unbounded integers, so floating-point rounding past 2^53 and non-integral, NaN or infinite required counts are not represented.
- Untyped payloads: a handler receiving an action whose payload lacks its field (storing `undefined`) is not represented; every action carries its payload.
- The numeric meaning of `amount` and `estimateWithdrawGas` is not modelled; no non-negativity is claimed.
- The sagas that dispatch these actions, wallet and chain event watching, and the React components (login, forgot-password and navigation) are I/O or presentation and are outside this model.
