/**
 The record of the single cross-chain bridge transfer in progress (a deposit
 or a withdrawal) and the reducer that applies one action to it.

 The state is generic in `Sig`, the validator signature object, which the
 reducer only stores and never inspects.
 */
module Transfer {
  import opened Wrappers

  /** Lifecycle phase of the transfer, independent of its step. */
  datatype TransferStatus = Idle | Pending | Success | Failure

  datatype TransferType = Deposit | Withdrawal

  datatype DepositStep = Init | Sent | Signed | Minted

  datatype WithdrawalStep = Init | Sent | Signed | Withdrawing | Received

  /**
   The runtime value of a step. Both step enumerations are numeric and share
   one number space, so the stored step is a number from 0 to 4 that does not
   say which enumeration it came from.
   */
  type StepCode = n: int | 0 <= n <= 4

  function DepositStepCode(d: DepositStep): (c: StepCode)
    ensures c <= 3
  {
    match d
    case Init => 0
    case Sent => 1
    case Signed => 2
    case Minted => 3
  }

  /** Only the last withdrawal step uses the code no deposit step has. */
  function WithdrawalStepCode(w: WithdrawalStep): (c: StepCode)
    ensures c == 4 <==> w == Received
  {
    match w
    case Init => 0
    case Sent => 1
    case Signed => 2
    case Withdrawing => 3
    case Received => 4
  }

  /** Reads a stored step as a deposit step; code 4 names no deposit step. */
  function DepositStepOf(c: StepCode): (d: Option<DepositStep>)
    ensures d.Some? <==> c <= 3
    ensures d.Some? ==> DepositStepCode(d.value) == c
  {
    if c == 0 then Some(DepositStep.Init)
    else if c == 1 then Some(DepositStep.Sent)
    else if c == 2 then Some(DepositStep.Signed)
    else if c == 3 then Some(Minted)
    else None
  }

  /** Reads a stored step as a withdrawal step. */
  function WithdrawalStepOf(c: StepCode): (w: WithdrawalStep)
    ensures WithdrawalStepCode(w) == c
  {
    if c == 0 then WithdrawalStep.Init
    else if c == 1 then WithdrawalStep.Sent
    else if c == 2 then WithdrawalStep.Signed
    else if c == 3 then Withdrawing
    else Received
  }

  lemma DepositStepCodeRoundTrip(d: DepositStep)
    ensures DepositStepOf(DepositStepCode(d)) == Some(d)
  {}

  lemma WithdrawalStepCodeRoundTrip(w: WithdrawalStep)
    ensures WithdrawalStepOf(WithdrawalStepCode(w)) == w
  {}

  /**
   Both enumerations are numbered in declaration order: the codes rise by one
   from 0, so with the range of `StepCode` every code is fixed.
   */
  lemma StepCodesFollowDeclarationOrder()
    ensures DepositStepCode(DepositStep.Init) == 0
    ensures DepositStepCode(DepositStep.Init) < DepositStepCode(DepositStep.Sent)
          < DepositStepCode(DepositStep.Signed) < DepositStepCode(Minted)
    ensures WithdrawalStepCode(WithdrawalStep.Init) == 0
    ensures WithdrawalStepCode(WithdrawalStep.Init) < WithdrawalStepCode(WithdrawalStep.Sent)
          < WithdrawalStepCode(WithdrawalStep.Signed) < WithdrawalStepCode(Withdrawing)
          < WithdrawalStepCode(Received)
  {}

  /**
   The two enumerations collide: the first three steps share their codes, and
   a deposit's `Minted` is stored as the same number as a withdrawal's
   `Withdrawing`. Only the transfer type tells them apart.
   */
  lemma SharedStepCodes()
    ensures DepositStepCode(DepositStep.Init) == WithdrawalStepCode(WithdrawalStep.Init)
    ensures DepositStepCode(DepositStep.Sent) == WithdrawalStepCode(WithdrawalStep.Sent)
    ensures DepositStepCode(DepositStep.Signed) == WithdrawalStepCode(WithdrawalStep.Signed)
    ensures DepositStepCode(Minted) == WithdrawalStepCode(Withdrawing)
    ensures forall d :: DepositStepCode(d) != WithdrawalStepCode(Received)
  {}

  /** The transfer record. `transferType` is the record's `type` property. */
  datatype TransferState<Sig> = TransferState(
    transferType: Option<TransferType>,
    status: TransferStatus,
    currentStep: Option<StepCode>,
    amount: string,
    requiredSignatureCount: int,
    signatureCount: nat,
    signatures: seq<Sig>,
    estimateWithdrawGas: string)

  /**
   One variant per action kind. The handled kinds come first; the last four
   are declared kinds that no handler is registered for. The variants are also
   the action creators: `AddSignature()` is the creator called without a
   signature.
   */
  datatype Action<Sig> =
    | NewDeposit(amount: string)
    | NewWithdraw(amount: string)
    | SetAmount(amount: string)
    | DepositProcedureSuccess
    | WithdrawProcedureSuccess
    | DepositProcedureFailure
    | WithdrawProcedureFailure
    | SetCurrentStep(step: StepCode)
    | SetRequiredSignatureCount(requiredSignatureCount: int)
    | AddSignature(signature: Option<Sig> := None)
    | SetEstimateWithdrawGas(estimateWithdrawGas: string)
    | RequestDeposit(amount: string)
    | RequestWithdraw(amount: string)
    | ForeignBridgeEvent
    | ContinueWithdraw
  {
    /** Starts a new transfer. */
    predicate IsStart() {
      NewDeposit? || NewWithdraw?
    }

    /** Reports that the deposit or withdrawal procedure succeeded. */
    predicate IsProcedureSuccess() {
      DepositProcedureSuccess? || WithdrawProcedureSuccess?
    }

    /** Reports that the deposit or withdrawal procedure failed. */
    predicate IsProcedureFailure() {
      DepositProcedureFailure? || WithdrawProcedureFailure?
    }

    /** Replaces one field with its payload. */
    predicate IsSetter() {
      SetAmount? || SetCurrentStep? || SetRequiredSignatureCount? || SetEstimateWithdrawGas?
    }

    /** Declared, but no handler is registered for it. */
    predicate IsUnhandled() {
      RequestDeposit? || RequestWithdraw? || ForeignBridgeEvent? || ContinueWithdraw?
    }
  }

  /** Names of the fields of the transfer record. */
  datatype Field =
    | TypeField
    | StatusField
    | CurrentStepField
    | AmountField
    | RequiredSignatureCountField
    | SignatureCountField
    | SignaturesField
    | EstimateWithdrawGasField

  const AllFields: set<Field> :=
    {TypeField, StatusField, CurrentStepField, AmountField,
     RequiredSignatureCountField, SignatureCountField, SignaturesField, EstimateWithdrawGasField}

  /** The two records hold the same value in field `f`. */
  ghost predicate Agree<Sig>(s: TransferState<Sig>, t: TransferState<Sig>, f: Field) {
    match f
    case TypeField => s.transferType == t.transferType
    case StatusField => s.status == t.status
    case CurrentStepField => s.currentStep == t.currentStep
    case AmountField => s.amount == t.amount
    case RequiredSignatureCountField => s.requiredSignatureCount == t.requiredSignatureCount
    case SignatureCountField => s.signatureCount == t.signatureCount
    case SignaturesField => s.signatures == t.signatures
    case EstimateWithdrawGasField => s.estimateWithdrawGas == t.estimateWithdrawGas
  }

  lemma AgreeEverywhere<Sig>(s: TransferState<Sig>, t: TransferState<Sig>)
    requires forall f :: Agree(s, t, f)
    ensures s == t
  {
    assert Agree(s, t, TypeField) && Agree(s, t, StatusField) && Agree(s, t, CurrentStepField);
    assert Agree(s, t, AmountField) && Agree(s, t, RequiredSignatureCountField);
    assert Agree(s, t, SignatureCountField) && Agree(s, t, SignaturesField);
    assert Agree(s, t, EstimateWithdrawGasField);
  }

  /**
   The fields each action kind is allowed to write: a start rewrites the whole
   record, a success or failure report only the status, a setter its one
   field, a signature event the counter and the list, an unhandled kind
   nothing.
   */
  function Writes<Sig>(a: Action<Sig>): set<Field> {
    match a
    case NewDeposit(_) => AllFields
    case NewWithdraw(_) => AllFields
    case SetAmount(_) => {AmountField}
    case DepositProcedureSuccess => {StatusField}
    case WithdrawProcedureSuccess => {StatusField}
    case DepositProcedureFailure => {StatusField}
    case WithdrawProcedureFailure => {StatusField}
    case SetCurrentStep(_) => {CurrentStepField}
    case SetRequiredSignatureCount(_) => {RequiredSignatureCountField}
    case AddSignature(_) => {SignatureCountField, SignaturesField}
    case SetEstimateWithdrawGas(_) => {EstimateWithdrawGasField}
    case RequestDeposit(_) => {}
    case RequestWithdraw(_) => {}
    case ForeignBridgeEvent => {}
    case ContinueWithdraw => {}
  }

  /**
   The invariant every reachable record keeps: no more signatures are stored
   than signature events were counted, and a started transfer always has a
   step and a status other than `Idle`.
   */
  predicate Consistent<Sig>(s: TransferState<Sig>) {
    && s.signatureCount >= |s.signatures|
    && (s.transferType.Some? ==> s.currentStep.Some? && s.status != Idle)
  }

  /** The record before any transfer has started; it already keeps the invariant. */
  function InitialState<Sig>(): (s: TransferState<Sig>)
    ensures Consistent(s)
  {
    TransferState(
      transferType := None,
      status := Idle,
      currentStep := None,
      amount := "0",
      requiredSignatureCount := 0,
      signatureCount := 0,
      signatures := [],
      estimateWithdrawGas := "0")
  }

  /**
   The record right after a transfer of type `t` has started: pending, with
   the given type, step and amount, and every other field as in the initial
   record. It keeps the invariant whatever the prior record was.
   */
  function Started<Sig>(t: TransferType, step: StepCode, amount: string): (r: TransferState<Sig>)
    ensures r.status == Pending && r.transferType == Some(t) && r.currentStep == Some(step) && r.amount == amount
    ensures r.(status := Idle, transferType := None, currentStep := None, amount := "0") == InitialState()
    ensures Consistent(r)
  {
    InitialState().(status := Pending, amount := amount, transferType := Some(t), currentStep := Some(step))
  }

  /** Applies one action to the transfer record. */
  function Apply<Sig>(s: TransferState<Sig>, a: Action<Sig>): (r: TransferState<Sig>)
    ensures forall f :: f !in Writes(a) ==> Agree(s, r, f)
    ensures Consistent(s) ==> Consistent(r)
    ensures !a.IsStart() ==> s.signatures <= r.signatures && s.signatureCount <= r.signatureCount
  {
    match a
    case NewDeposit(amount) => Started(Deposit, DepositStepCode(DepositStep.Init), amount)
    case NewWithdraw(amount) => Started(Withdrawal, WithdrawalStepCode(WithdrawalStep.Init), amount)
    case SetAmount(amount) => s.(amount := amount)
    case DepositProcedureSuccess => s.(status := Success)
    case WithdrawProcedureSuccess => s.(status := Success)
    case DepositProcedureFailure => s.(status := Failure)
    case WithdrawProcedureFailure => s.(status := Failure)
    case SetCurrentStep(step) => s.(currentStep := Some(step))
    case SetRequiredSignatureCount(n) => s.(requiredSignatureCount := n)
    case AddSignature(signature) =>
      s.(signatures := if signature.Some? then s.signatures + [signature.value] else s.signatures,
         signatureCount := s.signatureCount + 1)
    case SetEstimateWithdrawGas(gas) => s.(estimateWithdrawGas := gas)
    case RequestDeposit(_) => s
    case RequestWithdraw(_) => s
    case ForeignBridgeEvent => s
    case ContinueWithdraw => s
  }

  /**
   Before any action: no transfer, no step, both counts zero, no signatures,
   so the invariant holds from the start.
   */
  lemma InitialStateIsIdle<Sig>()
    ensures Consistent(InitialState<Sig>())
    ensures InitialState<Sig>().status == Idle
    ensures InitialState<Sig>().transferType.None? && InitialState<Sig>().currentStep.None?
    ensures InitialState<Sig>().signatureCount == 0 && InitialState<Sig>().requiredSignatureCount == 0
    ensures InitialState<Sig>().signatures == []
    ensures InitialState<Sig>().amount == "0" && InitialState<Sig>().estimateWithdrawGas == "0"
  {}

  /**
   Starting a transfer forgets the prior record: the result depends only on
   the action, and every field holds its start value.
   */
  lemma StartResetsWholesale<Sig>(s1: TransferState<Sig>, s2: TransferState<Sig>, a: Action<Sig>)
    requires a.IsStart()
    ensures Apply(s1, a) == Apply(s2, a)
    ensures Apply(s1, a).status == Pending
    ensures Apply(s1, a).transferType == Some(if a.NewDeposit? then Deposit else Withdrawal)
    ensures Apply(s1, a).currentStep == Some(0)
    ensures Apply(s1, a).amount == a.amount
    ensures Apply(s1, a).signatures == [] && Apply(s1, a).signatureCount == 0
    ensures Apply(s1, a).requiredSignatureCount == 0
    ensures Apply(s1, a).estimateWithdrawGas == "0"
  {}

  /**
   A signature event is always counted; its signature is appended exactly when
   the event carries one. Nothing else changes.
   */
  lemma AddSignatureCountsEveryEvent<Sig>(s: TransferState<Sig>, signature: Option<Sig>)
    ensures Apply(s, AddSignature(signature)).signatureCount == s.signatureCount + 1
    ensures signature.Some? ==> Apply(s, AddSignature(signature)).signatures == s.signatures + [signature.value]
    ensures signature.None? ==> Apply(s, AddSignature(signature)).signatures == s.signatures
    ensures |Apply(s, AddSignature(signature)).signatures| == |s.signatures| + (if signature.Some? then 1 else 0)
    ensures Apply(s, AddSignature(signature)).(signatures := s.signatures, signatureCount := s.signatureCount) == s
  {}

  /**
   A success or failure report sets the status and leaves every other field as
   it was; reporting it a second time changes nothing. No status is guarded
   against, so a success report also overrides an earlier failure and vice
   versa.
   */
  lemma ProcedureReportsTouchOnlyStatus<Sig>(s: TransferState<Sig>, a: Action<Sig>)
    requires a.IsProcedureSuccess() || a.IsProcedureFailure()
    ensures Apply(s, a).status == (if a.IsProcedureSuccess() then Success else Failure)
    ensures Apply(s, a).(status := s.status) == s
    ensures Apply(Apply(s, a), a) == Apply(s, a)
  {}

  /**
   A setter replaces its one field with its payload, whatever the status, and
   leaves the rest of the record as it was.
   */
  lemma SettersReplaceTheirField<Sig>(s: TransferState<Sig>, a: Action<Sig>)
    requires a.IsSetter()
    ensures |Writes(a)| == 1
    ensures forall f :: f !in Writes(a) ==> Agree(s, Apply(s, a), f)
    ensures a.SetAmount? ==> Apply(s, a).amount == a.amount
    ensures a.SetCurrentStep? ==> Apply(s, a).currentStep == Some(a.step)
    ensures a.SetRequiredSignatureCount? ==> Apply(s, a).requiredSignatureCount == a.requiredSignatureCount
    ensures a.SetEstimateWithdrawGas? ==> Apply(s, a).estimateWithdrawGas == a.estimateWithdrawGas
  {}

  /**
   The kinds without a handler leave the record unchanged: their footprint is
   empty, and records that agree on every field are equal. This relies on the
   reducer factory returning the state as it is for an unknown kind.
   */
  lemma UnhandledIsNoOp<Sig>(s: TransferState<Sig>, a: Action<Sig>)
    requires a.IsUnhandled()
    ensures Apply(s, a) == s
  {
    assert Writes(a) == {};
    AgreeEverywhere(Apply(s, a), s);
  }

  /**
   The status changes only on a start or on a success or failure report, and
   it becomes `Pending` only through a start.
   */
  lemma StatusMovesOnlyOnLifecycleEvents<Sig>(s: TransferState<Sig>, a: Action<Sig>)
    ensures Apply(s, a).status != s.status ==> a.IsStart() || a.IsProcedureSuccess() || a.IsProcedureFailure()
    ensures Apply(s, a).status == Pending ==> a.IsStart() || s.status == Pending
    ensures Apply(s, a).status == Idle ==> s.status == Idle
  {}

  /**
   The action creators build actions that the handlers read as intended:
   `newDeposit(x)` and `setAmount(x)` leave amount `x`, and `addSignature()`
   without a signature only bumps the counter.
   */
  lemma CreatorsAgreeWithHandlers<Sig>(s: TransferState<Sig>, amount: string)
    ensures Apply(s, NewDeposit(amount)).amount == amount
    ensures Apply(s, NewWithdraw(amount)).amount == amount
    ensures Apply(s, SetAmount(amount)).amount == amount
    ensures Apply(s, AddSignature()) == s.(signatureCount := s.signatureCount + 1)
  {}

  /**
   The reducer does not check a step against the transfer type: a deposit can
   be given code 4, which names no deposit step.
   */
  lemma StepNotCheckedAgainstType<Sig>(s: TransferState<Sig>, amount: string)
    ensures Apply(Apply(s, NewDeposit(amount)), SetCurrentStep(4)).transferType == Some(Deposit)
    ensures Apply(Apply(s, NewDeposit(amount)), SetCurrentStep(4)).currentStep == Some(4)
    ensures DepositStepOf(4).None?
  {}
}
