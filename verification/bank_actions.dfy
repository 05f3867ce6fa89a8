/** The actions dispatched to the bank stores, as one closed datatype, and the action creator
    functions of the classic Redux files. `Other(kind)` stands for an action whose type string
    none of the reducers' cases matches. */
module BankActions {

  /** The `{amount, purpose}` payload of a loan request. */
  datatype LoanPayload = LoanPayload(amount: int, purpose: string)

  datatype Action =
    | Deposit(amount: int)
    | Withdraw(amount: int)
    | RequestLoan(payload: LoanPayload)
    | PayLoan
    | ConvertingCurrency
    | CreateCustomer(fullName: string, nationalId: string, createdAt: string)
    | UpdateName(newName: string)
    | Other(kind: string)
  {
    /** The `type` string the action object carries. */
    function Type(): string {
      match this
      case Deposit(_) => "account/deposit"
      case Withdraw(_) => "account/withdraw"
      case RequestLoan(_) => "account/requestLoan"
      case PayLoan => "account/payLoan"
      case ConvertingCurrency => "account/convertingCurrency"
      case CreateCustomer(_, _, _) => "customer/createCustomer"
      case UpdateName(_) => "customer/updateName"
      case Other(kind) => kind
    }

    /** The action belongs to the "account/" slice of the store. */
    predicate IsAccountAction() {
      Deposit? || Withdraw? || RequestLoan? || PayLoan? || ConvertingCurrency?
    }

    /** The action belongs to the "customer/" slice of the store. */
    predicate IsCustomerAction() {
      CreateCustomer? || UpdateName?
    }
  }

  /** The type strings some reducer case matches. */
  const KnownTypes: set<string> := {
    "account/deposit", "account/withdraw", "account/requestLoan", "account/payLoan",
    "account/convertingCurrency", "customer/createCustomer", "customer/updateName"
  }

  /** `Other` is used only for type strings that no case matches, so an action is determined
      by its type string and payload. */
  predicate WellFormed(a: Action) {
    a.Other? ==> a.kind !in KnownTypes
  }

  /** `deposit(amount)`: the plain deposit action. */
  function DepositAction(amount: int): (a: Action)
    ensures a.Type() == "account/deposit" && a.Deposit? && a.amount == amount && WellFormed(a)
  {
    Deposit(amount)
  }

  /** `withdraw(amount)`. */
  function WithdrawAction(amount: int): (a: Action)
    ensures a.Type() == "account/withdraw" && a.Withdraw? && a.amount == amount && WellFormed(a)
  {
    Withdraw(amount)
  }

  /** `requestLoan(amount, purpose)`: the payload is the object `{amount, purpose}`. */
  function RequestLoanAction(amount: int, purpose: string): (a: Action)
    ensures a.Type() == "account/requestLoan" && WellFormed(a)
    ensures a.RequestLoan? && a.payload.amount == amount && a.payload.purpose == purpose
  {
    RequestLoan(LoanPayload(amount, purpose))
  }

  /** `payLoan()`: an action without a payload. */
  function PayLoanAction(): (a: Action)
    ensures a.Type() == "account/payLoan" && a.PayLoan? && WellFormed(a)
  {
    PayLoan
  }

  /** `createCustomer(fullName, nationalId)`; the creation time, read from the clock in the
      source, is the parameter `now`. */
  function CreateCustomerAction(fullName: string, nationalId: string, now: string): (a: Action)
    ensures a.Type() == "customer/createCustomer" && WellFormed(a)
    ensures a.CreateCustomer? && a.fullName == fullName && a.nationalId == nationalId && a.createdAt == now
  {
    CreateCustomer(fullName, nationalId, now)
  }

  /** `updateName(fullName)`: the payload is the bare name. */
  function UpdateNameAction(fullName: string): (a: Action)
    ensures a.Type() == "customer/updateName" && a.UpdateName? && a.newName == fullName && WellFormed(a)
  {
    UpdateName(fullName)
  }
}
