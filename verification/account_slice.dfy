/** 09-mini-bank/src/features/accounts/accountSlice.js: the Redux Toolkit slice, whose case
    reducers update the fields of the draft state in place. */
module AccountSlice {
  import opened BankActions
  import LoadingAccount

  /** The `requestLoan.prepare(amount, purpose)` callback: packs both arguments into the
      payload. */
  function Prepare(amount: int, purpose: string): (p: LoanPayload)
    ensures p.amount == amount && p.purpose == purpose
  {
    LoanPayload(amount, purpose)
  }

  /** The slice state, updated in place by the case reducers. */
  class Slice {
    var balance: int
    var loan: int
    var loanPurpose: string
    var isLoading: bool

    /** The state as the spread-based reducer of accountSlice-v1.js sees it. */
    function Snapshot(): LoadingAccount.Account
      reads this
    {
      LoadingAccount.Account(balance, loan, loanPurpose, isLoading)
    }

    /** `initialState`. */
    constructor ()
      ensures Snapshot() == LoadingAccount.Initial
    {
      balance, loan, loanPurpose, isLoading := 0, 0, "", false;
    }

    /** `deposit(state, action)`. */
    method Deposit(amount: int)
      modifies this
      ensures balance == old(balance) + amount && !isLoading
      ensures loan == old(loan) && loanPurpose == old(loanPurpose)
      ensures Snapshot() == LoadingAccount.Reduce(old(Snapshot()), Action.Deposit(amount))
    {
      balance := balance + amount;
      isLoading := false;
    }

    /** `convertingCurrency(state)`. */
    method ConvertingCurrency()
      modifies this
      ensures isLoading && balance == old(balance) && loan == old(loan) && loanPurpose == old(loanPurpose)
      ensures Snapshot() == LoadingAccount.Reduce(old(Snapshot()), Action.ConvertingCurrency)
    {
      isLoading := true;
    }

    /** `withdraw(state, action)`. */
    method Withdraw(amount: int)
      modifies this
      ensures balance == old(balance) - amount
      ensures loan == old(loan) && loanPurpose == old(loanPurpose) && isLoading == old(isLoading)
      ensures Snapshot() == LoadingAccount.Reduce(old(Snapshot()), Action.Withdraw(amount))
    {
      balance := balance - amount;
    }

    /** `requestLoan.reducer(state, action)`: returns early, mutating nothing, while a loan is
        outstanding. */
    method RequestLoan(p: LoanPayload)
      modifies this
      ensures old(loan) > 0 ==> Snapshot() == old(Snapshot())
      ensures old(loan) <= 0 ==> balance == old(balance) + p.amount && loan == p.amount && loanPurpose == p.purpose
      ensures isLoading == old(isLoading)
      ensures Snapshot() == LoadingAccount.Reduce(old(Snapshot()), Action.RequestLoan(p))
    {
      if loan > 0 {
        return;
      }
      balance := balance + p.amount;
      loan := p.amount;
      loanPurpose := p.purpose;
    }

    /** `payLoan(state)`. */
    method PayLoan()
      modifies this
      ensures balance == old(balance) - old(loan) && loan == 0 && loanPurpose == ""
      ensures isLoading == old(isLoading)
      ensures Snapshot() == LoadingAccount.Reduce(old(Snapshot()), Action.PayLoan)
    {
      balance := balance - loan;
      loan := 0;
      loanPurpose := "";
    }

    /** `accountSlice.reducer`: the case reducer whose name matches the action type runs on
        the state; any other type leaves it as it is. For every action this agrees with the
        spread-based reducer of accountSlice-v1.js. */
    method Dispatch(a: Action)
      modifies this
      ensures Snapshot() == LoadingAccount.Reduce(old(Snapshot()), a)
    {
      match a
      case Deposit(x) => Deposit(x);
      case ConvertingCurrency => ConvertingCurrency();
      case Withdraw(x) => Withdraw(x);
      case RequestLoan(p) => RequestLoan(p);
      case PayLoan => PayLoan();
      case _ =>
    }

    /** Dispatching what `deposit(amount, currency)` returns: the plain action, or the thunk's
        convertingCurrency followed by the deposit of the converted amount. */
    method DispatchDeposit(d: LoadingAccount.DepositCreation, converted: int)
      modifies this
      ensures Snapshot() == LoadingAccount.ReduceAll(old(Snapshot()), LoadingAccount.Dispatched(d, converted))
    {
      match d
      case PlainDeposit(a) =>
        Dispatch(a);
      case ConversionThunk(_, _) =>
        ConvertingCurrency();
        Deposit(converted);
        LoadingAccount.ReduceTwo(old(Snapshot()), Action.ConvertingCurrency, Action.Deposit(converted));
    }
  }
}
