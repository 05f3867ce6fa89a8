/** The spread-based account reducer of classic Redux. The same reducer text appears three
    times in the repository (09-mini-bank/src/store-v1.js, 09-redux-intro/src/store.js and
    09-redux-intro/src/features/accounts/accountSlice.js); it is modelled once here. */
module ClassicAccount {
  import opened BankActions

  datatype Account = Account(balance: int, loan: int, loanPurpose: string)

  /** `initialStateAccount` / `initialState`. */
  const Initial: Account := Account(0, 0, "")

  /** What an action adds to the account holder's own money, `balance - loan`. */
  function NetFlow(a: Action): int {
    match a
    case Deposit(x) => x
    case Withdraw(x) => -x
    case _ => 0
  }

  /** `accountReducer(state, action)`. */
  function Reduce(s: Account, a: Action): (r: Account)
    // Taking or repaying a loan moves balance and loan together; only deposits and
    // withdrawals change the holder's own money. (A negative loan, which a negative
    // requested amount can leave, is overwritten by the next request.)
    ensures s.loan >= 0 ==> r.balance - r.loan == s.balance - s.loan + NetFlow(a)
    // No action makes the loan negative unless a negative amount is requested.
    ensures s.loan >= 0 && (a.RequestLoan? ==> a.payload.amount >= 0) ==> r.loan >= 0
    // The loan fields change only through requestLoan and payLoan.
    ensures !a.RequestLoan? && !a.PayLoan? ==> r.loan == s.loan && r.loanPurpose == s.loanPurpose
    // A loan is never granted on top of an outstanding one.
    ensures a.RequestLoan? && s.loan > 0 ==> r == s
    // Actions outside this reducer's cases (including the customer actions and
    // convertingCurrency, which this reducer does not know) return the state itself.
    ensures !a.IsAccountAction() || a.ConvertingCurrency? ==> r == s
  {
    match a
    case Deposit(x) => s.(balance := s.balance + x)
    case Withdraw(x) => s.(balance := s.balance - x)
    case RequestLoan(p) =>
      if s.loan > 0 then s
      else s.(balance := s.balance + p.amount, loan := p.amount, loanPurpose := p.purpose)
    case PayLoan => s.(balance := s.balance - s.loan, loan := 0, loanPurpose := "")
    case _ => s
  }

  /** Successive dispatches, left to right. */
  function ReduceAll(s: Account, acts: seq<Action>): Account
    decreases |acts|
  {
    if acts == [] then s else ReduceAll(Reduce(s, acts[0]), acts[1..])
  }

  function SumFlows(acts: seq<Action>): int
    decreases |acts|
  {
    if acts == [] then 0 else NetFlow(acts[0]) + SumFlows(acts[1..])
  }

  /** Deposit credits exactly the payload and leaves the loan alone. */
  lemma DepositCredits(s: Account, x: int)
    ensures Reduce(s, DepositAction(x)) == Account(s.balance + x, s.loan, s.loanPurpose)
  {
  }

  /** Withdraw debits the payload with no lower bound: withdrawing more than the balance
      leaves a negative balance. */
  lemma WithdrawUnbounded(s: Account, x: int)
    ensures Reduce(s, WithdrawAction(x)) == Account(s.balance - x, s.loan, s.loanPurpose)
    ensures x > s.balance ==> Reduce(s, WithdrawAction(x)).balance < 0
  {
  }

  /** A loan request with no outstanding loan credits the amount and records amount and
      purpose; with an outstanding loan it is refused. */
  lemma RequestLoanRule(s: Account, amount: int, purpose: string)
    ensures s.loan == 0 ==> Reduce(s, RequestLoanAction(amount, purpose)) == Account(s.balance + amount, amount, purpose)
    ensures s.loan > 0 ==> Reduce(s, RequestLoanAction(amount, purpose)) == s
  {
  }

  /** Paying the loan debits it, clears loan and purpose, and a second payoff changes nothing. */
  lemma PayLoanIdempotent(s: Account)
    ensures Reduce(s, PayLoan) == Account(s.balance - s.loan, 0, "")
    ensures Reduce(Reduce(s, PayLoan), PayLoan) == Reduce(s, PayLoan)
  {
  }

  /** Depositing and then withdrawing the same amount restores the account. */
  lemma DepositThenWithdraw(s: Account, x: int)
    ensures Reduce(Reduce(s, DepositAction(x)), WithdrawAction(x)) == s
  {
  }

  /** An action type no case matches leaves the state unchanged. */
  lemma UnknownIsNoOp(s: Account, kind: string)
    requires kind !in KnownTypes
    ensures Reduce(s, Other(kind)) == s
  {
  }

  /** Over any sequence of dispatches, the holder's own money `balance - loan` moves only by
      the deposits and withdrawals in it. */
  lemma {:induction false} NetWorthOverSequence(s: Account, acts: seq<Action>)
    requires s.loan >= 0
    requires forall i :: 0 <= i < |acts| && acts[i].RequestLoan? ==> acts[i].payload.amount >= 0
    ensures ReduceAll(s, acts).loan >= 0
    ensures ReduceAll(s, acts).balance - ReduceAll(s, acts).loan == s.balance - s.loan + SumFlows(acts)
    decreases |acts|
  {
    if acts != [] {
      NetWorthOverSequence(Reduce(s, acts[0]), acts[1..]);
    }
  }

  /** A sequence with no loan action leaves loan and purpose as they were. */
  lemma {:induction false} LoanFrameOverSequence(s: Account, acts: seq<Action>)
    requires forall i :: 0 <= i < |acts| ==> !acts[i].RequestLoan? && !acts[i].PayLoan?
    ensures ReduceAll(s, acts).loan == s.loan && ReduceAll(s, acts).loanPurpose == s.loanPurpose
    decreases |acts|
  {
    if acts != [] {
      LoanFrameOverSequence(Reduce(s, acts[0]), acts[1..]);
    }
  }
}
