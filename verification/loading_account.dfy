/** 09-mini-bank/src/features/accounts/accountSlice-v1.js: the account reducer with the
    `isLoading` flag raised while a deposit in a foreign currency is being converted, and the
    `deposit(amount, currency)` creator, which returns a plain action for rupees and a thunk
    otherwise. */
module LoadingAccount {
  import opened BankActions
  import ClassicAccount

  datatype Account = Account(balance: int, loan: int, loanPurpose: string, isLoading: bool)

  const Initial: Account := Account(0, 0, "", false)

  /** The three fields the classic reducer also has. */
  function Core(s: Account): ClassicAccount.Account {
    ClassicAccount.Account(s.balance, s.loan, s.loanPurpose)
  }

  /** `accountReducer(state, action)` of accountSlice-v1.js. */
  function Reduce(s: Account, a: Action): (r: Account)
    // On balance, loan and purpose it is the classic reducer, convertingCurrency included
    // (which changes none of them).
    ensures Core(r) == ClassicAccount.Reduce(Core(s), a)
    // Only convertingCurrency raises the flag and only a deposit lowers it.
    ensures a.ConvertingCurrency? ==> r.isLoading
    ensures a.Deposit? ==> !r.isLoading
    ensures !a.Deposit? && !a.ConvertingCurrency? ==> r.isLoading == s.isLoading
    // The refused loan request returns the state itself, flag included.
    ensures a.RequestLoan? && s.loan > 0 ==> r == s
    ensures !a.IsAccountAction() ==> r == s
  {
    match a
    case Deposit(x) => s.(balance := s.balance + x, isLoading := false)
    case ConvertingCurrency => s.(isLoading := true)
    case Withdraw(x) => s.(balance := s.balance - x)
    case RequestLoan(p) =>
      if s.loan > 0 then s
      else s.(balance := s.balance + p.amount, loan := p.amount, loanPurpose := p.purpose)
    case PayLoan => s.(balance := s.balance - s.loan, loan := 0, loanPurpose := "")
    case _ => s
  }

  function ReduceAll(s: Account, acts: seq<Action>): Account
    decreases |acts|
  {
    if acts == [] then s else ReduceAll(Reduce(s, acts[0]), acts[1..])
  }

  /** Two dispatches in a row. */
  lemma ReduceTwo(s: Account, a: Action, b: Action)
    ensures ReduceAll(s, [a, b]) == Reduce(Reduce(s, a), b)
  {
    assert [a, b][1..] == [b];
    assert ReduceAll(Reduce(s, a), [b]) == ReduceAll(Reduce(Reduce(s, a), b), []);
  }

  /** What `deposit(amount, currency)` returns: a plain action, or the asynchronous function
      that converts `amount` from `currency` to rupees before depositing. */
  datatype DepositCreation = PlainDeposit(action: Action) | ConversionThunk(amount: int, currency: string)

  /** `deposit(amount, currency)`. */
  function DepositCreator(amount: int, currency: string): (d: DepositCreation)
    ensures d.PlainDeposit? <==> currency == "INR"
    ensures d.PlainDeposit? ==> d.action == DepositAction(amount)
    ensures d.ConversionThunk? ==> d.amount == amount && d.currency == currency
  {
    if currency == "INR" then PlainDeposit(DepositAction(amount))
    else ConversionThunk(amount, currency)
  }

  /** The actions that reach the reducer when the creation is dispatched; `converted` is
      `data.rates.INR` from the conversion service's answer, which a thunk awaits between its
      two dispatches. */
  function Dispatched(d: DepositCreation, converted: int): (acts: seq<Action>)
    ensures d.PlainDeposit? ==> acts == [d.action]
    ensures d.ConversionThunk? ==> |acts| == 2 && acts[0].ConvertingCurrency? && acts[1] == Deposit(converted)
  {
    match d
    case PlainDeposit(a) => [a]
    case ConversionThunk(_, _) => [Action.ConvertingCurrency, DepositAction(converted)]
  }

  /** A rupee deposit is one plain action that credits exactly `amount`. */
  lemma RupeeDeposit(s: Account, amount: int, converted: int)
    ensures Dispatched(DepositCreator(amount, "INR"), converted) == [Deposit(amount)]
    ensures ReduceAll(s, Dispatched(DepositCreator(amount, "INR"), converted))
            == s.(balance := s.balance + amount, isLoading := false)
  {
  }

  /** A foreign-currency deposit shows the loading flag between its two dispatches, then
      credits the converted amount, clears the flag and touches nothing else. */
  lemma ForeignDeposit(s: Account, amount: int, currency: string, converted: int)
    requires currency != "INR"
    ensures Reduce(s, Dispatched(DepositCreator(amount, currency), converted)[0]).isLoading
    ensures ReduceAll(s, Dispatched(DepositCreator(amount, currency), converted))
            == s.(balance := s.balance + converted, isLoading := false)
  {
    var acts := Dispatched(DepositCreator(amount, currency), converted);
    assert acts == [Action.ConvertingCurrency, Deposit(converted)];
    ReduceTwo(s, Action.ConvertingCurrency, Deposit(converted));
  }

  /** convertingCurrency raises the flag and changes no other field. */
  lemma ConvertingOnlyRaisesFlag(s: Account)
    ensures Reduce(s, Action.ConvertingCurrency) == Account(s.balance, s.loan, s.loanPurpose, true)
  {
  }

  /** Over any sequence, the fields other than the flag evolve exactly as under the classic
      reducer. */
  lemma {:induction false} CoreFollowsClassic(s: Account, acts: seq<Action>)
    ensures Core(ReduceAll(s, acts)) == ClassicAccount.ReduceAll(Core(s), acts)
    decreases |acts|
  {
    if acts != [] {
      CoreFollowsClassic(Reduce(s, acts[0]), acts[1..]);
    }
  }
}
