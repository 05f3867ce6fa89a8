/** 09-redux-intro/src/store.js: a store over the account reducer alone, and the demo
    dispatch sequence. */
module ReduxIntroStore {
  import opened BankActions
  import opened ClassicAccount

  /** `createStore(reducer)`. */
  class Store {
    var state: Account

    constructor ()
      ensures state == Account(0, 0, "")
    {
      state := Initial;
    }

    /** `store.dispatch(action)`. */
    method Dispatch(a: Action)
      modifies this
      ensures state == Reduce(old(state), a)
    {
      state := Reduce(state, a);
    }
  }

  /** deposit 500, withdraw 200, requestLoan(1000, "Buy a car"), payLoan; the out-parameters
      are the three states the source logs. */
  method Demo() returns (afterWithdraw: Account, afterLoan: Account, afterPayoff: Account)
    ensures afterWithdraw == Account(300, 0, "")
    ensures afterLoan == Account(1300, 1000, "Buy a car")
    ensures afterPayoff == Account(300, 0, "")
  {
    var store := new Store();
    store.Dispatch(DepositAction(500));
    store.Dispatch(WithdrawAction(200));
    afterWithdraw := store.state;
    store.Dispatch(RequestLoanAction(1000, "Buy a car"));
    afterLoan := store.state;
    store.Dispatch(PayLoanAction());
    afterPayoff := store.state;
  }
}
