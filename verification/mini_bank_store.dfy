/** 09-mini-bank/src/store-v1.js: the customer reducer, the root reducer that combines the
    account and customer reducers under two keys, and the module-level store that the demo
    dispatches to. */
module MiniBankStore {
  import opened BankActions
  import ClassicAccount

  datatype Customer = Customer(fullName: string, nationalId: string, createdAt: string)

  /** `initialStateCustomer`. */
  const InitialCustomer: Customer := Customer("", "", "")

  /** `customerReducer(state, action)`. */
  function CustomerReduce(s: Customer, a: Action): (r: Customer)
    // Only the customer actions touch the customer record.
    ensures !a.IsCustomerAction() ==> r == s
    // Renaming changes the full name and nothing else.
    ensures a.UpdateName? ==> r.fullName == a.newName && r.nationalId == s.nationalId && r.createdAt == s.createdAt
    // Creating a customer takes every field from the payload, whatever was there before.
    ensures a.CreateCustomer? ==> r == Customer(a.fullName, a.nationalId, a.createdAt)
  {
    match a
    case CreateCustomer(name, id, at) => s.(fullName := name, nationalId := id, createdAt := at)
    case UpdateName(name) => s.(fullName := name)
    case _ => s
  }

  /** The state of the combined store: `{account, customer}`. */
  datatype Root = Root(account: ClassicAccount.Account, customer: Customer)

  const InitialRoot: Root := Root(ClassicAccount.Initial, InitialCustomer)

  /** `combineReducers({account: accountReducer, customer: customerReducer})`: every action
      is given to both reducers, each on its own key. */
  function RootReduce(s: Root, a: Action): (r: Root)
    // Account actions never change the customer, customer actions never change the account.
    ensures a.IsAccountAction() ==> r.customer == s.customer
    ensures a.IsCustomerAction() ==> r.account == s.account
    // Neither sub-state changes for a type no case matches.
    ensures a.Other? ==> r == s
  {
    Root(ClassicAccount.Reduce(s.account, a), CustomerReduce(s.customer, a))
  }

  /** `createStore(rootReducer)`: the store object, whose state each dispatch replaces. */
  class Store {
    var state: Root

    constructor ()
      ensures state == InitialRoot
    {
      state := InitialRoot;
    }

    /** `store.dispatch(action)` for a plain action. */
    method Dispatch(a: Action)
      modifies this
      ensures state == RootReduce(old(state), a)
    {
      state := RootReduce(state, a);
    }
  }

  /** The dispatch sequence at the end of store-v1.js; `now` is the clock reading that
      `createCustomer` stores. The out-parameters are the states the source logs. */
  method Demo(now: string) returns (afterWithdraw: Root, afterLoan: Root, afterPayoff: Root,
                                    afterCreate: Root, afterRename: Root)
    ensures afterWithdraw == Root(ClassicAccount.Account(300, 0, ""), InitialCustomer)
    ensures afterLoan == Root(ClassicAccount.Account(1300, 1000, "Buy a car"), InitialCustomer)
    ensures afterPayoff == Root(ClassicAccount.Account(300, 0, ""), InitialCustomer)
    ensures afterCreate == Root(ClassicAccount.Account(300, 0, ""), Customer("Krishan", "123", now))
    ensures afterRename == Root(ClassicAccount.Account(300, 0, ""), Customer("Krishandeep", "123", now))
  {
    var store := new Store();
    store.Dispatch(DepositAction(500));
    assert store.state.account == ClassicAccount.Account(500, 0, "");
    store.Dispatch(WithdrawAction(200));
    afterWithdraw := store.state;
    store.Dispatch(RequestLoanAction(1000, "Buy a car"));
    afterLoan := store.state;
    assert afterLoan.account == ClassicAccount.Account(1300, 1000, "Buy a car");
    store.Dispatch(PayLoanAction());
    afterPayoff := store.state;
    assert afterPayoff.account == ClassicAccount.Account(300, 0, "");
    store.Dispatch(CreateCustomerAction("Krishan", "123", now));
    afterCreate := store.state;
    store.Dispatch(UpdateNameAction("Krishandeep"));
    afterRename := store.state;
  }
}
