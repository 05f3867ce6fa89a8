# React teaching apps and Redux bank reducers, modelled in Dafny

This project models the state logic of a set of small React teaching apps.

- **Bank reducers.** The classic spread-based account and customer reducers of the
  mini-bank and redux-intro apps, their action creators and demo dispatch sequences. It also
  covers the account reducer with a currency-conversion loading flag, and the Redux Toolkit
  slice that updates the same state in place.
- **DateCounter.** The count/step reducer of the quiz app, which throws on an unknown
  action.
- **Packing lists.** The add, delete, check and clear handlers of the two travel apps, the
  sort modes of the packing list, the packing statistics and the add-item form.
- **Bill splitter.** The friends list with balances, the selection toggle and the
  split-bill form with its sign convention.
- **Movies hub.** The selected movie, the watched list, the search state machine of the
  app and of the `useMovies` hook, the watched-record construction of the details panel,
  and the star-rating widget.
- **Steps.** The three-step wizard.
- **Atomic blog.** The post provider, with its case-insensitive search, and the
  add-post form.

Pure reducers and updaters are Dafny functions. React state that handlers replace step by
step, and the in-place Redux Toolkit slice, are classes. Their methods are proved against
those functions. Network answers, the clock, `window.confirm`, the random post generator
and `localeCompare` are parameters. Identical source text that appears in several files is
modelled once, and its lemmas cite each file.

Files:
- `wrappers.dfy`, `seqs.dfy`: Option/Result and the verified `filter`.
- `bank_actions.dfy`, `classic_account.dfy`, `mini_bank_store.dfy`,
  `redux_intro_store.dfy`, `loading_account.dfy`, `account_slice.dfy`: the bank.
- `date_counter.dfy`: the DateCounter reducer.
- `packing_items.dfy`, `packing_sort.dfy`, `packing_stats.dfy`, `packing_form.dfy`: the
  travel apps.
- `bill_split.dfy`, `bill_split_form.dfy`: the bill splitter.
- `movie_search.dfy`, `movie_details.dfy`, `movies_app.dfy`, `star_rating.dfy`: the movies
  hub.
- `steps.dfy`: the wizard.
- `blog_posts.dfy`, `blog_form.dfy`: the atomic blog.

## Model

| member | source | states |
|---|---|---|
| Seqs.Filter | 03-travel-check/src/App.js:16 | `filter` keeps exactly the elements that pass the test, in their original order (a subsequence, no longer than the input). Every element that passes keeps all its copies, and none that fails keeps any. It returns the input when all pass and [] when none pass. |
| Seqs.Count | 03-travel-check/src/components/Stats.js:3 | A filter's length lies between 0 and the list length. It equals the length iff every element passes, and is 0 iff none does. |
| BankActions.DepositAction | 09-mini-bank/src/store-v1.js:82-84 | `deposit(amount)` carries type "account/deposit" and the bare amount as payload. |
| BankActions.WithdrawAction | 09-mini-bank/src/store-v1.js:86-88 | `withdraw(amount)` carries type "account/withdraw" and the bare amount. |
| BankActions.RequestLoanAction | 09-redux-intro/src/features/accounts/accountSlice.js:52-57 | `requestLoan(amount, purpose)` carries type "account/requestLoan" and the payload `{amount, purpose}`. |
| BankActions.PayLoanAction | 09-redux-intro/src/features/accounts/accountSlice.js:59-61 | `payLoan()` carries type "account/payLoan" and no payload. |
| BankActions.CreateCustomerAction | 09-mini-bank/src/store-v1.js:111-116 | `createCustomer` carries type "customer/createCustomer" and the name, the national id and the creation time. |
| BankActions.UpdateNameAction | 09-mini-bank/src/store-v1.js:118-120 | `updateName` carries type "customer/updateName" and the bare new name. |
| ClassicAccount.Reduce | 09-mini-bank/src/store-v1.js:18-51 | Only deposits and withdrawals change the holder's own money `balance - loan`, by their amount; taking or repaying a loan does not. The loan never goes negative unless a negative amount is requested. The loan fields change only through requestLoan and payLoan. A loan request while a loan is outstanding returns the state unchanged. Customer actions, convertingCurrency and unknown types return the state unchanged. |
| ClassicAccount.DepositCredits | 09-mini-bank/src/store-v1.js:20-22 | A deposit adds the payload to the balance and leaves loan and purpose as they were. |
| ClassicAccount.WithdrawUnbounded | 09-mini-bank/src/store-v1.js:24-26 | A withdrawal subtracts the payload with no lower bound: withdrawing more than the balance gives a negative balance. |
| ClassicAccount.RequestLoanRule | 09-redux-intro/src/store.js:24-31 | With no loan, a request credits the amount and records both amount and purpose. With a loan outstanding, the request is refused and the state is unchanged. |
| ClassicAccount.PayLoanIdempotent | 09-redux-intro/src/features/accounts/accountSlice.js:28-35 | Paying the loan debits it and clears loan and purpose. A second payoff changes nothing. |
| ClassicAccount.DepositThenWithdraw | 09-redux-intro/src/features/accounts/accountSlice.js:10-16 | A deposit followed by a withdrawal of the same amount restores the account. |
| ClassicAccount.UnknownIsNoOp | 09-redux-intro/src/store.js:43-45 | An action type that no case matches leaves the state unchanged. |
| ClassicAccount.NetWorthOverSequence | 09-redux-intro/src/store.js:14-47 | Take any dispatch sequence that starts from a non-negative loan and requests no negative loan. The loan stays non-negative, and `balance - loan` moves by exactly the sum of the deposits minus the withdrawals. |
| ClassicAccount.LoanFrameOverSequence | 09-redux-intro/src/features/accounts/accountSlice.js:8-41 | A dispatch sequence with no loan action leaves loan and purpose as they were. |
| MiniBankStore.CustomerReduce | 09-mini-bank/src/store-v1.js:53-71 | Only customer actions touch the customer. Renaming changes the full name and nothing else. Creating a customer takes all three fields from the payload. |
| MiniBankStore.RootReduce | 09-mini-bank/src/store-v1.js:74-77 | Account actions never change the customer sub-state, and customer actions never change the account. An unknown type changes neither. |
| MiniBankStore.Store.constructor | 09-mini-bank/src/store-v1.js:79 | The store starts from the initial account and the initial customer. |
| MiniBankStore.Store.Dispatch | 09-mini-bank/src/store-v1.js:101 | A dispatch replaces the state by the root reducer's answer. |
| MiniBankStore.Demo | 09-mini-bank/src/store-v1.js:101-126 | The logged states of the demo sequence: balance 300 after the withdrawal; 1300 with a loan of 1000 for "Buy a car"; 300 with no loan after payoff; then customer "Krishan"/"123" at the given time; then the name "Krishandeep" with the account untouched. |
| ReduxIntroStore.Store.constructor | 09-redux-intro/src/store.js:3-12 | The store starts at balance 0, loan 0 and purpose "". |
| ReduxIntroStore.Store.Dispatch | 09-redux-intro/src/store.js:12 | A dispatch replaces the state by the reducer's answer. |
| ReduxIntroStore.Demo | 09-redux-intro/src/store.js:69-77 | The demo logs balance 300, then balance 1300 with loan 1000 for "Buy a car", then balance 300 with no loan. |
| LoadingAccount.Reduce | 09-mini-bank/src/features/accounts/accountSlice-v1.js:13-54 | Balance, loan and purpose follow the classic reducer. Only convertingCurrency raises `isLoading`, and a deposit always clears it. The refused loan request returns the whole state, flag included. Unknown and customer actions change nothing. |
| LoadingAccount.DepositCreator | 09-mini-bank/src/features/accounts/accountSlice-v1.js:57-78 | `deposit(amount, currency)` gives a plain deposit of exactly `amount` iff the currency is "INR". Otherwise it gives a conversion thunk for that amount and currency. |
| LoadingAccount.Dispatched | 09-mini-bank/src/features/accounts/accountSlice-v1.js:63-77 | A plain action reaches the reducer alone. A thunk dispatches convertingCurrency first, then the deposit of the converted amount. |
| LoadingAccount.RupeeDeposit | 09-mini-bank/src/features/accounts/accountSlice-v1.js:57-60 | A rupee deposit is the single plain action, and it credits exactly the amount and clears the flag. |
| LoadingAccount.ForeignDeposit | 09-mini-bank/src/features/accounts/accountSlice-v1.js:63-76 | A foreign-currency deposit shows `isLoading` between its two dispatches. It ends with the converted amount credited, the flag cleared and nothing else changed. |
| LoadingAccount.ConvertingOnlyRaisesFlag | 09-mini-bank/src/features/accounts/accountSlice-v1.js:23-25 | convertingCurrency sets `isLoading` and changes no other field. |
| LoadingAccount.CoreFollowsClassic | 09-mini-bank/src/features/accounts/accountSlice-v1.js:13-54 | Over any dispatch sequence, balance, loan and purpose evolve exactly as under the classic reducer. |
| AccountSlice.Prepare | 09-mini-bank/src/features/accounts/accountSlice.js:32-34 | The prepare callback packs `(amount, purpose)` into `payload.amount` and `payload.purpose`. |
| AccountSlice.Slice.constructor | 09-mini-bank/src/features/accounts/accountSlice.js:7-12 | The slice starts at the same initial state as the spread-based reducer. |
| AccountSlice.Slice.Deposit | 09-mini-bank/src/features/accounts/accountSlice.js:18-21 | The case reducer adds the payload in place and clears `isLoading`, touching nothing else. It agrees with the spread-based reducer. |
| AccountSlice.Slice.ConvertingCurrency | 09-mini-bank/src/features/accounts/accountSlice.js:22-24 | The case reducer only raises `isLoading`. It agrees with the spread-based reducer. |
| AccountSlice.Slice.Withdraw | 09-mini-bank/src/features/accounts/accountSlice.js:25-27 | The case reducer only decrements the balance. It agrees with the spread-based reducer. |
| AccountSlice.Slice.RequestLoan | 09-mini-bank/src/features/accounts/accountSlice.js:36-42 | With a loan outstanding, the early return mutates nothing. Otherwise the three loan fields are set and `isLoading` is kept. It agrees with the spread-based reducer. |
| AccountSlice.Slice.PayLoan | 09-mini-bank/src/features/accounts/accountSlice.js:44-48 | The case reducer debits the old loan and zeroes loan and purpose. It agrees with the spread-based reducer. |
| AccountSlice.Slice.Dispatch | 09-mini-bank/src/features/accounts/accountSlice.js:14-50 | For every action, the in-place slice reducer leaves the same state as the spread-based reducer of accountSlice-v1.js. |
| AccountSlice.Slice.DispatchDeposit | 09-mini-bank/src/features/accounts/accountSlice.js:52-72 | Dispatching what `deposit(amount, currency)` returns (plain action, or convertingCurrency then deposit) leaves the state the spread-based reducer reaches over the same actions. |
| DateCounter.Reduce | 07-react-quiz/src/DateCounter.js:5-26 | Only an unknown action fails, with "Unknown action: " and its type; a well-formed action fails iff its type is none of the five cases. The step changes only through set_step and reset. inc and dec move the count by exactly one step. reset gives the initial state. |
| DateCounter.FromType | 07-react-quiz/src/DateCounter.js:6-24 | Any type string gives a well-formed action with that type; it is `Unknown` iff the type is none of "dec", "inc", "set_count", "set_step", "reset", and set_count/set_step carry the payload. |
| DateCounter.DispatchByType | 07-react-quiz/src/DateCounter.js:6-24 | Dispatching any type string throws iff the switch has no case for it, with "Unknown action: " and the type. |
| DateCounter.IncDecInverse | 07-react-quiz/src/DateCounter.js:7-12 | inc then dec, and dec then inc, restore the state. |
| DateCounter.SettersFrame | 07-react-quiz/src/DateCounter.js:13-18 | set_count replaces only the count, and set_step replaces only the step. |
| DateCounter.ResetFromAnyState | 07-react-quiz/src/DateCounter.js:19-21 | reset gives `{count: 0, step: 1}` from any state. |
| PackingItems.AddItem | 03-travel-check/src/App.js:10-12 | Adding grows the list by one, with the new item last and the earlier items unchanged. |
| PackingItems.DeleteItem | 03-travel-check/src/App.js:15-17 | Deleting keeps exactly the items with another id, in order and with all their copies. An absent id leaves the list unchanged. |
| PackingItems.CheckItem | 03-travel-check/src/App.js:20-26 | Checking keeps the length, order, ids, descriptions and quantities. It flips `packed` exactly on the items whose id matches. |
| PackingItems.ClearList | 03-travel-check/src/App.js:29-35 | Clearing empties the list when confirmed and leaves it unchanged otherwise. |
| PackingItems.CheckTwiceRestores | 03-travel-list/src/App.js:20-26 | Checking the same id twice restores the list. |
| PackingItems.DeleteRemovesAll | 03-travel-list/src/App.js:15-17 | After a delete no item with that id remains, and the list is no longer. |
| PackingItems.TravelApp.constructor | 03-travel-check/src/App.js:7 | The state starts as the initial items. |
| PackingItems.TravelApp.HandleAddItem | 03-travel-list/src/App.js:10-12 | The new item list is the add-item result. |
| PackingItems.TravelApp.HandleDeleteItem | 03-travel-list/src/App.js:15-17 | The new item list is the delete result. |
| PackingItems.TravelApp.HandleCheckItem | 03-travel-list/src/App.js:20-26 | The new item list is the check result. |
| PackingItems.TravelApp.HandleClearList | 03-travel-list/src/App.js:29-35 | The list becomes [] when confirmed and is otherwise unchanged. |
| PackingSort.InsertionSortCorrect | 03-travel-check/src/components/PackingList.js:13-27 | Under a total preorder, sorting returns a sorted permutation of the items. |
| PackingSort.DescriptionOrder | 03-travel-check/src/components/PackingList.js:13-17 | Comparing items by description is a total preorder whenever the description order is one. |
| PackingSort.SortItems | 03-travel-check/src/components/PackingList.js:8-27 | Every mode returns a permutation of the items. "input" returns the items themselves. "description" is ordered by the description comparator. "quantity" has non-decreasing quantities. In "packed", no unpacked item follows a packed one. |
| PackingSort.UnpackedFirst | 03-travel-check/src/components/PackingList.js:24-27 | In "packed" order, every unpacked item comes before every packed one. |
| PackingStats.NumPacked | 03-travel-check/src/components/Stats.js:2-3 | The packed count is the length of the list filtered by `packed`, so it lies between 0 and the item count. It equals the item count iff all are packed, and is 0 iff none is. |
| PackingStats.PercentPacked | 03-travel-check/src/components/Stats.js:4 | For a non-empty list the percentage lies in 0..100. It is the nearest integer to 100·packed/items, halves rounded up, and is 100 when everything is packed. |
| PackingStats.Message | 03-travel-check/src/components/Stats.js:6-22 | The footer as written. An empty list gets "start adding" (and only an empty list does). A non-empty list gets "ready to go" iff its rounded percentage `PercentPacked` is 100. A fully packed list gets "ready to go", and "ready to go" implies at most one item in 200 is unpacked. Otherwise the counts are shown with that percentage, which is below 100. |
| PackingStats.IntendedMessage | 03-travel-check/src/components/Stats.js:17-18 | The corrected footer: "ready to go" iff the list is non-empty and every item is packed. Otherwise, for a non-empty list, the progress line shows the counts. |
| PackingStats.ReadyWithItemUnpacked | 03-travel-check/src/components/Stats.js:4 | A 400-item list with 399 packed gets "ready to go" from the footer as written, but not from the corrected footer. |
| PackingForm.QuantityOptions | 03-travel-check/src/components/Form.js:33 | The quantity select offers exactly 1..10, ascending. |
| PackingForm.SubmitDisabled | 03-travel-check/src/components/Form.js:47 | The submit button is disabled iff the description is empty. |
| PackingForm.Form.constructor | 03-travel-check/src/components/Form.js:4-5 | The form starts with quantity 1 and an empty description. |
| PackingForm.Form.HandleSubmit | 03-travel-check/src/components/Form.js:7-23 | An empty description emits nothing and changes no field. Otherwise the item emitted carries the chosen quantity and description, is unpacked and takes the clock reading as id; the fields reset to 1 and "". |
| BillSplit.SplitBill | 04-bill-split/src/App.js:36-42 | A split keeps length, order, ids, names and images. It adds the value to the balance of exactly the friends carrying the selected id. |
| BillSplit.SplitMovesTotal | 04-bill-split/src/App.js:35-42 | A split changes the sum of balances by the value once per friend with the selected id. |
| BillSplit.ToggleSelection | 04-bill-split/src/App.js:28-30 | Selecting the selected friend deselects. Selecting anyone else selects them. |
| BillSplit.SelectTwiceDeselects | 04-bill-split/src/App.js:27-33 | Selecting the same friend twice from no selection ends with no selection. |
| BillSplit.App.constructor | 04-bill-split/src/App.js:13-15 | The app starts with the initial friends, the add-friend form hidden and no selection. |
| BillSplit.App.HandleAddFriend | 04-bill-split/src/App.js:17-21 | The new friend is appended and the form is hidden. |
| BillSplit.App.HandleShowAddFriend | 04-bill-split/src/App.js:23-25 | The form's visibility flips and nothing else changes. |
| BillSplit.App.HandleSelection | 04-bill-split/src/App.js:27-33 | The selection toggles and the add-friend form is hidden. |
| BillSplit.App.HandleSplitBill | 04-bill-split/src/App.js:35-45 | The value goes to the selected friend's balance and the selection is cleared. |
| BillSplitForm.PaidByFriend | 04-bill-split/src/components/FormSplitBill.js:10 | The two expenses add up to the bill. With the user's expense within the bill, the friend's expense is within 0..bill. |
| BillSplitForm.SplitValueAsWritten | 04-bill-split/src/components/FormSplitBill.js:12-19 | Submit as written. Nothing is emitted iff the bill or the user's expense is 0. Otherwise the value is `+paidByFriend` when the user pays and `-paidByFriend` when the friend pays. |
| BillSplitForm.FriendPaysChargesWrongShare | 04-bill-split/src/components/FormSplitBill.js:18 | Bill 100, user's expense 30, friend pays: the as-written value is -70, not the user's -30. |
| BillSplitForm.SplitValue | 04-bill-split/src/components/FormSplitBill.js:15-18 | Corrected submit. Nothing is emitted iff the bill or the user's expense is 0. The value is what the user paid out minus the user's expense: `+paidByFriend` when the user pays, `-paidByUser` when the friend pays. With expenses within the bill, it is non-negative iff the user paid. |
| BillSplitForm.VersionsAgree | 04-bill-split/src/components/FormSplitBill.js:18 | The two versions agree whenever the user pays. When the friend pays, they agree exactly when the bill is split evenly. |
| MovieSearch.Settle | 05-movies-hub/src/hooks/useMovies.js:23-39 | How the request ends decides the state. Not ok gives "Something went wrong with fetching movies". `Response` "False" gives "Movie not found!". Success gives the results and no error. An abort keeps the error. Another failure gives its message. Only success replaces the list. |
| MovieSearch.UseMovies.constructor | 05-movies-hub/src/hooks/useMovies.js:4-6 | The hook starts with no movies, not loading and no error. |
| MovieSearch.UseMovies.QueryChanged | 05-movies-hub/src/hooks/useMovies.js:42-49 | A search is issued iff the query has at least 3 characters. A short query gives [] and "Type at least three characters in the search field!". Otherwise loading starts and the error is cleared. |
| MovieSearch.UseMovies.FetchSettled | 05-movies-hub/src/hooks/useMovies.js:12-39 | After the request ends, movies and error are as `Settle` says, and loading is off for every outcome. |
| MovieDetails.IsWatched | 05-movies-hub/src/components/MovieDetails.js:12 | True iff some watched entry has the selected id. |
| MovieDetails.WatchedUserRating | 05-movies-hub/src/components/MovieDetails.js:14-16 | Absent iff the movie is not watched; otherwise the user rating of the first matching entry. |
| MovieDetails.FirstWord | 05-movies-hub/src/components/MovieDetails.js:38 | The first word is a prefix of the runtime text with no space in it, ended by a space or by the end of the text. |
| MovieDetails.RuntimeRoundTrip | 05-movies-hub/src/components/MovieDetails.js:38 | A runtime written as a number, a space and a unit reads back as that number. |
| MovieDetails.RuntimeExample | 05-movies-hub/src/components/MovieDetails.js:38 | "148 min" reads as 148. |
| MovieDetails.NewWatchedMovie | 05-movies-hub/src/components/MovieDetails.js:32-40 | The record takes its id from the selected id and its rating from the user. Title, year, poster and IMDb rating come from the details. The runtime is the number before the first space. |
| MovieDetails.HandleAdd | 05-movies-hub/src/components/MovieDetails.js:31-44 | The add handler calls onAddWatched with the record built from the selected id, the details and the user's rating, then onCloseMovie. |
| MovieDetails.ParseRuntime | 05-movies-hub/src/components/MovieDetails.js:38 | `Number(runtime.split(" ").at(0))` is a number iff the first word is all decimal digits; an empty first word gives 0 and "N/A" gives NaN. |
| MovieDetails.ShowsAddButton | 05-movies-hub/src/components/MovieDetails.js:116-129 | The add button is offered exactly when the movie is not watched and the user's rating is above 0. |
| MovieDetails.PosterSource | 05-movies-hub/src/components/MovieDetails.js:98-100 | A poster of "N/A" is replaced by the placeholder URL. Any other poster is shown as is. |
| MoviesApp.SelectId | 05-movies-hub/src/App.js:31-33 | Selecting the open movie closes it. Selecting any other opens that one. |
| MoviesApp.SelectTwiceCloses | 05-movies-hub/src/App.js:31-33 | Selecting the same movie twice closes it. Selecting a different one switches to it. |
| MoviesApp.RemoveWatched | 05-movies-hub/src/App.js:41-43 | Removing keeps exactly the entries with another id, in order and with all their copies. The removed id is no longer watched, and an unwatched id changes nothing. |
| MoviesApp.AddThenRemove | 05-movies-hub/src/App.js:37-43 | An added movie is watched; removing its id leaves no entry for it. |
| MoviesApp.App.constructor | 05-movies-hub/src/App.js:24-29 | The app starts with no movies, nothing watched, not loading, no error and the empty id selected. |
| MoviesApp.App.HandleSelectedId | 05-movies-hub/src/App.js:31-33 | The selection toggles; the lists, loading flag and error are untouched. |
| MoviesApp.App.HandleCloseMovie | 05-movies-hub/src/App.js:35 | The selection becomes null and no details are shown; the lists, loading flag and error are untouched. |
| MoviesApp.App.HandleAddWatched | 05-movies-hub/src/App.js:37-39 | The movie is appended to the watched list; the selection, movies, loading flag and error are untouched. |
| MoviesApp.App.HandleRemoveWatched | 05-movies-hub/src/App.js:41-43 | The watched list becomes the remove result; the selection, movies, loading flag and error are untouched. |
| MoviesApp.App.Perform | 05-movies-hub/src/components/MovieDetails.js:42-43 | The details panel's callbacks: adding appends to the watched list, closing clears the selection. Movies, loading flag and error are untouched. |
| MoviesApp.App.AddFromDetails | 05-movies-hub/src/components/MovieDetails.js:31-44 | After "Add to watched", the new record is the last watched entry and the panel is closed. Movies, loading flag and error are untouched. |
| MoviesApp.App.ClickDelete | 05-movies-hub/src/components/WatchedMoviesList.js:17 | The delete button calls the callback prop it names. It succeeds iff the app passes a prop of that name (only `onRemoveWatched`, App.js:128-131), and then the watched list becomes the remove result. Otherwise it throws and nothing changes. |
| MoviesApp.DeleteAsWrittenThrows | 05-movies-hub/src/components/WatchedMoviesList.js:17 | If App renders components/WatchedMoviesList.js, its delete button reads `handleRemoveWatched`, a prop App does not pass: the click throws and the watched list stays. |
| MoviesApp.DeleteRemoves | 05-movies-hub/src/App.js:128-131 | Reading the prop the app passes, the click removes the entry: the list is the remove result and the id is no longer watched. |
| MoviesApp.App.QueryChanged | 05-movies-hub/src/App.js:79-86 | A search is issued iff the query has at least 3 characters. A short query clears movies and error and keeps the selection. Otherwise the open movie is closed, loading starts and the error is cleared. |
| MoviesApp.App.FetchSettled | 05-movies-hub/src/App.js:48-77 | After the request ends, movies and error are as `Settle` says. Loading is off for every outcome, and the watched list and selection are untouched. |
| StarRating.Widget.constructor | 05-movies-hub/src/components/StarRating.js:57-66 | The widget starts at the default rating with nothing hovered. |
| StarRating.Widget.Stars | 05-movies-hub/src/components/StarRating.js:84-94 | There are exactly `maxRating` stars. Star i is full iff i+1 is at most the shown rating, so the full stars form a prefix. |
| StarRating.Widget.Caption | 05-movies-hub/src/components/StarRating.js:96-100 | With one message per star, the caption is the message of the shown rating (nothing when out of range). Otherwise it is the shown rating's number, or nothing when that is 0. |
| StarRating.Widget.HandleRatingAsWritten | 05-movies-hub/src/components/StarRating.js:68-71 | handleRating as written sets the rating. It succeeds and reports the rating iff `setUserRating` was supplied, and fails otherwise. |
| StarRating.Widget.HandleRating | 05-movies-hub/src/components/StarRating.js:68-71 | Corrected handleRating: it sets the rating, and reports it exactly when `setUserRating` was supplied. |
| StarRating.Widget.Click | 05-movies-hub/src/components/StarRating.js:89 | The click with the corrected handler: clicking star i sets the rating to i+1 and reports i+1 when a reporter was supplied. With a reporter (as at the only mount, MovieDetails.js:120-124) this is also the handler as written; the reporter-less path as written is `StarRating.ClickWithoutReporterThrows`. |
| StarRating.Widget.MouseEnter | 05-movies-hub/src/components/StarRating.js:90 | Hovering star i shows rating i+1 without changing the chosen rating. |
| StarRating.Widget.MouseLeave | 05-movies-hub/src/components/StarRating.js:91 | Leaving the stars makes the display fall back to the chosen rating. |
| StarRating.ClickWithoutReporterThrows | 05-movies-hub/src/components/StarRating.js:63-71 | Any mount without `setUserRating`: with the handler as written, clicking star i sets the rating to i+1 and then throws. |
| StarRating.ClickWithoutReporterGuarded | 05-movies-hub/src/components/StarRating.js:63-71 | The same mount with the corrected handler: clicking star i sets the rating to i+1, the caption follows it, and nothing is reported. |
| Steps.Press | 02-steps/src/App.js:13-21 | A press keeps the step within 1..3. Previous at 1 and Next at 3 are no-ops; otherwise the step moves by one. |
| Steps.PressAll | 02-steps/src/App.js:13-21 | Any sequence of presses keeps the step within 1..3. Pressing only Next climbs one per press and stops at 3. |
| Steps.IndicatorActive | 02-steps/src/App.js:35-37 | Indicator k is active iff the wizard has reached step k. |
| Steps.ActiveIndicators | 02-steps/src/App.js:35-37 | In a valid step, exactly the indicators 1..step are lit: the first always, the third only at step 3. |
| Steps.MessageFor | 02-steps/src/App.js:40 | For every step in 1..3, `step - 1` indexes the three-message array. |
| Steps.Wizard.constructor | 02-steps/src/App.js:10-11 | The wizard starts open at step 1. |
| Steps.Wizard.HandlePrevious | 02-steps/src/App.js:13-15 | The step becomes the Previous press result, stays within 1..3 and leaves `isOpen` alone. |
| Steps.Wizard.HandleNext | 02-steps/src/App.js:17-21 | The step becomes the Next press result, stays within 1..3 and leaves `isOpen` alone. |
| Steps.Wizard.ToggleOpen | 02-steps/src/App.js:27 | The close button flips `isOpen` and keeps the step. |
| Steps.ToggleTwice | 02-steps/src/App.js:27 | Toggling twice restores `isOpen` and the step. |
| BlogPosts.Lower | 08-atomic-blog/src/contexts/PostContext.js:20 | Lowering keeps the length and lowers each character. |
| BlogPosts.SearchedPosts | 08-atomic-blog/src/contexts/PostContext.js:16-23 | An empty query yields the posts unchanged. Any query yields an order-preserving subsequence. A post is kept iff the query is empty or the lowered "title body" contains the lowered query, and a kept post keeps all its copies. |
| BlogPosts.SearchIgnoresQueryCase | 08-atomic-blog/src/contexts/PostContext.js:19-21 | The search gives the same posts for a query and for its lowered form. |
| BlogPosts.AddPost | 08-atomic-blog/src/contexts/PostContext.js:25-27 | The new post comes first, followed by the old posts in order. |
| BlogPosts.InitialPosts | 08-atomic-blog/src/contexts/PostContext.js:10-12 | The initial list has 30 posts, each made by the generator, taken as bound (see Left out). |
| BlogPosts.UsePostContext | 08-atomic-blog/src/contexts/PostContext.js:48-55 | Outside a provider it fails with "PostContext was used outside of the PostProvider". Inside one it returns the provider's value. |
| BlogPosts.PostProvider.constructor | 08-atomic-blog/src/contexts/PostContext.js:10-12 | The provider starts with the 30 generated posts, the generator taken as bound (see Left out). |
| BlogPosts.PostProvider.Value | 08-atomic-blog/src/contexts/PostContext.js:35-40 | The provided posts are the searched posts for the current query. |
| BlogPosts.PostProvider.HandleAddPost | 08-atomic-blog/src/contexts/PostContext.js:25-27 | The posts become the add-post result. |
| BlogPosts.PostProvider.HandleClearPosts | 08-atomic-blog/src/contexts/PostContext.js:29-31 | The posts become []. |
| BlogForm.FormAddPost.constructor | 08-atomic-blog/src/components/FormAddPost.js:4-5 | The form starts with an empty title and body. |
| BlogForm.FormAddPost.ChangeTitle | 08-atomic-blog/src/components/FormAddPost.js:21 | Typing in the title field changes only the title. |
| BlogForm.FormAddPost.ChangeBody | 08-atomic-blog/src/components/FormAddPost.js:26 | Typing in the body field changes only the body. |
| BlogForm.FormAddPost.HandleSubmit | 08-atomic-blog/src/components/FormAddPost.js:7-15 | A post is emitted iff both title and body are non-empty. It is exactly `{title, body}`, and both fields reset to "". A rejected submit leaves both fields unchanged. |
| BlogForm.TypeAndSubmit | 08-atomic-blog/src/components/FormAddPost.js:7-15 | Typing a title and a body and submitting posts exactly those. A second submit of the now-empty form posts nothing. |

## Left out

- Network requests (the search and details requests of the movies hub, the currency-conversion request of the bank) are not modelled. Their outcomes are parameters: `FetchOutcome`, `Details`, the converted amount. Cancelling a request with an AbortController, and what happens when a stale request ends after a newer one starts, is event-loop concurrency and is not modelled.
- The effect that fetches a movie's details, the `keydown` listener that closes the details panel on Escape, and the `document.title` effect are DOM and network side effects and are not modelled.
- The Redux library (`createStore`, `combineReducers`, `createSlice`, `applyMiddleware`, `useSelector`, listeners) is library code. `combineReducers` is modelled directly as the two-key `Root`. `createSlice`'s Immer draft is modelled as a class updated in place. Subscriber notification is not modelled. The action creators `createSlice` generates for the slice are library code; the model uses the `BankActions` datatype for them.
- The bank's customer slice files, the Redux Toolkit Query pokédex, store-v2 and the account-operations form are not part of this model.
- Clock, randomness and confirmation are parameters: the `Date.now()` item id, the ISO creation time of a customer, the faker-generated posts, and what `window.confirm` answers.
- Floating point is not modelled. `Math.round(numPacked / numItems * 100)` is exact rational rounding with halves rounded up; it can differ from the floating-point result when the ratio lies a rounding error away from a half.
- `MovieDetails.ParseRuntime`: `Number(text)` is modelled only for empty text and decimal digits. A sign, a fraction, an exponent, hexadecimal or "Infinity" counts as NaN, although JavaScript reads them as numbers. `Number` also trims surrounding whitespace, so a first word such as "148\n" is 148 in JavaScript but NaN here.
- BlogPosts.InitialPosts: assumes the post generator is bound. As written, 08-atomic-blog/src/contexts/PostContext.js:4 imports `{ randomPosts }` by name while 08-atomic-blog/src/utils/randomPosts.js:3 has only a default export, so the lazy initializer at PostContext.js:10-12 would call an undefined binding and throw "randomPosts is not a function" when the provider mounts (or the build reports a missing export). The blog app's own wiring is also unfinished: App.js:1 imports `./PostContext` from the wrong directory and mounts no search provider, which `useSearchContext` requires. The model takes the default import as intended and does not model these failures.
- `Number(e.target.value)` in the DateCounter, the packing form and the bill-split form is assumed to give an integer.
- `localeCompare` is the parameter `descLe`, required to be a total preorder; locale tables are not modelled. `toLowerCase` is ASCII lowering. Query and text lengths count `char`s, not UTF-16 code units.
- PackingSort.SortItems: does not state stability. The stable insertion sort used does keep equal items in input order, as `Array.prototype.sort` does, but no lemma says so.
- PackingSort.SortItems: `sortBy` values other than the four the select offers are not modelled.
- BillSplit.App.HandleSplitBill: requires a selected friend. The split form is mounted only while a friend is selected; with no selection the source would throw on `selectedFriend.id`.
- MovieDetails.NewWatchedMovie: does not model `Number(imdbRating)`, a floating-point conversion; the record keeps the rating's text.
- LoadingAccount.Dispatched: only a successful conversion is modelled. If the currency request rejects or its response has no `rates.INR` (09-mini-bank/src/features/accounts/accountSlice-v1.js:63-77), convertingCurrency has already been dispatched and the deposit never is, so `isLoading` stays true; the network call is not part of this model.
- MoviesApp.App.AddFromDetails: requires a selected id, because the details panel is mounted only while a movie is selected.
- The search context of the atomic blog only holds the query string, which is a parameter of `BlogPosts.PostProvider.Value`. Its own provider check is not modelled.
- JSX layout and the presentation-only components are not modelled. These are the headers, lists, buttons, items, loader, summary, posts, results, clear button and search box. The delete button's prop mismatch is under "## Findings".
- The DateCounter's date display is a `Date` computation and is not modelled.
- StarRating.Widget: colour, size and text styles are presentation and are not modelled.

## Findings

| source | as written | input that shows it | evidently intended | confidence | as-written member | corrected member |
|---|---|---|---|---|---|---|
| 03-travel-check/src/components/Stats.js:4 | "ready to go" is shown when the rounded percentage is 100 | 400 items of which 399 are packed: 99.75% rounds to 100 | "ready to go" only when every item is packed | high (not executed) | PackingStats.ReadyWithItemUnpacked | PackingStats.IntendedMessage |
| 04-bill-split/src/components/FormSplitBill.js:18 | when the friend pays, the value is `-paidByFriend` | bill 100, user's expense 30, friend pays: the user is put 70 in debt | the user owes the friend the user's own expense, `-paidByUser` (-30) | high (not executed) | BillSplitForm.FriendPaysChargesWrongShare | BillSplitForm.SplitValue |
| 05-movies-hub/src/components/StarRating.js:70 | `setUserRating(rating)` is called unconditionally, although the prop has no default | any mount without `setUserRating`: clicking a star throws a TypeError (the only mount of this file, MovieDetails.js:120-124, passes it) | report the rating only when a reporter was passed | low (not executed) | StarRating.ClickWithoutReporterThrows | StarRating.Widget.HandleRating |
| 05-movies-hub/src/components/WatchedMoviesList.js:17 | the list reads and calls the prop `handleRemoveWatched` (lines 3, 40, 47) while 05-movies-hub/src/App.js:128-131 passes `onRemoveWatched` | if App renders components/WatchedMoviesList.js, any click on a watched entry's delete button: the prop is undefined, the call throws a TypeError, and the entry stays. App.js:3-13 imports the list through the barrel 05-movies-hub/src/components/index.js, which re-exports it from a `./Main` that is not part of this model and lacks several names App imports, so which list App renders is not settled | the list reads `onRemoveWatched`, so the click removes the entry | low (not executed) | MoviesApp.DeleteAsWrittenThrows | MoviesApp.DeleteRemoves |
