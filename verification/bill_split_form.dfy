/** 04-bill-split/src/components/FormSplitBill.js: the bill, the user's own expense, who
    paid, and the value handed to `onSplitBill` (added to the selected friend's balance).
    The `Number(e.target.value)` inputs are taken to be integers. */
module BillSplitForm {
  import opened Wrappers

  datatype Payer = User | FriendPays

  /** `paidByFriend = bill - paidByUser`: the friend's own expense. */
  function PaidByFriend(bill: int, paidByUser: int): (r: int)
    ensures r + paidByUser == bill
    ensures 0 <= paidByUser <= bill ==> 0 <= r <= bill
  {
    bill - paidByUser
  }

  /** What the user paid out of pocket for the bill. */
  function UserOutlay(bill: int, who: Payer): int {
    if who == User then bill else 0
  }

  /** `handleSubmit` as written: `whoIsPaying === "user" ? paidByFriend : -paidByFriend`, and
      nothing when the bill or the user's expense is 0. */
  function SplitValueAsWritten(bill: int, paidByUser: int, who: Payer): (r: Option<int>)
    ensures r.None? <==> bill == 0 || paidByUser == 0
    ensures r.Some? && who == User ==> r.value == PaidByFriend(bill, paidByUser)
    ensures r.Some? && who == FriendPays ==> r.value == -PaidByFriend(bill, paidByUser)
  {
    if bill == 0 || paidByUser == 0 then None
    else if who == User then Some(PaidByFriend(bill, paidByUser))
    else Some(-PaidByFriend(bill, paidByUser))
  }

  /** When the friend pays, the as-written value charges the user the friend's expense: a
      bill of 100 of which the user's expense is 30 puts the user 70 in debt, not 30. */
  lemma FriendPaysChargesWrongShare()
    ensures SplitValueAsWritten(100, 30, FriendPays) == Some(-70)
    ensures SplitValueAsWritten(100, 30, FriendPays) != Some(UserOutlay(100, FriendPays) - 30)
  {
  }

  /** `handleSubmit` with the friend-pays branch emitting `-paidByUser`: the balance moves by
      what the user paid out minus what the user consumed: the corrected form. */
  function SplitValue(bill: int, paidByUser: int, who: Payer): (r: Option<int>)
    ensures r.None? <==> bill == 0 || paidByUser == 0
    ensures r.Some? ==> r.value == UserOutlay(bill, who) - paidByUser
    // The user paying makes the friend owe their own expense; the friend paying makes the
    // user owe theirs.
    ensures r.Some? && who == User ==> r.value == PaidByFriend(bill, paidByUser)
    ensures r.Some? && who == FriendPays ==> r.value == -paidByUser
    // With expenses within the bill the friend never ends up owing when the friend paid, nor
    // the user when the user paid.
    ensures r.Some? && 0 <= paidByUser <= bill ==> (who == User <==> r.value >= 0)
  {
    if bill == 0 || paidByUser == 0 then None
    else if who == User then Some(PaidByFriend(bill, paidByUser))
    else Some(-paidByUser)
  }

  /** The two versions agree whenever the user pays, and when the friend pays exactly when the
      bill is split evenly. */
  lemma VersionsAgree(bill: int, paidByUser: int, who: Payer)
    ensures who == User ==> SplitValueAsWritten(bill, paidByUser, who) == SplitValue(bill, paidByUser, who)
    ensures who == FriendPays && bill != 0 && paidByUser != 0 ==>
      (SplitValueAsWritten(bill, paidByUser, who) == SplitValue(bill, paidByUser, who) <==> bill == 2 * paidByUser)
  {
  }
}
