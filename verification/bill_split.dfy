/** 04-bill-split/src/App.js: the friends list with balances, the selected friend and the
    visibility of the add-friend form. A positive balance means the friend owes the user, a
    negative one that the user owes the friend. */
module BillSplit {
  import opened Wrappers

  datatype Friend = Friend(id: int, name: string, image: string, balance: int)

  /** `friends.map((friend) => friend.id === id ? { ...friend, balance: friend.balance + value } : friend)`. */
  function SplitBill(friends: seq<Friend>, id: int, value: int): (r: seq<Friend>)
    ensures |r| == |friends|
    ensures forall i :: 0 <= i < |friends| ==>
      && r[i].id == friends[i].id && r[i].name == friends[i].name && r[i].image == friends[i].image
      && r[i].balance == friends[i].balance + (if friends[i].id == id then value else 0)
  {
    if friends == [] then []
    else
      var f := friends[0];
      [if f.id == id then f.(balance := f.balance + value) else f] + SplitBill(friends[1..], id, value)
  }

  /** Sum of all balances: what the friends owe the user in total. */
  function TotalBalance(friends: seq<Friend>): int {
    if friends == [] then 0 else friends[0].balance + TotalBalance(friends[1..])
  }

  /** Number of friends with the given id. */
  function CountId(friends: seq<Friend>, id: int): nat {
    if friends == [] then 0 else (if friends[0].id == id then 1 else 0) + CountId(friends[1..], id)
  }

  /** A split moves the total by `value` once per friend carrying the selected id: once, when
      ids are unique. */
  lemma {:induction false} SplitMovesTotal(friends: seq<Friend>, id: int, value: int)
    ensures TotalBalance(SplitBill(friends, id, value)) == TotalBalance(friends) + value * CountId(friends, id)
  {
    if friends != [] {
      SplitMovesTotal(friends[1..], id, value);
      var r := SplitBill(friends, id, value);
      assert r[1..] == SplitBill(friends[1..], id, value);
    }
  }

  /** `selectedFriend?.id === friend.id ? null : friend`. */
  function ToggleSelection(selected: Option<Friend>, friend: Friend): (r: Option<Friend>)
    ensures selected.Some? && selected.value.id == friend.id ==> r == None
    ensures !(selected.Some? && selected.value.id == friend.id) ==> r == Some(friend)
  {
    if selected.Some? && selected.value.id == friend.id then None else Some(friend)
  }

  /** Selecting the same friend twice from no selection ends with no selection. */
  lemma SelectTwiceDeselects(friend: Friend)
    ensures ToggleSelection(ToggleSelection(None, friend), friend) == None
  {
  }

  /** The state of the app component and its handlers. */
  class App {
    var friends: seq<Friend>
    var showAddFriend: bool
    var selectedFriend: Option<Friend>

    constructor (initialFriends: seq<Friend>)
      ensures friends == initialFriends && !showAddFriend && selectedFriend == None
    {
      friends, showAddFriend, selectedFriend := initialFriends, false, None;
    }

    /** `handleAddFriend`: appends and hides the form. */
    method HandleAddFriend(newFriend: Friend)
      modifies this
      ensures friends == old(friends) + [newFriend] && !showAddFriend
      ensures selectedFriend == old(selectedFriend)
    {
      friends := friends + [newFriend];
      showAddFriend := false;
    }

    /** `handleShowAddFriend`: flips the form's visibility. */
    method HandleShowAddFriend()
      modifies this
      ensures showAddFriend == !old(showAddFriend)
      ensures friends == old(friends) && selectedFriend == old(selectedFriend)
    {
      showAddFriend := !showAddFriend;
    }

    /** `handleSelection`: toggles the selection and hides the add-friend form. */
    method HandleSelection(friend: Friend)
      modifies this
      ensures selectedFriend == ToggleSelection(old(selectedFriend), friend)
      ensures !showAddFriend && friends == old(friends)
    {
      selectedFriend := ToggleSelection(selectedFriend, friend);
      showAddFriend := false;
    }

    /** `handleSplitBill`: adds `value` to the selected friend's balance and clears the
        selection. Only the split form calls it, and that form is shown only while a friend
        is selected, so `selectedFriend` is not null here. */
    method HandleSplitBill(value: int)
      requires selectedFriend.Some?
      modifies this
      ensures friends == SplitBill(old(friends), old(selectedFriend).value.id, value)
      ensures selectedFriend == None && showAddFriend == old(showAddFriend)
    {
      friends := SplitBill(friends, selectedFriend.value.id, value);
      selectedFriend := None;
    }
  }
}
