/** 03-travel-check/src/components/Form.js: the add-item form with its two fields. */
module PackingForm {
  import opened Wrappers
  import opened PackingItems

  /** `Array.from({ length: 10 }, (_, i) => i + 1)`: the quantities the select offers. */
  function QuantityOptions(): (r: seq<int>)
    ensures |r| == 10
    ensures forall q :: q in r <==> 1 <= q <= 10
    ensures forall i :: 0 < i < |r| ==> r[i - 1] < r[i]
  {
    var r := seq(10, i => i + 1);
    forall q | 1 <= q <= 10
      ensures q in r
    {
      assert r[q - 1] == q;
    }
    r
  }

  /** `disabled={!description}`. */
  function SubmitDisabled(description: string): (b: bool)
    ensures b <==> |description| == 0
  {
    description == ""
  }

  /** The form's state: the `quantity` and `description` fields. */
  class Form {
    var quantity: int
    var description: string

    constructor ()
      ensures quantity == 1 && description == ""
    {
      quantity, description := 1, "";
    }

    /** `handleSubmit`: with an empty description nothing is emitted and nothing changes;
        otherwise the new item (whose id, `Date.now()` in the source, is `now`) is handed to
        `onAddItems` and both fields are reset. */
    method HandleSubmit(now: int) returns (newItem: Option<Item>)
      modifies this
      ensures old(description) == "" ==> newItem == None && quantity == old(quantity) && description == ""
      ensures old(description) != "" ==>
        && newItem == Some(Item(now, old(description), old(quantity), false))
        && quantity == 1 && description == ""
    {
      if description == "" {
        return None;
      }
      newItem := Some(Item(now, description, quantity, false));
      quantity := 1;
      description := "";
    }
  }
}
