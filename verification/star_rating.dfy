/** 05-movies-hub/src/components/StarRating.js: the rating widget. Its state is `rating` and
    `tempRating` (the star under the mouse, 0 when none); the props are fixed for the
    widget's life. The `setUserRating` prop is either present, in which case the values it
    receives are recorded, or absent. */
module StarRating {
  import opened Wrappers

  /** The text next to the stars: a message, a number, or nothing. */
  datatype Label = Message(text: string) | Number(n: int) | Blank

  class Widget {
    const maxRating: nat
    const messages: seq<string>
    const hasSetUserRating: bool
    var rating: int
    var tempRating: int
    /** The values passed to `setUserRating`, oldest first. */
    var reported: seq<int>

    constructor (maxRating: nat, messages: seq<string>, defaultRating: int, hasSetUserRating: bool)
      ensures this.maxRating == maxRating && this.messages == messages
      ensures this.hasSetUserRating == hasSetUserRating
      ensures rating == defaultRating && tempRating == 0 && reported == []
    {
      this.maxRating, this.messages, this.hasSetUserRating := maxRating, messages, hasSetUserRating;
      rating, tempRating, reported := defaultRating, 0, [];
    }

    /** The rating on display: the hovered star if any, else the chosen rating. */
    function Shown(): int
      reads this
    {
      if tempRating != 0 then tempRating else rating
    }

    /** The `full` flag of the `maxRating` stars, star i being the one at 0-based index i. */
    function Stars(): (full: seq<bool>)
      reads this
      ensures |full| == maxRating
      ensures forall i :: 0 <= i < maxRating ==> (full[i] <==> i + 1 <= Shown())
      // The full stars form a prefix.
      ensures forall i, j :: 0 <= i <= j < maxRating && full[j] ==> full[i]
    {
      var temp, chosen := tempRating, rating;
      seq(maxRating, i => if temp != 0 then temp >= i + 1 else chosen >= i + 1)
    }

    /** The text shown next to the stars. */
    function Caption(): (l: Label)
      reads this
      ensures |messages| == maxRating && 1 <= Shown() <= |messages| ==> l == Message(messages[Shown() - 1])
      ensures |messages| == maxRating && !(1 <= Shown() <= |messages|) ==> l == Blank
      ensures |messages| != maxRating ==> l == (if Shown() != 0 then Number(Shown()) else Blank)
    {
      if |messages| == maxRating then
        var k := (if tempRating != 0 then tempRating else rating) - 1;
        // Out-of-range indexing yields undefined, which renders nothing.
        if 0 <= k < |messages| then Message(messages[k]) else Blank
      else if tempRating != 0 then Number(tempRating)
      else if rating != 0 then Number(rating)
      else Blank
    }

    /** `handleRating` as written: `setRating(rating)` then `setUserRating(rating)`, which
        throws a TypeError when the prop is absent. */
    method HandleRatingAsWritten(value: int) returns (outcome: Result<(), string>)
      modifies this
      ensures rating == value && tempRating == old(tempRating)
      ensures outcome.Ok? <==> hasSetUserRating
      ensures hasSetUserRating ==> reported == old(reported) + [value]
      ensures !hasSetUserRating ==> reported == old(reported)
    {
      rating := value;
      if !hasSetUserRating {
        return Err("setUserRating is not a function");
      }
      reported := reported + [value];
      outcome := Ok(());
    }

    /** `handleRating` with the report made only when `setUserRating` was supplied: the click
        always succeeds. */
    method HandleRating(value: int)
      modifies this
      ensures rating == value && tempRating == old(tempRating)
      ensures reported == if hasSetUserRating then old(reported) + [value] else old(reported)
    {
      rating := value;
      if hasSetUserRating {
        reported := reported + [value];
      }
    }

    /** Clicking star i (0-based), with the corrected handler. With a reporter supplied it is
        the handler as written; without one, see `ClickWithoutReporterThrows`. */
    method Click(i: nat)
      requires i < maxRating
      modifies this
      ensures rating == i + 1 && tempRating == old(tempRating)
      ensures reported == if hasSetUserRating then old(reported) + [i + 1] else old(reported)
    {
      HandleRating(i + 1);
    }

    /** `onMouseEnter` of star i (0-based). */
    method MouseEnter(i: nat)
      requires i < maxRating
      modifies this
      ensures tempRating == i + 1 && rating == old(rating) && reported == old(reported)
      ensures Shown() == i + 1
    {
      tempRating := i + 1;
    }

    /** `onMouseLeave`: the display falls back to the chosen rating. */
    method MouseLeave()
      modifies this
      ensures tempRating == 0 && rating == old(rating) && reported == old(reported)
      ensures Shown() == rating
    {
      tempRating := 0;
    }
  }

  /** Any mount without `setUserRating`, with the handler as written: the first click on a
      star throws, although the rating was already set. */
  method ClickWithoutReporterThrows(maxRating: nat, messages: seq<string>, defaultRating: int, i: nat)
    returns (outcome: Result<(), string>, rating: int)
    requires i < maxRating
    ensures outcome.Err? && rating == i + 1
  {
    var w := new Widget(maxRating, messages, defaultRating, false);
    outcome := w.HandleRatingAsWritten(i + 1);
    rating := w.rating;
  }

  /** The same mount with the guarded handler: the click sets the rating, the caption follows
      it, and nothing is reported. */
  method ClickWithoutReporterGuarded(maxRating: nat, messages: seq<string>, defaultRating: int, i: nat)
    returns (rating: int, caption: Label, reported: seq<int>)
    requires i < maxRating
    ensures rating == i + 1 && reported == []
    ensures |messages| == maxRating ==> caption == Message(messages[i])
    ensures |messages| != maxRating ==> caption == Number(i + 1)
  {
    var w := new Widget(maxRating, messages, defaultRating, false);
    w.Click(i);
    rating, caption, reported := w.rating, w.Caption(), w.reported;
  }
}
