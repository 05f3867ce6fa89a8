/** 02-steps/src/App.js: a three-step wizard with a close button. */
module Steps {

  const Messages: seq<string> := ["Learn React ⚛️", "Apply for jobs 💼", "Invest your new income 🤑"]

  datatype Command = Previous | Next

  /** The step after a button press: `step > 1` guards Previous, `step < 3` guards Next. */
  function Press(step: int, c: Command): (r: int)
    ensures 1 <= step <= 3 ==> 1 <= r <= 3
    ensures c == Previous && step <= 1 ==> r == step
    ensures c == Next && step >= 3 ==> r == step
    ensures c == Previous && step > 1 ==> r == step - 1
    ensures c == Next && step < 3 ==> r == step + 1
  {
    match c
    case Previous => if step > 1 then step - 1 else step
    case Next => if step < 3 then step + 1 else step
  }

  /** The step after a sequence of presses. */
  function PressAll(step: int, cs: seq<Command>): (r: int)
    ensures 1 <= step <= 3 ==> 1 <= r <= 3
    // Pressing only Next climbs one step per press and stops at 3.
    ensures 1 <= step <= 3 && (forall i :: 0 <= i < |cs| ==> cs[i] == Next) ==>
      r == if step + |cs| <= 3 then step + |cs| else 3
    decreases |cs|
  {
    if cs == [] then step else PressAll(Press(step, cs[0]), cs[1..])
  }

  /** Indicator k (1 to 3) is active iff the wizard has reached step k. */
  function IndicatorActive(step: int, k: int): (active: bool)
    requires 1 <= k <= 3
    ensures active <==> k <= step
  {
    step >= k
  }

  /** A wizard in a valid step lights exactly the indicators 1..step: the first always, the
      last only at the final step. */
  lemma ActiveIndicators(step: int)
    requires 1 <= step <= 3
    ensures (set k | 1 <= k <= 3 && IndicatorActive(step, k))
      == if step == 1 then {1} else if step == 2 then {1, 2} else {1, 2, 3}
    ensures |set k | 1 <= k <= 3 && IndicatorActive(step, k)| == step
    ensures IndicatorActive(step, 1)
    ensures IndicatorActive(step, 3) <==> step == 3
  {
  }

  /** `messages[step - 1]`: defined for every reachable step. */
  function MessageFor(step: int): (m: string)
    requires 1 <= step <= 3
    ensures 0 <= step - 1 < |Messages| && m == Messages[step - 1]
  {
    Messages[step - 1]
  }

  class Wizard {
    var step: int
    var isOpen: bool

    /** The step is one of the three. */
    predicate Valid()
      reads this
    {
      1 <= step <= 3
    }

    constructor ()
      ensures Valid() && step == 1 && isOpen
    {
      step, isOpen := 1, true;
    }

    /** `handlePrevious`. */
    method HandlePrevious()
      modifies this
      ensures step == Press(old(step), Previous) && isOpen == old(isOpen)
      ensures old(Valid()) ==> Valid()
    {
      if step > 1 {
        step := step - 1;
      }
    }

    /** `handleNext`. */
    method HandleNext()
      modifies this
      ensures step == Press(old(step), Next) && isOpen == old(isOpen)
      ensures old(Valid()) ==> Valid()
    {
      if step < 3 {
        step := step + 1;
      }
    }

    /** The close button: `setIsOpen((prevValue) => !prevValue)`. */
    method ToggleOpen()
      modifies this
      ensures isOpen == !old(isOpen) && step == old(step)
    {
      isOpen := !isOpen;
    }
  }

  /** Closing and reopening restores the view. */
  method ToggleTwice(w: Wizard)
    modifies w
    ensures w.isOpen == old(w.isOpen) && w.step == old(w.step)
  {
    w.ToggleOpen();
    w.ToggleOpen();
  }
}
