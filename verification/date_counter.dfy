/** 07-react-quiz/src/DateCounter.js: the count/step reducer used with `useReducer`. */
module DateCounter {
  import opened Wrappers

  datatype Counter = Counter(count: int, step: int)

  /** `initialState`. */
  const Initial: Counter := Counter(0, 1)

  /** The dispatched actions; `Unknown(kind)` is an action whose type no case matches.
      `Number(e.target.value)` is taken to give an integer. */
  datatype CounterAction = Dec | Inc | SetCount(setCount: int) | SetStep(setStep: int) | Reset | Unknown(kind: string)
  {
    /** `action.type`. */
    function Type(): string
    {
      match this
      case Dec => "dec"
      case Inc => "inc"
      case SetCount(_) => "set_count"
      case SetStep(_) => "set_step"
      case Reset => "reset"
      case Unknown(kind) => kind
    }
  }

  /** The types the reducer's switch has a case for. */
  const Types: set<string> := {"dec", "inc", "set_count", "set_step", "reset"}

  /** An `Unknown` action really has a type no case matches. */
  predicate WellFormed(a: CounterAction)
  {
    a.Unknown? ==> a.kind !in Types
  }

  /** The action `{type: kind, ...}` with `value` as its payload, whatever string the type is. */
  function FromType(kind: string, value: int): (a: CounterAction)
    ensures WellFormed(a) && a.Type() == kind
    ensures a.Unknown? <==> kind !in Types
    ensures a.SetCount? ==> a.setCount == value
    ensures a.SetStep? ==> a.setStep == value
  {
    if kind == "dec" then Dec
    else if kind == "inc" then Inc
    else if kind == "set_count" then SetCount(value)
    else if kind == "set_step" then SetStep(value)
    else if kind == "reset" then Reset
    else Unknown(kind)
  }

  /** `reducer(state, action)`; the thrown `Error` becomes `Err` with its message. */
  function Reduce(s: Counter, a: CounterAction): (r: Result<Counter, string>)
    // Only an unknown action fails, and it fails naming its type.
    ensures r.Err? <==> a.Unknown?
    ensures a.Unknown? ==> r.error == "Unknown action: " + a.kind
    // For a well-formed action, the switch's own test: it throws iff no case has its type.
    ensures WellFormed(a) ==> (r.Err? <==> a.Type() !in Types)
    // The step changes only through set_step and reset.
    ensures r.Ok? && !a.SetStep? && !a.Reset? ==> r.value.step == s.step
    // Counting moves the count by exactly one step.
    ensures a.Inc? ==> r.Ok? && r.value.count - s.count == s.step
    ensures a.Dec? ==> r.Ok? && s.count - r.value.count == s.step
    ensures a.Reset? ==> r == Ok(Initial)
  {
    match a
    case Dec => Ok(s.(count := s.count - s.step))
    case Inc => Ok(s.(count := s.count + s.step))
    case SetCount(c) => Ok(s.(count := c))
    case SetStep(st) => Ok(s.(step := st))
    case Reset => Ok(Initial)
    case Unknown(kind) => Err("Unknown action: " + kind)
  }

  /** inc then dec, and dec then inc, restore the state. */
  lemma IncDecInverse(s: Counter)
    ensures Reduce(s, Inc).Ok? && Reduce(Reduce(s, Inc).value, Dec) == Ok(s)
    ensures Reduce(s, Dec).Ok? && Reduce(Reduce(s, Dec).value, Inc) == Ok(s)
  {
  }

  /** set_count replaces only the count; set_step replaces only the step. */
  lemma SettersFrame(s: Counter, c: int, st: int)
    ensures Reduce(s, SetCount(c)) == Ok(Counter(c, s.step))
    ensures Reduce(s, SetStep(st)) == Ok(Counter(s.count, st))
  {
  }

  /** Reset gives `{count: 0, step: 1}` from any state. */
  lemma ResetFromAnyState(s: Counter)
    ensures Reduce(s, Reset) == Ok(Counter(0, 1))
  {
  }

  /** Dispatching any type string: it throws, naming the type, iff the switch has no case for it. */
  lemma DispatchByType(s: Counter, kind: string, value: int)
    ensures Reduce(s, FromType(kind, value)).Err? <==> kind !in Types
    ensures kind !in Types ==> Reduce(s, FromType(kind, value)) == Err("Unknown action: " + kind)
  {
  }
}
