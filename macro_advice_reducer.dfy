/**
 * The macro advice's reducer: SET_MACRO_ADVICE spreads the payload over
 * the state. Advice records always carry all four keys, so a non-null
 * payload replaces the state; a null payload spreads nothing.
 */
module MacroAdviceReducer {
  import opened Wrappers
  import opened Models

  /** SET_MACRO_ADVICE with its payload (null is `None`), and any other action the store dispatches. */
  datatype MacroAdviceAction = SetMacroAdvice(payload: Option<MacroAdvice>) | OtherMacroAdviceAction

  /** `{...state, ...payload}`: every key is the payload's, as it carries them all. */
  function Merge(state: MacroAdvice, payload: MacroAdvice): (r: MacroAdvice)
    ensures r == payload
  {
    state.(bmrCalories := payload.bmrCalories, totalCalories := payload.totalCalories,
           currentCalories := payload.currentCalories, macros := payload.macros)
  }

  /** `macroAdviceReducer`. */
  function Reduce(state: MacroAdvice, action: MacroAdviceAction): (r: MacroAdvice)
    ensures action.SetMacroAdvice? && action.payload.Some? ==> r == action.payload.value
    ensures action.SetMacroAdvice? && action.payload.None? ==> r == state
    ensures action.OtherMacroAdviceAction? ==> r == state
  {
    match action
    case SetMacroAdvice(Some(payload)) => Merge(state, payload)
    case SetMacroAdvice(None) => state
    case OtherMacroAdviceAction => state
  }

  /** Dispatching the same action twice is the same as dispatching it once. */
  lemma ReduceIdempotent(state: MacroAdvice, action: MacroAdviceAction)
    ensures Reduce(Reduce(state, action), action) == Reduce(state, action)
  {
  }
}
