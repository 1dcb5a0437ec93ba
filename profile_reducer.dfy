/**
 * The profile's reducer: SET_PROFILE spreads the payload over the state,
 * so every key the payload carries wins and every other key is kept; a
 * null payload spreads nothing.
 */
module ProfileReducer {
  import opened Wrappers
  import opened Models

  /** SET_PROFILE with its payload (null is `None`), and any other action the store dispatches. */
  datatype ProfileAction = SetProfile(payload: Option<UserProfile>) | OtherProfileAction

  /** One key of `{...state, ...payload}`: the payload's value when it carries the key. */
  function Spread<T>(state: Option<T>, payload: Option<T>): (r: Option<T>)
    ensures payload.Some? ==> r == payload
    ensures payload.None? ==> r == state
  {
    if payload.Some? then payload else state
  }

  /** `{...state, ...payload}` on a profile, key by key. */
  function Merge(state: UserProfile, payload: UserProfile): UserProfile
  {
    UserProfile(
      Spread(state.age, payload.age),
      Spread(state.gender, payload.gender),
      Spread(state.numOfExerciseDays, payload.numOfExerciseDays),
      Spread(state.numOfMealsInADay, payload.numOfMealsInADay),
      Spread(state.bodyWeightInKGS, payload.bodyWeightInKGS),
      Spread(state.bodyHeightInCMS, payload.bodyHeightInCMS),
      Spread(state.bodyFatInPercentage, payload.bodyFatInPercentage),
      Spread(state.goal, payload.goal))
  }

  /** `profileReducer`. */
  function Reduce(state: UserProfile, action: ProfileAction): (r: UserProfile)
    ensures action.SetProfile? && action.payload.Some? ==> r == Merge(state, action.payload.value)
    ensures action.SetProfile? && action.payload.None? ==> r == state
    ensures action.OtherProfileAction? ==> r == state
  {
    match action
    case SetProfile(Some(payload)) => Merge(state, payload)
    case SetProfile(None) => state
    case OtherProfileAction => state
  }

  /**
   * The keys the payload carries take its values and the others keep the
   * state's: a payload carrying every key replaces the profile outright,
   * and one carrying none leaves it as it was.
   */
  lemma MergeKeys(state: UserProfile, payload: UserProfile)
    ensures payload.age.Some? ==> Merge(state, payload).age == payload.age
    ensures payload.age.None? ==> Merge(state, payload).age == state.age
    ensures payload.gender.Some? ==> Merge(state, payload).gender == payload.gender
    ensures payload.gender.None? ==> Merge(state, payload).gender == state.gender
    ensures payload.numOfExerciseDays.Some? ==> Merge(state, payload).numOfExerciseDays == payload.numOfExerciseDays
    ensures payload.numOfExerciseDays.None? ==> Merge(state, payload).numOfExerciseDays == state.numOfExerciseDays
    ensures payload.numOfMealsInADay.Some? ==> Merge(state, payload).numOfMealsInADay == payload.numOfMealsInADay
    ensures payload.numOfMealsInADay.None? ==> Merge(state, payload).numOfMealsInADay == state.numOfMealsInADay
    ensures payload.bodyWeightInKGS.Some? ==> Merge(state, payload).bodyWeightInKGS == payload.bodyWeightInKGS
    ensures payload.bodyWeightInKGS.None? ==> Merge(state, payload).bodyWeightInKGS == state.bodyWeightInKGS
    ensures payload.bodyHeightInCMS.Some? ==> Merge(state, payload).bodyHeightInCMS == payload.bodyHeightInCMS
    ensures payload.bodyHeightInCMS.None? ==> Merge(state, payload).bodyHeightInCMS == state.bodyHeightInCMS
    ensures payload.bodyFatInPercentage.Some? ==> Merge(state, payload).bodyFatInPercentage == payload.bodyFatInPercentage
    ensures payload.bodyFatInPercentage.None? ==> Merge(state, payload).bodyFatInPercentage == state.bodyFatInPercentage
    ensures payload.goal.Some? ==> Merge(state, payload).goal == payload.goal
    ensures payload.goal.None? ==> Merge(state, payload).goal == state.goal
  {
  }

  /** A payload carrying no key leaves the profile unchanged. */
  lemma EmptyPayloadUnchanged(state: UserProfile)
    ensures Reduce(state, SetProfile(Some(EmptyProfile))) == state
  {
  }

  /** Dispatching the same action twice is the same as dispatching it once. */
  lemma ReduceIdempotent(state: UserProfile, action: ProfileAction)
    ensures Reduce(Reduce(state, action), action) == Reduce(state, action)
  {
  }
}
