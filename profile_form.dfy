/**
 * The profile form's change handling: a per-field validator gates the
 * change; an accepted change spreads the one changed key over the current
 * profile, stores that profile and, when advice can be generated from it,
 * stores the advice too.
 */
module ProfileForm {
  import opened Wrappers
  import opened Models
  import MacroAdviceUtil
  import ProfileReducer

  /** An edit of one profile key, with the value typed in. */
  datatype ProfileChange =
    | AgeChange(age: real)
    | GenderChange(gender: Gender)
    | ExerciseDaysChange(days: int)
    | MealsPerDayChange(meals: int)
    | BodyWeightChange(weight: real)
    | BodyHeightChange(height: real)
    | BodyFatChange(fat: real)
    | GoalChange(goal: Goal)

  /** The profile keys. */
  datatype ProfileKey = AgeKey | GenderKey | ExerciseDaysKey | MealsPerDayKey | BodyWeightKey | BodyHeightKey | BodyFatKey | GoalKey

  function KeyOf(change: ProfileChange): ProfileKey
  {
    match change
    case AgeChange(_) => AgeKey
    case GenderChange(_) => GenderKey
    case ExerciseDaysChange(_) => ExerciseDaysKey
    case MealsPerDayChange(_) => MealsPerDayKey
    case BodyWeightChange(_) => BodyWeightKey
    case BodyHeightChange(_) => BodyHeightKey
    case BodyFatChange(_) => BodyFatKey
    case GoalChange(_) => GoalKey
  }

  /** The age validator; its comment speaks of 1 to 99, but 0 passes. */
  function AgeIsValid(value: real): (ok: bool)
    ensures ok <==> 0.0 <= value <= 99.0
  {
    !(value < 0.0 || value > 99.0)
  }

  /** The body weight validator (kilograms). */
  function BodyWeightIsValid(value: real): (ok: bool)
    ensures ok <==> 0.0 <= value <= 999.0
  {
    !(value < 0.0 || value > 999.0)
  }

  /** The body height validator (centimetres). */
  function BodyHeightIsValid(value: real): (ok: bool)
    ensures ok <==> 0.0 <= value <= 999.0
  {
    !(value < 0.0 || value > 999.0)
  }

  /** The body fat validator (percent). */
  function BodyFatIsValid(value: real): (ok: bool)
    ensures ok <==> 0.0 <= value <= 99.0
  {
    !(value < 0.0 || value > 99.0)
  }

  /** The validation map: keys without a validator accept every value. */
  function Accepts(change: ProfileChange): (ok: bool)
    ensures change.GenderChange? || change.ExerciseDaysChange? || change.MealsPerDayChange? || change.GoalChange? ==> ok
  {
    match change
    case AgeChange(v) => AgeIsValid(v)
    case BodyWeightChange(v) => BodyWeightIsValid(v)
    case BodyHeightChange(v) => BodyHeightIsValid(v)
    case BodyFatChange(v) => BodyFatIsValid(v)
    case _ => true
  }

  /** `{[prop]: value}`: a profile carrying only the changed key. */
  function NewProp(change: ProfileChange): UserProfile
  {
    match change
    case AgeChange(v) => EmptyProfile.(age := Some(v))
    case GenderChange(v) => EmptyProfile.(gender := Some(v))
    case ExerciseDaysChange(v) => EmptyProfile.(numOfExerciseDays := Some(v))
    case MealsPerDayChange(v) => EmptyProfile.(numOfMealsInADay := Some(v))
    case BodyWeightChange(v) => EmptyProfile.(bodyWeightInKGS := Some(v))
    case BodyHeightChange(v) => EmptyProfile.(bodyHeightInCMS := Some(v))
    case BodyFatChange(v) => EmptyProfile.(bodyFatInPercentage := Some(v))
    case GoalChange(v) => EmptyProfile.(goal := Some(v))
  }

  /** `{...props, ...newProp}`. */
  function ProfileModel(profile: UserProfile, change: ProfileChange): UserProfile
  {
    ProfileReducer.Merge(profile, NewProp(change))
  }

  /** The two profiles agree on every key other than `key`. */
  predicate SameExcept(p: UserProfile, q: UserProfile, key: ProfileKey)
  {
    (key != AgeKey ==> p.age == q.age) &&
    (key != GenderKey ==> p.gender == q.gender) &&
    (key != ExerciseDaysKey ==> p.numOfExerciseDays == q.numOfExerciseDays) &&
    (key != MealsPerDayKey ==> p.numOfMealsInADay == q.numOfMealsInADay) &&
    (key != BodyWeightKey ==> p.bodyWeightInKGS == q.bodyWeightInKGS) &&
    (key != BodyHeightKey ==> p.bodyHeightInCMS == q.bodyHeightInCMS) &&
    (key != BodyFatKey ==> p.bodyFatInPercentage == q.bodyFatInPercentage) &&
    (key != GoalKey ==> p.goal == q.goal)
  }

  /** The new profile is the old one with the changed key, and only it, set to the value typed in. */
  lemma ProfileModelChangesOneKey(profile: UserProfile, change: ProfileChange)
    ensures SameExcept(profile, ProfileModel(profile, change), KeyOf(change))
    ensures match change
      case AgeChange(v) => ProfileModel(profile, change).age == Some(v)
      case GenderChange(v) => ProfileModel(profile, change).gender == Some(v)
      case ExerciseDaysChange(v) => ProfileModel(profile, change).numOfExerciseDays == Some(v)
      case MealsPerDayChange(v) => ProfileModel(profile, change).numOfMealsInADay == Some(v)
      case BodyWeightChange(v) => ProfileModel(profile, change).bodyWeightInKGS == Some(v)
      case BodyHeightChange(v) => ProfileModel(profile, change).bodyHeightInCMS == Some(v)
      case BodyFatChange(v) => ProfileModel(profile, change).bodyFatInPercentage == Some(v)
      case GoalChange(v) => ProfileModel(profile, change).goal == Some(v)
  {
    ProfileReducer.MergeKeys(profile, NewProp(change));
  }

  /** What a change dispatches: the profile for `setProfile` and the advice for `setMacroAdvice`, each when called. */
  datatype ChangeOutcome = ChangeOutcome(profileUpdate: Option<UserProfile>, adviceUpdate: Option<MacroAdvice>)

  /** `handleChange(prop)(event)`. */
  function HandleChange(profile: UserProfile, change: ProfileChange): (r: ChangeOutcome)
    ensures !Accepts(change) ==> r.profileUpdate.None? && r.adviceUpdate.None?
    ensures Accepts(change) ==> r.profileUpdate == Some(ProfileModel(profile, change))
    ensures Accepts(change) ==> r.adviceUpdate == MacroAdviceUtil.GenerateMacros(ProfileModel(profile, change))
    ensures r.adviceUpdate.Some? ==> r.profileUpdate.Some?
  {
    if !Accepts(change) then
      ChangeOutcome(None, None)
    else
      var profileModel := ProfileModel(profile, change);
      var macroAdviceModel := MacroAdviceUtil.GenerateMacros(profileModel);
      ChangeOutcome(Some(profileModel), macroAdviceModel)
  }

  /**
   * Dispatching the outcome leaves the store holding the new profile: the
   * profile reducer, spreading the whole new profile over the old one,
   * yields exactly it; a rejected change leaves the profile as it was.
   */
  lemma StoredProfile(profile: UserProfile, change: ProfileChange)
    ensures Accepts(change) ==>
      ProfileReducer.Reduce(profile, ProfileReducer.SetProfile(HandleChange(profile, change).profileUpdate)) == ProfileModel(profile, change)
    ensures !Accepts(change) ==>
      ProfileReducer.Reduce(profile, ProfileReducer.SetProfile(HandleChange(profile, change).profileUpdate)) == profile
  {
  }

  /** Advice is stored exactly when the new profile has every key the advice needs. */
  lemma AdviceStoredWhenComplete(profile: UserProfile, change: ProfileChange)
    requires Accepts(change)
    ensures HandleChange(profile, change).adviceUpdate.Some? <==> MacroAdviceUtil.HasRequiredFields(ProfileModel(profile, change))
  {
  }
}
