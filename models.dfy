/**
 * The records of the nutrition tracker (profile, macro advice, meal, food
 * log and its breakdown summary, meal suggestion) and the enumerations
 * they use. Every number of the source is a `real`; optional profile
 * fields are `Option`s, `None` standing for an absent or `undefined` key.
 */
module Models {
  import opened Wrappers

  /**
   * The enumerations of the source carry, besides their members, one
   * constructor for any other value that reaches the code at run time
   * (the source branches on the members and falls through to a default).
   */
  datatype Gender = Male | Female | OtherGender

  datatype Goal = WeightLoss | WeightGain | OtherGoal

  datatype MacroType = Protein | Carbohydrates | Fats | OtherMacroType

  /** Grams of each macro nutrient. */
  datatype MacroBreakdown = MacroBreakdown(protein: real, carbohydrates: real, fats: real)

  const NoMacros := MacroBreakdown(0.0, 0.0, 0.0)

  datatype MacroAdvice = MacroAdvice(
    bmrCalories: real,
    totalCalories: real,
    currentCalories: real,
    macros: MacroBreakdown)

  datatype UserProfile = UserProfile(
    age: Option<real>,
    gender: Option<Gender>,
    numOfExerciseDays: Option<int>,
    numOfMealsInADay: Option<int>,
    bodyWeightInKGS: Option<real>,
    bodyHeightInCMS: Option<real>,
    bodyFatInPercentage: Option<real>,
    goal: Option<Goal>)

  /** A profile with no key set. */
  const EmptyProfile := UserProfile(None, None, None, None, None, None, None, None)

  datatype Meal = Meal(id: string, name: string, macros: MacroBreakdown, calories: real)

  function MealId(meal: Meal): string
  {
    meal.id
  }

  datatype CaloriesBreakdown = CaloriesBreakdown(
    totalCalories: real,
    proteinCalories: real,
    carbohydratesCalories: real,
    fatsCalories: real)

  const NoCalories := CaloriesBreakdown(0.0, 0.0, 0.0, 0.0)

  datatype FoodLogBreakdownSummary = FoodLogBreakdownSummary(
    macroBreakdown: MacroBreakdown,
    macroDeficitBreakdown: MacroBreakdown,
    macroSuggestedBreakdown: MacroBreakdown,
    caloriesBreakdown: CaloriesBreakdown,
    caloriesDeficitBreakdown: CaloriesBreakdown,
    caloriesSuggestedBreakdown: CaloriesBreakdown)

  datatype FoodLog = FoodLog(
    id: string,
    date: string,
    meals: seq<Meal>,
    breakdownSummary: FoodLogBreakdownSummary)

  function FoodLogId(log: FoodLog): string
  {
    log.id
  }

  datatype SortOrder = Asc | Desc

  /** The fields a meal list can be sorted by. */
  datatype MealSortField = NameField | CaloriesField | ProteinField | CarbohydratesField | FatsField

  datatype MealSortModel = MealSortModel(sortProperty: MealSortField, sortOrder: SortOrder)

  datatype MealSuggestion = MealSuggestion(meals: seq<Meal>, totalCalories: real)
}
