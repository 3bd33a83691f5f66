/**
 * The records both applications store and plan with. `Recipe`, the days
 * and the meal slots follow the recipe application's type declarations;
 * `Adventure` and the ride slots are those the touring application reads
 * and writes (its own declarations are not part of this model).
 */
module Types {
  import opened Wrappers

  /** Provenance of an item; nothing in the core branches on it. */
  datatype SourceType = Manual | AiImported

  datatype Recipe = Recipe(
    id: string,
    title: string,
    description: string,
    imageUrl: string,
    sourceType: SourceType,
    ingredients: seq<string>,
    instructions: seq<string>,
    prepTime: Option<int>,
    cookTime: Option<int>,
    servings: Option<int>,
    tags: seq<string>,
    rating: int)

  function RecipeId(r: Recipe): string { r.id }

  /** The three difficulty labels: 'Lehká', 'Střední', 'Expert'. */
  datatype Difficulty = Easy | Medium | Expert

  datatype Adventure = Adventure(
    id: string,
    title: string,
    description: string,
    imageUrl: string,
    sourceType: SourceType,
    waypoints: seq<string>,
    briefingSteps: seq<string>,
    distanceKm: int,
    durationHours: int,
    difficulty: Difficulty,
    tags: seq<string>,
    rating: int)

  function AdventureId(a: Adventure): string { a.id }

  datatype Day = Monday | Tuesday | Wednesday | Thursday | Friday | Saturday | Sunday

  /** Slots of the weekly meal plan. */
  datatype Meal = Lunch | Dinner

  /** Slots of the weekly tour plan. */
  datatype RideType = Short | Long

  /**
   * A sparse week plan: a day may be missing, a slot of a present day may be
   * missing, and a present slot holds `null` (`None`) or an id string.
   */
  type Plan<S> = map<Day, map<S, Option<string>>>

  type WeeklyPlan = Plan<Meal>

  type TourPlan = Plan<RideType>
}
