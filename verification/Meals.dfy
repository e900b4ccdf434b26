/**
 * The planner's data: the meal catalog (`REFEICOES_COM_DETALHES`), and the
 * week of selections (`st.session_state.selecoes`), a dictionary from day to
 * category to a cell `{"meal": ..., "people": ...}` whose keys may be missing.
 */
module Meals {
  import opened Wrappers

  /** One `{"name", "quantity", "unit"}` record of a catalog meal. Every
      quantity in the catalog is an integer literal. */
  datatype Ingredient = Ingredient(name: string, quantity: int, unit: string)

  /** A catalog entry: `{"calories": ..., "ingredients": [...]}`. */
  datatype MealDetails = MealDetails(calories: nat, ingredients: seq<Ingredient>)

  /** Meal name to its details; the static catalog is a parameter of the model. */
  type Catalog = map<string, MealDetails>

  /** One (day, category) selection; `None` stands for a missing key. */
  datatype Cell = Cell(meal: Option<string>, people: Option<int>)

  /** Day to category to cell. */
  type Selections = map<string, map<string, Cell>>

  /** The "no meal" sentinel shown first in every selectbox. */
  const NoMeal: string := "Nenhuma"

  /** The seven days, Monday first (`DIAS_SEMANA`). */
  const DiasSemana: seq<string> := ["Segunda", "Terça", "Quarta", "Quinta", "Sexta", "Sábado", "Domingo"]

  /** `selecoes.get(dia, {}).get(categoria, {})`: a missing day or category
      reads as a cell with no keys at all. */
  function Lookup(sel: Selections, day: string, category: string): Cell {
    if day in sel && category in sel[day] then sel[day][category] else Cell(None, None)
  }

  /** `selecao.get('people', 1)`. */
  function People(cell: Cell): int {
    cell.people.GetOr(1)
  }

  /** The meal a cell asks for, if any: `refeicao_selecionada and
      refeicao_selecionada != "Nenhuma"` (a missing or empty name, and the
      sentinel, select nothing). */
  function SelectedMeal(cell: Cell): (r: Option<string>)
    ensures r.Some? <==> cell.meal.Some? && cell.meal.value != "" && cell.meal.value != NoMeal
    ensures r.Some? ==> r == cell.meal
  {
    match cell.meal
    case Some(m) => if m != "" && m != NoMeal then Some(m) else None
    case None => None
  }
}
