# Meal planner shopping-list engine

A Dafny model of the engine behind the Streamlit meal planner: its
versao2.py, versao3.py and versao4.py versions. The weekly plan maps each day
and meal category to a selected meal and a number of people. From it the
planner builds a shopping list:

- each ingredient's quantity is multiplied by the people and summed under the
  ingredient's stripped name;
- the last unit seen for a name is kept;
- the list is shown as sorted checkbox lines and as PDF lines.

Meals are offered in a selectbox whose labels carry a calorie annotation
(`format_label`), and the annotation is removed again when the choice is read
back (`parse_label`). At session start the base category lists are merged
with the user's custom meals. The earlier versao2.py exports the whole plan
as a plain-text report.

Two policies separate the versions. versao3.py turns a selected meal that is
missing from the catalog into a synthetic `"<meal> (custom)"` item. versao4.py
drops that fallback and filters out every ingredient whose lowercased name or
unit contains one of the terms in `SHOPPING_LIST_EXCLUSIONS`. Both policies
are one specification, `Aggregation.Aggregate`, with the policy as a
parameter. The generating loops of each version are imperative methods
proved equal to it. Totals, keys, units, linearity and independence from the
order of the days are proved about the specification.

Modules:

- `Wrappers`: `Option`.
- `Text`: Python's `strip`, `lower`, `upper`, substring test, `c * n` and
  `str(int)`.
- `Sorting`: Python's string order, `sorted`, the sorted keys of a dictionary.
- `Meals`: the catalog, cells, selections and `get` defaults.
- `LabelCodec`: `format_label` and `parse_label`.
- `CategoryMerge`: the session-start merge.
- `Ledger`: the `defaultdict` of totals and the dictionary of units.
- `Aggregation`: the list the button computes, and its laws.
- `ShoppingView`: the checkbox and PDF lines.
- `Selectbox`: the options and the initial index.
- `PlannerV3` and `PlannerV4`: the button and list panel of each version.
- `PlanReport`: versao2.py's `gerar_relatorio_txt`.

Some behaviour of the code worth stating outright:

- For a name outside the catalog, `parse_label(format_label(m)) == m` does
  not always hold. It holds exactly when `m` does not itself end with
  something shaped like a calorie annotation (`LabelCodec.OtherLabelRoundTrip`).
- Exclusion terms are not lowercased. Only the ingredient's name and unit
  are. A term written with a capital letter would match nothing.
- A missing cell is not created on first access when the list is built. It
  reads as "no meal, one person" (`selecoes.get(dia, {}).get(categoria, {})`).
  An empty meal name also selects nothing.
- The versao2.py report is 68 entries, each followed by a newline. The slot
  texts and the notes come from multi-line text areas, so an entry may hold
  newlines of its own: the text then has more than 68 lines, and every later
  entry starts further down.

## Model

| member | source | states |
|---|---|---|
| Text.StripLaws | versao4.py:293 | `strip()` keeps a slice of its input that has only whitespace (Python's `isspace` set) around it and that neither starts nor ends with whitespace |
| Text.LowerLaws | versao4.py:290-291 | after `lower()` no ASCII or Latin-1 capital is left; each capital became its small letter, other characters are unchanged, and lowering twice is lowering once |
| Text.UpperLaws | versao2.py:75 | after `upper()` no small letter with a one-letter Latin-1 capital is left; each became its capital, other characters are unchanged, and raising twice is raising once |
| Text.ContainsMeans | versao4.py:292 | `term in text` holds exactly when `term` occurs at some position of `text` |
| Text.MissingCharNotContained | versao4.py:292 | a text lacking one of the characters of a term does not contain the term |
| Text.NatToStringRoundTrip | versao4.py:206 | the decimal rendering of the calories reads back as the same number |
| Text.IntToStringRoundTrip | versao4.py:378 | `f"{int(quantidade)}"` is plain integer text with no decimal point and reads back as the total |
| Sorting.LessTransitive | versao4.py:376 | Python's string order is transitive |
| Sorting.LessTotal | versao4.py:376 | any two strings are equal or ordered one way |
| Sorting.SortStrings | versao4.py:326 | `sorted(opcoes)` holds the same names, as a multiset, in non-decreasing order |
| Sorting.InsertSorted | versao4.py:326 | inserting into a sorted list keeps it sorted |
| Sorting.SortedKeys | versao4.py:376 | `sorted(ingredientes.items())` visits every key once, in strictly increasing order |
| Sorting.StrictlySortedUnique | versao4.py:376 | only one strictly increasing sequence holds a given set of keys |
| LabelCodec.FormatLabel | versao4.py:202-207 | a catalog meal's label is the name followed by a calorie annotation; any other name is its own label |
| LabelCodec.FormatLabelCalories | versao4.py:206 | the number in a catalog meal's label is the decimal rendering of that meal's calories, with no leading zero, between ` (~` and ` kcal)` |
| LabelCodec.AnnotationLength | versao4.py:211 | the suffix the pattern `\s\(~\d+\s+kcal\)$` matches is an annotation, or there is none |
| LabelCodec.ParseLabel | versao4.py:209-211 | `parse_label` returns a prefix of its input and removes only an annotation |
| LabelCodec.ParseLabelStrips | versao4.py:211 | whatever precedes an annotation is exactly what `parse_label` keeps |
| LabelCodec.CatalogLabelRoundTrip | versao4.py:202-211 | `parse_label(format_label(m)) == m` for every catalog meal |
| LabelCodec.OtherLabelRoundTrip | versao3.py:196-205 | for a name outside the catalog, the round trip holds exactly when the name does not end with an annotation |
| CategoryMerge.AppendNewLaws | versao4.py:254-256 | appending new dishes keeps the list as a prefix, adds exactly the missing ones, and each appended dish was new |
| CategoryMerge.AppendNewNoDuplicates | versao4.py:254-256 | a list without duplicates stays without duplicates |
| CategoryMerge.MergeKeys | versao4.py:252-253 | custom categories the base does not know are ignored |
| CategoryMerge.MergeLaws | versao3.py:212-220 | each merged category starts with its base list and holds exactly its base dishes and the custom dishes filed under it |
| CategoryMerge.MergeNoDuplicates | versao4.py:250-257 | the merge introduces no duplicate dish |
| CategoryMerge.MergeCategories | versao4.py:250-257 | the session-start loop computes the merge, with the base's categories and each base list as a prefix |
| Ledger.AccumulateKeys | versao4.py:294-295 | totals and units always have the same keys: exactly the keys added |
| Ledger.AccumulateTotal | versao4.py:294 | each total is the sum of all the amounts added under its key |
| Ledger.AccumulateUnit | versao4.py:295 | each unit is the unit of the last entry added under its key |
| Ledger.SumForPermutation | versao4.py:294 | totals do not depend on the order in which the entries are added |
| Aggregation.IsExcludedMeans | versao4.py:290-292 | an ingredient is excluded exactly when some term occurs in its lowercased name or lowercased unit |
| Aggregation.ExcludedByName | versao4.py:292 | a term found in the lowercased name excludes the ingredient |
| Aggregation.RiceExcluded | versao4.py:185 | "Arroz integral" is filtered out by "arroz" although it is capitalised |
| Aggregation.BeansExcluded | versao4.py:185 | "Feijão (RU)" is filtered out by "feijão" |
| Aggregation.SweetenerExcluded | versao4.py:185 | an ingredient measured in "pitada" is filtered out by its unit |
| Aggregation.EggKept | versao4.py:185 | eggs counted in "unidades" match no term and stay on the list |
| Aggregation.CatalogCell | versao4.py:285-288 | a selected catalog meal contributes its ingredients for the cell's people |
| Aggregation.UncataloguedCell | versao3.py:255-258 | under versao3.py, a selected meal missing from the catalog contributes one `"<meal> (custom)"` entry of `people` `unidade(s)` |
| Aggregation.UnselectedCell | versao3.py:248 | a cell without a selected meal contributes nothing |
| Aggregation.NoCatalogCell | versao4.py:285-287 | under versao4.py, a cell without a selected catalog meal contributes nothing |
| Aggregation.IngredientLinearity | versao4.py:294 | a meal for `p` people contributes `p` times each quantity |
| Aggregation.CellTotal | versao3.py:250-258 | what a cell adds to a name is its closed-form amount |
| Aggregation.DayTotal | versao4.py:280 | a day adds the sum of its cells' amounts |
| Aggregation.WeekTotal | versao4.py:279 | the week adds the sum of its days' amounts |
| Aggregation.AggregateTotal | versao4.py:275-297 | each total on the list is the sum over every day and category of people times the selected meal's quantity, plus the custom fallback's people under versao3.py |
| Aggregation.SameMealTwoDays | versao4.py:279-294 | the same meal on two days for `p1` and `p2` people gives `(p1 + p2)` times its quantity |
| Aggregation.WeekAmountPermutation | versao4.py:279 | any permutation of the days gives the same amount |
| Aggregation.DayOrderIrrelevant | versao4.py:279 | permuting the days changes no total |
| Aggregation.AggregateKeys | versao3.py:238-260 | a name is on the list exactly when some day and category select a meal that puts it there, and every name has a unit |
| Aggregation.ExcludedNeverListed | versao4.py:292-295 | under the exclusion filter every listed name is the stripped name of an ingredient no term matches |
| Aggregation.AggregateUnit | versao4.py:295 | each unit is the unit of the last contribution to its name, in day, category, ingredient order |
| Aggregation.NothingSelected | versao4.py:285 | when no cell selects a meal the list is empty, under either policy |
| Aggregation.UncataloguedIgnored | versao4.py:286-287 | under versao4.py, meals missing from the catalog contribute nothing |
| Aggregation.CustomTotal | versao3.py:255-257 | the custom item of an uncatalogued meal totals the people of every cell that selects it |
| ShoppingView.CheckboxLabelsAt | versao4.py:376-379 | label `i` shows the total and unit of item `i` |
| ShoppingView.PdfLinesAt | versao4.py:234-238 | PDF line `i` shows the total and unit of item `i` |
| ShoppingView.ChecklistFromLabels | versao4.py:376-380 | labels built item by item in list order are the list's checklist |
| ShoppingView.PdfLinesFromLines | versao4.py:234-239 | lines built item by item in list order are the list's PDF lines |
| ShoppingView.ListOrderUnique | versao4.py:376 | the order of the lines is determined by the list |
| ShoppingView.ListOrderDistinct | versao4.py:376 | no item is listed twice |
| ShoppingView.WordOf | versao4.py:378-379 | the word after a prefix and before a space is recovered from the line |
| ShoppingView.CheckboxQuantity | versao4.py:378-379 | a checkbox label's first word after `**` reads back as the total, with no decimal point |
| ShoppingView.PdfQuantity | versao4.py:236-238 | a PDF line's word after the box reads back as the total |
| Selectbox.FirstIndex | versao4.py:329 | `list.index(x)` is the first position holding `x` |
| Selectbox.SelectIndexValid | versao3.py:288-291 | the initial index is a valid option, the first one equal to the current label, or "Nenhuma" when there is none |
| Selectbox.ListedMealOffered | versao4.py:326 | every meal of the category is offered as its label |
| Selectbox.OfferedMealListed | versao4.py:326 | every option after "Nenhuma" is the label of a meal of the category |
| Selectbox.SelectionSurvivesRerun | versao4.py:326-338 | a listed meal that is in the catalog, or has no annotation of its own, reads back unchanged from its initial option |
| Selectbox.EmptyCellStartsAtNoMeal | versao4.py:328-329 | a cell with no meal starts at "Nenhuma" and writes "Nenhuma" back |
| PlannerV3.AddMealIngredients | versao3.py:251-254 | the ingredient loop adds each ingredient's `quantity * people` under its stripped name |
| PlannerV3.GenerateShoppingList | versao3.py:238-260 | the button's loops compute the versao3.py aggregate; totals and units have the same keys |
| PlannerV3.UnitLookupSafe | versao3.py:329 | every listed item has a unit, so `unidades[item]` cannot fail on a generated list |
| PlannerV3.ChecklistLabels | versao3.py:328-337 | one label per item, in ascending order, each with its own total and unit |
| PlannerV3.ShoppingPanel | versao3.py:322-339 | a prompt before generation, "Nenhuma refeição selecionada." for an empty list, the checklist otherwise |
| PlannerV4.AddMealIngredients | versao4.py:288-295 | the ingredient loop adds each ingredient no term excludes and skips the rest |
| PlannerV4.GenerateShoppingList | versao4.py:275-297 | the button's loops compute the versao4.py aggregate; totals and units have the same keys |
| PlannerV4.ChecklistLabels | versao4.py:376-380 | one label per item, in ascending order, the unit defaulting to `unidade(s)` |
| PlannerV4.PdfItemLines | versao4.py:234-239 | the PDF item lines, in the same order and form |
| PlannerV4.ShoppingPanel | versao4.py:370-380 | a prompt before generation, the empty-list notice, the checklist otherwise |
| PlanReport.MealRowsAt | versao2.py:77-80 | row `r` of a day is the row of meal slot `r` |
| PlanReport.RenderReport | versao2.py:70-85 | the report text is its 68 entries, each followed by a newline |
| PlanReport.DayBlockShape | versao2.py:74-81 | a day block is the upper-cased day, 20 dashes, six slot rows and a blank entry |
| PlanReport.DayBlocksLength | versao2.py:74 | the day blocks take nine entries per day |
| PlanReport.DayBlocksAt | versao2.py:74-81 | entry `k` of day `d`'s block is entry `9d + k` of the blocks |
| PlanReport.ReportFrame | versao2.py:72-84 | 68 entries: the title with the generation time, 50 `=`, a blank entry, and the notes heading and the notes or "Nenhuma" |
| PlanReport.ReportDayLines | versao2.py:74-81 | day `d` opens at entry `3 + 9d` with its name in upper case and 20 dashes, and ends with a blank entry |
| PlanReport.ReportMealLine | versao2.py:77-80 | slot `r` of day `d` is entry `3 + 9d + 2 + r` with its text or "Não preenchido" |
| PlanReport.DayBlocksDependOnlyOnLookups | versao2.py:74-81 | day blocks depend only on the looked-up slot texts |
| PlanReport.ReportDependsOnlyOnLookups | versao2.py:70-85 | plans that agree on the seven days' six slots and the notes give the same report |

## Left out

- The Streamlit UI is left out: widgets, toasts, the expanders, the water tracker, the custom-meal form and the day highlighted by `weekday()`. The panel is modelled as the value it shows.
- JSON persistence (`carregar_dados`, `salvar_dados`) is left out. The selections and the custom-meal store are parameters, and malformed files are not modelled.
- FPDF's page, fonts, title and date lines are left out. Only the item lines of `generate_pdf_list` are modelled.
- The clock is left out: `datetime.now()` in the report header is the parameter `generatedAt`, already formatted.
- Quantities are integers, as in every catalog literal and in the people count. The `float` accumulator and the two-decimal branch of the quantity formatting (`f"{quantidade:.2f}".replace('.00', '')`) are not modelled, because no integer total reaches that branch.
- `lower()` and `upper()` map ASCII and Latin-1 letters only. Other scripts are not modelled. Three Latin-1 small letters have no Latin-1 capital and are left unchanged by `Upper`: `µ` (Python gives U+039C), `ÿ` (Python gives U+0178) and `ß` (Python gives "SS").
- `\d` is modelled as ASCII digits only. Python's `$` also matches before a final newline; a label ending in an annotation followed by `\n` is not modelled.
- The static catalog `REFEICOES_COM_DETALHES` and `REFEICOES_BASE` are parameters, not constants.
- The unused `refeicao_limpa` in `gerar_relatorio_txt` has no effect and is not modelled.
- A non-integer `people` value read from JSON is not modelled; people are integers.
- PlannerV3.ShoppingPanel: requires that every listed item has a unit. The source would raise `KeyError` otherwise, which cannot happen for a list the button produced (`PlannerV3.UnitLookupSafe`).
- The versao3.py heading "Marque os itens que for comprando:" shown above the checklist is not part of the modelled panel, which holds only the items and their labels.
