# Pokemon dashboard row selection, modelled in Dafny

This project models the data logic behind the Pokemon Analytics dashboard
(`pokemon_dv/app.py`). The dashboard reads a table of creatures from a
database. If nothing can be read, it uses a fixed table of five rows
instead. The user picks a primary type and a ranking criterion. The
callback keeps the rows of that type, finds the best of them by that
criterion, and describes two bar charts of the kept rows. One chart is
coloured by generation and the other by the legendary flag.

The files, one module each:

- `wrappers.dfy` (`Wrappers`): `Option` and `Result`.
- `lex.dfy` (`Lex`): the string order used to sort the type dropdown. It is
  Python's `str` `<`, which compares code points one by one and puts a
  proper prefix first. The module proves this order irreflexive,
  transitive and total. It defines insertion into a strictly ascending
  list and proves that a set of strings has only one strictly ascending
  arrangement.
- `dataset.dfy` (`Dataset`): the 17-column `Record` and access to cells by
  column name. It also holds the seven ranking criteria, the fallback
  table `DefaultDf`, and `GetDataframe`, which picks between the loaded
  table and the fallback.
- `selection.dfy` (`Selection`): the type dropdown's values, the type
  filter (rows keep their index labels), pandas `idxmax` with its
  first-occurrence tie-break, `.loc`, and `best_pokemon`.
- `charts.dfy` (`Charts`): `ChartSpec`, the callback `UpdateCharts`, and
  the concrete fallback-table scenarios.

Modelling decisions:

- The database read is an input `load: Option<seq<Record>>`. `None` means
  that `engine.connect` or `pd.read_sql` raised an exception, which the
  source swallows.
- A table built by `pd.DataFrame(lst, ...)` or `pd.read_sql` has the
  default index, so each row's label is its position. The `index` column
  is an ordinary column and does not set the label. `Filter` returns every
  row as a `Row(indexLabel, record)`. `best_pokemon` is
  `filtered_df.loc[...].name`. On a row, `.name` is its index label and not
  its `name` column, so `BestPokemon` returns a label.
- `idxmax` on an empty selection raises an error. The model gives
  `Failure(EmptySelection)` instead. `UpdateCharts` fails exactly when no
  row has the selected type. The page's first selection is type "Bug",
  and the fallback table has no Bug row, so that first render fails.
- The criterion is one of seven constructors. `ParseCriterion` reads a
  dropdown value back into a criterion, and `CriterionName` is its
  inverse.

Three consequences of the code:

- Only a failure of `engine.connect` or `pd.read_sql` (`app.py` lines
  33-34) leaves the frame unset and brings in the fallback table. A read
  that succeeds with no rows returns an empty table unchanged.
- The criteria dropdown lists seven columns: `overall_score`, `hp`,
  `attack`, `defense`, `special_attack`, `special_defense` and `speed`.
- On the fallback table, the best Grass row by `overall_score` is label 3,
  "VenusaurMega Venusaur", with `overall_score` 816.

## Model

| member | source | states |
|---|---|---|
| `Lex.LexLess` | pokemon_dv/app.py:114 | Python's `str` `<`, which `np.sort` applies: a string is never below itself. `LexLessIrreflexive`, `LexLessTransitive` and `LexLessTotal` prove it a strict total order. |
| `Lex.Insert` | pokemon_dv/app.py:114 | Adding a type to a strictly ascending list keeps it strictly ascending (so no duplicates). Its elements become the old ones plus the new type. |
| `Lex.StrictlySortedUnique` | pokemon_dv/app.py:114 | Two strictly ascending lists with the same elements are equal, so the sorted distinct list of a set of types is unique. |
| `Dataset.Field` | pokemon_dv/app.py:50-54 | A record has a cell for a column name exactly when the name is one of the 17 listed columns. |
| `Dataset.CriterionName` | pokemon_dv/app.py:129-137 | Every criterion's name is one of the seven dropdown options and a table column. `ParseCriterion` is its inverse. |
| `Dataset.ParseCriterion` | pokemon_dv/app.py:127-139 | A dropdown value names a criterion exactly when it is one of the seven listed options, and the criterion read back has that name. |
| `Dataset.ParseCriterionName` | pokemon_dv/app.py:129-137 | Every criterion's name is a dropdown option, and it reads back as the same criterion. |
| `Dataset.Value` | pokemon_dv/app.py:187 | A record's criterion value is the integer cell in the column the criterion names. |
| `Dataset.CriteriaAreNumericColumns` | pokemon_dv/app.py:129-139 | The seven options are distinct columns of the table, each holding an integer. The first option is the initial selection `overall_score`. |
| `Dataset.DefaultDf` | pokemon_dv/app.py:42-55 | The fallback table has five rows, each of type Grass or Fire, generation 1 and not legendary. `DefaultDfShape` gives the order and the types. |
| `Dataset.DefaultDfShape` | pokemon_dv/app.py:43-54 | The fallback table has five records in the listed order (Bulbasaur, Ivysaur, Venusaur, VenusaurMega Venusaur, Charmander). The first four are Grass, the last is Fire, and none is Bug. |
| `Dataset.GetDataframe` | pokemon_dv/app.py:31-39 | A loaded table is returned unchanged. The fallback table is returned only when the read produced nothing. |
| `Dataset.FallbackOnlyWhenNothingLoaded` | pokemon_dv/app.py:31-39 | An empty result comes only from an empty loaded table, which is returned as it is. A failed read gives the five-row fallback. |
| `Selection.TypeOptions` | pokemon_dv/app.py:112-115 | The type dropdown's values are strictly ascending. A type is among them exactly when some row has it as `type_1`. |
| `Selection.TypeOptionsCanonical` | pokemon_dv/app.py:114 | Every strictly ascending list of exactly the table's types equals the dropdown's values. |
| `Selection.TypeOptionsDistinct` | pokemon_dv/app.py:114 | No type appears twice among the dropdown's values. |
| `Selection.Filter` | pokemon_dv/app.py:186 | The selection has no more rows than the table. |
| `Selection.FilterSound` | pokemon_dv/app.py:186 | Every selected row has the selected type and is the table's row at its label. |
| `Selection.FilterAscending` | pokemon_dv/app.py:186 | Selected rows keep table order: their labels strictly increase, so the selection is a subsequence. |
| `Selection.FilterComplete` | pokemon_dv/app.py:186 | Every row of the selected type is selected under its own label. |
| `Selection.FilterEmptyIff` | pokemon_dv/app.py:186 | The selection is empty exactly when no row has the selected type. |
| `Selection.OptionSelectsRows` | pokemon_dv/app.py:112-116 | A type taken from the dropdown built on the same table selects at least one row. |
| `Selection.ArgMax` | pokemon_dv/app.py:187 | For a non-empty selection, it gives a position whose criterion value is at least every row's, and every earlier row's value is strictly smaller (first occurrence of the maximum). |
| `Selection.IdxMax` | pokemon_dv/app.py:187 | `idxmax` fails exactly on an empty selection. Otherwise it gives the label of the first row with the largest criterion value. |
| `Selection.Loc` | pokemon_dv/app.py:187 | `.loc[l]` finds the row carrying label `l`, where labels are unique in a filtered frame: no earlier row carries it. It returns nothing exactly when no row carries `l`. |
| `Selection.LocFindsRow` | pokemon_dv/app.py:187 | When labels ascend, looking up a row's label finds exactly that row. |
| `Selection.BestPokemon` | pokemon_dv/app.py:187 | `best_pokemon`, the `.name` of the row `.loc` finds at the `idxmax` label, is that label itself. |
| `Selection.BestFailsIff` | pokemon_dv/app.py:186-187 | On the selected rows, finding the best fails exactly when no row of the table has the selected type. |
| `Selection.BestOfSelection` | pokemon_dv/app.py:186-187 | When the best exists, it is the label of the first row, in table order, of the selected type with the largest criterion value among that type's rows. |
| `Selection.ArgMaxIsFirstBest` | pokemon_dv/app.py:186-187 | A first maximum among the selected rows is a first maximum among the table's rows of the selected type. |
| `Charts.GenerationChart` | pokemon_dv/app.py:190-203 | The chart draws the given rows. For every record, y reads its `name`, x its criterion value and the colour its `generation`. |
| `Charts.LegendaryChart` | pokemon_dv/app.py:205-220 | The chart draws the given rows. For every record, y reads its `name`, x its criterion value and the colour its `legendary` flag. |
| `Charts.UpdateCharts` | pokemon_dv/app.py:183-212 | The callback fails exactly when the table it reloads has no row of the selected type. Otherwise both charts show the same rows, put `name` on y and the criterion on x, and colour by `generation` and `legendary`. |
| `Charts.ChartsShowSelection` | pokemon_dv/app.py:186-191 | Both charts show exactly the rows of the selected type, in table order with their labels. |
| `Charts.ChartsDifferOnlyInColour` | pokemon_dv/app.py:190-212 | The two charts differ only in colour column and title. Every column they bind is a table column. |
| `Charts.OptionNeverFails` | pokemon_dv/app.py:112-116 | A type offered by the dropdown built on the same table never makes the callback fail. |
| `Charts.InitialSelectionFailsOnFallback` | pokemon_dv/app.py:116 | On the fallback table, the initial selection (Bug, `overall_score`) fails with an empty selection. Bug is not offered. |
| `Charts.StaleOptionCanFail` | pokemon_dv/app.py:114 | The dropdown is built once, at start-up. A type it offers, Fire from the fallback, can fail if a later read gives another table. |
| `Charts.FallbackTypeOptions` | pokemon_dv/app.py:114 | On the fallback table, the type dropdown offers Fire, then Grass. |
| `Charts.FallbackSelections` | pokemon_dv/app.py:186 | On the fallback table, Grass selects labels 0 to 3 and Fire selects label 4, each with its record. |
| `Charts.FallbackGrassOverallScore` | pokemon_dv/app.py:187 | On the fallback table, Grass by `overall_score` gives label 3, VenusaurMega Venusaur, score 816. |
| `Charts.FallbackFireHp` | pokemon_dv/app.py:187 | On the fallback table, Fire by `hp` gives label 4, Charmander, hp 39. |
| `Charts.FallbackWaterFails` | pokemon_dv/app.py:186-187 | On the fallback table, Water selects no rows and the callback fails. |

## Left out

- Database access: reading the environment variables, building the connection string, `sa.create_engine`, `engine.connect` and `pd.read_sql`. These are I/O and foreign calls. Only the outcome of `engine.connect` and `pd.read_sql` (`app.py` lines 33-34) is the input `load`.
- GetDataframe: an exception from `sa.create_engine` (`app.py` line 30) is not modelled. It is raised before the `try`, so it escapes `get_dataframe`, the fallback is not used, and at start-up the layout is never built. A URL the parser rejects could cause this. With `DB_PORT` unset, for example, the URL's port is the text `None`.
- The broad `except Exception: pass`. It only means the read produced nothing, which `load == None` already stands for.
- `run_query`: it iterates a result set and prints rows, which is pure I/O.
- The Dash application, the layout tree, callback registration and `run_server` with `threaded=True`. These are UI, HTTP and concurrency.
- Plotly figure construction and styling: template, height, text sizes, `uniformtext_mode` and transitions. `ChartSpec` keeps only the rows, the axes, the colour column and the title.
- The `print` calls of `filtered_df.head()` and `best_pokemon`. The printed label is still modelled, by `BestPokemon`.
- The dropdown entries `{"label": t, "value": t}`. `TypeOptions` models the list of values; each entry's label equals its value.
- Tables whose columns differ from the 17-column schema, or that hold missing values. A loaded table is taken to be a `seq<Record>`.
- Dropdown values outside the seven criteria. A value that names another numeric column, such as `total`, `generation` or `base_stats`, would be ranked by without error. A value that names no column raises a key error. `ParseCriterion` returns `None` for every such value.
- Repeated calls: every operation is a function, so two calls with the same inputs give the same charts.
