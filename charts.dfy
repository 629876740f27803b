/**
 * The dashboard's callback (pokemon_dv/app.py, update_charts): reload the
 * table, select the rows of the chosen type, find the best of them and
 * describe the two bar charts drawn from the selection.
 */
module Charts {
  import opened Wrappers
  import opened Dataset
  import opened Selection
  import opened Lex

  /** The structural arguments of one bar chart: its rows, axis columns, colour column and title. */
  datatype ChartSpec = ChartSpec(data: seq<Row>, y: string, x: string, color: string, title: string)

  /** The type selected when the page first loads. */
  const InitialType: string := "Bug"

  /** The chart of the selected rows coloured by generation. */
  function GenerationChart(f: seq<Row>, c: Criterion): (chart: ChartSpec)
    ensures chart.data == f
    ensures forall r: Record :: Field(r, chart.y) == Some(StrCell(r.name))
    ensures forall r: Record :: Field(r, chart.x) == Some(IntCell(Value(r, c)))
    ensures forall r: Record :: Field(r, chart.color) == Some(IntCell(r.generation))
  {
    ChartSpec(f, "name", CriterionName(c), "generation", "Six Generations of pokemons")
  }

  /** The chart of the selected rows coloured by the legendary flag. */
  function LegendaryChart(f: seq<Row>, c: Criterion): (chart: ChartSpec)
    ensures chart.data == f
    ensures forall r: Record :: Field(r, chart.y) == Some(StrCell(r.name))
    ensures forall r: Record :: Field(r, chart.x) == Some(IntCell(Value(r, c)))
    ensures forall r: Record :: Field(r, chart.color) == Some(BoolCell(r.legendary))
  {
    ChartSpec(f, "name", CriterionName(c), "legendary", "Legendary/Non-legendary pokemons ")
  }

  /** The two figures the callback returns, generation chart first. */
  datatype Figures = Figures(generation: ChartSpec, legendary: ChartSpec)

  /**
   * One run of the callback for the selected type and criterion, where
   * `load` is the outcome of this run's database read. The best row is
   * computed before either chart, so a selection without rows fails the
   * whole run.
   */
  function UpdateCharts(load: Option<seq<Record>>, type1: string, c: Criterion): (r: Result<Figures, SelectionError>)
    ensures r.Failure? <==> !HasType(GetDataframe(load), type1)
    ensures r.Success? ==>
      && r.value.generation.data == r.value.legendary.data
      && r.value.generation.y == r.value.legendary.y == "name"
      && r.value.generation.x == r.value.legendary.x == CriterionName(c)
      && r.value.generation.color == "generation"
      && r.value.legendary.color == "legendary"
  {
    var df := GetDataframe(load);
    var filtered := Filter(df, type1);
    BestFailsIff(df, type1, c);
    match BestPokemon(filtered, c)
    case Failure(e) => Failure(e)
    case Success(_) => Success(Figures(GenerationChart(filtered, c), LegendaryChart(filtered, c)))
  }

  /**
   * Both charts show exactly the rows of the selected type, in table order
   * with their labels.
   */
  lemma ChartsShowSelection(load: Option<seq<Record>>, type1: string, c: Criterion)
    requires HasType(GetDataframe(load), type1)
    ensures UpdateCharts(load, type1, c).Success?
    ensures var rows := UpdateCharts(load, type1, c).value.generation.data;
      && (forall k :: 0 <= k < |rows| ==>
            rows[k].indexLabel < |GetDataframe(load)| && GetDataframe(load)[rows[k].indexLabel] == rows[k].record &&
            rows[k].record.type1 == type1)
      && LabelsAscending(rows)
      && (forall i :: 0 <= i < |GetDataframe(load)| && GetDataframe(load)[i].type1 == type1 ==> HasLabel(rows, i))
  {
    var df := GetDataframe(load);
    FilterSound(df, type1);
    FilterAscending(df, type1);
    FilterComplete(df, type1);
  }

  /**
   * The two charts differ in nothing but colour column and title, and
   * every column they bind is a column of the table.
   */
  lemma ChartsDifferOnlyInColour(load: Option<seq<Record>>, type1: string, c: Criterion)
    requires HasType(GetDataframe(load), type1)
    ensures UpdateCharts(load, type1, c).Success?
    ensures var figs := UpdateCharts(load, type1, c).value;
      && figs.generation.(color := figs.legendary.color, title := figs.legendary.title) == figs.legendary
      && figs.generation.title != figs.legendary.title
      && figs.generation.color in Columns && figs.legendary.color in Columns
      && figs.generation.y in Columns && figs.generation.x in Columns
  {
    ParseCriterionName(c);
  }

  /** A type taken from the dropdown built on the same table never fails. */
  lemma OptionNeverFails(load: Option<seq<Record>>, type1: string, c: Criterion)
    requires type1 in TypeOptions(GetDataframe(load))
    ensures UpdateCharts(load, type1, c).Success?
  {
  }

  /** The first render of the page fails on the fallback table: it has no Bug row. */
  lemma InitialSelectionFailsOnFallback()
    ensures UpdateCharts(None, InitialType, InitialCriterion) == Failure(EmptySelection)
    ensures InitialType !in TypeOptions(DefaultDf())
  {
    DefaultDfShape();
  }

  /**
   * The dropdown is built once from the table read at start-up; a later
   * read may not have its types. Here the start-up read fails and a later
   * read yields an empty table, so the offered type Fire selects nothing.
   */
  lemma StaleOptionCanFail()
    ensures "Fire" in TypeOptions(GetDataframe(None))
    ensures UpdateCharts(Some([]), "Fire", Hp).Failure?
  {
    DefaultDfShape();
    assert GetDataframe(None)[4].type1 == "Fire";
  }

  /** The type dropdown on the fallback table offers Fire, then Grass. */
  lemma FallbackTypeOptions()
    ensures TypeOptions(DefaultDf()) == ["Fire", "Grass"]
  {
    DefaultDfShape();
    assert LexLess("Fire", "Grass");
    assert DefaultDf()[0].type1 == "Grass" && DefaultDf()[4].type1 == "Fire";
    TypeOptionsCanonical(DefaultDf(), ["Fire", "Grass"]);
  }

  /** On the fallback table, Grass selects labels 0 to 3 and Fire selects label 4. */
  lemma FallbackSelections()
    ensures Filter(DefaultDf(), "Grass") ==
      [Row(0, DefaultDf()[0]), Row(1, DefaultDf()[1]), Row(2, DefaultDf()[2]), Row(3, DefaultDf()[3])]
    ensures Filter(DefaultDf(), "Fire") == [Row(4, DefaultDf()[4])]
  {
    var df := DefaultDf();
    assert df[..4][..3] == df[..3];
    assert df[..3][..2] == df[..2];
    assert df[..2][..1] == df[..1];
    assert df[..1][..0] == [];
    assert Filter(df[..1], "Grass") == [Row(0, df[0])];
    assert Filter(df[..2], "Grass") == [Row(0, df[0]), Row(1, df[1])];
    assert Filter(df[..3], "Grass") == [Row(0, df[0]), Row(1, df[1]), Row(2, df[2])];
    assert Filter(df[..4], "Grass") == [Row(0, df[0]), Row(1, df[1]), Row(2, df[2]), Row(3, df[3])];
    assert Filter(df[..1], "Fire") == [];
    assert Filter(df[..2], "Fire") == [];
    assert Filter(df[..3], "Fire") == [];
    assert Filter(df[..4], "Fire") == [];
  }

  /**
   * Fallback table, type Grass, criterion overall_score: the best row is
   * label 3, VenusaurMega Venusaur, with score 816.
   */
  lemma FallbackGrassOverallScore()
    ensures BestPokemon(Filter(DefaultDf(), "Grass"), OverallScore) == Success(3)
    ensures DefaultDf()[3].name == "VenusaurMega Venusaur" && DefaultDf()[3].overallScore == 816
  {
    FallbackSelections();
    var f := Filter(DefaultDf(), "Grass");
    assert Value(f[3].record, OverallScore) == 816;
    assert forall k :: 0 <= k < 3 ==> Value(f[k].record, OverallScore) < 816;
  }

  /** Fallback table, type Fire, criterion hp: the only row, Charmander (label 4, hp 39), is best. */
  lemma FallbackFireHp()
    ensures BestPokemon(Filter(DefaultDf(), "Fire"), Hp) == Success(4)
    ensures DefaultDf()[4].name == "Charmander" && DefaultDf()[4].hp == 39
  {
    FallbackSelections();
  }

  /** Fallback table, type Water: no row matches and the callback fails. */
  lemma FallbackWaterFails()
    ensures UpdateCharts(None, "Water", OverallScore) == Failure(EmptySelection)
  {
    DefaultDfShape();
  }
}
