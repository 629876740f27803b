/**
 * The creature table the dashboard shows: its 17-column schema, the seven
 * ranking criteria, the fixed fallback table and the choice between a loaded
 * table and that fallback (pokemon_dv/app.py, get_dataframe and default_df).
 */
module Dataset {
  import opened Wrappers

  /** One row of the table, one field per column, in column order. */
  datatype Record = Record(
    index: int,
    name: string,
    type1: string,
    type2: string,
    total: int,
    hp: int,
    attack: int,
    defense: int,
    specialAttack: int,
    specialDefense: int,
    speed: int,
    generation: int,
    legendary: bool,
    baseStats: int,
    offStats: int,
    defStats: int,
    overallScore: int)

  /** The value held in one cell of the table. */
  datatype Cell = IntCell(n: int) | StrCell(s: string) | BoolCell(b: bool)

  /** The column names of the table, in order. */
  const Columns: seq<string> := [
    "index", "name", "type_1", "type_2", "total", "hp", "attack", "defense",
    "special_attack", "special_defense", "speed", "generation", "legendary",
    "base_stats", "off_stats", "def_stats", "overall_score"]

  /** Column access by name, `record[column]`; None for a column the table does not have. */
  function Field(r: Record, column: string): (c: Option<Cell>)
    ensures c.Some? <==> column in Columns
  {
    if column == "index" then Some(IntCell(r.index))
    else if column == "name" then Some(StrCell(r.name))
    else if column == "type_1" then Some(StrCell(r.type1))
    else if column == "type_2" then Some(StrCell(r.type2))
    else if column == "total" then Some(IntCell(r.total))
    else if column == "hp" then Some(IntCell(r.hp))
    else if column == "attack" then Some(IntCell(r.attack))
    else if column == "defense" then Some(IntCell(r.defense))
    else if column == "special_attack" then Some(IntCell(r.specialAttack))
    else if column == "special_defense" then Some(IntCell(r.specialDefense))
    else if column == "speed" then Some(IntCell(r.speed))
    else if column == "generation" then Some(IntCell(r.generation))
    else if column == "legendary" then Some(BoolCell(r.legendary))
    else if column == "base_stats" then Some(IntCell(r.baseStats))
    else if column == "off_stats" then Some(IntCell(r.offStats))
    else if column == "def_stats" then Some(IntCell(r.defStats))
    else if column == "overall_score" then Some(IntCell(r.overallScore))
    else None
  }

  /** The seven columns a user may rank by. */
  datatype Criterion =
    OverallScore | Hp | Attack | Defense | SpecialAttack | SpecialDefense | Speed

  /** The options of the criteria dropdown, in the order they are listed. */
  const CriteriaOptions: seq<string> := [
    "overall_score", "hp", "attack", "defense",
    "special_attack", "special_defense", "speed"]

  /** The criterion selected when the page first loads. */
  const InitialCriterion: Criterion := OverallScore

  /** The column name a criterion stands for. */
  function CriterionName(c: Criterion): (name: string)
    ensures name in CriteriaOptions && name in Columns
  {
    match c
    case OverallScore => "overall_score"
    case Hp => "hp"
    case Attack => "attack"
    case Defense => "defense"
    case SpecialAttack => "special_attack"
    case SpecialDefense => "special_defense"
    case Speed => "speed"
  }

  /** The dropdown value a callback receives, read back as a criterion. */
  function ParseCriterion(name: string): (c: Option<Criterion>)
    ensures c.Some? <==> name in CriteriaOptions
    ensures c.Some? ==> CriterionName(c.value) == name
  {
    if name == "overall_score" then Some(OverallScore)
    else if name == "hp" then Some(Hp)
    else if name == "attack" then Some(Attack)
    else if name == "defense" then Some(Defense)
    else if name == "special_attack" then Some(SpecialAttack)
    else if name == "special_defense" then Some(SpecialDefense)
    else if name == "speed" then Some(Speed)
    else None
  }

  /** Reading a criterion's name back gives the criterion. */
  lemma ParseCriterionName(c: Criterion)
    ensures ParseCriterion(CriterionName(c)) == Some(c)
    ensures CriterionName(c) in CriteriaOptions
  {
  }

  /** The criterion value of a record: the integer in the criterion's column. */
  function Value(r: Record, c: Criterion): (v: int)
    ensures Field(r, CriterionName(c)) == Some(IntCell(v))
  {
    match c
    case OverallScore => r.overallScore
    case Hp => r.hp
    case Attack => r.attack
    case Defense => r.defense
    case SpecialAttack => r.specialAttack
    case SpecialDefense => r.specialDefense
    case Speed => r.speed
  }

  /** The criteria are seven distinct numeric columns of the table. */
  lemma CriteriaAreNumericColumns(r: Record)
    ensures |CriteriaOptions| == 7
    ensures forall i, j :: 0 <= i < j < |CriteriaOptions| ==> CriteriaOptions[i] != CriteriaOptions[j]
    ensures forall i :: 0 <= i < |CriteriaOptions| ==>
      CriteriaOptions[i] in Columns && Field(r, CriteriaOptions[i]).value.IntCell?
    ensures CriteriaOptions[0] == CriterionName(InitialCriterion)
  {
  }

  /** The table used when nothing could be loaded. */
  function DefaultDf(): (df: seq<Record>)
    ensures |df| == 5
    ensures forall i :: 0 <= i < |df| ==> df[i].type1 in ["Grass", "Fire"] && df[i].generation == 1 && !df[i].legendary
  {
    [ Record(1, "Bulbasaur", "Grass", "Poison", 318, 45, 49, 49, 65, 65, 45, 1, false, 318, 159, 159, 420),
      Record(2, "Ivysaur", "Grass", "Poison", 405, 60, 62, 63, 80, 80, 60, 1, false, 405, 202, 203, 536),
      Record(3, "Venusaur", "Grass", "Poison", 525, 80, 82, 83, 100, 100, 80, 1, false, 525, 262, 263, 696),
      Record(3, "VenusaurMega Venusaur", "Grass", "Poison", 625, 80, 100, 123, 122, 120, 80, 1, false, 625, 302, 323, 816),
      Record(4, "Charmander", "Fire", "", 309, 39, 52, 43, 60, 50, 65, 1, false, 309, 177, 132, 430) ]
  }

  /** The fallback holds five records: four of type Grass, then one of type Fire, none of type Bug. */
  lemma DefaultDfShape()
    ensures |DefaultDf()| == 5
    ensures forall i :: 0 <= i < 4 ==> DefaultDf()[i].type1 == "Grass"
    ensures DefaultDf()[4].type1 == "Fire"
    ensures forall i :: 0 <= i < 5 ==> DefaultDf()[i].type1 != "Bug"
    ensures DefaultDf()[0].name == "Bulbasaur" && DefaultDf()[1].name == "Ivysaur"
    ensures DefaultDf()[2].name == "Venusaur" && DefaultDf()[3].name == "VenusaurMega Venusaur"
    ensures DefaultDf()[4].name == "Charmander"
  {
  }

  /**
   * The table the dashboard works on. `load` is the outcome of reading the
   * configured database table: None when connecting or querying raised.
   */
  function GetDataframe(load: Option<seq<Record>>): (df: seq<Record>)
    ensures load.Some? ==> df == load.value
    ensures load.None? ==> df == DefaultDf()
  {
    match load
    case None => DefaultDf()
    case Some(loaded) => loaded
  }

  /**
   * The fallback is used exactly when nothing was loaded: a loaded table,
   * even an empty one, comes back unchanged.
   */
  lemma FallbackOnlyWhenNothingLoaded(load: Option<seq<Record>>)
    ensures |GetDataframe(load)| == 0 ==> load == Some([])
    ensures GetDataframe(Some([])) == []
    ensures GetDataframe(None) == DefaultDf() && |GetDataframe(None)| == 5
  {
  }
}
