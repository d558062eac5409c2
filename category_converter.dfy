/** Room type converters for the two enumerations: a member is stored as its
    symbolic name, and a stored name is turned back with `enumValueOf`, which
    throws for any string that is not exactly a member name (here: None). */
module CategoryConverter {
  import opened Wrappers
  import opened Market

  function FromCategory(category: Category): (name: string)
    ensures name != []
  {
    match category
    case COUCHES => "COUCHES"
    case BEDS => "BEDS"
    case BOOKCASES => "BOOKCASES"
    case DESKS => "DESKS"
    case CHAIRS => "CHAIRS"
  }

  /** `enumValueOf<Category>(value)`; None stands for its IllegalArgumentException. */
  function ToCategory(value: string): (r: Option<Category>)
    ensures r.Some? <==> exists c: Category :: FromCategory(c) == value
  {
    if value == "COUCHES" then assert FromCategory(COUCHES) == value; Some(COUCHES)
    else if value == "BEDS" then assert FromCategory(BEDS) == value; Some(BEDS)
    else if value == "BOOKCASES" then assert FromCategory(BOOKCASES) == value; Some(BOOKCASES)
    else if value == "DESKS" then assert FromCategory(DESKS) == value; Some(DESKS)
    else if value == "CHAIRS" then assert FromCategory(CHAIRS) == value; Some(CHAIRS)
    else None
  }

  lemma CategoryRoundTrip(c: Category)
    ensures ToCategory(FromCategory(c)) == Some(c)
  {
  }

  lemma CategoryNamesDistinct(c1: Category, c2: Category)
    ensures FromCategory(c1) == FromCategory(c2) ==> c1 == c2
  {
  }

  /** Reading back a stored name gives that same name when written again. */
  lemma CategoryNameRoundTrip(value: string)
    ensures ToCategory(value).Some? ==> FromCategory(ToCategory(value).value) == value
  {
  }

  function FromCondition(condition: Condition): (name: string)
    ensures name != []
  {
    match condition
    case NEW => "NEW"
    case USED => "USED"
    case FAIR => "FAIR"
  }

  /** `enumValueOf<Condition>(value)`; None stands for its IllegalArgumentException. */
  function ToCondition(value: string): (r: Option<Condition>)
    ensures r.Some? <==> exists c: Condition :: FromCondition(c) == value
  {
    if value == "NEW" then assert FromCondition(NEW) == value; Some(NEW)
    else if value == "USED" then assert FromCondition(USED) == value; Some(USED)
    else if value == "FAIR" then assert FromCondition(FAIR) == value; Some(FAIR)
    else None
  }

  lemma ConditionRoundTrip(c: Condition)
    ensures ToCondition(FromCondition(c)) == Some(c)
  {
  }

  lemma ConditionNamesDistinct(c1: Condition, c2: Condition)
    ensures FromCondition(c1) == FromCondition(c2) ==> c1 == c2
  {
  }

  lemma ConditionNameRoundTrip(value: string)
    ensures ToCondition(value).Some? ==> FromCondition(ToCondition(value).value) == value
  {
  }
}
