/** The Skill document schema: its paths, their defaults, the `trim` setter
    on `name`, and the validators (`required`, `enum`, `min`, `max`) that
    Mongoose runs on create and, with `runValidators`, on the paths an
    update sets. */
module SkillSchema {
  import opened Js

  datatype Category = Frontend | Backend | Database | Tools | Other

  function CategoryName(c: Category): string {
    match c
    case Frontend => "frontend"
    case Backend => "backend"
    case Database => "database"
    case Tools => "tools"
    case Other => "other"
  }

  /** The `enum` validator: a string names a category iff it is one of the five names. */
  function ParseCategory(s: string): (r: Option<Category>)
    ensures r.Some? ==> CategoryName(r.value) == s
    ensures r.None? ==> forall c: Category :: CategoryName(c) != s
  {
    if s == "frontend" then Some(Frontend)
    else if s == "backend" then Some(Backend)
    else if s == "database" then Some(Database)
    else if s == "tools" then Some(Tools)
    else if s == "other" then Some(Other)
    else None
  }

  const DefaultCategory: Category := Other
  const DefaultIcon: string := ""
  const DefaultProficiency: int := 50
  const DefaultOrder: int := 0
  const MinProficiency: int := 0
  const MaxProficiency: int := 100

  /** The stored paths of a skill (id and timestamps are kept beside them). */
  datatype SkillFields = SkillFields(name: string, category: Category, icon: string, proficiency: int, order: int)

  /** What every stored skill satisfies. */
  predicate Conforms(f: SkillFields) {
    f.name != "" && IsTrimmed(f.name) && MinProficiency <= f.proficiency <= MaxProficiency
  }

  /** The schema paths a request may set; `None` is an absent key. */
  datatype SkillInput = SkillInput(
    name: Option<string>, category: Option<string>, icon: Option<string>,
    proficiency: Option<int>, order: Option<int>)

  datatype Violation =
    | NameRequired
    | CategoryRequired
    | CategoryNotInEnum(given: string)
    | ProficiencyBelowMin(amount: int)
    | ProficiencyAboveMax(amount: int)

  /** The message a violation reports: the schema's own text for `required`,
      Mongoose's default text for the others. */
  function ViolationMessage(v: Violation): string {
    match v
    case NameRequired => "Skill name is required"
    case CategoryRequired => "Skill category is required"
    case CategoryNotInEnum(s) => "`" + s + "` is not a valid enum value for path `category`."
    case ProficiencyBelowMin(p) =>
      "Path `proficiency` (" + IntToString(p) + ") is less than minimum allowed value (0)."
    case ProficiencyAboveMax(p) =>
      "Path `proficiency` (" + IntToString(p) + ") is more than maximum allowed value (100)."
  }

  /** A path's value after its setter, or the first validator it fails. */
  datatype PathResult<T> = Accepted(value: T) | Rejected(violation: Violation)

  /** `name`: trimmed, then `required` (an empty string fails it). */
  function NamePath(s: string): (r: PathResult<string>)
    ensures r.Accepted? <==> Trim(s) != ""
    ensures r.Accepted? ==> r.value == Trim(s)
  {
    var t := Trim(s);
    if t == "" then Rejected(NameRequired) else Accepted(t)
  }

  /** `category`: `required`, then `enum`. */
  function CategoryPath(s: string): (r: PathResult<Category>)
    ensures r.Accepted? <==> exists c: Category :: CategoryName(c) == s
    ensures r.Accepted? ==> CategoryName(r.value) == s
  {
    if s == "" then Rejected(CategoryRequired)
    else
      match ParseCategory(s)
      case None => Rejected(CategoryNotInEnum(s))
      case Some(c) => Accepted(c)
  }

  /** `proficiency`: `min: 0`, then `max: 100`. */
  function ProficiencyPath(p: int): (r: PathResult<int>)
    ensures r.Accepted? <==> MinProficiency <= p <= MaxProficiency
    ensures r.Accepted? ==> r.value == p
  {
    if p < MinProficiency then Rejected(ProficiencyBelowMin(p))
    else if p > MaxProficiency then Rejected(ProficiencyAboveMax(p))
    else Accepted(p)
  }

  /** The violations of the checked paths, in schema order. */
  function Violations(name: PathResult<string>, category: PathResult<Category>, proficiency: PathResult<int>): seq<Violation> {
    (if name.Rejected? then [name.violation] else [])
    + (if category.Rejected? then [category.violation] else [])
    + (if proficiency.Rejected? then [proficiency.violation] else [])
  }

  /** Outcome of casting and validating a document. */
  datatype Checked = Passed(fields: SkillFields) | Failed(violations: seq<Violation>)

  /** `Skill.create(input)`: defaults fill the absent paths, the setters run,
      and every validator runs; the document is accepted iff no path fails. */
  function Build(input: SkillInput): (r: Checked)
    ensures r.Passed? <==>
      && input.name.Some? && Trim(input.name.value) != ""
      && (input.category.None? || exists c: Category :: CategoryName(c) == input.category.value)
      && (input.proficiency.None? || MinProficiency <= input.proficiency.value <= MaxProficiency)
    ensures r.Passed? ==> Conforms(r.fields)
    ensures r.Failed? ==> r.violations != []
  {
    var name := if input.name.None? then Rejected(NameRequired) else NamePath(input.name.value);
    var category := if input.category.None? then Accepted(DefaultCategory) else CategoryPath(input.category.value);
    var proficiency := if input.proficiency.None? then Accepted(DefaultProficiency) else ProficiencyPath(input.proficiency.value);
    var icon := if input.icon.None? then DefaultIcon else input.icon.value;
    var order := if input.order.None? then DefaultOrder else input.order.value;
    var violations := Violations(name, category, proficiency);
    if violations == [] then Passed(SkillFields(name.value, category.value, icon, proficiency.value, order))
    else Failed(violations)
  }

  /** A document `Build` accepts stores exactly what the input gave, with the
      schema's defaults where the input was silent and `name` trimmed. */
  lemma BuildStores(input: SkillInput)
    requires Build(input).Passed?
    ensures Build(input).fields.name == Trim(input.name.value)
    ensures Build(input).fields.category == (if input.category.None? then Other else ParseCategory(input.category.value).value)
    ensures Build(input).fields.icon == (if input.icon.None? then "" else input.icon.value)
    ensures Build(input).fields.proficiency == (if input.proficiency.None? then 50 else input.proficiency.value)
    ensures Build(input).fields.order == (if input.order.None? then 0 else input.order.value)
  {
  }

  /** An update with `runValidators`: only the paths the input sets are
      cast, trimmed and validated; the others keep their stored values. */
  function Update(current: SkillFields, input: SkillInput): (r: Checked)
    ensures r.Passed? <==>
      && (input.name.None? || Trim(input.name.value) != "")
      && (input.category.None? || exists c: Category :: CategoryName(c) == input.category.value)
      && (input.proficiency.None? || MinProficiency <= input.proficiency.value <= MaxProficiency)
    ensures r.Passed? && Conforms(current) ==> Conforms(r.fields)
    ensures r.Passed? ==>
      && (input.name.None? ==> r.fields.name == current.name)
      && (input.category.None? ==> r.fields.category == current.category)
      && (input.icon.None? ==> r.fields.icon == current.icon)
      && (input.proficiency.None? ==> r.fields.proficiency == current.proficiency)
      && (input.order.None? ==> r.fields.order == current.order)
    ensures r.Passed? ==>
      && (input.name.Some? ==> r.fields.name == Trim(input.name.value))
      && (input.category.Some? ==> CategoryName(r.fields.category) == input.category.value)
      && (input.icon.Some? ==> r.fields.icon == input.icon.value)
      && (input.proficiency.Some? ==> r.fields.proficiency == input.proficiency.value)
      && (input.order.Some? ==> r.fields.order == input.order.value)
    ensures r.Failed? ==> r.violations != []
  {
    var name := if input.name.None? then Accepted(current.name) else NamePath(input.name.value);
    var category := if input.category.None? then Accepted(current.category) else CategoryPath(input.category.value);
    var proficiency := if input.proficiency.None? then Accepted(current.proficiency) else ProficiencyPath(input.proficiency.value);
    var icon := if input.icon.None? then current.icon else input.icon.value;
    var order := if input.order.None? then current.order else input.order.value;
    var violations := Violations(name, category, proficiency);
    if violations == [] then Passed(SkillFields(name.value, category.value, icon, proficiency.value, order))
    else Failed(violations)
  }

  /** An update that sets no path leaves a stored skill as it is. */
  lemma EmptyUpdateKeepsFields(current: SkillFields)
    ensures Update(current, SkillInput(None, None, None, None, None)) == Passed(current)
  {
  }
}
