/** The admin Skills page: its form (defaults, edit mapping, the proficiency
    slider and the order input), the skills grouped by category, and the
    groups shown in the fixed category order with empty ones skipped. */
module AdminSkills {
  import opened Js
  import opened Table
  import opened Grouping
  import SkillSchema
  import SkillController
  import AdminProjects

  /** A skill as the admin client receives it. */
  datatype ClientSkill = ClientSkill(id: Id, name: string, category: string, icon: Option<string>, proficiency: int, order: int)

  function CategoryOf(s: ClientSkill): string { s.category }

  /** `CATEGORIES`: (value, label) pairs in display order. */
  const Categories: seq<(string, string)> :=
    [("frontend", "Frontend"), ("backend", "Backend"), ("database", "Database"), ("tools", "Tools"), ("other", "Other")]

  const CategoryValues: seq<string> := ["frontend", "backend", "database", "tools", "other"]

  /** The page offers exactly the schema's categories. */
  lemma CategoriesAreTheSchemas()
    ensures forall c: SkillSchema.Category :: SkillSchema.CategoryName(c) in CategoryValues
    ensures forall v :: v in CategoryValues ==> SkillSchema.ParseCategory(v).Some?
  {
  }

  /** Each category is offered once. */
  lemma CategoryValuesAreDistinct()
    ensures Values(Categories) == CategoryValues
    ensures NoDuplicates(CategoryValues)
  {
    ValuesOfCategories();
    NoDuplicatesByFirstLetter(CategoryValues);
  }

  /** The values of the category table, in order. */
  lemma ValuesOfCategories()
    ensures Values(Categories) == CategoryValues
  {
  }

  // ------------------------------------------------------------------ the form

  datatype SkillForm = SkillForm(name: string, category: string, icon: string, proficiency: int, order: int)

  /** The form `resetForm` restores. */
  const DefaultForm: SkillForm := SkillForm("", "frontend", "", 50, 0)

  /** The form `handleEdit` fills from a skill: a missing icon shows as "". */
  function EditForm(s: ClientSkill): (f: SkillForm)
    ensures f.name == s.name && f.category == s.category && f.proficiency == s.proficiency && f.order == s.order
    ensures s.icon.None? ==> f.icon == ""
    ensures s.icon.Some? ==> f.icon == s.icon.value
  {
    SkillForm(s.name, s.category, AdminProjects.OrEmpty(s.icon), s.proficiency, s.order)
  }

  /** The body the form is sent as: every field present. */
  function FormInput(f: SkillForm): SkillSchema.SkillInput {
    SkillSchema.SkillInput(Some(f.name), Some(f.category), Some(f.icon), Some(f.proficiency), Some(f.order))
  }

  /** A form with a non-blank name, an offered category and a slider
      position creates a skill with the trimmed name, that category, and
      that proficiency, except that a slider at 0 is stored as 50. */
  lemma FormCreatesSkill(f: SkillForm)
    requires Trim(f.name) != "" && f.category in CategoryValues && 0 <= f.proficiency <= 100
    ensures var r := SkillSchema.Build(SkillController.CreateInput(FormInput(f)));
      && r.Passed?
      && r.fields.name == Trim(f.name)
      && SkillSchema.CategoryName(r.fields.category) == f.category
      && r.fields.proficiency == (if f.proficiency == 0 then 50 else f.proficiency)
      && r.fields.icon == f.icon && r.fields.order == f.order
  {
    CategoriesAreTheSchemas();
    SkillSchema.BuildStores(SkillController.CreateInput(FormInput(f)));
  }

  /** A blank name is refused by the schema, whatever the rest of the form. */
  lemma BlankNameIsRefused(f: SkillForm)
    requires Trim(f.name) == ""
    ensures SkillSchema.Build(SkillController.CreateInput(FormInput(f))).Failed?
  {
  }

  /** Where the skill is being edited, create otherwise. */
  datatype SubmitRequest = CreateRequest(body: SkillForm) | UpdateRequest(id: Id, body: SkillForm)

  // ------------------------------------------------------------------ grouping and display

  /** `groupedSkills[cat.value] || []`. */
  function GroupOf(groups: map<string, seq<ClientSkill>>, k: string): seq<ClientSkill> {
    if k in groups then groups[k] else []
  }

  /** The category sections shown: one (label, skills) row per category in
      `cats` order whose group is non-empty. */
  function Displayed(groups: map<string, seq<ClientSkill>>, cats: seq<(string, string)>): (r: seq<(string, seq<ClientSkill>)>)
    ensures |r| <= |cats|
    ensures forall i :: 0 <= i < |r| ==> r[i].1 != []
  {
    if cats == [] then []
    else
      var g := GroupOf(groups, cats[0].0);
      (if g == [] then [] else [(cats[0].1, g)]) + Displayed(groups, cats[1..])
  }

  function TotalSize(rows: seq<(string, seq<ClientSkill>)>): nat {
    if rows == [] then 0 else |rows[0].1| + TotalSize(rows[1..])
  }

  function Values(cats: seq<(string, string)>): (r: seq<string>)
    ensures |r| == |cats| && forall i :: 0 <= i < |cats| ==> r[i] == cats[i].0
  {
    if cats == [] then [] else [cats[0].0] + Values(cats[1..])
  }

  /** The group the page looks up for a category holds exactly the skills of
      that category, in the order the API returned them. */
  lemma GroupOfIsMembers(skills: seq<ClientSkill>, k: string)
    ensures GroupOf(Grouped(skills, CategoryOf), k) == Members(skills, CategoryOf, k)
  {
    GroupedHoldsMembers(skills, CategoryOf);
    if k !in Grouped(skills, CategoryOf) && Members(skills, CategoryOf, k) != [] {
      MembersOccur(skills, CategoryOf, k);
    }
  }

  lemma {:induction false} DisplayedSizes(skills: seq<ClientSkill>, cats: seq<(string, string)>)
    ensures TotalSize(Displayed(Grouped(skills, CategoryOf), cats)) == GroupSizes(skills, CategoryOf, Values(cats))
  {
    if cats != [] {
      GroupOfIsMembers(skills, cats[0].0);
      DisplayedSizes(skills, cats[1..]);
      var g := GroupOf(Grouped(skills, CategoryOf), cats[0].0);
      var rest := Displayed(Grouped(skills, CategoryOf), cats[1..]);
      if g != [] {
        assert ([(cats[0].1, g)] + rest)[1..] == rest;
      } else {
        assert [] + rest == rest;
      }
      assert Values(cats)[1..] == Values(cats[1..]);
    }
  }

  /** The sections the page renders: `CATEGORIES` in order, each with its
      group, empty groups skipped. */
  function Sections(skills: seq<ClientSkill>): seq<(string, seq<ClientSkill>)> {
    Displayed(Grouped(skills, CategoryOf), Categories)
  }

  /** When every skill has one of the offered categories (as every stored
      skill does), the sections shown hold as many skills as the list. */
  lemma DisplayShowsEverySkill(skills: seq<ClientSkill>)
    requires forall i :: 0 <= i < |skills| ==> skills[i].category in CategoryValues
    ensures TotalSize(Sections(skills)) == |skills|
  {
    CategoryValuesAreDistinct();
    DisplayedCountsAll(skills, Categories);
  }

  lemma DisplayedCountsAll(skills: seq<ClientSkill>, cats: seq<(string, string)>)
    requires NoDuplicates(Values(cats))
    requires forall i :: 0 <= i < |skills| ==> skills[i].category in Values(cats)
    ensures TotalSize(Displayed(Grouped(skills, CategoryOf), cats)) == |skills|
  {
    DisplayedSizes(skills, cats);
    GroupSizesCount(skills, CategoryOf, Values(cats));
  }

  // ------------------------------------------------------------------ the page

  /** The page's `skills`, `loading`, `editingSkill` and `formData` state. */
  class SkillsPage {
    var skills: seq<ClientSkill>
    var loading: bool
    var editing: Option<ClientSkill>
    var form: SkillForm

    constructor ()
      ensures skills == [] && loading && editing.None? && form == DefaultForm
    {
      skills := [];
      loading := true;
      editing := None;
      form := DefaultForm;
    }

    /** `fetchSkills`: the list on success, the old list otherwise; the
        spinner stops either way. */
    method Fetched(result: Option<seq<ClientSkill>>)
      modifies this
      ensures skills == (if result.Some? then result.value else old(skills))
      ensures !loading && editing == old(editing) && form == old(form)
    {
      if result.Some? {
        skills := result.value;
      }
      loading := false;
    }

    /** The rendered sections, in category order. */
    method Render() returns (rows: seq<(string, seq<ClientSkill>)>)
      ensures rows == Sections(skills)
    {
      var groups, created := GroupBy(skills, CategoryOf);
      rows := Displayed(groups, Categories);
    }

    method Edit(s: ClientSkill)
      modifies this
      ensures editing == Some(s) && form == EditForm(s) && skills == old(skills) && loading == old(loading)
    {
      editing := Some(s);
      form := SkillForm(s.name, s.category, if s.icon.Some? then s.icon.value else "", s.proficiency, s.order);
    }

    method Reset()
      modifies this
      ensures editing.None? && form == DefaultForm && skills == old(skills) && loading == old(loading)
    {
      editing := None;
      form := DefaultForm;
    }

    /** The range input, bounded to 0..100: its position becomes the
        proficiency through `parseInt`. */
    method SetProficiency(position: int)
      requires 0 <= position <= 100
      modifies this
      ensures form == old(form).(proficiency := position)
      ensures SkillSchema.ProficiencyPath(form.proficiency).Accepted?
      ensures editing == old(editing) && skills == old(skills) && loading == old(loading)
    {
      ParseIntOfIntToString(position);
      var n := ParseInt(IntToString(position));
      form := form.(proficiency := n.value);
    }

    /** The order input: `parseInt(value) || 0`. */
    method SetOrder(input: string)
      modifies this
      ensures form == old(form).(order := AdminProjects.OrderFromInput(input))
      ensures editing == old(editing) && skills == old(skills) && loading == old(loading)
    {
      var n := ParseInt(input);
      form := form.(order := if n.None? then 0 else n.value);
    }

    /** `handleSubmit`: update while editing, create otherwise; on success
        the form resets. */
    method Submit(succeeded: bool) returns (request: SubmitRequest)
      modifies this
      ensures request == if old(editing).Some? then UpdateRequest(old(editing).value.id, old(form)) else CreateRequest(old(form))
      ensures succeeded ==> editing.None? && form == DefaultForm
      ensures !succeeded ==> editing == old(editing) && form == old(form)
      ensures skills == old(skills) && loading == old(loading)
    {
      if editing.Some? {
        request := UpdateRequest(editing.value.id, form);
      } else {
        request := CreateRequest(form);
      }
      if succeeded {
        Reset();
      }
    }
  }
}
