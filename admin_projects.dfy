/** The admin Projects page: the form state, the technologies text the form
    edits (parsed on submit, formatted on edit), the order input, the card
    badges, and the choice between create and update on submit. */
module AdminProjects {
  import opened Js
  import opened Table
  import opened AdminApi

  /** A project as the admin client receives it. */
  datatype ClientProject = ClientProject(
    id: Id, title: string, description: string, technologies: seq<string>,
    githubUrl: Option<string>, liveUrl: Option<string>, featured: bool, order: int, image: Option<string>)

  /** The form's state; `image` is the chosen file, if any. */
  datatype ProjectForm = ProjectForm(
    title: string, description: string, technologies: string, githubUrl: string, liveUrl: string,
    featured: bool, order: int, image: Option<string>)

  const DefaultForm: ProjectForm := ProjectForm("", "", "", "", "", false, 0, None)

  // ------------------------------------------------------------------ technologies

  /** `.filter((t) => t)`: the non-empty entries, in order. */
  function DropEmpty(xs: seq<string>): (r: seq<string>)
    ensures |r| <= |xs|
    ensures forall i :: 0 <= i < |r| ==> r[i] != "" && r[i] in xs
  {
    if xs == [] then []
    else
      var rest := DropEmpty(xs[1..]);
      assert forall i :: 0 <= i < |rest| ==> rest[i] in xs by {
        forall i | 0 <= i < |rest| ensures rest[i] in xs {
          var j :| 0 <= j < |xs[1..]| && xs[1..][j] == rest[i];
          assert xs[j + 1] == rest[i];
        }
      }
      (if xs[0] != "" then [xs[0]] else []) + rest
  }

  /** A list the form can show and read back: entries non-empty, trimmed
      and free of commas. */
  predicate WellFormed(xs: seq<string>) {
    forall i :: 0 <= i < |xs| ==> xs[i] != "" && IsTrimmed(xs[i]) && ',' !in xs[i]
  }

  /** The technologies `handleSubmit` sends: split on ',', each trimmed,
      empty entries dropped. */
  function ParseTechnologies(s: string): seq<string> {
    DropEmpty(TrimAll(Split(s, ',')))
  }

  /** Every parsed entry is non-empty, trimmed and comma-free. */
  lemma ParsedIsWellFormed(s: string)
    ensures WellFormed(ParseTechnologies(s))
  {
    var pieces := Split(s, ',');
    var trimmed := TrimAll(pieces);
    forall j | 0 <= j < |trimmed| ensures ',' !in trimmed[j] && IsTrimmed(trimmed[j]) {
      TrimChars(pieces[j]);
    }
    var r := DropEmpty(trimmed);
    forall i | 0 <= i < |r| ensures ',' !in r[i] && IsTrimmed(r[i]) {
      assert r[i] in trimmed;
    }
  }

  /** The text `handleEdit` shows for a list of technologies. */
  function FormatTechnologies(xs: seq<string>): string {
    Join(xs, ", ")
  }

  /** A blank before a piece changes nothing once the pieces are trimmed. */
  lemma LeadingSpaceIsTrimmed(s: string)
    ensures TrimAll(Split([' '] + s, ',')) == TrimAll(Split(s, ','))
  {
    var rest := Split(s, ',');
    assert ([' '] + s)[1..] == s;
    var spaced := Split([' '] + s, ',');
    assert spaced == [[' '] + rest[0]] + rest[1..];
    TrimSkipsSpace(' ', rest[0]);
    assert rest == [rest[0]] + rest[1..];
  }

  /** Parsing "a, rest" gives `a` followed by what "rest" parses to. */
  lemma ParseCons(a: string, tail: string)
    requires a != "" && IsTrimmed(a) && ',' !in a
    ensures ParseTechnologies(a + ", " + tail) == [a] + ParseTechnologies(tail)
  {
    assert a + ", " + tail == a + [','] + ([' '] + tail);
    SplitAtSep(a, [' '] + tail, ',');
    var rest := Split([' '] + tail, ',');
    assert TrimAll([a] + rest) == [Trim(a)] + TrimAll(rest) by {
      assert ([a] + rest)[1..] == rest;
    }
    TrimOfTrimmed(a);
    LeadingSpaceIsTrimmed(tail);
    var trimmed := [a] + TrimAll(rest);
    assert trimmed[1..] == TrimAll(rest);
  }

  /** Formatting a well-formed list and parsing the text gives the list back. */
  lemma {:induction false} ParseFormat(xs: seq<string>)
    requires WellFormed(xs)
    ensures ParseTechnologies(FormatTechnologies(xs)) == xs
  {
    if xs == [] {
      assert Split("", ',') == [""];
      assert TrimAll([""]) == [""];
      assert DropEmpty([""]) == [];
    } else if |xs| == 1 {
      assert FormatTechnologies(xs) == xs[0];
      SplitNoSep(xs[0], ',');
      TrimOfTrimmed(xs[0]);
      assert TrimAll([xs[0]]) == [xs[0]];
      assert DropEmpty([xs[0]]) == [xs[0]] by { assert [xs[0]][1..] == []; }
    } else {
      assert FormatTechnologies(xs) == xs[0] + ", " + Join(xs[1..], ", ");
      assert WellFormed(xs[1..]);
      ParseFormat(xs[1..]);
      ParseCons(xs[0], Join(xs[1..], ", "));
      assert xs == [xs[0]] + xs[1..];
    }
  }

  /** Parsing is stable: the list a submit sends reads back the same after
      an edit. */
  lemma ParseIsStable(s: string)
    ensures ParseTechnologies(FormatTechnologies(ParseTechnologies(s))) == ParseTechnologies(s)
  {
    ParsedIsWellFormed(s);
    ParseFormat(ParseTechnologies(s));
  }

  // ------------------------------------------------------------------ form mapping

  function OrEmpty(v: Option<string>): string {
    if v.None? then "" else v.value
  }

  /** The form `handleEdit` fills from a project. */
  function EditForm(p: ClientProject): ProjectForm {
    ProjectForm(p.title, p.description, FormatTechnologies(p.technologies),
      OrEmpty(p.githubUrl), OrEmpty(p.liveUrl), p.featured, p.order, None)
  }

  /** Editing shows the project's own values, with missing links as "" and
      no file chosen; its technologies read back unchanged. */
  lemma EditShowsProject(p: ClientProject)
    requires WellFormed(p.technologies)
    ensures var f := EditForm(p);
      && f.title == p.title && f.description == p.description
      && ParseTechnologies(f.technologies) == p.technologies
      && (p.githubUrl.None? ==> f.githubUrl == "") && (p.githubUrl.Some? ==> f.githubUrl == p.githubUrl.value)
      && (p.liveUrl.None? ==> f.liveUrl == "") && (p.liveUrl.Some? ==> f.liveUrl == p.liveUrl.value)
      && f.featured == p.featured && f.order == p.order && f.image.None?
  {
    ParseFormat(p.technologies);
  }

  /** `parseInt(value) || 0`. */
  function OrderFromInput(s: string): int {
    match ParseInt(s)
    case None => 0
    case Some(n) => n
  }

  /** The order field holds the number typed, and 0 when nothing numeric was typed. */
  lemma OrderInputReadsNumber(n: int, s: string)
    ensures OrderFromInput(IntToString(n)) == n
    ensures ParseInt(s).None? ==> OrderFromInput(s) == 0
  {
    ParseIntOfIntToString(n);
  }

  /** The object `handleSubmit` passes to the API, in key order. */
  function SubmitData(f: ProjectForm): seq<(string, FormValue)> {
    [ ("title", Str(f.title)),
      ("description", Str(f.description)),
      ("technologies", Strings(ParseTechnologies(f.technologies))),
      ("githubUrl", Str(f.githubUrl)),
      ("liveUrl", Str(f.liveUrl)),
      ("featured", Flag(f.featured)),
      ("order", Num(f.order)),
      ("image", if f.image.Some? then FileValue(f.image.value) else Null) ]
  }

  datatype SubmitRequest = CreateRequest(data: seq<(string, FormValue)>) | UpdateRequest(id: Id, data: seq<(string, FormValue)>)

  /** Update while a project is being edited, create otherwise. */
  function SubmitFor(editing: Option<ClientProject>, f: ProjectForm): (r: SubmitRequest)
    ensures r.UpdateRequest? <==> editing.Some?
    ensures r.UpdateRequest? ==> r.id == editing.value.id
    ensures r.data == SubmitData(f)
  {
    if editing.Some? then UpdateRequest(editing.value.id, SubmitData(f)) else CreateRequest(SubmitData(f))
  }

  // ------------------------------------------------------------------ cards

  /** The technology badges a card shows: the first three at most. */
  function VisibleBadges(xs: seq<string>): (r: seq<string>)
    ensures |r| == if |xs| < 3 then |xs| else 3
    ensures r == xs[..|r|]
  {
    if |xs| <= 3 then xs else xs[..3]
  }

  /** The "+n" badge, shown only when more than three technologies exist. */
  function OverflowBadge(xs: seq<string>): Option<string> {
    if |xs| > 3 then Some("+" + IntToString(|xs| - 3)) else None
  }

  /** The shown badges and the number in the "+n" badge account for every technology. */
  lemma BadgesCountEveryTechnology(xs: seq<string>)
    ensures OverflowBadge(xs).Some? <==> |xs| > 3
    ensures OverflowBadge(xs).Some? ==>
      ParseInt(OverflowBadge(xs).value[1..]) == Some(|xs| - |VisibleBadges(xs)|)
    ensures OverflowBadge(xs).None? ==> VisibleBadges(xs) == xs
  {
    if |xs| > 3 {
      var b := OverflowBadge(xs).value;
      assert b[1..] == IntToString(|xs| - 3);
      ParseIntOfIntToString(|xs| - 3);
    }
  }

  // ------------------------------------------------------------------ the page

  /** The page's `editingProject` and `formData` state. */
  class ProjectsPage {
    var editing: Option<ClientProject>
    var form: ProjectForm

    constructor ()
      ensures editing.None? && form == DefaultForm
    {
      editing := None;
      form := DefaultForm;
    }

    /** `handleEdit`. */
    method Edit(p: ClientProject)
      modifies this
      ensures editing == Some(p) && form == EditForm(p)
    {
      editing := Some(p);
      form := EditForm(p);
    }

    /** `resetForm`. */
    method Reset()
      modifies this
      ensures editing.None? && form == DefaultForm
    {
      editing := None;
      form := DefaultForm;
    }

    /** The order input's change handler. */
    method SetOrder(input: string)
      modifies this
      ensures editing == old(editing) && form == old(form).(order := OrderFromInput(input))
    {
      var n := ParseInt(input);
      form := form.(order := if n.None? then 0 else n.value);
    }

    /** `handleSubmit`: the request sent, and on success the form reset. */
    method Submit(succeeded: bool) returns (request: SubmitRequest)
      modifies this
      ensures request == SubmitFor(old(editing), old(form))
      ensures succeeded ==> editing.None? && form == DefaultForm
      ensures !succeeded ==> editing == old(editing) && form == old(form)
    {
      var data := SubmitData(form);
      if editing.Some? {
        request := UpdateRequest(editing.value.id, data);
      } else {
        request := CreateRequest(data);
      }
      if succeeded {
        Reset();
      }
    }
  }
}
