/** The public site's Projects and Skills sections: what each shows once
    its list has been fetched. Projects get a background gradient by
    position, cycling through four; skills are grouped under display labels.
    An empty list (which is also what a failed fetch gives) shows the
    built-in defaults. */
module PublicSections {
  import opened Js
  import opened Grouping
  import PublicApi
  import SkillSchema

  // ------------------------------------------------------------------ projects

  /** A project card's data: what the API sends, plus the icon the built-in
      projects carry and the gradient the section adds. */
  datatype Card = Card(title: string, description: string, technologies: seq<string>,
                       githubUrl: Option<string>, liveUrl: Option<string>, image: Option<string>,
                       icon: Option<string>, gradient: Option<string>)

  /** `gradients`. */
  const Gradients: seq<string> := [
    "from-cyan-500/20 to-blue-500/20",
    "from-purple-500/20 to-pink-500/20",
    "from-green-500/20 to-emerald-500/20",
    "from-orange-500/20 to-yellow-500/20"]

  /** `defaultProjects`. */
  const DefaultProjects: seq<Card> := [
    Card("AI Chatbot Platform",
      "An intelligent conversational AI system built with LLMs, featuring natural language understanding, context management, and multi-turn dialogue capabilities.",
      ["Python", "LangChain", "OpenAI", "FastAPI", "Redis"], None, None, None, Some("Bot"), Some(Gradients[0])),
    Card("ML Model Pipeline",
      "End-to-end machine learning pipeline for automated training, evaluation, and deployment of computer vision models with real-time inference.",
      ["TensorFlow", "Docker", "Kubernetes", "AWS", "MLflow"], None, None, None, Some("Brain"), Some(Gradients[1])),
    Card("Scalable API Backend",
      "High-performance RESTful API serving millions of requests daily, featuring authentication, rate limiting, caching, and comprehensive monitoring.",
      ["Node.js", "Express", "MongoDB", "Redis", "JWT"], None, None, None, Some("Database"), Some(Gradients[2])),
    Card("Analytics Dashboard",
      "Real-time data analytics platform with interactive visualizations, custom reporting, and predictive insights powered by ML algorithms.",
      ["React", "D3.js", "Python", "PostgreSQL", "Pandas"], None, None, None, Some("BarChart3"), Some(Gradients[3]))]

  /** `data.map((project, index) => ({ ...project, gradient: gradients[index % gradients.length] }))`,
      built from the end. */
  function WithGradients(data: seq<Card>): (r: seq<Card>)
    ensures |r| == |data|
  {
    if data == [] then []
    else
      var n := |data| - 1;
      WithGradients(data[..n]) + [data[n].(gradient := Some(Gradients[n % |Gradients|]))]
  }

  /** Each card keeps every field of its project and gets the gradient of
      its position modulo four. */
  lemma {:induction false} GradientsByPosition(data: seq<Card>)
    ensures forall i :: 0 <= i < |data| ==>
      WithGradients(data)[i].gradient == Some(Gradients[i % 4])
      && WithGradients(data)[i].(gradient := data[i].gradient) == data[i]
  {
    if data != [] {
      var n := |data| - 1;
      GradientsByPosition(data[..n]);
      assert forall i :: 0 <= i < n ==> data[..n][i] == data[i];
    }
  }

  /** What `loadProjects` sets: the API's projects with gradients, or the
      defaults when the list is empty; `loading` ends either way. */
  function LoadProjects(data: seq<Card>): (seq<Card>, bool) {
    (if |data| > 0 then WithGradients(data) else DefaultProjects, false)
  }

  /** Whichever branch is taken, card i shows gradient i mod 4, so neighbours
      never share one; the API's projects are all shown, in order, unchanged
      apart from the gradient; a failed fetch shows the four defaults. */
  lemma ShownCardsCycleGradients(data: seq<Card>)
    ensures var (shown, loading) := LoadProjects(data);
      && !loading
      && |shown| == (if |data| > 0 then |data| else 4)
      && (forall i :: 0 <= i < |shown| ==> shown[i].gradient == Some(Gradients[i % 4]))
      && (forall i :: 0 <= i < |shown| - 1 ==> shown[i].gradient != shown[i + 1].gradient)
      && (|data| > 0 ==> forall i :: 0 <= i < |data| ==> shown[i].(gradient := data[i].gradient) == data[i])
    ensures LoadProjects(PublicApi.Unwrap<Card>(None)).0 == DefaultProjects
  {
    GradientsByPosition(data);
    var shown := LoadProjects(data).0;
    assert forall i :: 0 <= i < |shown| ==> shown[i].gradient == Some(Gradients[i % 4]);
    NeighbourGradientsDiffer(shown);
  }

  /** Cards coloured by position modulo four never share a gradient with
      their neighbour. */
  lemma NeighbourGradientsDiffer(shown: seq<Card>)
    requires forall i :: 0 <= i < |shown| ==> shown[i].gradient == Some(Gradients[i % 4])
    ensures forall i :: 0 <= i < |shown| - 1 ==> shown[i].gradient != shown[i + 1].gradient
  {
    forall i | 0 <= i < |shown| - 1 ensures shown[i].gradient != shown[i + 1].gradient {
      assert (i + 1) % 4 == (if i % 4 == 3 then 0 else i % 4 + 1);
      assert Gradients[0] != Gradients[1] && Gradients[1] != Gradients[2]
        && Gradients[2] != Gradients[3] && Gradients[3] != Gradients[0];
    }
  }

  // ------------------------------------------------------------------ skills

  /** A skill as the public site receives it. */
  datatype PublicSkill = PublicSkill(name: string, category: string, proficiency: int)

  /** `categoryLabels`. */
  const CategoryLabels: map<string, string> :=
    map["frontend" := "Frontend", "backend" := "Backend", "database" := "Database", "tools" := "Tools", "other" := "Other"]

  /** `categoryLabels[category] || category`. */
  function Label(category: string): (r: string)
    ensures category in CategoryLabels ==> r == CategoryLabels[category]
    ensures category !in CategoryLabels ==> r == category
  {
    if category in CategoryLabels && CategoryLabels[category] != "" then CategoryLabels[category] else category
  }

  function LabelOf(s: PublicSkill): string { Label(s.category) }

  /** Every schema category has its capitalised label. */
  lemma SchemaCategoriesAreLabelled(c: SkillSchema.Category)
    ensures SkillSchema.CategoryName(c) in CategoryLabels
    ensures var name := SkillSchema.CategoryName(c);
      Label(name) == [name[0] - 'a' + 'A'] + name[1..]
  {
  }

  function Row(name: string, proficiency: int): PublicSkill { PublicSkill(name, "", proficiency) }

  /** `defaultSkills`. */
  const DefaultSkills: map<string, seq<PublicSkill>> := map[
    "AI/ML" := [Row("TensorFlow", 90), Row("PyTorch", 85), Row("Scikit-learn", 92),
                Row("OpenCV", 80), Row("NLP/LLMs", 88), Row("Computer Vision", 82)],
    "Backend" := [Row("Node.js", 95), Row("Python", 93), Row("Express.js", 90),
                  Row("FastAPI", 85), Row("MongoDB", 88), Row("PostgreSQL", 86)],
    "Tools" := [Row("Docker", 85), Row("Git", 95), Row("AWS", 80),
                Row("Redis", 78), Row("REST APIs", 95), Row("GraphQL", 75)]]

  /** What `loadSkills` shows: the list grouped under labels, or the defaults
      when the list is empty. */
  function ShownSkills(data: seq<PublicSkill>): map<string, seq<PublicSkill>> {
    if |data| > 0 then Grouped(data, LabelOf) else DefaultSkills
  }

  /** A non-empty list shows a group exactly for each label that occurs,
      holding exactly the skills with that label in input order; over any
      list of the labels, each once, the group sizes add up to the list's
      length. */
  lemma ShownSkillsAreGroupedByLabel(data: seq<PublicSkill>, labels: seq<string>)
    requires |data| > 0
    requires NoDuplicates(labels) && forall i :: 0 <= i < |data| ==> LabelOf(data[i]) in labels
    ensures forall l :: l in ShownSkills(data) <==> exists i :: 0 <= i < |data| && Label(data[i].category) == l
    ensures forall l :: l in ShownSkills(data) ==> ShownSkills(data)[l] == Members(data, LabelOf, l) && ShownSkills(data)[l] != []
    ensures GroupSizes(data, LabelOf, labels) == |data|
  {
    GroupedHoldsMembers(data, LabelOf);
    GroupSizesCount(data, LabelOf, labels);
  }

  /** The order `Object.entries(skills)` lays the groups out in: the order
      in which the `reduce` created them, or the literal's order for the
      defaults. */
  function ShownOrder(data: seq<PublicSkill>): seq<string> {
    if |data| > 0 then KeyOrder(data, LabelOf) else ["AI/ML", "Backend", "Tools"]
  }

  /** The groups are laid out each once, all of them, a non-empty list's in
      the order their labels first occur in it. */
  lemma ShownOrderFollowsFirstOccurrence(data: seq<PublicSkill>)
    ensures forall l :: l in ShownOrder(data) <==> l in ShownSkills(data)
    ensures forall i, j :: 0 <= i < j < |ShownOrder(data)| ==> ShownOrder(data)[i] != ShownOrder(data)[j]
    ensures |data| > 0 ==> FirstOccurrenceOrder(data, LabelOf, ShownOrder(data))
  {
    if |data| > 0 {
      KeyOrderIsFirstOccurrence(data, LabelOf);
      GroupedHoldsMembers(data, LabelOf);
    }
  }

  /** An empty list, and so a failed fetch, shows the three default groups
      of six. */
  lemma EmptyListShowsDefaults()
    ensures ShownSkills(PublicApi.Unwrap<PublicSkill>(None)) == DefaultSkills
    ensures DefaultSkills.Keys == {"AI/ML", "Backend", "Tools"}
    ensures forall l :: l in DefaultSkills ==> |DefaultSkills[l]| == 6
  {
  }

  /** The section's `skills` and `loading` state. A JavaScript object keeps
      its string keys in insertion order; `order` is that order. */
  class SkillsSection {
    var skills: map<string, seq<PublicSkill>>
    var order: seq<string>
    var loading: bool

    constructor ()
      ensures skills == map[] && order == [] && loading
    {
      skills := map[];
      order := [];
      loading := true;
    }

    /** `loadSkills` once `fetchSkills` has answered `data`. */
    method Load(data: seq<PublicSkill>)
      modifies this
      ensures skills == ShownSkills(data) && order == ShownOrder(data) && !loading
    {
      if |data| > 0 {
        skills, order := GroupBy(data, LabelOf);
      } else {
        skills := DefaultSkills;
        order := ["AI/ML", "Backend", "Tools"];
      }
      loading := false;
    }
  }
}
