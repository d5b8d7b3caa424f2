/** The route tables of the project, skill and contact routers: for each
    registration, its method, its path pattern and its middleware chain in
    order. A request is dispatched to the first registration whose method
    and pattern match. Literal segments are compared exactly. Paths are
    relative to the mount point of each router and given as their
    `/`-separated segments. */
module Routes {
  import opened Js

  datatype Verb = Get | Post | Put | Delete

  /** A pattern segment: literal text, or a named parameter (`:id`). */
  datatype Segment = Lit(text: string) | Param(name: string)

  /** The controller functions the routers end in. */
  datatype HandlerName =
    | GetProjects | GetProject | CreateProject | UpdateProject | DeleteProject
    | GetSkills | GetSkillsByCategory | GetSkill | CreateSkill | UpdateSkill | DeleteSkill
    | SubmitContact | GetContacts | GetContact | MarkAsRead | DeleteContact

  /** One element of a middleware chain. */
  datatype Step = Protect | UploadImage | Handler(handler: HandlerName)

  datatype Route = Route(verb: Verb, pattern: seq<Segment>, chain: seq<Step>)

  /** A parameter matches any non-empty segment; a literal only itself. */
  predicate SegmentMatches(p: Segment, s: string) {
    match p
    case Lit(text) => s == text
    case Param(_) => s != ""
  }

  predicate Matches(r: Route, verb: Verb, path: seq<string>) {
    && r.verb == verb
    && |r.pattern| == |path|
    && forall i :: 0 <= i < |path| ==> SegmentMatches(r.pattern[i], path[i])
  }

  /** The first registration that matches the request. */
  function Dispatch(routes: seq<Route>, verb: Verb, path: seq<string>): (r: Option<Route>)
    ensures r.Some? ==> r.value in routes && Matches(r.value, verb, path)
    ensures r.None? ==> forall i :: 0 <= i < |routes| ==> !Matches(routes[i], verb, path)
  {
    if routes == [] then None
    else if Matches(routes[0], verb, path) then Some(routes[0])
    else
      var r := Dispatch(routes[1..], verb, path);
      assert forall i :: 1 <= i < |routes| ==> routes[i] == routes[1..][i - 1];
      r
  }

  const Root: seq<Segment> := []
  const ById: seq<Segment> := [Param("id")]

  /** The project router. */
  const ProjectRoutes: seq<Route> := [
    Route(Get, Root, [Handler(GetProjects)]),
    Route(Get, ById, [Handler(GetProject)]),
    Route(Post, Root, [Protect, UploadImage, Handler(CreateProject)]),
    Route(Put, ById, [Protect, UploadImage, Handler(UpdateProject)]),
    Route(Delete, ById, [Protect, Handler(DeleteProject)])
  ]

  /** The skill router. */
  const SkillRoutes: seq<Route> := [
    Route(Get, Root, [Handler(GetSkills)]),
    Route(Get, [Lit("category"), Param("category")], [Handler(GetSkillsByCategory)]),
    Route(Get, ById, [Handler(GetSkill)]),
    Route(Post, Root, [Protect, Handler(CreateSkill)]),
    Route(Put, ById, [Protect, Handler(UpdateSkill)]),
    Route(Delete, ById, [Protect, Handler(DeleteSkill)])
  ]

  /** The contact router. */
  const ContactRoutes: seq<Route> := [
    Route(Post, Root, [Handler(SubmitContact)]),
    Route(Get, Root, [Protect, Handler(GetContacts)]),
    Route(Get, ById, [Protect, Handler(GetContact)]),
    Route(Put, [Param("id"), Lit("read")], [Protect, Handler(MarkAsRead)]),
    Route(Delete, ById, [Protect, Handler(DeleteContact)])
  ]

  predicate Guarded(r: Route) { |r.chain| > 0 && r.chain[0] == Protect }

  /** An upload step only ever runs after `protect`. */
  predicate UploadAfterProtect(r: Route) {
    forall i :: 0 <= i < |r.chain| && r.chain[i] == UploadImage ==>
      exists j :: 0 <= j < i && r.chain[j] == Protect
  }

  /** The registration `Dispatch` picks is the first that matches. */
  lemma {:induction false} DispatchIsFirst(routes: seq<Route>, verb: Verb, path: seq<string>, k: nat)
    requires k < |routes| && Matches(routes[k], verb, path)
    requires forall j :: 0 <= j < k ==> !Matches(routes[j], verb, path)
    ensures Dispatch(routes, verb, path) == Some(routes[k])
  {
    if k > 0 {
      assert !Matches(routes[0], verb, path);
      DispatchIsFirst(routes[1..], verb, path, k - 1);
    }
  }

  /** What a table promises of each of its registrations. */
  predicate EveryRoute(routes: seq<Route>, P: Route -> bool) {
    forall i :: 0 <= i < |routes| ==> P(routes[i])
  }

  predicate GuardedIffWrite(r: Route) { Guarded(r) <==> r.verb != Get }

  predicate UnguardedIsSubmission(r: Route) { !Guarded(r) <==> r.verb == Post && r.pattern == Root }

  lemma TablesGuardWrites()
    ensures EveryRoute(ProjectRoutes, GuardedIffWrite)
    ensures EveryRoute(SkillRoutes, GuardedIffWrite)
    ensures EveryRoute(ContactRoutes, UnguardedIsSubmission)
    ensures EveryRoute(ProjectRoutes, UploadAfterProtect)
    ensures EveryRoute(SkillRoutes, UploadAfterProtect)
    ensures EveryRoute(ContactRoutes, UploadAfterProtect)
  {
    assert ProjectRoutes[2].chain[0] == Protect;
    assert ProjectRoutes[3].chain[0] == Protect;
  }

  // ------------------------------------------------------------------ properties

  /** Whatever every registration of a table promises, the one dispatched to does. */
  lemma DispatchedSatisfies(routes: seq<Route>, verb: Verb, path: seq<string>, P: Route -> bool)
    requires EveryRoute(routes, P)
    ensures var r := Dispatch(routes, verb, path); r.Some? ==> P(r.value)
  {
    var r := Dispatch(routes, verb, path);
    if r.Some? {
      var i :| 0 <= i < |routes| && routes[i] == r.value;
    }
  }

  /** Every project or skill request other than a GET goes through
      `protect` first, and every GET is public. */
  lemma WritesAreGuarded(verb: Verb, path: seq<string>)
    ensures var r := Dispatch(ProjectRoutes, verb, path); r.Some? ==> (Guarded(r.value) <==> verb != Get)
    ensures var r := Dispatch(SkillRoutes, verb, path); r.Some? ==> (Guarded(r.value) <==> verb != Get)
  {
    TablesGuardWrites();
    DispatchedSatisfies(ProjectRoutes, verb, path, GuardedIffWrite);
    DispatchedSatisfies(SkillRoutes, verb, path, GuardedIffWrite);
  }

  /** No request reaches the image upload without passing `protect`. */
  lemma NoUploadWithoutProtect(verb: Verb, path: seq<string>)
    ensures var r := Dispatch(ProjectRoutes, verb, path); r.Some? ==> UploadAfterProtect(r.value)
    ensures var r := Dispatch(SkillRoutes, verb, path); r.Some? ==> UploadAfterProtect(r.value)
    ensures var r := Dispatch(ContactRoutes, verb, path); r.Some? ==> UploadAfterProtect(r.value)
  {
    TablesGuardWrites();
    DispatchedSatisfies(ProjectRoutes, verb, path, UploadAfterProtect);
    DispatchedSatisfies(SkillRoutes, verb, path, UploadAfterProtect);
    DispatchedSatisfies(ContactRoutes, verb, path, UploadAfterProtect);
  }

  /** The only contact request that skips `protect` is the submission, POST /. */
  lemma OnlySubmissionIsPublic(verb: Verb, path: seq<string>)
    ensures var r := Dispatch(ContactRoutes, verb, path);
      r.Some? ==> (!Guarded(r.value) <==> verb == Post && path == [])
  {
    TablesGuardWrites();
    DispatchedSatisfies(ContactRoutes, verb, path, UnguardedIsSubmission);
  }

  // ------------------------------------------------------------------ project routes

  /** GET / lists the projects without `protect`. */
  lemma ProjectListRoute()
    ensures Dispatch(ProjectRoutes, Get, []) == Some(Route(Get, Root, [Handler(GetProjects)]))
  {
    var t := ProjectRoutes;
    DispatchIsFirst(t, Get, [], 0);
  }

  /** GET /:id reads one project without `protect`. */
  lemma ProjectGetRoute(id: string)
    requires id != ""
    ensures Dispatch(ProjectRoutes, Get, [id]) == Some(Route(Get, ById, [Handler(GetProject)]))
  {
    var t := ProjectRoutes;
    assert t[0].pattern == [];
    DispatchIsFirst(t, Get, [id], 1);
  }

  /** POST / runs `protect`, then the upload, then createProject. */
  lemma ProjectCreateRoute()
    ensures Dispatch(ProjectRoutes, Post, []) == Some(Route(Post, Root, [Protect, UploadImage, Handler(CreateProject)]))
  {
    var t := ProjectRoutes;
    assert t[0].verb == Get && t[1].verb == Get;
    DispatchIsFirst(t, Post, [], 2);
  }

  /** PUT /:id runs `protect`, then the upload, then updateProject. */
  lemma ProjectUpdateRoute(id: string)
    requires id != ""
    ensures Dispatch(ProjectRoutes, Put, [id]) == Some(Route(Put, ById, [Protect, UploadImage, Handler(UpdateProject)]))
  {
    var t := ProjectRoutes;
    assert t[0].verb == Get && t[1].verb == Get && t[2].verb == Post;
    DispatchIsFirst(t, Put, [id], 3);
  }

  /** DELETE /:id runs `protect` and deleteProject, with no upload. */
  lemma ProjectDeleteRoute(id: string)
    requires id != ""
    ensures Dispatch(ProjectRoutes, Delete, [id]) == Some(Route(Delete, ById, [Protect, Handler(DeleteProject)]))
  {
    var t := ProjectRoutes;
    assert t[0].verb == Get && t[1].verb == Get && t[2].verb == Post && t[3].verb == Put;
    DispatchIsFirst(t, Delete, [id], 4);
  }

  // ------------------------------------------------------------------ skill routes

  /** GET / lists the skills without `protect`. */
  lemma SkillListRoute()
    ensures Dispatch(SkillRoutes, Get, []) == Some(Route(Get, Root, [Handler(GetSkills)]))
  {
    var t := SkillRoutes;
    DispatchIsFirst(t, Get, [], 0);
  }

  /** GET /category/:category is public and is matched before `/:id` can see it. */
  lemma SkillByCategoryRoute(category: string)
    requires category != ""
    ensures Dispatch(SkillRoutes, Get, ["category", category]) == Some(Route(Get, [Lit("category"), Param("category")], [Handler(GetSkillsByCategory)]))
  {
    var t := SkillRoutes;
    assert t[0].pattern == [];
    DispatchIsFirst(t, Get, ["category", category], 1);
  }

  /** GET /:id reads one skill without `protect`. */
  lemma SkillGetRoute(id: string)
    requires id != ""
    ensures Dispatch(SkillRoutes, Get, [id]) == Some(Route(Get, ById, [Handler(GetSkill)]))
  {
    var t := SkillRoutes;
    assert t[0].pattern == [] && t[1].pattern == [Lit("category"), Param("category")];
    DispatchIsFirst(t, Get, [id], 2);
  }

  /** POST / runs `protect`, then createSkill. */
  lemma SkillCreateRoute()
    ensures Dispatch(SkillRoutes, Post, []) == Some(Route(Post, Root, [Protect, Handler(CreateSkill)]))
  {
    var t := SkillRoutes;
    assert t[0].verb == Get && t[1].verb == Get && t[2].verb == Get;
    DispatchIsFirst(t, Post, [], 3);
  }

  /** PUT /:id runs `protect`, then updateSkill. */
  lemma SkillUpdateRoute(id: string)
    requires id != ""
    ensures Dispatch(SkillRoutes, Put, [id]) == Some(Route(Put, ById, [Protect, Handler(UpdateSkill)]))
  {
    var t := SkillRoutes;
    assert t[0].verb == Get && t[1].verb == Get && t[2].verb == Get && t[3].verb == Post;
    DispatchIsFirst(t, Put, [id], 4);
  }

  /** DELETE /:id runs `protect`, then deleteSkill. */
  lemma SkillDeleteRoute(id: string)
    requires id != ""
    ensures Dispatch(SkillRoutes, Delete, [id]) == Some(Route(Delete, ById, [Protect, Handler(DeleteSkill)]))
  {
    var t := SkillRoutes;
    assert t[0].verb == Get && t[1].verb == Get && t[2].verb == Get && t[3].verb == Post && t[4].verb == Put;
    DispatchIsFirst(t, Delete, [id], 5);
  }

  // ------------------------------------------------------------------ contact routes

  /** POST / submits a message without `protect`. */
  lemma ContactSubmitRoute()
    ensures Dispatch(ContactRoutes, Post, []) == Some(Route(Post, Root, [Handler(SubmitContact)]))
  {
    var t := ContactRoutes;
    DispatchIsFirst(t, Post, [], 0);
  }

  /** GET / lists the messages behind `protect`. */
  lemma ContactListRoute()
    ensures Dispatch(ContactRoutes, Get, []) == Some(Route(Get, Root, [Protect, Handler(GetContacts)]))
  {
    var t := ContactRoutes;
    assert t[0].verb == Post;
    DispatchIsFirst(t, Get, [], 1);
  }

  /** GET /:id reads one message behind `protect`. */
  lemma ContactGetRoute(id: string)
    requires id != ""
    ensures Dispatch(ContactRoutes, Get, [id]) == Some(Route(Get, ById, [Protect, Handler(GetContact)]))
  {
    var t := ContactRoutes;
    assert t[0].verb == Post && t[1].pattern == [];
    DispatchIsFirst(t, Get, [id], 2);
  }

  /** PUT /:id/read marks a message read behind `protect`. */
  lemma ContactMarkReadRoute(id: string)
    requires id != ""
    ensures Dispatch(ContactRoutes, Put, [id, "read"]) == Some(Route(Put, [Param("id"), Lit("read")], [Protect, Handler(MarkAsRead)]))
  {
    var t := ContactRoutes;
    assert t[0].verb == Post && t[1].verb == Get && t[2].verb == Get;
    DispatchIsFirst(t, Put, [id, "read"], 3);
  }

  /** DELETE /:id deletes a message behind `protect`. */
  lemma ContactDeleteRoute(id: string)
    requires id != ""
    ensures Dispatch(ContactRoutes, Delete, [id]) == Some(Route(Delete, ById, [Protect, Handler(DeleteContact)]))
  {
    var t := ContactRoutes;
    assert t[0].verb == Post && t[1].verb == Get && t[2].verb == Get && t[3].verb == Put;
    DispatchIsFirst(t, Delete, [id], 4);
  }
}
