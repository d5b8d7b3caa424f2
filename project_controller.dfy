/** The project controller: listing, lookup, create, update and delete over
    the Project collection, together with the directory of uploaded images.
    The body fields go through the controller's own normalisation
    (technologies, featured, order) before Mongoose casts and validates the
    document; the Project schema itself is not part of this model and its
    validators are an oracle `accepts`. */
module ProjectController {
  import opened Js
  import opened Table
  import opened Ordering

  /** A stored project. `title`, `description`, `githubUrl` and `liveUrl`
      are kept as the body gave them; `image` is a path under `/uploads/`. */
  datatype Project = Project(
    id: Id,
    title: Option<Scalar>, description: Option<Scalar>,
    technologies: seq<string>,
    githubUrl: Option<Scalar>, liveUrl: Option<Scalar>,
    featured: bool, order: int, image: Option<string>,
    createdAt: int, updatedAt: int)

  function ProjectId(p: Project): Id { p.id }

  /** The fields of a create or update request body. */
  datatype ProjectBody = ProjectBody(
    title: Option<Scalar>, description: Option<Scalar>, technologies: Option<Scalar>,
    githubUrl: Option<Scalar>, liveUrl: Option<Scalar>,
    featured: Option<Scalar>, order: Option<Scalar>)

  /** Why a create or update answers 400. */
  datatype ProjectError = OrderCastFailed(given: Scalar) | SchemaRejected

  type ProjectReply = Reply<Project, ProjectError>

  /** A handler's reply with the collection and the upload directory afterwards. */
  datatype Outcome = Outcome(reply: ProjectReply, projects: seq<Project>, uploads: set<string>)

  // ------------------------------------------------------------------ normalisation

  /** `technologies ? (typeof technologies === 'string' ? split-and-trim : technologies) : fallback`.
      A truthy number or boolean reaches Mongoose, which casts it to a
      one-element list of its text. */
  function NormalizeTechnologies(v: Option<Scalar>, fallback: seq<string>): seq<string> {
    if !Truthy(v) then fallback
    else
      match v.value
      case Text(s) => TrimAll(Split(s, ','))
      case TextList(items) => items
      case Number(n) => [IntToString(n)]
      case Boolean(b) => ["true"]
  }

  /** A technologies string gives one entry per comma-separated piece, each
      trimmed; empty pieces are kept. */
  lemma TechnologiesFromText(s: string, fallback: seq<string>)
    requires s != ""
    ensures var r := NormalizeTechnologies(Some(Text(s)), fallback);
      && |r| == 1 + CountChar(s, ',')
      && forall i :: 0 <= i < |r| ==> IsTrimmed(r[i]) && ',' !in r[i]
  {
    var pieces := Split(s, ',');
    forall i | 0 <= i < |pieces| ensures ',' !in Trim(pieces[i]) {
      TrimChars(pieces[i]);
    }
  }

  /** An absent or empty technologies value falls back: to `[]` on create, to
      the stored list on update; a list is stored unchanged. */
  lemma TechnologiesFallback(v: Option<Scalar>, fallback: seq<string>, items: seq<string>)
    ensures v.None? || v == Some(Text("")) ==> NormalizeTechnologies(v, fallback) == fallback
    ensures v == Some(TextList(items)) ==> NormalizeTechnologies(v, fallback) == items
  {
  }

  /** `featured === 'true' || featured === true`. */
  predicate IsFeatured(v: Option<Scalar>) {
    v == Some(Text("true")) || v == Some(Boolean(true))
  }

  /** Only the string "true" and the boolean true feature a project; an
      omitted field does not. */
  lemma FeaturedOnlyForTrue(v: Option<Scalar>)
    ensures IsFeatured(v) <==> (v.Some? && (v.value == Text("true") || v.value == Boolean(true)))
    ensures v.None? ==> !IsFeatured(v)
    ensures !IsFeatured(Some(Text("false"))) && !IsFeatured(Some(Text("TRUE"))) && !IsFeatured(Some(Number(1)))
  {
  }

  /** A decimal numeral after `trim`: an optional sign, then at least one digit. */
  function NumeralValue(s: string): (r: Option<int>)
    ensures r.Some? <==> (var d := SkipSign(s); d != "" && AllDigits(d))
  {
    var d := SkipSign(s);
    if d == "" || !AllDigits(d) then None
    else if s[0] == '-' then Some(-(DigitsValue(d) as int))
    else Some(DigitsValue(d))
  }

  /** Mongoose's cast of a value to Number: booleans are 0 or 1, a blank
      string is 0, a numeral is its value; anything else fails the cast. */
  function CastNumber(v: Scalar): Option<int> {
    match v
    case Number(n) => Some(n)
    case Boolean(b) => Some(if b then 1 else 0)
    case Text(s) => if Trim(s) == "" then Some(0) else NumeralValue(Trim(s))
    case TextList(_) => None
  }

  /** `order || fallback`, then cast. */
  function NormalizeOrder(v: Option<Scalar>, fallback: int): Option<int> {
    if Truthy(v) then CastNumber(v.value) else Some(fallback)
  }

  /** A falsy order (absent, 0, "" or false) gives the fallback: 0 on
      create, and on update the stored order even when 0 was asked for. */
  lemma FalsyOrderFallsBack(v: Option<Scalar>, fallback: int)
    requires v.None? || v == Some(Number(0)) || v == Some(Text("")) || v == Some(Boolean(false))
    ensures NormalizeOrder(v, fallback) == Some(fallback)
  {
  }

  /** A truthy order is the number it casts to; the string "0" is truthy, so
      a multipart form can set order 0 where a JSON 0 cannot. */
  lemma TruthyOrderIsCast(n: int, fallback: int)
    ensures n != 0 ==> NormalizeOrder(Some(Number(n)), fallback) == Some(n)
    ensures NormalizeOrder(Some(Text("0")), fallback) == Some(0)
  {
    assert Trim("0") == "0";
    assert SkipSign("0") == "0";
  }

  /** The order the admin client sends is the text `String(n)` of a
      multipart part; it casts back to `n`, and is truthy even for 0, so
      the server stores exactly `n`. */
  lemma OrderTextIsCast(n: int, fallback: int)
    ensures NumeralValue(IntToString(n)) == Some(n)
    ensures CastNumber(Text(IntToString(n))) == Some(n)
    ensures NormalizeOrder(Some(Text(IntToString(n))), fallback) == Some(n)
  {
    var s := IntToString(n);
    var m: nat := if n < 0 then -n else n;
    NatToStringValue(m);
    assert SkipSign(s) == NatToString(m);
    assert IsDigit(s[0]) || s[0] == '-';
    assert IsDigit(s[|s| - 1]);
    TrimOfTrimmed(s);
  }

  /** The stored path of an uploaded file. */
  function UploadPath(filename: string): (r: string)
    ensures StartsWith(r, "/uploads/") && |r| == 9 + |filename|
  {
    "/uploads/" + filename
  }

  // ------------------------------------------------------------------ listing

  /** `sort({ order: 1, createdAt: -1 })`. */
  function ListingKey(p: Project): Key { Key(p.order, -p.createdAt) }

  /** `getProjects`: every project, by order, newest first among equal orders. */
  function ListProjects(t: seq<Project>): (r: seq<Project>)
    ensures multiset(r) == multiset(t)
    ensures forall i, j :: 0 <= i < j < |r| ==>
      r[i].order < r[j].order || (r[i].order == r[j].order && r[i].createdAt >= r[j].createdAt)
  {
    var r := SortBy(t, ListingKey);
    assert forall i, j :: 0 <= i < j < |r| ==> KeyLe(ListingKey(r[i]), ListingKey(r[j]));
    r
  }

  // ------------------------------------------------------------------ handlers

  /** `getProject`. */
  function GetProject(t: seq<Project>, id: Id): ProjectReply {
    match Find(t, id, ProjectId)
    case None => NotFound
    case Some(p) => Ok(p)
  }

  /** The document `createProject` hands to `Project.create`, once `order` has been cast. */
  function NewProject(id: Id, body: ProjectBody, order: int, file: Option<string>, now: int): Project {
    Project(id, body.title, body.description, NormalizeTechnologies(body.technologies, []),
      body.githubUrl, body.liveUrl, IsFeatured(body.featured), order,
      if file.Some? then Some(UploadPath(file.value)) else None, now, now)
  }

  /** `createProject`. The upload directory is not touched by the handler;
      the upload step before it has already stored the file. */
  function CreateProject(t: seq<Project>, uploads: set<string>, id: Id, body: ProjectBody,
                         file: Option<string>, now: int, accepts: Project -> bool): Outcome {
    match NormalizeOrder(body.order, 0)
    case None => Outcome(Invalid(OrderCastFailed(body.order.value)), t, uploads)
    case Some(order) =>
      var p := NewProject(id, body, order, file, now);
      if accepts(p) then Outcome(Created(p), t + [p], uploads)
      else Outcome(Invalid(SchemaRejected), t, uploads)
  }

  /** The project `updateProject` writes, once `order` has been cast: keys
      the body leaves undefined are dropped by Mongoose and keep their
      stored value; `featured` is always written; `image` only with a file. */
  function Updated(p: Project, body: ProjectBody, order: int, file: Option<string>, now: int): Project {
    p.(
      title := if body.title.Some? then body.title else p.title,
      description := if body.description.Some? then body.description else p.description,
      technologies := NormalizeTechnologies(body.technologies, p.technologies),
      githubUrl := if body.githubUrl.Some? then body.githubUrl else p.githubUrl,
      liveUrl := if body.liveUrl.Some? then body.liveUrl else p.liveUrl,
      featured := IsFeatured(body.featured),
      order := order,
      image := if file.Some? then Some(UploadPath(file.value)) else p.image,
      updatedAt := now)
  }

  /** The old image is unlinked when a new file comes with the request. */
  function DropOldImage(p: Project, uploads: set<string>, file: Option<string>): set<string> {
    if file.Some? && p.image.Some? then uploads - {p.image.value} else uploads
  }

  /** `updateProject` as written: the old image is unlinked before the
      document is cast and validated, so a rejected update has already
      removed the file the stored record still points at. */
  function UpdateProjectAsWritten(t: seq<Project>, uploads: set<string>, id: Id, body: ProjectBody,
                                  file: Option<string>, now: int, accepts: Project -> bool): Outcome {
    match Find(t, id, ProjectId)
    case None => Outcome(NotFound, t, uploads)
    case Some(p) =>
      var uploads' := DropOldImage(p, uploads, file);
      match NormalizeOrder(body.order, p.order)
      case None => Outcome(Invalid(OrderCastFailed(body.order.value)), t, uploads')
      case Some(order) =>
        var p' := Updated(p, body, order, file, now);
        if accepts(p') then Outcome(Ok(p'), Replace(t, id, p', ProjectId), uploads')
        else Outcome(Invalid(SchemaRejected), t, uploads')
  }

  /** `updateProject` with the old image unlinked only once the new document
      has been accepted; a rejected update changes nothing. */
  function UpdateProject(t: seq<Project>, uploads: set<string>, id: Id, body: ProjectBody,
                         file: Option<string>, now: int, accepts: Project -> bool): Outcome {
    match Find(t, id, ProjectId)
    case None => Outcome(NotFound, t, uploads)
    case Some(p) =>
      match NormalizeOrder(body.order, p.order)
      case None => Outcome(Invalid(OrderCastFailed(body.order.value)), t, uploads)
      case Some(order) =>
        var p' := Updated(p, body, order, file, now);
        if accepts(p') then Outcome(Ok(p'), Replace(t, id, p', ProjectId), DropOldImage(p, uploads, file))
        else Outcome(Invalid(SchemaRejected), t, uploads)
  }

  /** `deleteProject`: the image file goes first, then the record. */
  function DeleteProject(t: seq<Project>, uploads: set<string>, id: Id): Outcome {
    match Find(t, id, ProjectId)
    case None => Outcome(NotFound, t, uploads)
    case Some(p) =>
      var uploads' := if p.image.Some? then uploads - {p.image.value} else uploads;
      Outcome(Deleted, Remove(t, id, ProjectId), uploads')
  }

  // ------------------------------------------------------------------ properties

  /** Every stored image is a file in the upload directory, and no two
      projects share one. */
  predicate ImagesStored(t: seq<Project>, uploads: set<string>) {
    && (forall i :: 0 <= i < |t| && t[i].image.Some? ==> t[i].image.value in uploads)
    && (forall i, j :: 0 <= i < j < |t| && t[i].image.Some? ==> t[j].image != t[i].image)
  }

  /** What the upload step guarantees about the file of a request: it is in
      the directory and no project refers to it yet. */
  predicate FreshUpload(t: seq<Project>, uploads: set<string>, file: Option<string>) {
    file.Some? ==>
      UploadPath(file.value) in uploads
      && forall i :: 0 <= i < |t| ==> t[i].image != Some(UploadPath(file.value))
  }

  predicate StoreInvariant(t: seq<Project>, uploads: set<string>, nextId: Id) {
    && DistinctIds(t, ProjectId)
    && (forall i :: 0 <= i < |t| ==> t[i].id < nextId)
    && ImagesStored(t, uploads)
  }

  /** On an unknown id, get, update and delete answer 404 and change neither
      the collection nor the upload directory. */
  lemma UnknownIdIsNotFound(t: seq<Project>, uploads: set<string>, id: Id, body: ProjectBody,
                            file: Option<string>, now: int, accepts: Project -> bool)
    requires !HasId(t, id, ProjectId)
    ensures GetProject(t, id) == NotFound
    ensures UpdateProject(t, uploads, id, body, file, now, accepts) == Outcome(NotFound, t, uploads)
    ensures UpdateProjectAsWritten(t, uploads, id, body, file, now, accepts) == Outcome(NotFound, t, uploads)
    ensures DeleteProject(t, uploads, id) == Outcome(NotFound, t, uploads)
  {
  }

  /** A created project: the text fields are the body's, technologies are
      split from a string and default to `[]`, featured follows the body,
      order is `order || 0`, the image is set iff a file came, and both
      timestamps are the creation time. */
  lemma CreateStores(t: seq<Project>, uploads: set<string>, id: Id, body: ProjectBody,
                     file: Option<string>, now: int, accepts: Project -> bool)
    ensures var o := CreateProject(t, uploads, id, body, file, now, accepts);
      && o.uploads == uploads
      && (o.reply.Created? || o.reply.Invalid?)
      && (o.reply.Invalid? ==> o.projects == t)
      && (o.reply.Created? ==>
          && o.projects == t + [o.reply.record]
          && accepts(o.reply.record)
          && o.reply.record.id == id
          && o.reply.record.title == body.title && o.reply.record.description == body.description
          && o.reply.record.githubUrl == body.githubUrl && o.reply.record.liveUrl == body.liveUrl
          && o.reply.record.technologies == NormalizeTechnologies(body.technologies, [])
          && (!Truthy(body.technologies) ==> o.reply.record.technologies == [])
          && (o.reply.record.featured <==> IsFeatured(body.featured))
          && Some(o.reply.record.order) == NormalizeOrder(body.order, 0)
          && (o.reply.record.image.Some? <==> file.Some?)
          && (file.Some? ==> o.reply.record.image.value == "/uploads/" + file.value)
          && o.reply.record.createdAt == now && o.reply.record.updatedAt == now)
  {
  }

  /** A successful update rewrites only the addressed project. In it, a
      text field the body sets takes the body's value and an absent one
      keeps the stored value, technologies and order are normalised against
      the stored ones, the update time is now, an absent technologies value
      keeps the stored list, a falsy order keeps
      the stored order, featured is reset unless the body says "true", and
      without a file the image is kept. */
  lemma UpdateStores(t: seq<Project>, uploads: set<string>, id: Id, body: ProjectBody,
                     file: Option<string>, now: int, accepts: Project -> bool, k: nat)
    requires DistinctIds(t, ProjectId)
    requires k < |t| && t[k].id == id
    ensures var o := UpdateProject(t, uploads, id, body, file, now, accepts);
      && (o.reply.Ok? || o.reply.Invalid?)
      && (o.reply.Invalid? ==> o.projects == t && o.uploads == uploads)
      && (o.reply.Ok? ==>
          var p := o.reply.record;
          && |o.projects| == |t| && o.projects[k] == p
          && (forall i :: 0 <= i < |t| && i != k ==> o.projects[i] == t[i])
          && p.id == id && p.createdAt == t[k].createdAt && p.updatedAt == now
          && p.title == (if body.title.Some? then body.title else t[k].title)
          && p.description == (if body.description.Some? then body.description else t[k].description)
          && p.githubUrl == (if body.githubUrl.Some? then body.githubUrl else t[k].githubUrl)
          && p.liveUrl == (if body.liveUrl.Some? then body.liveUrl else t[k].liveUrl)
          && p.technologies == NormalizeTechnologies(body.technologies, t[k].technologies)
          && Some(p.order) == NormalizeOrder(body.order, t[k].order)
          && (!Truthy(body.technologies) ==> p.technologies == t[k].technologies)
          && (!Truthy(body.order) ==> p.order == t[k].order)
          && (p.featured <==> IsFeatured(body.featured))
          && (file.None? ==> p.image == t[k].image && o.uploads == uploads)
          && (file.Some? ==> p.image == Some(UploadPath(file.value))
                             && o.uploads == (if t[k].image.Some? then uploads - {t[k].image.value} else uploads)))
  {
    FindUnique(t, id, ProjectId, k);
    forall i | 0 <= i < |t| && i != k ensures t[i].id != id {
      if i < k { assert ProjectId(t[i]) != ProjectId(t[k]); } else { assert ProjectId(t[k]) != ProjectId(t[i]); }
    }
  }

  /** Delete removes exactly that project and only its image file; every
      other project and file stays. */
  lemma DeleteRemovesProjectAndImage(t: seq<Project>, uploads: set<string>, id: Id, k: nat)
    requires DistinctIds(t, ProjectId)
    requires k < |t| && t[k].id == id
    ensures var o := DeleteProject(t, uploads, id);
      && o.reply == Deleted
      && o.projects == t[..k] + t[k + 1..]
      && o.uploads == (if t[k].image.Some? then uploads - {t[k].image.value} else uploads)
  {
    FindUnique(t, id, ProjectId, k);
    RemoveOne(t, id, ProjectId, k);
  }

  /** The update as written breaks the image invariant: a project whose
      image is stored, updated with a new file and an order that does not
      cast, answers 400, keeps pointing at its old image, and that file is
      gone. */
  lemma AsWrittenUpdateLosesImage(accepts: Project -> bool)
    ensures var p := Project(0, None, None, [], None, None, false, 0, Some("/uploads/a.png"), 0, 0);
      var uploads := {"/uploads/a.png", "/uploads/b.png"};
      var body := ProjectBody(None, None, None, None, None, None, Some(Text("abc")));
      var o := UpdateProjectAsWritten([p], uploads, 0, body, Some("b.png"), 1, accepts);
      && ImagesStored([p], uploads)
      && FreshUpload([p], uploads, Some("b.png"))
      && o.reply == Invalid(OrderCastFailed(Text("abc")))
      && o.projects == [p]
      && !ImagesStored(o.projects, o.uploads)
  {
    var p := Project(0, None, None, [], None, None, false, 0, Some("/uploads/a.png"), 0, 0);
    assert "/uploads/" + "b.png" == "/uploads/b.png";
    assert IsTrimmed("abc") && "abc"[0] == 'a';
    WordOrderDoesNotCast("abc", 0);
    assert Find([p], 0, ProjectId) == Some(p) by {
      FindUnique([p], 0, ProjectId, 0);
    }
  }

  /** A trimmed text that starts with neither a sign, a digit, a point nor
      the "I" of "Infinity" is truthy but not a number, so the order cast
      fails. */
  lemma WordOrderDoesNotCast(s: string, fallback: int)
    requires s != "" && IsTrimmed(s)
    requires !IsDigit(s[0]) && s[0] != '-' && s[0] != '+' && s[0] != '.' && s[0] != 'I'
    ensures NormalizeOrder(Some(Text(s)), fallback) == None
  {
    TrimOfTrimmed(s);
  }

  /** The update as written and the corrected one give the same reply and
      the same collection on every request; they differ only in the upload
      directory after a rejected update that came with a file, and agree
      entirely whenever the update is accepted or the id is unknown. */
  lemma CorrectionOnlyChangesRejections(t: seq<Project>, uploads: set<string>, id: Id, body: ProjectBody,
                                        file: Option<string>, now: int, accepts: Project -> bool)
    ensures var w := UpdateProjectAsWritten(t, uploads, id, body, file, now, accepts);
      var c := UpdateProject(t, uploads, id, body, file, now, accepts);
      && w.reply == c.reply && w.projects == c.projects
      && (!c.reply.Invalid? || file.None? ==> w == c)
      && (c.reply.Invalid? ==> c.uploads == uploads)
  {
  }

  /** Create keeps the store invariant when the upload step has stored a fresh file. */
  lemma CreateKeepsInvariant(t: seq<Project>, uploads: set<string>, nextId: Id, body: ProjectBody,
                             file: Option<string>, now: int, accepts: Project -> bool)
    requires StoreInvariant(t, uploads, nextId)
    requires FreshUpload(t, uploads, file)
    ensures StoreInvariant(CreateProject(t, uploads, nextId, body, file, now, accepts).projects, uploads, nextId + 1)
  {
    var o := CreateProject(t, uploads, nextId, body, file, now, accepts);
    if o.reply.Created? {
      var r := o.projects;
      assert r == t + [o.reply.record];
      forall i, j | 0 <= i < j < |r| ensures ProjectId(r[i]) != ProjectId(r[j]) && (r[i].image.Some? ==> r[j].image != r[i].image) {
        assert r[i] == t[i];
      }
    }
  }

  /** The directory after a rewrite of project `k`: unchanged when it keeps
      its image, else without the old image (if it had one). */
  function AfterRewrite(t: seq<Project>, uploads: set<string>, k: nat, replaced: bool): set<string>
    requires k < |t|
  {
    if replaced && t[k].image.Some? then uploads - {t[k].image.value} else uploads
  }

  /** What a rewrite of project `k` does to its image: keeps it, or replaces
      it with a stored file no project refers to. */
  predicate ImageKeptOrFresh(t: seq<Project>, uploads: set<string>, k: nat, q: Project, replaced: bool)
    requires k < |t|
  {
    && (!replaced ==> q.image == t[k].image)
    && (replaced ==> q.image.Some? && q.image.value in uploads && forall i :: 0 <= i < |t| ==> t[i].image != q.image)
  }

  /** After such a rewrite every image is still a stored file. */
  lemma RewriteKeepsImagesStored(t: seq<Project>, uploads: set<string>, k: nat, q: Project, replaced: bool)
    requires ImagesStored(t, uploads) && k < |t| && ImageKeptOrFresh(t, uploads, k, q, replaced)
    ensures var r := t[k := q]; var u := AfterRewrite(t, uploads, k, replaced);
      forall i :: 0 <= i < |r| && r[i].image.Some? ==> r[i].image.value in u
  {
    var r := t[k := q];
    forall i | 0 <= i < |r| && r[i].image.Some? ensures r[i].image.value in AfterRewrite(t, uploads, k, replaced) {
      if i != k && replaced && t[k].image.Some? {
        if i < k { assert t[k].image != t[i].image; } else { assert t[i].image != t[k].image; }
      }
    }
  }

  /** After such a rewrite no two projects share an image. */
  lemma RewriteKeepsImagesDistinct(t: seq<Project>, uploads: set<string>, k: nat, q: Project, replaced: bool)
    requires ImagesStored(t, uploads) && k < |t| && ImageKeptOrFresh(t, uploads, k, q, replaced)
    ensures var r := t[k := q];
      forall i, j :: 0 <= i < j < |r| && r[i].image.Some? ==> r[j].image != r[i].image
  {
    var r := t[k := q];
    forall i, j | 0 <= i < j < |r| && r[i].image.Some? ensures r[j].image != r[i].image {
      if i != k && j != k {
        assert r[i] == t[i] && r[j] == t[j];
      }
    }
  }

  /** Such a rewrite, keeping the id, keeps the store invariant. */
  lemma RewriteKeepsInvariant(t: seq<Project>, uploads: set<string>, nextId: Id, k: nat, q: Project, replaced: bool)
    requires StoreInvariant(t, uploads, nextId) && k < |t|
    requires ImageKeptOrFresh(t, uploads, k, q, replaced) && q.id == t[k].id
    ensures StoreInvariant(t[k := q], AfterRewrite(t, uploads, k, replaced), nextId)
  {
    RewriteKeepsImagesStored(t, uploads, k, q, replaced);
    RewriteKeepsImagesDistinct(t, uploads, k, q, replaced);
    assert forall i :: 0 <= i < |t| ==> t[k := q][i].id == t[i].id;
  }

  /** The corrected update keeps the store invariant: on success the new
      image is a fresh stored file and the unlinked one was this project's
      alone; on failure nothing moves. */
  lemma UpdateKeepsInvariant(t: seq<Project>, uploads: set<string>, nextId: Id, id: Id, body: ProjectBody,
                             file: Option<string>, now: int, accepts: Project -> bool)
    requires StoreInvariant(t, uploads, nextId)
    requires FreshUpload(t, uploads, file)
    ensures var o := UpdateProject(t, uploads, id, body, file, now, accepts);
      StoreInvariant(o.projects, o.uploads, nextId)
  {
    var found := Find(t, id, ProjectId);
    if found.Some? {
      var k :| 0 <= k < |t| && t[k] == found.value;
      UpdateStores(t, uploads, id, body, file, now, accepts, k);
      var o := UpdateProject(t, uploads, id, body, file, now, accepts);
      if o.reply.Ok? {
        var q := o.reply.record;
        assert o.projects == t[k := q];
        assert o.uploads == AfterRewrite(t, uploads, k, file.Some?);
        assert ImageKeptOrFresh(t, uploads, k, q, file.Some?);
        RewriteKeepsInvariant(t, uploads, nextId, k, q, file.Some?);
      }
    }
  }

  /** Position `i` of a sequence with position `k` cut out. */
  lemma CutIndex(t: seq<Project>, k: nat, i: nat)
    requires k < |t| && i < |t| - 1
    ensures (t[..k] + t[k + 1..])[i] == t[if i < k then i else i + 1]
  {
  }

  /** Deleting one project keeps the images of the others distinct. */
  lemma CutKeepsImagesDistinct(t: seq<Project>, uploads: set<string>, k: nat)
    requires ImagesStored(t, uploads) && k < |t|
    ensures var r := t[..k] + t[k + 1..];
      forall i, j :: 0 <= i < j < |r| && r[i].image.Some? ==> r[j].image != r[i].image
  {
    var r := t[..k] + t[k + 1..];
    forall i, j | 0 <= i < j < |r| && r[i].image.Some? ensures r[j].image != r[i].image {
      CutIndex(t, k, i);
      CutIndex(t, k, j);
      var i', j' := if i < k then i else i + 1, if j < k then j else j + 1;
      assert i' < j';
    }
  }

  /** Deleting one project and its image keeps the images of the others stored. */
  lemma CutKeepsImagesStored(t: seq<Project>, uploads: set<string>, k: nat)
    requires ImagesStored(t, uploads) && k < |t|
    ensures var r := t[..k] + t[k + 1..];
      var u := if t[k].image.Some? then uploads - {t[k].image.value} else uploads;
      forall i :: 0 <= i < |r| && r[i].image.Some? ==> r[i].image.value in u
  {
    var r := t[..k] + t[k + 1..];
    forall i | 0 <= i < |r| && r[i].image.Some?
      ensures r[i].image.value in (if t[k].image.Some? then uploads - {t[k].image.value} else uploads)
    {
      CutIndex(t, k, i);
      var i' := if i < k then i else i + 1;
      if t[k].image.Some? {
        if i' < k { assert t[k].image != t[i'].image; } else { assert t[i'].image != t[k].image; }
      }
    }
  }

  /** Delete keeps the store invariant. */
  lemma DeleteKeepsInvariant(t: seq<Project>, uploads: set<string>, nextId: Id, id: Id)
    requires StoreInvariant(t, uploads, nextId)
    ensures var o := DeleteProject(t, uploads, id);
      StoreInvariant(o.projects, o.uploads, nextId)
  {
    RemoveKeeps(t, id, ProjectId);
    var found := Find(t, id, ProjectId);
    if found.Some? {
      var k :| 0 <= k < |t| && t[k] == found.value;
      DeleteRemovesProjectAndImage(t, uploads, id, k);
      CutKeepsImagesDistinct(t, uploads, k);
      CutKeepsImagesStored(t, uploads, k);
    }
    var r := DeleteProject(t, uploads, id).projects;
    forall i | 0 <= i < |r| ensures r[i].id < nextId {
      assert r[i] in t;
    }
  }

  // ------------------------------------------------------------------ the store

  /** The Project collection and the upload directory, changed in place by
      the handlers: delete unlinks the image, then writes the collection;
      update unlinks the old image only once the new document is accepted. */
  class ProjectStore {
    var projects: seq<Project>
    var uploads: set<string>
    var nextId: Id

    ghost predicate Valid()
      reads this
    {
      StoreInvariant(projects, uploads, nextId)
    }

    constructor (files: set<string>)
      ensures Valid() && projects == [] && uploads == files && nextId == 0
    {
      projects := [];
      uploads := files;
      nextId := 0;
    }

    method List() returns (r: seq<Project>)
      requires Valid()
      ensures r == ListProjects(projects)
    {
      r := ListProjects(projects);
    }

    method Get(id: Id) returns (reply: ProjectReply)
      requires Valid()
      ensures reply == GetProject(projects, id)
    {
      var found := Find(projects, id, ProjectId);
      if found.None? {
        return NotFound;
      }
      reply := Ok(found.value);
    }

    method Create(body: ProjectBody, file: Option<string>, now: int, accepts: Project -> bool)
      returns (reply: ProjectReply)
      requires Valid() && FreshUpload(projects, uploads, file)
      modifies this
      ensures Valid()
      ensures Outcome(reply, projects, uploads) == CreateProject(old(projects), old(uploads), old(nextId), body, file, now, accepts)
    {
      CreateKeepsInvariant(projects, uploads, nextId, body, file, now, accepts);
      var order := NormalizeOrder(body.order, 0);
      if order.None? {
        return Invalid(OrderCastFailed(body.order.value));
      }
      var p := NewProject(nextId, body, order.value, file, now);
      if !accepts(p) {
        return Invalid(SchemaRejected);
      }
      projects := projects + [p];
      nextId := nextId + 1;
      reply := Created(p);
    }

    method Update(id: Id, body: ProjectBody, file: Option<string>, now: int, accepts: Project -> bool)
      returns (reply: ProjectReply)
      requires Valid() && FreshUpload(projects, uploads, file)
      modifies this
      ensures Valid() && nextId == old(nextId)
      ensures Outcome(reply, projects, uploads) == UpdateProject(old(projects), old(uploads), id, body, file, now, accepts)
    {
      var found := Find(projects, id, ProjectId);
      if found.None? {
        return NotFound;
      }
      var p := found.value;
      var order := NormalizeOrder(body.order, p.order);
      if order.None? {
        return Invalid(OrderCastFailed(body.order.value));
      }
      var p' := Updated(p, body, order.value, file, now);
      if !accepts(p') {
        return Invalid(SchemaRejected);
      }
      if file.Some? && p.image.Some? {
        uploads := uploads - {p.image.value};
      }
      projects := Replace(projects, id, p', ProjectId);
      reply := Ok(p');
      UpdateKeepsInvariant(old(projects), old(uploads), nextId, id, body, file, now, accepts);
    }

    method Delete(id: Id) returns (reply: ProjectReply)
      requires Valid()
      modifies this
      ensures Valid() && nextId == old(nextId)
      ensures Outcome(reply, projects, uploads) == DeleteProject(old(projects), old(uploads), id)
    {
      DeleteKeepsInvariant(projects, uploads, nextId, id);
      var found := Find(projects, id, ProjectId);
      if found.None? {
        return NotFound;
      }
      if found.value.image.Some? {
        uploads := uploads - {found.value.image.value};
      }
      projects := Remove(projects, id, ProjectId);
      reply := Deleted;
    }
  }
}
