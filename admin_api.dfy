/** The admin client's API layer: the request interceptor that adds the
    bearer token, the multipart bodies `projectsAPI.create` and
    `projectsAPI.update` build, and the endpoints of the contact and project
    wrappers. The browser's token storage is a map from key to string. */
module AdminApi {
  import opened Js
  import Routes

  const ApiUrl: string := "http://localhost:5000/api"
  const TokenKey: string := "adminToken"

  // ------------------------------------------------------------------ interceptor

  /** The token in storage, if one is stored and non-empty. */
  function StoredToken(storage: map<string, string>): Option<string> {
    if TokenKey in storage && storage[TokenKey] != "" then Some(storage[TokenKey]) else None
  }

  /** The headers a request leaves the interceptor with. */
  function Intercepted(headers: map<string, string>, storage: map<string, string>): map<string, string> {
    match StoredToken(storage)
    case None => headers
    case Some(token) => headers["Authorization" := "Bearer " + token]
  }

  /** The Authorization header is "Bearer " + token exactly when a token is
      stored; no other header changes, and without a token nothing changes. */
  lemma InterceptorSetsBearer(headers: map<string, string>, storage: map<string, string>)
    ensures var h := Intercepted(headers, storage);
      && (StoredToken(storage).Some? ==> "Authorization" in h && h["Authorization"] == "Bearer " + storage[TokenKey])
      && (StoredToken(storage).None? ==> h == headers)
      && (forall k :: k != "Authorization" ==> (k in h <==> k in headers) && (k in h ==> h[k] == headers[k]))
  {
  }

  /** The configuration of one outgoing request. */
  class RequestConfig {
    var headers: map<string, string>

    constructor (initial: map<string, string>)
      ensures headers == initial
    {
      headers := initial;
    }

    /** The request interceptor. */
    method Intercept(storage: map<string, string>)
      modifies this
      ensures headers == Intercepted(old(headers), storage)
    {
      if TokenKey in storage && storage[TokenKey] != "" {
        headers := headers["Authorization" := "Bearer " + storage[TokenKey]];
      }
    }
  }

  // ------------------------------------------------------------------ multipart bodies

  /** A value of the object passed to `projectsAPI.create` / `update`. */
  datatype FormValue = Str(s: string) | Num(n: int) | Flag(b: bool) | Null | Undefined | FileValue(filename: string) | Strings(items: seq<string>)

  /** One part of a multipart body: text, or a file. */
  datatype Part = TextPart(text: string) | FilePart(name: string)

  datatype Appended = Appended(key: string, part: Part)

  /** `String(v)`, as `FormData.append` converts a value that is not a file. */
  function Stringify(v: FormValue): string {
    match v
    case Str(s) => s
    case Num(n) => IntToString(n)
    case Flag(b) => if b then "true" else "false"
    case Null => "null"
    case Undefined => "undefined"
    case FileValue(name) => name
    case Strings(items) => Join(items, ",")
  }

  /** The part a value becomes: a file stays a file, a list of strings is
      joined with ',', anything else is its text. */
  function PartOf(v: FormValue): Part {
    match v
    case FileValue(name) => FilePart(name)
    case Strings(items) => TextPart(Join(items, ","))
    case _ => TextPart(Stringify(v))
  }

  predicate Nullish(v: FormValue) { v == Null || v == Undefined }

  /** The body `create` sends: one part per key, in key order. */
  function CreateForm(data: seq<(string, FormValue)>): (r: seq<Appended>)
    ensures |r| == |data|
  {
    if data == [] then []
    else
      var (k, v) := data[|data| - 1];
      CreateForm(data[..|data| - 1]) + [Appended(k, PartOf(v))]
  }

  /** The body `update` sends: as `create`, but keys whose value is null or
      undefined are left out. */
  function UpdateForm(data: seq<(string, FormValue)>): (r: seq<Appended>)
    ensures |r| <= |data|
  {
    if data == [] then []
    else
      var (k, v) := data[|data| - 1];
      UpdateForm(data[..|data| - 1]) + (if Nullish(v) then [] else [Appended(k, PartOf(v))])
  }

  /** The keys of `data` whose value is neither null nor undefined. */
  function Present(data: seq<(string, FormValue)>): seq<(string, FormValue)> {
    if data == [] then []
    else Present(data[..|data| - 1]) + (if Nullish(data[|data| - 1].1) then [] else [data[|data| - 1]])
  }

  /** `create` appends every key, in order, each as the part its value makes;
      a part is a file exactly when the value is a file. */
  lemma {:induction false} CreateAppendsEveryKey(data: seq<(string, FormValue)>)
    ensures var r := CreateForm(data);
      forall i :: 0 <= i < |data| ==>
        && r[i].key == data[i].0 && r[i].part == PartOf(data[i].1)
        && (r[i].part.FilePart? <==> data[i].1.FileValue?)
  {
    if data != [] {
      CreateAppendsEveryKey(data[..|data| - 1]);
    }
  }

  /** `update` sends what `create` would send for the keys that are set:
      null and undefined values are skipped, the rest keep their order. */
  lemma {:induction false} UpdateSkipsNullish(data: seq<(string, FormValue)>)
    ensures UpdateForm(data) == CreateForm(Present(data))
    ensures forall i :: 0 <= i < |Present(data)| ==> !Nullish(Present(data)[i].1)
    ensures (forall i :: 0 <= i < |data| ==> !Nullish(data[i].1)) ==> UpdateForm(data) == CreateForm(data)
  {
    if data != [] {
      var init := data[..|data| - 1];
      UpdateSkipsNullish(init);
      var p := Present(init);
      if !Nullish(data[|data| - 1].1) {
        assert (p + [data[|data| - 1]])[..|p|] == p;
      } else {
        assert p + [] == p;
      }
      if forall i :: 0 <= i < |data| ==> !Nullish(data[i].1) {
        assert forall i :: 0 <= i < |init| ==> init[i] == data[i];
      }
    }
  }

  /** A list of technologies travels as its entries joined with ','. */
  lemma TechnologiesJoined(items: seq<string>)
    ensures PartOf(Strings(items)) == TextPart(Join(items, ","))
    ensures CreateForm([("technologies", Strings(items))]) == [Appended("technologies", TextPart(Join(items, ",")))]
  {
  }

  /** `projectsAPI.create`: appends one part per key of `data`. */
  method BuildCreateForm(data: seq<(string, FormValue)>) returns (form: seq<Appended>)
    ensures form == CreateForm(data)
  {
    form := [];
    var i := 0;
    while i < |data|
      invariant 0 <= i <= |data|
      invariant form == CreateForm(data[..i])
    {
      var (key, value) := data[i];
      if key == "image" && value.FileValue? {
        form := form + [Appended("image", FilePart(value.filename))];
      } else if key == "technologies" && value.Strings? {
        form := form + [Appended("technologies", TextPart(Join(value.items, ",")))];
      } else {
        form := form + [Appended(key, PartOf(value))];
      }
      assert data[..i + 1][..i] == data[..i];
      i := i + 1;
    }
    assert data[..i] == data;
  }

  /** `projectsAPI.update`: as `create`, skipping null and undefined values. */
  method BuildUpdateForm(data: seq<(string, FormValue)>) returns (form: seq<Appended>)
    ensures form == UpdateForm(data)
  {
    form := [];
    var i := 0;
    while i < |data|
      invariant 0 <= i <= |data|
      invariant form == UpdateForm(data[..i])
    {
      var (key, value) := data[i];
      if key == "image" && value.FileValue? {
        form := form + [Appended("image", FilePart(value.filename))];
      } else if key == "technologies" && value.Strings? {
        form := form + [Appended("technologies", TextPart(Join(value.items, ",")))];
      } else if value != Undefined && value != Null {
        form := form + [Appended(key, PartOf(value))];
      }
      assert data[..i + 1][..i] == data[..i];
      i := i + 1;
    }
    assert data[..i] == data;
  }

  // ------------------------------------------------------------------ endpoints

  /** A request as the backend routers see it: the method, the router it is
      mounted under, and the path below that mount point. */
  datatype Router = Auth | Projects | Skills | Contact
  datatype Endpoint = Endpoint(verb: Routes.Verb, router: Router, path: seq<string>)

  function ContactMarkAsRead(id: string): Endpoint { Endpoint(Routes.Put, Contact, [id, "read"]) }
  function ContactDelete(id: string): Endpoint { Endpoint(Routes.Delete, Contact, [id]) }
  function ProjectCreate(): Endpoint { Endpoint(Routes.Post, Projects, []) }
  function ProjectUpdate(id: string): Endpoint { Endpoint(Routes.Put, Projects, [id]) }

  /** `markAsRead(id)` is `PUT /contact/{id}/read`, which reaches the
      backend's markAsRead behind `protect`; the project writes reach their
      handlers behind `protect` and the upload. */
  lemma EndpointsReachTheirHandlers(id: string)
    requires id != ""
    ensures var r := Routes.Dispatch(Routes.ContactRoutes, ContactMarkAsRead(id).verb, ContactMarkAsRead(id).path);
      r.Some? && r.value.chain == [Routes.Protect, Routes.Handler(Routes.MarkAsRead)]
    ensures var r := Routes.Dispatch(Routes.ContactRoutes, ContactDelete(id).verb, ContactDelete(id).path);
      r.Some? && r.value.chain == [Routes.Protect, Routes.Handler(Routes.DeleteContact)]
    ensures var r := Routes.Dispatch(Routes.ProjectRoutes, ProjectCreate().verb, ProjectCreate().path);
      r.Some? && r.value.chain == [Routes.Protect, Routes.UploadImage, Routes.Handler(Routes.CreateProject)]
    ensures var r := Routes.Dispatch(Routes.ProjectRoutes, ProjectUpdate(id).verb, ProjectUpdate(id).path);
      r.Some? && r.value.chain == [Routes.Protect, Routes.UploadImage, Routes.Handler(Routes.UpdateProject)]
  {
    Routes.ContactMarkReadRoute(id);
    Routes.ContactDeleteRoute(id);
    Routes.ProjectCreateRoute();
    Routes.ProjectUpdateRoute(id);
  }
}
