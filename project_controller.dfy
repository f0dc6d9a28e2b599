/** `projectRouter` and its handlers: the ownership gate in front of every
    single-project operation, the sanitised responses, and the file names
    `removeBackground` derives. The document store is a map from project id
    to project, changed in place by the handlers. */
module ProjectController {
  import opened Wrappers
  import opened JsValues
  import opened Http
  import opened Routing
  import opened NodePath
  import opened UploadImages

  // ---------------------------------------------------------------- routes

  /** The routes in registration order. */
  const ProjectRoutes: seq<Route> := [
    Route(POST, [Param("id"), Lit("upload-image")], [AuthGuardStage, UploadStage], "updateImage"),
    Route(POST, [Lit("remove-background")], [AuthGuardStage], "removeBackground"),
    Route(GET, [Lit("myProjects")], [AuthGuardStage], "getProjectOfUserController"),
    Route(POST, [Lit("create")], [AuthGuardStage], "createProjectController"),
    Route(GET, [Param("id")], [AuthGuardStage], "getProjectByIdController"),
    Route(PATCH, [Param("id")], [AuthGuardStage], "updateProjectController"),
    Route(DELETE, [Param("id")], [AuthGuardStage], "deleteProjectController")]

  /** Every project route runs `authGuard` first. */
  lemma ProjectRoutesGuarded()
    ensures forall i :: 0 <= i < |ProjectRoutes| ==>
      |ProjectRoutes[i].stages| > 0 && ProjectRoutes[i].stages[0] == AuthGuardStage
  {
  }

  /** Whichever route takes a request, the guard sees it before the
      handler. */
  lemma ProjectRouteTakenGuarded(verb: Verb, path: string)
    ensures var m := FirstMatch(ProjectRoutes, verb, path);
      m.Some? ==> |ProjectRoutes[m.value].stages| > 0 && ProjectRoutes[m.value].stages[0] == AuthGuardStage
  {
    ProjectRoutesGuarded();
  }

  /** "/myProjects" is registered before "/:id", so it reaches the list
      handler and is not read as a project id. */
  lemma MyProjectsNotShadowed(path: string)
    requires path == "/myProjects"
    ensures FirstMatch(ProjectRoutes, GET, path) == Some(2)
    ensures ProjectRoutes[2].handler == "getProjectOfUserController"
  {
    MyProjectsSegments(path);
    ListRouteFirst(path);
  }

  lemma MyProjectsSegments(path: string)
    requires path == "/myProjects"
    ensures Segments(path) == ["myProjects"]
  {
    var seg := path[1..];
    assert seg == "myProjects";
    assert path == "/" + seg;
    OneSegment(seg);
  }

  /** A GET whose one segment is "myProjects" goes to the list route. */
  lemma ListRouteFirst(path: string)
    requires Segments(path) == ["myProjects"]
    ensures FirstMatch(ProjectRoutes, GET, path) == Some(2)
  {
    assert MatchPattern(ProjectRoutes[2].pattern, Segments(path)).Some?;
    FirstMatchAt(ProjectRoutes, GET, path, 2);
  }

  /** The segments of "/" + a when `a` holds no slash. */
  lemma OneSegment(a: string)
    requires forall i :: 0 <= i < |a| ==> a[i] != '/'
    ensures Segments("/" + a) == [a]
  {
    assert ("/" + a)[1..] == a;
    SplitNoSlash(a);
  }

  // ------------------------------------------------------------ documents

  /** The fields of a project document the handlers read and write. */
  datatype Project = Project(
    id: string, title: string, pictures: seq<string>, owner: string, projectJSON: Option<string>)

  function Strings(s: seq<string>): (r: seq<Json>)
    ensures |r| == |s| && forall i :: 0 <= i < |s| ==> r[i] == JStr(s[i])
  {
    seq(|s|, i requires 0 <= i < |s| => JStr(s[i]))
  }

  /** `project.toObject()`; `projectJSON` is absent when unset. */
  function ToObject(p: Project): (j: Json)
    ensures j.JObj?
    ensures j.fields.Keys == {"_id", "title", "pictures", "owner"} + (if p.projectJSON.Some? then {"projectJSON"} else {})
    ensures j.fields["_id"] == JStr(p.id) && j.fields["owner"] == JStr(p.owner) && j.fields["title"] == JStr(p.title)
    ensures j.fields["pictures"] == JArr(Strings(p.pictures))
  {
    JObj(With(
      map["_id" := JStr(p.id), "title" := JStr(p.title), "pictures" := JArr(Strings(p.pictures)), "owner" := JStr(p.owner)],
      "projectJSON", if p.projectJSON.Some? then Some(JStr(p.projectJSON.value)) else None))
  }

  /** The single-project response: every field but `pictures`. */
  function Sanitized(p: Project): (j: Json)
    ensures j.JObj? && "pictures" !in j.fields
    ensures j.fields.Keys == ToObject(p).fields.Keys - {"pictures"}
    ensures forall k :: k in j.fields ==> j.fields[k] == ToObject(p).fields[k]
  {
    JObj(ToObject(p).fields - {"pictures"})
  }

  /** An entry of the project list: neither `pictures` nor `projectJSON`. */
  function ListEntry(p: Project): (j: Json)
    ensures j.JObj? && "pictures" !in j.fields && "projectJSON" !in j.fields
    ensures j.fields.Keys == {"_id", "title", "owner"}
    ensures forall k :: k in j.fields ==> j.fields[k] == ToObject(p).fields[k]
  {
    JObj(ToObject(p).fields - {"pictures", "projectJSON"})
  }

  /** `projects.map(...)` in `getProjectOfUserController`: one entry per
      project, in the same order, holding its id, title and owner only. */
  function SanitizeAll(ps: seq<Project>): (r: seq<Json>)
    ensures |r| == |ps|
    ensures forall i :: 0 <= i < |ps| ==>
      && r[i].JObj? && r[i].fields.Keys == {"_id", "title", "owner"}
      && r[i].fields["_id"] == JStr(ps[i].id) && r[i].fields["title"] == JStr(ps[i].title)
      && r[i].fields["owner"] == JStr(ps[i].owner)
  {
    seq(|ps|, i requires 0 <= i < |ps| => ListEntry(ps[i]))
  }

  // ---------------------------------------------------------------- gate

  /** `project.owner.toString() != userId` is false: the caller's id is the
      owner's id string. */
  predicate OwnedBy(p: Project, userId: Option<Json>) {
    userId == Some(JStr(p.owner))
  }

  datatype Answer = Answer(status: nat, body: Body)

  /** The lookup and ownership check shared by get, update, delete and
      upload: 404 for an unknown id, then 403 for someone else's project;
      None lets the handler go on. */
  function Gate(projects: map<string, Project>, id: string, userId: Option<Json>): (r: Option<Answer>)
    ensures r.None? <==> id in projects && OwnedBy(projects[id], userId)
    ensures id !in projects ==> r == Some(Answer(404, Message("Project not found")))
    ensures id in projects && !OwnedBy(projects[id], userId) ==> r == Some(Answer(403, Message("Project not yours")))
  {
    if id !in projects then Some(Answer(404, Message("Project not found")))
    else if !OwnedBy(projects[id], userId) then Some(Answer(403, Message("Project not yours")))
    else None
  }

  // ------------------------------------------------------------ creation

  const OwnerRequired := "Project validation failed: owner: Path `owner` is required."

  /** The start of MongoDB's message for an `_id` that is already taken. */
  const DuplicateKey := "E11000 duplicate key error"

  /** The id a new project gets: a string `_id` in the body, otherwise the
      fresh id the store hands out. */
  function NewProjectId(body: map<string, Json>, newId: string): string {
    if AsString(Get(body, "_id")).Some? then AsString(Get(body, "_id")).value else newId
  }

  /** `new Project({...data, owner: userId})`: every schema field of the
      body reaches the document. Title and `projectJSON` come from the body
      when they are strings (the schema trims the title and defaults it to
      ""), the pictures when they are an array of strings (default []), a
      string `_id` replaces the fresh id, and the owner is the caller
      whatever the body says. */
  function NewProject(body: map<string, Json>, userId: Option<Json>, newId: string): (r: Result<Project, string>)
    ensures r.Ok? <==> userId.Some? && userId.value.JStr?
    ensures r.Ok? ==> r.value.id == NewProjectId(body, newId) && OwnedBy(r.value, userId)
    ensures r.Ok? ==> r.value.projectJSON == AsString(Get(body, "projectJSON"))
    ensures r.Ok? && AsString(Get(body, "title")).Some? ==> r.value.title == Trim(AsString(Get(body, "title")).value)
    ensures r.Ok? && AsString(Get(body, "title")).None? ==> r.value.title == ""
    ensures r.Ok? && StringItems(Get(body, "pictures")).Some? ==>
              r.value.pictures == StringItems(Get(body, "pictures")).value
    ensures r.Ok? && "pictures" !in body ==> r.value.pictures == []
    ensures r.Err? ==> r.error == OwnerRequired
  {
    if userId.Some? && userId.value.JStr? then
      var title := AsString(Get(body, "title"));
      var pictures := StringItems(Get(body, "pictures"));
      Ok(Project(NewProjectId(body, newId), if title.Some? then Trim(title.value) else "",
                 if pictures.Some? then pictures.value else [], userId.value.s,
                 AsString(Get(body, "projectJSON"))))
    else Err(OwnerRequired)
  }

  /** An `owner` in the body changes nothing about the new project. */
  lemma CreateIgnoresBodyOwner(body: map<string, Json>, forged: Json, userId: Option<Json>, newId: string)
    ensures NewProject(body["owner" := forged], userId, newId) == NewProject(body, userId, newId)
  {
    var forgedBody := body["owner" := forged];
    assert Get(forgedBody, "title") == Get(body, "title");
    assert Get(forgedBody, "projectJSON") == Get(body, "projectJSON");
    assert Get(forgedBody, "pictures") == Get(body, "pictures");
    assert Get(forgedBody, "_id") == Get(body, "_id");
  }

  // -------------------------------------------------------------- update

  /** `updateProject(project._id, req.body)`: the body is handed to the
      store whole, so every schema field it holds as a value of the
      field's type is applied (a string title, trimmed; a string
      `projectJSON` or owner; an array of strings for the pictures); the
      id never changes. */
  function Updated(p: Project, body: map<string, Json>): (q: Project)
    ensures q.id == p.id
    ensures AsString(Get(body, "owner")).Some? ==> q.owner == AsString(Get(body, "owner")).value
    ensures "owner" !in body ==> q.owner == p.owner
    ensures StringItems(Get(body, "pictures")).Some? ==> q.pictures == StringItems(Get(body, "pictures")).value
    ensures "pictures" !in body ==> q.pictures == p.pictures
    ensures AsString(Get(body, "title")).Some? ==> q.title == Trim(AsString(Get(body, "title")).value)
    ensures AsString(Get(body, "title")).None? ==> q.title == p.title
    ensures AsString(Get(body, "projectJSON")).Some? ==> q.projectJSON == AsString(Get(body, "projectJSON"))
    ensures AsString(Get(body, "projectJSON")).None? ==> q.projectJSON == p.projectJSON
  {
    var title := AsString(Get(body, "title"));
    var json := AsString(Get(body, "projectJSON"));
    var owner := AsString(Get(body, "owner"));
    var pictures := StringItems(Get(body, "pictures"));
    p.(title := if title.Some? then Trim(title.value) else p.title,
       projectJSON := if json.Some? then json else p.projectJSON,
       owner := if owner.Some? then owner.value else p.owner,
       pictures := if pictures.Some? then pictures.value else p.pictures)
  }

  /** The strings of a JSON array of strings. */
  function StringItems(v: Option<Json>): (r: Option<seq<string>>)
    ensures r.Some? ==> v.Some? && v.value.JArr? && v.value.items == Strings(r.value)
    ensures v.Some? && v.value.JArr? && (forall i :: 0 <= i < |v.value.items| ==> v.value.items[i].JStr?) ==> r.Some?
  {
    if v.Some? && v.value.JArr? && forall i :: 0 <= i < |v.value.items| ==> v.value.items[i].JStr? then
      Some(seq(|v.value.items|, i requires 0 <= i < |v.value.items| && v.value.items[i].JStr? => v.value.items[i].s))
    else None
  }

  /** Sending the same update twice leaves the project as the first one
      left it. */
  lemma UpdateIdempotent(p: Project, body: map<string, Json>)
    ensures Updated(Updated(p, body), body) == Updated(p, body)
  {
    var title := AsString(Get(body, "title"));
    if title.Some? {
      TrimIdempotent(title.value);
    }
  }

  // --------------------------------------------------- background removal

  /** The names `removeBackground` derives from the image URL. */
  datatype BackgroundNames = BackgroundNames(input: string, download: string, output: string, url: string)

  datatype BackgroundError =
    | NoImageUrl    // 400 "No image URL provided"
    | UrlNotString  // `path.basename` throws; the error goes to the unseen `handleGeneralError`

  /** `req.query.format` when it is a string, "png" otherwise. */
  function Format(query: Option<Json>): (f: string)
    ensures AsString(query).Some? ==> f == AsString(query).value
    ensures AsString(query).None? ==> f == "png"
  {
    if AsString(query).Some? then AsString(query).value else "png"
  }

  /** The output name as written: `download.replace(extname(download),
      "." + format)`, which replaces the FIRST occurrence of the extension,
      and puts the new one in front when there is no extension. */
  function OutputNameAsWritten(download: string, format: string): string {
    ReplaceFirst(download, ExtName(download), "." + format)
  }

  /** The evidently intended output name: the extension at the end of the
      name is replaced, or added when there is none. */
  function OutputName(download: string, format: string): string {
    var x := ExtName(download);
    download[..|download| - |x|] + "." + format
  }

  /** The intended output name of a name with an extension is the name
      with that extension replaced. */
  lemma {:induction false} OutputNameReplacesExtension(stem: string, x: string, format: string)
    requires stem != [] && stem[0] != '.'
    requires forall i :: 0 <= i < |stem| ==> stem[i] != '/'
    requires forall i :: 0 <= i < |x| ==> x[i] != '.' && x[i] != '/'
    ensures OutputName(stem + "." + x, format) == stem + "." + format
  {
    var name := stem + "." + x;
    ExtNameOf(stem, x);
    assert |name| - |"." + x| == |stem|;
    assert name[..|stem|] == stem;
  }

  /** Its own extension is then the new format, so a processed image
      carries the format it was converted to. */
  lemma OutputNameHasFormat(stem: string, x: string, format: string)
    requires stem != [] && stem[0] != '.'
    requires forall i :: 0 <= i < |stem| ==> stem[i] != '/'
    requires forall i :: 0 <= i < |x| ==> x[i] != '.' && x[i] != '/'
    requires forall i :: 0 <= i < |format| ==> format[i] != '.' && format[i] != '/'
    ensures ExtName(OutputName(stem + "." + x, format)) == "." + format
  {
    OutputNameReplacesExtension(stem, x, format);
    ExtNameOf(stem, format);
  }

  /** A name with neither dot nor slash has no extension: the intended
      output name appends the new one, while the name as written gets it
      in front. */
  lemma {:induction false} OutputNameWithoutExtension(name: string, format: string)
    requires forall i :: 0 <= i < |name| ==> name[i] != '/' && name[i] != '.'
    ensures OutputName(name, format) == name + "." + format
    ensures OutputNameAsWritten(name, format) == "." + format + name
  {
    BasenameOfName(name);
    ExtNameWithoutDot(name);
    assert name[..|name|] == name;
  }

  /** The first occurrence of "." + x in stem + "." + x + "." + x, for a
      stem without dots, is the earlier one, so the name as written keeps
      the real extension and replaces the one before it. */
  lemma {:induction false} OutputNameDoubledExtension(stem: string, x: string, format: string)
    requires stem != [] && stem[0] != '.'
    requires forall i :: 0 <= i < |stem| ==> stem[i] != '/' && stem[i] != '.'
    requires forall i :: 0 <= i < |x| ==> x[i] != '.' && x[i] != '/'
    ensures OutputNameAsWritten(stem + "." + x + "." + x, format) == stem + "." + format + "." + x
    ensures OutputName(stem + "." + x + "." + x, format) == stem + "." + x + "." + format
  {
    var name := stem + "." + x + "." + x;
    var rep := "." + format;
    assert OutputNameAsWritten(name, format) == ReplaceFirst(name, "." + x, rep) by {
      DoubledExt(stem, x);
      AsWrittenReplaces(name, "." + x, format);
    }
    assert ReplaceFirst(name, "." + x, rep) == name[..|stem|] + rep + name[|stem| + |"." + x|..] by {
      DoubledIndex(stem, x);
      ReplaceAt(name, "." + x, |stem|, rep);
    }
    assert name[..|stem|] + rep + name[|stem| + |"." + x|..] == stem + "." + format + "." + x by {
      DoubledSlices(stem, x);
      Regroup(stem, format, x);
    }
    assert OutputName(name, format) == stem + "." + x + "." + format by {
      NoSlashInDotted(stem, x);
      assert (stem + "." + x)[0] == stem[0];
      OutputNameReplacesExtension(stem + "." + x, x, format);
    }
  }

  /** The name as written replaces the first occurrence of the extension. */
  lemma AsWrittenReplaces(name: string, pat: string, format: string)
    requires ExtName(name) == pat
    ensures OutputNameAsWritten(name, format) == ReplaceFirst(name, pat, "." + format)
  {
  }

  lemma ReplaceAt(name: string, pat: string, k: nat, rep: string)
    requires IndexOfFrom(name, pat, 0) == Some(k)
    ensures k + |pat| <= |name|
    ensures ReplaceFirst(name, pat, rep) == name[..k] + rep + name[k + |pat|..]
  {
  }

  /** Replacing an occurrence that ends the string, and is the first one,
      by a new extension. */
  lemma ReplaceAtEnd(s: string, pat: string, format: string)
    requires |pat| <= |s| && IndexOfFrom(s, pat, 0) == Some(|s| - |pat|)
    ensures ReplaceFirst(s, pat, "." + format) == s[..|s| - |pat|] + "." + format
  {
    var i := |s| - |pat|;
    ReplaceAt(s, pat, i, "." + format);
    JoinEmptyTail(s[..i], s[i + |pat|..], format);
  }

  lemma JoinEmptyTail(a: string, t: string, format: string)
    requires |t| == 0
    ensures a + ("." + format) + t == a + "." + format
  {
  }

  lemma Assoc(a: string, b: string, c: string)
    ensures a + (b + c) == a + b + c
  {
  }

  lemma Regroup(a: string, b: string, c: string)
    ensures a + ("." + b) + ("." + c) == a + "." + b + "." + c
  {
  }

  lemma DoubledSlices(stem: string, x: string)
    ensures var name := stem + "." + x + "." + x;
      && |stem| + |"." + x| <= |name|
      && name[..|stem|] == stem && name[|stem| + |"." + x|..] == "." + x
  {
    var name := stem + "." + x + "." + x;
    assert name[..|stem|] == stem;
    assert name[|stem| + |"." + x|..] == "." + x;
  }

  lemma DoubledExt(stem: string, x: string)
    requires stem != [] && stem[0] != '.'
    requires forall i :: 0 <= i < |stem| ==> stem[i] != '/'
    requires forall i :: 0 <= i < |x| ==> x[i] != '.' && x[i] != '/'
    ensures ExtName(stem + "." + x + "." + x) == "." + x
  {
    NoSlashInDotted(stem, x);
    ExtNameOf(stem + "." + x, x);
  }

  lemma DoubledIndex(stem: string, x: string)
    requires forall i :: 0 <= i < |stem| ==> stem[i] != '.'
    ensures IndexOfFrom(stem + "." + x + "." + x, "." + x, 0) == Some(|stem|)
  {
    var name := stem + "." + x + "." + x;
    assert name[..|stem|] == stem;
    assert name[|stem|..|stem| + |"." + x|] == "." + x;
    DotFirstAfterStem(stem, "." + x, name);
  }

  /** In stem + pat + rest, with a stem free of dots and a pattern that
      starts with one, the first occurrence of the pattern follows the stem. */
  lemma DotFirstAfterStem(stem: string, pat: string, name: string)
    requires forall i :: 0 <= i < |stem| ==> stem[i] != '.'
    requires pat != [] && pat[0] == '.'
    requires |stem| + |pat| <= |name| && name[..|stem|] == stem && name[|stem|..|stem| + |pat|] == pat
    ensures IndexOfFrom(name, pat, 0) == Some(|stem|)
  {
    forall i | 0 <= i < |stem| ensures !OccursAt(name, pat, i) {
      assert name[i] == stem[i];
    }
    FirstOccurrence(name, pat, |stem|);
  }

  /** What `removeBackground` derives before any download: the base name
      of the URL, the downloaded copy "new-" + base name, the processed
      output name, and the URL it answers with, which names the input file
      again. */
  function RemoveBackgroundNames(formatQuery: Option<Json>, imageUrl: Option<Json>, backendUrl: Option<string>)
    : (r: Result<BackgroundNames, BackgroundError>)
    ensures !Truthy(imageUrl) ==> r == Err(NoImageUrl)
    ensures Truthy(imageUrl) && AsString(imageUrl).None? ==> r == Err(UrlNotString)
    ensures r.Ok? ==>
      && var url := AsString(imageUrl).value;
      && r.value.input == Basename(url)
      && r.value.download == "new-" + Basename(url)
      && r.value.output == OutputName(r.value.download, Format(formatQuery))
      && r.value.url == GenerateFileUrl(Basename(url), "projects", backendUrl)
  {
    if !Truthy(imageUrl) then Err(NoImageUrl)
    else if AsString(imageUrl).None? then Err(UrlNotString)
    else
      var input := Basename(AsString(imageUrl).value);
      var download := "new-" + input;
      Ok(BackgroundNames(input, download, OutputName(download, Format(formatQuery)),
                         GenerateFileUrl(input, "projects", backendUrl)))
  }

  /** The URL `removeBackground` answers with names the same stored file
      as the image URL it was given, when that URL is one the server
      handed out. */
  lemma BackgroundKeepsFileUrl(filename: string, formatQuery: Option<Json>, backendUrl: Option<string>)
    requires filename != [] && forall i :: 0 <= i < |filename| ==> filename[i] != '/'
    ensures var u := GenerateFileUrl(filename, "projects", backendUrl);
      var r := RemoveBackgroundNames(formatQuery, Some(JStr(u)), backendUrl);
      r.Ok? && r.value.input == filename && r.value.url == u
  {
    var u := GenerateFileUrl(filename, "projects", backendUrl);
    UrlNamesFile(filename, "projects", backendUrl);
    assert Truthy(Some(JStr(u))) && AsString(Some(JStr(u))) == Some(u);
  }

  /** The output name as written misplaces the extension: a name without
      one, such as "new-photo", gets ".png" in FRONT. */
  lemma OutputNameAsWrittenPrepends(photo: string)
    requires photo == "new-photo"
    ensures OutputNameAsWritten(photo, "png") == ".pngnew-photo"
    ensures OutputName(photo, "png") == "new-photo.png"
  {
    OutputNameWithoutExtension(photo, "png");
  }

  /** A name whose extension also occurs earlier, such as "new-a.png.png",
      has that earlier occurrence replaced. */
  lemma OutputNameAsWrittenReplacesEarlier(name: string, stem: string)
    requires stem == "new-a" && name == stem + ".png.png"
    ensures OutputNameAsWritten(name, "jpg") == stem + ".jpg.png"
    ensures OutputName(name, "jpg") == stem + ".png.jpg"
  {
    assert name == stem + "." + "png" + "." + "png";
    assert stem + "." + "jpg" + "." + "png" == stem + ".jpg.png" by {
      Regroup(stem, "jpg", "png");
    }
    assert stem + "." + "png" + "." + "jpg" == stem + ".png.jpg" by {
      Regroup(stem, "png", "jpg");
    }
    OutputNameDoubledExtension(stem, "png", "jpg");
  }

  /** Where the extension occurs only at the end, the two agree. */
  lemma {:induction false} OutputNameAsWrittenAgrees(download: string, format: string)
    requires ExtName(download) != []
    requires IndexOfFrom(download, ExtName(download), 0) == Some(|download| - |ExtName(download)|)
    ensures OutputNameAsWritten(download, format) == OutputName(download, format)
  {
    ReplaceAtEnd(download, ExtName(download), format);
  }

  // ------------------------------------------------------------- handlers

  const NoImage := "No image uploaded."

  /** The project collection, changed in place by the handlers. */
  class ProjectStore {
    var projects: map<string, Project>

    constructor (projects: map<string, Project>)
      ensures this.projects == projects
    {
      this.projects := projects;
    }

    /** GET /:id: the gate, then the project without its pictures. */
    method GetProjectById(res: Response, userId: Option<Json>, id: string)
      modifies res
      ensures Gate(projects, id, userId).Some? ==>
        res.status == Some(Gate(projects, id, userId).value.status) && res.body == Gate(projects, id, userId).value.body
      ensures Gate(projects, id, userId).None? ==> res.status == Some(200) && res.body == Data(Sanitized(projects[id]))
      ensures res.cookieOps == old(res.cookieOps)
    {
      var g := Gate(projects, id, userId);
      if g.Some? {
        res.Send(g.value.status, g.value.body);
      } else {
        res.Send(200, Data(Sanitized(projects[id])));
      }
    }

    /** POST /create: the new project, owned by the caller, under the
        body's `_id` or a fresh id; a caller without an id string fails
        validation and an `_id` already in use fails the unique index,
        both with 500. */
    method CreateProject(res: Response, userId: Option<Json>, body: map<string, Json>, newId: string)
      requires newId !in projects
      modifies this, res
      ensures NewProject(body, userId, newId).Ok? && NewProject(body, userId, newId).value.id !in old(projects) ==>
        && var p := NewProject(body, userId, newId).value;
        && projects == old(projects)[p.id := p]
        && res.status == Some(200) && res.body == Data(ToObject(p))
      ensures NewProject(body, userId, newId).Ok? && NewProject(body, userId, newId).value.id in old(projects) ==>
        projects == old(projects) && res.status == Some(500) && res.body == Message(DuplicateKey)
      ensures NewProject(body, userId, newId).Err? ==>
        projects == old(projects) && res.status == Some(500) && res.body == Message(OwnerRequired)
      ensures res.cookieOps == old(res.cookieOps)
    {
      match NewProject(body, userId, newId)
      case Ok(p) =>
        if p.id in projects {
          res.Send(500, Message(DuplicateKey));
        } else {
          projects := projects[p.id := p];
          res.Send(200, Data(ToObject(p)));
        }
      case Err(e) =>
        res.Send(500, Message(e));
    }

    /** PATCH /:id: the gate, then the body applied to the stored project;
        the response shows the project as it was before the update. */
    method UpdateProject(res: Response, userId: Option<Json>, id: string, body: map<string, Json>)
      modifies this, res
      ensures Gate(old(projects), id, userId).Some? ==>
        && projects == old(projects)
        && res.status == Some(Gate(old(projects), id, userId).value.status)
        && res.body == Gate(old(projects), id, userId).value.body
      ensures Gate(old(projects), id, userId).None? ==>
        && projects == old(projects)[id := Updated(old(projects)[id], body)]
        && res.status == Some(200) && res.body == Data(ToObject(old(projects)[id]))
      ensures res.cookieOps == old(res.cookieOps)
    {
      var g := Gate(projects, id, userId);
      if g.Some? {
        res.Send(g.value.status, g.value.body);
      } else {
        var before := projects[id];
        projects := projects[id := Updated(before, body)];
        res.Send(200, Data(ToObject(before)));
      }
    }

    /** DELETE /:id: the gate, then the project is gone (`sendStatus(200)`). */
    method DeleteProject(res: Response, userId: Option<Json>, id: string)
      modifies this, res
      ensures Gate(old(projects), id, userId).Some? ==>
        && projects == old(projects)
        && res.status == Some(Gate(old(projects), id, userId).value.status)
        && res.body == Gate(old(projects), id, userId).value.body
      ensures Gate(old(projects), id, userId).None? ==>
        projects == old(projects) - {id} && res.status == Some(200) && res.body == OkBody
      ensures res.cookieOps == old(res.cookieOps)
    {
      var g := Gate(projects, id, userId);
      if g.Some? {
        res.Send(g.value.status, g.value.body);
      } else {
        projects := projects - {id};
        res.Send(200, OkBody);
      }
    }

    /** POST /:id/upload-image: 400 before any lookup when no file came
        in, then the gate; the stored file name is appended to the
        pictures and its URL returned. */
    method UpdateImage(res: Response, userId: Option<Json>, id: string, file: Option<string>, backendUrl: Option<string>)
      modifies this, res
      ensures file.None? ==> projects == old(projects) && res.status == Some(400) && res.body == Message(NoImage)
      ensures file.Some? && Gate(old(projects), id, userId).Some? ==>
        && projects == old(projects)
        && res.status == Some(Gate(old(projects), id, userId).value.status)
        && res.body == Gate(old(projects), id, userId).value.body
      ensures file.Some? && Gate(old(projects), id, userId).None? ==>
        && var p := old(projects)[id];
        && projects == old(projects)[id := p.(pictures := p.pictures + [file.value])]
        && res.status == Some(200)
        && res.body == Data(JObj(map["image" := JStr(GenerateFileUrl(file.value, "projects", backendUrl))]))
      ensures res.cookieOps == old(res.cookieOps)
    {
      if file.None? {
        res.Send(400, Message(NoImage));
        return;
      }
      var g := Gate(projects, id, userId);
      if g.Some? {
        res.Send(g.value.status, g.value.body);
        return;
      }
      var p := projects[id];
      projects := projects[id := p.(pictures := p.pictures + [file.value])];
      res.Send(200, Data(JObj(map["image" := JStr(GenerateFileUrl(file.value, "projects", backendUrl))])));
    }
  }

  /** GET /myProjects: the store's answer for the caller (None when the
      query finds no list) becomes 404 or the sanitised list. */
  method GetProjectsOfUser(res: Response, found: Option<seq<Project>>)
    modifies res
    ensures found.None? ==> res.status == Some(404) && res.body == Message("User not found")
    ensures found.Some? ==> res.status == Some(200) && res.body == Data(JArr(SanitizeAll(found.value)))
    ensures res.cookieOps == old(res.cookieOps)
  {
    if found.None? {
      res.Send(404, Message("User not found"));
    } else {
      res.Send(200, Data(JArr(SanitizeAll(found.value))));
    }
  }

  /** A project the caller created passes the gate for that caller and for
      no one else. */
  lemma CreatedProjectGate(projects: map<string, Project>, body: map<string, Json>, userId: Option<Json>,
                           other: Option<Json>, newId: string)
    requires NewProject(body, userId, newId).Ok?
    ensures var p := NewProject(body, userId, newId).value;
      var after := projects[p.id := p];
      && Gate(after, p.id, userId).None?
      && (other != userId ==> Gate(after, p.id, other) == Some(Answer(403, Message("Project not yours"))))
  {
  }
}
