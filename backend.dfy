/**
 * The Flask application (app.py): the upload handler with its file check and
 * `dd/mm/yyyy` to `yyyy-mm-dd` date conversion, project creation with name
 * trimming and the blank and duplicate checks, the seeding of the default
 * project, the project submission page and the login/logout/admin session
 * gate. The two sqlite tables and the session flag are the fields of `Server`.
 */
module Backend {
  import opened Wrappers
  import opened Text

  /** A row of the `projects` table. */
  datatype Project = Project(id: nat, name: string, description: string)

  /**
   * The values `upload` inserts into `receipts`. `projectId` is the raw
   * `projectSelect` field (absent when the form has none); the amount is kept
   * as the submitted text.
   */
  datatype NewReceipt = NewReceipt(
    projectId: Option<string>,
    roomNumber: string,
    studyLevel: string,
    studentId: string,
    amount: string,
    transferDate: Option<string>,
    notes: string,
    imagePath: string)

  /** A row of the `receipts` table: its autoincrement id and the inserted values. */
  datatype StoredReceipt = StoredReceipt(id: nat, data: NewReceipt)

  /** The uploaded file part; werkzeug treats a file with an empty name as absent. */
  datatype FileStorage = FileStorage(filename: string)

  /** What a handler returns: a JSON object, a rendered template, a redirect or plain text. */
  datatype Body =
    | Json(success: bool, error: Option<string>)
    | Page(template: string, error: Option<string>)
    | SubmitForm(project: Project)
    | Redirect(endpoint: string)
    | Plain(content: string)

  datatype Response = Response(status: nat, body: Body)

  const DefaultName: string := "Default Collection"
  const DefaultDescription: string := "Default project for collecting receipts"
  const AdminPassword: string := "admin123"
  const NameRequired: string := "Project name is required"
  const NameExists: string := "Project name already exists"
  const CreatedScript: string := "<script>alert(\"Project created successfully.\"); window.location.href=\"/admin\";</script>"

  /** Flask's answer to the key error of indexing a form field that was not sent. */
  const BadRequest: Response := Response(400, Plain("Bad Request"))

  /** Flask's answer when a handler raises an exception it does not catch. */
  const ServerError: Response := Response(500, Plain("Internal Server Error"))

  /**
   * The answer to a missing form field under the app's `debug` setting: in
   * debug mode (`app.run(debug=True)`, app.py:166) Flask does not trap the
   * key error as a bad request, so it propagates as an unhandled exception.
   */
  function MissingField(debug: bool): Response
  {
    if debug then ServerError else BadRequest
  }

  /** `upload`'s answer when there is no usable file. */
  const NoFile: Response := Response(400, Json(false, None))

  // ---------------------------------------------------------------- upload

  /** `if file:` on the uploaded file: there is one and its file name is not empty. */
  predicate HasFile(file: Option<FileStorage>)
  {
    file.Some? && file.value.filename != ""
  }

  /**
   * The date conversion of `upload`: an empty field is stored as `None`; any
   * other text must split on `/` into exactly three pieces `d`, `m`, `y`
   * (otherwise the unpacking raises and the request fails with 500) and is
   * stored as `y-m-d`.
   */
  function ConvertDate(s: string): (r: Result<Option<string>, Response>)
    ensures s == "" <==> r == Ok(None)
    ensures r.Err? <==> s != "" && |Split(s, '/')| != 3
    ensures r.Err? ==> r.error == ServerError
  {
    if s == "" then Ok(None)
    else
      var parts := Split(s, '/');
      if |parts| != 3 then Err(ServerError)
      else Ok(Some(parts[2] + "-" + parts[1] + "-" + parts[0]))
  }

  /** A `d/m/y` date whose pieces hold no `/` is stored as `y-m-d`. */
  lemma ConvertDateParts(d: string, m: string, y: string)
    requires '/' !in d && '/' !in m && '/' !in y
    ensures ConvertDate(d + "/" + m + "/" + y) == Ok(Some(y + "-" + m + "-" + d))
  {
    SplitCons(m, '/', y);
    SplitNoSeparator(y, '/');
    assert d + "/" + m + "/" + y == d + ['/'] + (m + ['/'] + y);
    SplitCons(d, '/', m + ['/'] + y);
  }

  /** The form fields `upload` indexes directly; a missing one is a bad request. */
  const RequiredFields: set<string> := {"roomSelect", "studyLevel", "studentId", "amount"}

  /**
   * What `upload` makes of a request, in the order the handler evaluates it:
   * the file check, the `transferDate` lookup, the date conversion, then the
   * remaining fields of the insert. `savedName` is the name the file was saved
   * under and `debug` the app's debug setting. `Ok` carries the values of the
   * row to insert.
   */
  function ParseUpload(debug: bool, form: map<string, string>, file: Option<FileStorage>, savedName: string): (r: Result<NewReceipt, Response>)
    ensures !HasFile(file) ==> r == Err(NoFile)
    ensures HasFile(file) && "transferDate" !in form ==> r == Err(MissingField(debug))
    ensures HasFile(file) && "transferDate" in form && ConvertDate(form["transferDate"]).Err? ==> r == Err(ServerError)
    ensures r.Ok? <==> HasFile(file) && "transferDate" in form && ConvertDate(form["transferDate"]).Ok? && RequiredFields <= form.Keys
    ensures r.Ok? ==>
      && r.value.roomNumber == form["roomSelect"] && r.value.studyLevel == form["studyLevel"]
      && r.value.studentId == form["studentId"] && r.value.amount == form["amount"]
      && r.value.transferDate == ConvertDate(form["transferDate"]).value
      && r.value.projectId == (if "projectSelect" in form then Some(form["projectSelect"]) else None)
      && r.value.notes == (if "notes" in form then form["notes"] else "")
      && r.value.imagePath == savedName
    ensures r.Err? ==> r.error.status == 400 || r.error.status == 500
    ensures !debug && HasFile(file) && "transferDate" in form && ConvertDate(form["transferDate"]).Ok? && r.Err? ==>
      r.error == BadRequest
    ensures debug && HasFile(file) && r.Err? ==> r.error == ServerError
  {
    if !HasFile(file) then Err(NoFile)
    else if "transferDate" !in form then Err(MissingField(debug))
    else
      match ConvertDate(form["transferDate"])
      case Err(e) => Err(e)
      case Ok(date) =>
        if !(RequiredFields <= form.Keys) then Err(MissingField(debug))
        else
          var projectId := if "projectSelect" in form then Some(form["projectSelect"]) else None;
          var notes := if "notes" in form then form["notes"] else "";
          Ok(NewReceipt(projectId, form["roomSelect"], form["studyLevel"], form["studentId"], form["amount"], date, notes, savedName))
  }

  // ---------------------------------------------------------------- projects

  /** A stored project name: not blank, and with no whitespace at either end. */
  predicate ProperName(n: string)
  {
    n != "" && !IsSpace(n[0]) && !IsSpace(n[|n| - 1])
  }

  /** A proper name is exactly a non-blank name that stripping leaves as it is. */
  lemma ProperNameStripped(n: string)
    ensures ProperName(n) <==> n != "" && Strip(n) == n
  {
    if ProperName(n) {
      StripUnchanged(n);
    }
    StripFacts(n);
  }

  /** The `UNIQUE` constraint on `projects.name`. */
  predicate UniqueNames(ps: seq<Project>)
  {
    forall i, j :: 0 <= i < j < |ps| ==> ps[i].name != ps[j].name
  }

  /** The name constraints of the `projects` table, with the trimming `create_project` applies. */
  predicate NamesOk(ps: seq<Project>)
  {
    UniqueNames(ps) && forall i :: 0 <= i < |ps| ==> ProperName(ps[i].name)
  }

  predicate NameTaken(ps: seq<Project>, n: string)
  {
    exists i :: 0 <= i < |ps| && ps[i].name == n
  }

  /** Autoincrement ids: positive, below the next id to hand out, ascending in insertion order. */
  predicate ProjectIds(ps: seq<Project>, next: nat)
  {
    && (forall i :: 0 <= i < |ps| ==> 1 <= ps[i].id < next)
    && (forall i, j :: 0 <= i < j < |ps| ==> ps[i].id < ps[j].id)
  }

  /** Appending a row under the next id keeps the ids ascending and below the advanced counter. */
  lemma AppendProjectId(ps: seq<Project>, next: nat, p: Project)
    requires ProjectIds(ps, next) && p.id == next && 1 <= next
    ensures ProjectIds(ps + [p], next + 1)
  {
  }

  predicate ReceiptIds(rs: seq<StoredReceipt>, next: nat)
  {
    && (forall i :: 0 <= i < |rs| ==> 1 <= rs[i].id < next)
    && (forall i, j :: 0 <= i < j < |rs| ==> rs[i].id < rs[j].id)
  }

  /**
   * The checks of `create_project` on the submitted name: it is trimmed; a
   * blank result is refused as required, one already in the table as a
   * duplicate; otherwise the trimmed name is the one to insert.
   */
  function CheckProjectName(ps: seq<Project>, name: string): (r: Result<string, string>)
    ensures r.Ok? ==> r.value == Strip(name) && ProperName(r.value) && !NameTaken(ps, r.value)
    ensures r == Err(NameRequired) <==> Strip(name) == ""
    ensures r == Err(NameExists) <==> Strip(name) != "" && NameTaken(ps, Strip(name))
    ensures r.Ok? || r == Err(NameRequired) || r == Err(NameExists)
  {
    var n := Strip(name);
    StripFacts(name);
    if n == "" then Err(NameRequired)
    else if NameTaken(ps, n) then Err(NameExists)
    else Ok(n)
  }

  /** Inserting a name that passed the checks keeps the names unique and proper. */
  lemma {:induction false} InsertKeepsNames(ps: seq<Project>, n: string, id: nat, description: string)
    requires NamesOk(ps)
    requires ProperName(n) && !NameTaken(ps, n)
    ensures NamesOk(ps + [Project(id, n, description)])
  {
    var qs := ps + [Project(id, n, description)];
    forall i, j | 0 <= i < j < |qs| ensures qs[i].name != qs[j].name {
      if j == |ps| {
        assert qs[i] == ps[i];
      }
    }
  }

  /** The project with id `id`, if the table holds one. */
  function FindProject(ps: seq<Project>, id: nat): (r: Option<Project>)
    ensures r.Some? ==> r.value.id == id && r.value in ps
    ensures r.None? <==> forall i :: 0 <= i < |ps| ==> ps[i].id != id
  {
    if ps == [] then None
    else if ps[0].id == id then Some(ps[0])
    else FindProject(ps[1..], id)
  }

  /** With distinct ids the lookup finds the one project carrying the id. */
  lemma {:induction false} FindProjectUnique(ps: seq<Project>, next: nat, i: nat)
    requires ProjectIds(ps, next) && i < |ps|
    ensures FindProject(ps, ps[i].id) == Some(ps[i])
  {
    if i > 0 {
      assert ps[0].id < ps[i].id;
      assert ProjectIds(ps[1..], next);
      FindProjectUnique(ps[1..], next, i - 1);
    }
  }

  /** The route `/submit/<int:project_id>`: the project id of a path, if the path is one. */
  function SubmitRoute(path: string): (r: Option<nat>)
    ensures r.Some? ==> |path| > 8 && path[..8] == "/submit/" && ParseNat(path[8..]) == r
    ensures |path| > 8 && path[..8] == "/submit/" && ParseNat(path[8..]).Some? ==> r == ParseNat(path[8..])
  {
    if |path| > 8 && path[..8] == "/submit/" then ParseNat(path[8..]) else None
  }

  // ---------------------------------------------------------------- the session

  /** The requests that touch the `logged_in` flag of one client's session. */
  datatype SessionEvent = LoginPage | LoginPost(password: Option<string>) | LogoutEvent | AdminVisit

  /** The flag after one request: a correct password sets it, `logout` clears it, nothing else changes it. */
  function SessionStep(flag: bool, e: SessionEvent): bool
  {
    match e
    case LoginPost(pw) => flag || pw == Some(AdminPassword)
    case LogoutEvent => false
    case _ => flag
  }

  /** The flag after a run of requests. */
  function SessionAfter(flag: bool, es: seq<SessionEvent>): bool
  {
    if es == [] then flag else SessionStep(SessionAfter(flag, es[..|es| - 1]), es[|es| - 1])
  }

  /** Request `i` is a login with the admin password. */
  predicate GoodLogin(es: seq<SessionEvent>, i: int)
  {
    0 <= i < |es| && es[i] == LoginPost(Some(AdminPassword))
  }

  /** No `logout` comes after request `i`. */
  predicate NoLogoutAfter(es: seq<SessionEvent>, i: int)
  {
    forall j :: 0 <= j < |es| && i < j ==> es[j] != LogoutEvent
  }

  /**
   * In a fresh session `admin` is reachable exactly when some login used the
   * admin password and no logout followed it.
   */
  lemma {:induction false} AdminGate(es: seq<SessionEvent>)
    ensures SessionAfter(false, es) <==> exists i :: GoodLogin(es, i) && NoLogoutAfter(es, i)
  {
    if es != [] {
      var init := es[..|es| - 1];
      var last := es[|es| - 1];
      AdminGate(init);
      if SessionAfter(false, es) {
        if last == LoginPost(Some(AdminPassword)) {
          assert GoodLogin(es, |es| - 1) && NoLogoutAfter(es, |es| - 1);
        } else {
          assert last != LogoutEvent;
          var i :| GoodLogin(init, i) && NoLogoutAfter(init, i);
          assert GoodLogin(es, i) && NoLogoutAfter(es, i);
        }
      }
      if i :| GoodLogin(es, i) && NoLogoutAfter(es, i) {
        if i < |es| - 1 {
          assert GoodLogin(init, i) && NoLogoutAfter(init, i);
          assert last != LogoutEvent;
        }
      }
    }
  }

  // ---------------------------------------------------------------- the server

  /** The database, one client's session and the app's debug setting. */
  class Server {
    const debug: bool
    var projects: seq<Project>
    var receipts: seq<StoredReceipt>
    var nextProjectId: nat
    var nextReceiptId: nat
    var loggedIn: bool

    /** The table constraints and the autoincrement counters. */
    ghost predicate Valid()
      reads this
    {
      && 1 <= nextProjectId && 1 <= nextReceiptId
      && NamesOk(projects)
      && ProjectIds(projects, nextProjectId)
      && ReceiptIds(receipts, nextReceiptId)
    }

    /** A new database file and a new session: no rows, counters at 1, not logged in. */
    constructor(debug: bool)
      ensures Valid()
      ensures this.debug == debug
      ensures projects == [] && receipts == [] && !loggedIn
      ensures nextProjectId == 1 && nextReceiptId == 1
    {
      this.debug := debug;
      projects := [];
      receipts := [];
      nextProjectId := 1;
      nextReceiptId := 1;
      loggedIn := false;
    }

    /** `init_db`: the default project is inserted only into an empty table. */
    method InitDb()
      requires Valid()
      modifies this
      ensures Valid()
      ensures |projects| >= 1
      ensures old(projects) == [] ==>
        projects == [Project(old(nextProjectId), DefaultName, DefaultDescription)] && nextProjectId == old(nextProjectId) + 1
      ensures old(projects) != [] ==> projects == old(projects) && nextProjectId == old(nextProjectId)
      ensures receipts == old(receipts) && nextReceiptId == old(nextReceiptId) && loggedIn == old(loggedIn)
    {
      if |projects| == 0 {
        projects := [Project(nextProjectId, DefaultName, DefaultDescription)];
        nextProjectId := nextProjectId + 1;
      }
    }

    /** `upload`: insert one receipt for a request that passes every check, nothing otherwise. */
    method Upload(form: map<string, string>, file: Option<FileStorage>, savedName: string) returns (resp: Response)
      requires Valid()
      modifies this
      ensures Valid()
      ensures projects == old(projects) && nextProjectId == old(nextProjectId) && loggedIn == old(loggedIn)
      ensures ParseUpload(debug, form, file, savedName).Err? ==>
        resp == ParseUpload(debug, form, file, savedName).error
        && receipts == old(receipts) && nextReceiptId == old(nextReceiptId)
      ensures ParseUpload(debug, form, file, savedName).Ok? ==>
        && resp == Response(200, Json(true, None))
        && receipts == old(receipts) + [StoredReceipt(old(nextReceiptId), ParseUpload(debug, form, file, savedName).value)]
        && nextReceiptId == old(nextReceiptId) + 1
    {
      if !HasFile(file) {
        return NoFile;
      }
      if "transferDate" !in form {
        return MissingField(debug);
      }
      var transferDate := ConvertDate(form["transferDate"]);
      if transferDate.Err? {
        return transferDate.error;
      }
      if !(RequiredFields <= form.Keys) {
        return MissingField(debug);
      }
      var projectId := if "projectSelect" in form then Some(form["projectSelect"]) else None;
      var notes := if "notes" in form then form["notes"] else "";
      var row := NewReceipt(projectId, form["roomSelect"], form["studyLevel"], form["studentId"], form["amount"],
                            transferDate.value, notes, savedName);
      receipts := receipts + [StoredReceipt(nextReceiptId, row)];
      nextReceiptId := nextReceiptId + 1;
      resp := Response(200, Json(true, None));
    }

    /**
     * `create_project`: the name and description are trimmed (an absent field
     * counts as empty); a blank or duplicate name is refused with 400 and
     * nothing inserted; otherwise the project is inserted and the answer is
     * 201 JSON for a JSON request, the redirecting script for a form post.
     */
    method CreateProject(isJson: bool, name: Option<string>, description: Option<string>) returns (resp: Response)
      requires Valid()
      modifies this
      ensures Valid()
      ensures receipts == old(receipts) && nextReceiptId == old(nextReceiptId) && loggedIn == old(loggedIn)
      ensures CheckProjectName(old(projects), name.GetOr("")).Err? ==>
        && resp == Response(400, Json(false, Some(CheckProjectName(old(projects), name.GetOr("")).error)))
        && projects == old(projects) && nextProjectId == old(nextProjectId)
      ensures CheckProjectName(old(projects), name.GetOr("")).Ok? ==>
        && projects == old(projects) + [Project(old(nextProjectId), Strip(name.GetOr("")), Strip(description.GetOr("")))]
        && nextProjectId == old(nextProjectId) + 1
        && resp == (if isJson then Response(201, Json(true, None)) else Response(200, Plain(CreatedScript)))
    {
      var checked := CheckProjectName(projects, name.GetOr(""));
      var desc := Strip(description.GetOr(""));
      if checked.Err? {
        return Response(400, Json(false, Some(checked.error)));
      }
      InsertProject(checked.value, desc);
      resp := if isJson then Response(201, Json(true, None)) else Response(200, Plain(CreatedScript));
    }

    /** The `INSERT INTO projects` of a name that passed the checks, under the next autoincrement id. */
    method InsertProject(name: string, description: string)
      requires Valid() && ProperName(name) && !NameTaken(projects, name)
      modifies this
      ensures Valid()
      ensures projects == old(projects) + [Project(old(nextProjectId), name, description)]
      ensures nextProjectId == old(nextProjectId) + 1
      ensures receipts == old(receipts) && nextReceiptId == old(nextReceiptId) && loggedIn == old(loggedIn)
    {
      var project := Project(nextProjectId, name, description);
      InsertKeepsNames(projects, name, nextProjectId, description);
      AppendProjectId(projects, nextProjectId, project);
      projects := projects + [project];
      nextProjectId := nextProjectId + 1;
    }

    /** `submit`: the submission form of an existing project, 404 otherwise. */
    method SubmitPage(id: nat) returns (resp: Response)
      ensures FindProject(projects, id).None? ==> resp == Response(404, Plain("Project not found"))
      ensures FindProject(projects, id).Some? ==> resp == Response(200, SubmitForm(FindProject(projects, id).value))
    {
      var project := FindProject(projects, id);
      if project.None? {
        return Response(404, Plain("Project not found"));
      }
      resp := Response(200, SubmitForm(project.value));
    }

    /** `login`: GET shows the form; a POST with the admin password sets the flag and redirects to `admin`. */
    method Login(isPost: bool, password: Option<string>) returns (resp: Response)
      modifies this
      ensures projects == old(projects) && receipts == old(receipts)
      ensures nextProjectId == old(nextProjectId) && nextReceiptId == old(nextReceiptId)
      ensures loggedIn == SessionStep(old(loggedIn), if isPost then LoginPost(password) else LoginPage)
      ensures !isPost ==> resp == Response(200, Page("login.html", None))
      ensures isPost && password == Some(AdminPassword) ==> resp == Response(302, Redirect("admin"))
      ensures isPost && password != Some(AdminPassword) ==> resp == Response(200, Page("login.html", Some("Invalid password")))
    {
      if isPost {
        if password == Some(AdminPassword) {
          loggedIn := true;
          return Response(302, Redirect("admin"));
        }
        return Response(200, Page("login.html", Some("Invalid password")));
      }
      resp := Response(200, Page("login.html", None));
    }

    /** `logout`: the flag is cleared and the client sent home. */
    method Logout() returns (resp: Response)
      modifies this
      ensures projects == old(projects) && receipts == old(receipts)
      ensures nextProjectId == old(nextProjectId) && nextReceiptId == old(nextReceiptId)
      ensures loggedIn == SessionStep(old(loggedIn), LogoutEvent) && !loggedIn
      ensures resp == Response(302, Redirect("home"))
    {
      loggedIn := false;
      resp := Response(302, Redirect("home"));
    }

    /** `admin`: the dashboard for a logged-in session, a redirect to `login` otherwise. */
    method Admin() returns (resp: Response)
      ensures loggedIn ==> resp == Response(200, Page("admin.html", None))
      ensures !loggedIn ==> resp == Response(302, Redirect("login"))
    {
      if !loggedIn {
        return Response(302, Redirect("login"));
      }
      resp := Response(200, Page("admin.html", None));
    }
  }
}
