/** The backend's admin controller (backend/src/controllers/adminController.js)
    behind the authentication middleware, as backend/src/routes/admin.js
    mounts it: registration is public, every other route needs an
    authenticated admin and works on that admin's company only. */
module AdminController {
  import opened Values
  import opened Query
  import opened Store
  import opened Credentials
  import opened BackendAuth
  import JobModel
  import ApplicationModel

  // ------------------------------------------------------------- settings

  /** The `data` of `getSettings`: the admin's username and company. */
  datatype SettingsView = SettingsView(username: string, companyId: Id, companySlug: Option<string>)

  /** `getSettings`: read from the identity alone, so the company it names is
      the admin's own company, with that company's current slug. */
  function SettingsOf(who: Identity): SettingsView
  {
    SettingsView(who.admin.username, who.companyId, who.companySlug)
  }

  /** For an identity the middleware produced, the settings name an admin of
      the database, its company and that company's slug. */
  lemma SettingsOfAuthenticated(header: string, admins: map<Id, Admin>, companies: map<Id, Company>,
                                envHash: Option<string>, p: Primitives)
    requires Authenticate(header, admins, companies, envHash, p).Ok?
    ensures var v := SettingsOf(Authenticate(header, admins, companies, envHash, p).value);
      && v.companyId in companies && v.companySlug == companies[v.companyId].slug
      && exists id :: id in admins && admins[id].username == v.username && admins[id].companyId == Some(v.companyId)
  {
    var who := Authenticate(header, admins, companies, envHash, p).value;
    var id :| id in admins && HasCompany(admins[id], companies) && who == IdentityOf(admins[id], companies);
    assert admins[id].username == SettingsOf(who).username;
  }

  // ----------------------------------------------------------------- jobs

  /** `createJob`: the body with the admin's company and a status (the body's
      when truthy, `draft` otherwise) laid over it. */
  function CreateJobData(who: Identity, body: map<string, Json>): (jobData: map<string, Json>)
    ensures JobModel.CompanyKey(jobData) == Some(who.companyId)
    ensures "status" in jobData && jobData["status"] == if FieldTruthy(body, "status") then body["status"] else JStr("draft")
    ensures forall k :: k in body && k != "company_id" && k != "status" ==> k in jobData && jobData[k] == body[k]
  {
    body["company_id" := JNum(who.companyId)]
        ["status" := if FieldTruthy(body, "status") then body["status"] else JStr("draft")]
  }

  /** `createJob`: one job for the admin's own company, whatever
      `company_id` the body names; any failure is SERVER_ERROR. */
  twostate predicate JobCreated(db: Database, who: Identity, body: map<string, Json>, now: int,
                                new r: Result<Job>)
    reads db
  {
    && (r.Ok? <==> who.companyId in old(db.companies))
    && (r.Err? ==> r == Err(ServerError) && unchanged(db))
    && (r.Ok? ==>
          && r.value == JobModel.NewJob(CreateJobData(who, body), who.companyId, now).(id := old(db.nextJobId))
          && r.value.companyId == who.companyId
          && r.value.status == (if FieldTruthy(body, "status") then TextValue(body["status"]) else Some("draft"))
          && r.value.title == TextValue(FieldOrNull(body, "title"))
          && r.value.id == old(db.nextJobId) && old(db.nextJobId) !in old(db.jobs)
          && db.jobs == old(db.jobs)[r.value.id := r.value]
          && db.companies == old(db.companies) && db.admins == old(db.admins)
          && db.applications == old(db.applications))
  }

  /** The handler of `createJob`, whose outcome is `JobCreated`. */
  method CreateJob(db: Database, who: Identity, body: map<string, Json>, now: int) returns (r: Result<Job>)
    requires db.Valid()
    modifies db
    ensures db.Valid()
    ensures JobCreated(db, who, body, now, r)
  {
    var jobData := CreateJobData(who, body);
    assert FieldOrNull(jobData, "title") == FieldOrNull(body, "title");
    r := JobModel.Create(db, jobData, now);
  }

  /** `updateJob`'s ownership check: `findById` fails (SERVER_ERROR), finds
      nothing or finds another company's job (NOT_FOUND), or lets the update
      through. */
  function JobOwned(who: Identity, id: string, companies: map<Id, Company>, jobs: map<Id, Job>)
    : (r: Result<Id>)
    ensures r.Err? ==> r.code in {ServerError, NotFound}
    ensures r == Err(ServerError) <==> IdParam(id).None?
    ensures r.Ok? <==>
      && IdParam(id).Some? && Lookup(jobs, IdParam(id).value).Some?
      && jobs[IdParam(id).value].companyId == who.companyId && who.companyId in companies
    ensures r.Ok? ==> r.value as int == IdParam(id).value && r.value in jobs
  {
    match JobModel.FindById(id, companies, jobs)
    case Err(_) => Err(ServerError)
    case Ok(found) =>
      if found.None? || found.value.companyId != who.companyId then Err(NotFound)
      else Ok(IdParam(id).value)
  }

  /** `updateJob`: the body with the route's id and the admin's company laid
      over it. */
  function UpdateJobData(who: Identity, id: string, body: map<string, Json>): (jobData: map<string, Json>)
    ensures FieldOrNull(jobData, "id") == JStr(id)
    ensures forall k :: k in body && k != "id" && k != "company_id" ==> k in jobData && jobData[k] == body[k]
    ensures forall k :: k != "id" && k != "company_id" ==> (k in jobData <==> k in body)
  {
    body["id" := JStr(id)]["company_id" := JNum(who.companyId)]
  }

  /** The fields `update` reads are the body's. */
  lemma UpdateJobDataFields(who: Identity, id: string, body: map<string, Json>)
    ensures var jobData := UpdateJobData(who, id, body);
      && JobModel.TitleUsable(jobData) == JobModel.TitleUsable(body)
      && JobModel.WritesNothing(jobData) == JobModel.WritesNothing(body)
    ensures JobModel.TitleUsable(body) ==>
      forall j :: JobModel.TruthyPatched(j, UpdateJobData(who, id, body)) == JobModel.TruthyPatched(j, body)
  {
  }

  /** `updateJob`: only a job of the admin's own company is changed, and it
      becomes `TruthyPatched` by the body; nothing else is touched. As
      written (`IdColumn`), the UPDATE itself always fails, so a job that
      passes the ownership check still gets SERVER_ERROR. */
  twostate predicate JobUpdated(db: Database, who: Identity, id: string, body: map<string, Json>,
                                key: JobModel.KeyColumn, new r: Result<Job>)
    reads db
  {
    var owned := JobOwned(who, id, old(db.companies), old(db.jobs));
    && (r.Err? ==> r.code in {ServerError, NotFound} && unchanged(db))
    && (owned.Err? ==> r.Err? && r.code == owned.code)
    && (key == JobModel.IdColumn && owned.Ok? ==> r == Err(ServerError))
    && (key == JobModel.JobIdColumn && owned.Ok? ==>
          (r.Err? <==> !JobModel.TitleUsable(body) || JobModel.WritesNothing(body)))
    && (r.Ok? ==>
          && owned.Ok?
          && JobModel.TitleUsable(body)
          && old(db.jobs)[owned.value].companyId == who.companyId
          && r.value == JobModel.TruthyPatched(old(db.jobs)[owned.value], body)
          && db.jobs == old(db.jobs)[owned.value := r.value]
          && db.companies == old(db.companies) && db.admins == old(db.admins)
          && db.applications == old(db.applications))
  }

  /** The handler of `updateJob`, whose outcome is `JobUpdated`. */
  method UpdateJob(db: Database, who: Identity, id: string, body: map<string, Json>, key: JobModel.KeyColumn)
    returns (r: Result<Job>)
    requires db.Valid()
    modifies db
    ensures db.Valid()
    ensures JobUpdated(db, who, id, body, key, r)
  {
    var owned := JobOwned(who, id, db.companies, db.jobs);
    if owned.Err? {
      return Err(owned.code);
    }
    var jobData := UpdateJobData(who, id, body);
    UpdateJobDataFields(who, id, body);
    var updated := JobModel.Update(db, jobData, key);
    if updated.Err? {
      return Err(ServerError);
    }
    assert updated.value.Some?;
    r := Ok(updated.value.value);
  }

  // --------------------------------------------------------- applications

  /** `updateApplication`: MISSING_FIELDS for a falsy status, INVALID_STATUS
      for one outside the seven the backend knows, then the UPDATE scoped to
      the admin's company: SERVER_ERROR for a key PostgreSQL cannot read,
      NOT_FOUND for an application that is not the company's. */
  twostate predicate ApplicationUpdated(db: Database, who: Identity, id: string, body: map<string, Json>,
                                        new r: Result<Application>)
    reads db
  {
    && (!FieldTruthy(body, "status") ==> r == Err(MissingFields))
    && (FieldTruthy(body, "status") && !StatusIn(body, BackendStatuses) ==> r == Err(InvalidStatus))
    && (StatusIn(body, BackendStatuses) ==> (r == Err(ServerError) <==> IdParam(id).None?))
    && (StatusIn(body, BackendStatuses) && IdParam(id).Some? ==>
          (r.Ok? <==> ApplicationModel.FindById(id, who.companyId, old(db.jobs), old(db.applications)).value.Some?))
    && (r.Err? ==> r.code in {MissingFields, InvalidStatus, ServerError, NotFound} && unchanged(db))
    && (r.Ok? ==>
          && StatusIn(body, BackendStatuses) && IdParam(id).Some?
          && ApplicationModel.FindById(id, who.companyId, old(db.jobs), old(db.applications)).value.Some?
          && var before := ApplicationModel.FindById(id, who.companyId, old(db.jobs), old(db.applications)).value.value;
          && r.value == before.(status := body["status"].s)
          && ApplicationModel.OfCompany(r.value, who.companyId, old(db.jobs))
          && db.applications == old(db.applications)[before.id := r.value]
          && db.jobs == old(db.jobs) && db.companies == old(db.companies) && db.admins == old(db.admins))
  }

  /** The handler of `updateApplication`, whose outcome is `ApplicationUpdated`. */
  method UpdateApplication(db: Database, who: Identity, id: string, body: map<string, Json>)
    returns (r: Result<Application>)
    requires db.Valid()
    modifies db
    ensures db.Valid()
    ensures ApplicationUpdated(db, who, id, body, r)
  {
    if !FieldTruthy(body, "status") {
      return Err(MissingFields);
    }
    if !StatusIn(body, BackendStatuses) {
      return Err(InvalidStatus);
    }
    var updated := ApplicationModel.UpdateStatus(db, id, body["status"].s, who.companyId);
    if updated.Err? {
      return Err(ServerError);
    }
    if updated.value.None? {
      return Err(NotFound);
    }
    r := Ok(updated.value.value);
  }

  // --------------------------------------------------------- registration

  /** The four fields `register` demands, each truthy. */
  predicate RegisterFieldsPresent(body: map<string, Json>)
  {
    && FieldTruthy(body, "company_name") && FieldTruthy(body, "company_slug")
    && FieldTruthy(body, "username") && FieldTruthy(body, "password")
  }

  /** The company key `register` hands to `Admin.create` as written:
      `company.id`, but `Company.create` returns the key as `company_id`, so
      the property is undefined and the admin's company_id is NULL. */
  function AdminCompanyAsWritten(c: Company): Option<Id>
  {
    None
  }

  /** As written, an admin registered with `AdminCompanyAsWritten` can never
      sign in: the middleware's lookup joins admins to their company, so it
      does not find them, and the answer is INVALID_CREDENTIALS whatever the
      password. */
  lemma AsWrittenAdminLockedOut(header: string, admins: map<Id, Admin>, companies: map<Id, Company>,
                                envHash: Option<string>, p: Primitives, c: Company, id: Id)
    requires id in admins && UniqueUsernames(admins)
    requires admins[id].companyId == AdminCompanyAsWritten(c)
    requires LoginOf(header, p).username == Some(admins[id].username)
    ensures Authenticate(header, admins, companies, envHash, p) == Err(InvalidCredentials)
  {
    var username := admins[id].username;
    forall other | other in admins && admins[other].username == username
      ensures !HasCompany(admins[other], companies)
    {
      assert other == id;
    }
  }

  /** The key `register` hands to `Admin.create`: `company.id` as written,
      which is undefined, or the `company_id` that `Company.create` returns,
      as evidently intended. */
  datatype AdminKey = UndefinedId | ReturnedKey

  /** `register`: MISSING_FIELDS unless all four fields are truthy; DUPLICATE_ENTRY for
      a taken slug or username; SERVER_ERROR when the password is not a
      string (`bcrypt.hash` throws). There is no transaction: once the
      company is inserted it stays, whatever happens to the admin. With
      `UndefinedId`, the code as written, the admin is inserted with no
      company, and `AsWrittenAdminLockedOut` shows it can never sign in;
      with `ReturnedKey` it belongs to the new company and
      `RegisteredAdminSignsIn` applies. */
  twostate predicate CompanySignedUp(db: Database, body: map<string, Json>, now: int, p: Primitives, key: AdminKey,
                                new r: Result<(Company, Admin)>)
    reads db
  {
    && (!RegisterFieldsPresent(body) ==> r == Err(MissingFields) && unchanged(db))
    && (RegisterFieldsPresent(body) && SlugTaken(old(db.companies), TextValue(body["company_slug"])) ==>
          r == Err(DuplicateEntry) && unchanged(db))
    && ((RegisterFieldsPresent(body) && !SlugTaken(old(db.companies), TextValue(body["company_slug"]))) ==>
          && old(db.nextCompanyId) !in old(db.companies)
          && db.companies == old(db.companies)[old(db.nextCompanyId) :=
               Company(old(db.nextCompanyId), TextValue(body["company_name"]), TextValue(body["company_slug"]),
                       None, None, now)]
          && db.jobs == old(db.jobs) && db.applications == old(db.applications)
          && (!body["password"].JStr? ==> r == Err(ServerError) && db.admins == old(db.admins))
          && (body["password"].JStr? && UsernameTaken(old(db.admins), BoundText(body["username"])) ==>
                r == Err(DuplicateEntry) && db.admins == old(db.admins)))
    && (r.Ok? <==>
          && RegisterFieldsPresent(body) && !SlugTaken(old(db.companies), TextValue(body["company_slug"]))
          && body["password"].JStr? && !UsernameTaken(old(db.admins), BoundText(body["username"])))
    && (r.Err? ==> r.code in {MissingFields, DuplicateEntry, ServerError})
    && (r.Ok? ==>
          && RegisterFieldsPresent(body) && body["password"].JStr?
          && var (c, a) := r.value;
          && c.id == old(db.nextCompanyId) && c.id in db.companies
          && a.username == BoundText(body["username"])
          && a.passwordHash == p.hash(body["password"].s)
          && (key == UndefinedId ==> a.companyId == AdminCompanyAsWritten(c) && a.companyId.None?)
          && (key == ReturnedKey ==> a.companyId == Some(c.id))
          && a.id !in old(db.admins) && db.admins == old(db.admins)[a.id := a])
  }

  /** The handler of `register`, whose outcome is `CompanySignedUp`. */
  method Register(db: Database, body: map<string, Json>, now: int, p: Primitives, key: AdminKey)
    returns (r: Result<(Company, Admin)>)
    requires db.Valid()
    modifies db
    ensures db.Valid()
    ensures CompanySignedUp(db, body, now, p, key, r)
  {
    if !RegisterFieldsPresent(body) {
      return Err(MissingFields);
    }
    var c := db.InsertCompany(TextValue(body["company_name"]), TextValue(body["company_slug"]), None, None, now);
    if c.UniqueViolation? {
      return Err(DuplicateEntry);
    }
    assert c.Written?;
    if !body["password"].JStr? {
      return Err(ServerError);
    }
    var companyId := if key == UndefinedId then AdminCompanyAsWritten(c.row) else Some(c.row.id);
    var a := db.InsertAdmin(BoundText(body["username"]), p.hash(body["password"].s), companyId);
    if a.UniqueViolation? {
      return Err(DuplicateEntry);
    }
    assert a.Written?;
    r := Ok((c.row, a.row));
  }

  /** An admin bound to an existing company, as `Register` with
      `ReturnedKey` leaves it, signs in with its username and
      the password its hash was made from. */
  lemma RegisteredAdminSignsIn(header: string, admins: map<Id, Admin>, companies: map<Id, Company>,
                               envHash: Option<string>, p: Primitives, id: Id, password: string)
    requires HashVerifies(p)
    requires id in admins && UniqueUsernames(admins) && HasCompany(admins[id], companies)
    requires admins[id].passwordHash == p.hash(password)
    requires admins[id].username != "" && ':' !in admins[id].username
    requires p.decode(Token(header)) == admins[id].username + ":" + password
    ensures Authenticate(header, admins, companies, envHash, p) == Ok(IdentityOf(admins[id], companies))
  {
    ParseNamed(admins[id].username, password);
    AuthKnownUser(header, admins, companies, envHash, p, id);
  }

  // ---------------------------------------------------------------- routes

  /** The routes of backend/src/routes/admin.js. */
  datatype Request =
    | PostRegister(body: map<string, Json>)
    | GetSettings
    | GetJobs
    | PostJob(body: map<string, Json>)
    | PatchJob(id: string, body: map<string, Json>)
    | GetApplications
    | PatchApplication(id: string, body: map<string, Json>)

  /** The `data` of a successful reply. */
  datatype Reply =
    | Registered(company: Company, admin: Admin)
    | Settings(view: SettingsView)
    | JobList(jobRows: seq<Job>)
    | JobRow(job: Job)
    | ApplicationList(applicationRows: seq<Application>)
    | ApplicationRow(application: Application)

  /** A reply that shows only the caller's company's data. */
  predicate OwnData(reply: Reply, companyId: Id, jobs: map<Id, Job>)
  {
    match reply
    case Registered(_, _) => true
    case Settings(view) => view.companyId == companyId
    case JobList(rows) => forall k :: 0 <= k < |rows| ==> rows[k].companyId == companyId
    case JobRow(job) => job.companyId == companyId
    case ApplicationList(rows) =>
      forall k :: 0 <= k < |rows| ==> ApplicationModel.OfCompany(rows[k], companyId, jobs)
    case ApplicationRow(a) => ApplicationModel.OfCompany(a, companyId, jobs)
  }

  /** The read routes of a protected caller: its settings, its company's
      jobs and the applications to them, nothing of another company. */
  function Read(who: Identity, req: Request, companies: map<Id, Company>, jobs: map<Id, Job>,
                applications: map<Id, Application>): (r: Reply)
    requires req.GetSettings? || req.GetJobs? || req.GetApplications?
    ensures OwnData(r, who.companyId, jobs)
    ensures req.GetSettings? ==> r == Settings(SettingsOf(who))
    ensures req.GetJobs? ==> r == JobList(Rows(jobs, JobModel.FindByCompanyId(who.companyId, companies, jobs)))
    ensures req.GetApplications? ==>
      r == ApplicationList(Rows(applications, ApplicationModel.FindByCompanyId(who.companyId, jobs, applications)))
  {
    match req
    case GetSettings => Settings(SettingsOf(who))
    case GetJobs =>
      var ids := JobModel.FindByCompanyId(who.companyId, companies, jobs);
      JobList(Rows(jobs, ids))
    case GetApplications =>
      var ids := ApplicationModel.FindByCompanyId(who.companyId, jobs, applications);
      ApplicationList(Rows(applications, ids))
  }

  /** The handler outcome inside a reply of the matching kind. */
  function JobOf(r: Result<Reply>): Result<Job>
    requires r.Ok? ==> r.value.JobRow?
  {
    match r
    case Ok(v) => Ok(v.job)
    case Err(e) => Err(e)
  }

  function ApplicationOf(r: Result<Reply>): Result<Application>
    requires r.Ok? ==> r.value.ApplicationRow?
  {
    match r
    case Ok(v) => Ok(v.application)
    case Err(e) => Err(e)
  }

  function RegistrationOf(r: Result<Reply>): Result<(Company, Admin)>
    requires r.Ok? ==> r.value.Registered?
  {
    match r
    case Ok(v) => Ok((v.company, v.admin))
    case Err(e) => Err(e)
  }

  /** What a protected route answers and writes once `who` is through: a
      read changes nothing and answers `Read`; a write answers and writes
      exactly what its handler does, `updateJob` with the key column as
      written. */
  twostate predicate Served(db: Database, who: Identity, now: int, req: Request, new r: Result<Reply>)
    requires !req.PostRegister?
    reads db
  {
    match req
    case GetSettings => unchanged(db) && r == Ok(Read(who, req, old(db.companies), old(db.jobs), old(db.applications)))
    case GetJobs => unchanged(db) && r == Ok(Read(who, req, old(db.companies), old(db.jobs), old(db.applications)))
    case GetApplications =>
      unchanged(db) && r == Ok(Read(who, req, old(db.companies), old(db.jobs), old(db.applications)))
    case PostJob(body) => (r.Ok? ==> r.value.JobRow?) && JobCreated(db, who, body, now, JobOf(r))
    case PatchJob(id, body) =>
      (r.Ok? ==> r.value.JobRow?) && JobUpdated(db, who, id, body, JobModel.IdColumn, JobOf(r))
    case PatchApplication(id, body) =>
      (r.Ok? ==> r.value.ApplicationRow?) && ApplicationUpdated(db, who, id, body, ApplicationOf(r))
  }

  /** The write routes of a protected caller: a created or updated row
      belongs to the caller's company. */
  method Write(db: Database, who: Identity, now: int, req: Request) returns (r: Result<Reply>)
    requires db.Valid() && (req.PostJob? || req.PatchJob? || req.PatchApplication?)
    modifies db
    ensures db.Valid()
    ensures r.Ok? ==> OwnData(r.value, who.companyId, db.jobs)
    ensures Served(db, who, now, req, r)
  {
    match req {
      case PostJob(body) =>
        var out := CreateJob(db, who, body, now);
        r := if out.Ok? then Ok(JobRow(out.value)) else Err(out.code);
      case PatchJob(id, body) =>
        var out := UpdateJob(db, who, id, body, JobModel.IdColumn);
        r := match out case Ok(j) => Ok(JobRow(j)) case Err(e) => Err(e);
      case PatchApplication(id, body) =>
        var out := UpdateApplication(db, who, id, body);
        r := if out.Ok? then Ok(ApplicationRow(out.value)) else Err(out.code);
    }
  }

  /** A protected route once `authenticateAdmin` has let `who` through: the
      reply shows only `who`'s company's data, and the reads change
      nothing. */
  method Serve(db: Database, who: Identity, now: int, req: Request) returns (r: Result<Reply>)
    requires db.Valid() && !req.PostRegister?
    modifies db
    ensures db.Valid()
    ensures (req.GetSettings? || req.GetJobs? || req.GetApplications?) ==> unchanged(db) && r.Ok?
    ensures r.Ok? ==> OwnData(r.value, who.companyId, db.jobs)
    ensures Served(db, who, now, req, r)
  {
    if req.GetSettings? || req.GetJobs? || req.GetApplications? {
      r := Ok(Read(who, req, db.companies, db.jobs, db.applications));
    } else {
      r := Write(db, who, now, req);
    }
  }

  /** One request through the router: registration is public; every other
      route first passes `authenticateAdmin` (UNAUTHORIZED without a header,
      its own error otherwise, the database untouched either way) and then
      answers with the authenticated company's data only. */
  method Handle(db: Database, header: Option<string>, envHash: Option<string>, p: Primitives, now: int,
                req: Request) returns (r: Result<Reply>)
    requires db.Valid()
    modifies db
    ensures db.Valid()
    ensures !req.PostRegister? && !HeaderPresent(header) ==> r == Err(Unauthorized) && unchanged(db)
    ensures !req.PostRegister? && HeaderPresent(header)
            && Authenticate(header.value, old(db.admins), old(db.companies), envHash, p).Err? ==>
      r == Err(Authenticate(header.value, old(db.admins), old(db.companies), envHash, p).code) && unchanged(db)
    ensures (req.GetSettings? || req.GetJobs? || req.GetApplications?) ==> unchanged(db)
    ensures req.PostRegister? && r.Ok? ==>
      r.value.Registered? && r.value.admin.companyId.None?
      && r.value.admin.id in db.admins && db.admins[r.value.admin.id] == r.value.admin
    ensures !req.PostRegister? && r.Ok? ==>
      && HeaderPresent(header)
      && Authenticate(header.value, old(db.admins), old(db.companies), envHash, p).Ok?
      && OwnData(r.value, Authenticate(header.value, old(db.admins), old(db.companies), envHash, p).value.companyId,
                 db.jobs)
    ensures (!req.PostRegister? && HeaderPresent(header)
             && Authenticate(header.value, old(db.admins), old(db.companies), envHash, p).Ok?) ==>
      Served(db, Authenticate(header.value, old(db.admins), old(db.companies), envHash, p).value, now, req, r)
    ensures req.PostRegister? ==>
      (r.Ok? ==> r.value.Registered?) && CompanySignedUp(db, req.body, now, p, UndefinedId, RegistrationOf(r))
  {
    if req.PostRegister? {
      var out := Register(db, req.body, now, p, UndefinedId);
      return if out.Ok? then Ok(Registered(out.value.0, out.value.1)) else Err(out.code);
    }
    if !HeaderPresent(header) {
      return Err(Unauthorized);
    }
    var auth := Authenticate(header.value, db.admins, db.companies, envHash, p);
    if auth.Err? {
      return Err(auth.code);
    }
    r := Serve(db, auth.value, now, req);
  }
}
