/** The four PostgreSQL tables both implementations read and write, held as
    maps from SERIAL keys to rows, with the integrity rules the handlers rely
    on: primary keys, the foreign keys between the tables, and the unique
    constraints on admin usernames and company slugs. */
module Store {
  import opened Values
  import opened Text

  datatype Company = Company(
    id: Id,
    name: Option<string>,
    slug: Option<string>,
    logoUrl: Option<string>,
    primaryColor: Option<string>,
    createdAt: int)

  datatype Admin = Admin(
    id: Id,
    username: string,
    passwordHash: string,
    companyId: Option<Id>)

  datatype Job = Job(
    id: Id,
    companyId: Id,
    title: Option<string>,
    department: Option<string>,
    location: Option<string>,
    jobType: Option<string>,
    description: Option<string>,
    requirements: Option<string>,
    salaryRange: Option<string>,
    status: Option<string>,
    isActive: Option<bool>,
    postedDate: int,
    slug: Option<string>)

  datatype Application = Application(
    id: Id,
    jobId: Id,
    fullName: Option<string>,
    email: Option<string>,
    phone: Option<string>,
    coverLetter: Option<string>,
    resumePath: string,
    status: string,
    appliedAt: int)

  /** The statuses the older router's PATCH accepts. */
  const LegacyStatuses: set<string> := {"new", "reviewed", "rejected"}

  /** The statuses the backend's `updateApplication` accepts. */
  const BackendStatuses: set<string> :=
    {"new", "reviewing", "contacted", "interviewing", "offered", "hired", "rejected"}

  /** `statuses.includes(body.status)`: `includes` compares strictly, so
      only a string can match. */
  predicate StatusIn(body: map<string, Json>, statuses: set<string>)
  {
    "status" in body && body["status"].JStr? && body["status"].s in statuses
  }

  /** Outcome of an INSERT: the stored row, or the constraint it broke
      (SQLSTATE 23505 and 23503). */
  datatype Written<T> = Written(row: T) | UniqueViolation | ForeignKeyViolation

  // ------------------------------------------------- column coercion (pg)

  /** What a text column holds after a JSON value is bound to it: `null`
      (or `undefined`) is NULL, numbers and booleans are rendered as text. */
  function TextValue(v: Json): (r: Option<string>)
    ensures r.None? <==> v == JNull
    ensures v.JStr? ==> r == Some(v.s)
    ensures v.JNum? ==> r == Some(IntToString(v.n))
    ensures v.JBool? ==> r == Some(if v.b then "true" else "false")
  {
    match v
    case JNull => None
    case JBool(b) => Some(if b then "true" else "false")
    case JNum(n) => Some(IntToString(n))
    case JStr(s) => Some(s)
  }

  /** The text a non-null value binds as: what a username or password
      parameter reads as in SQL. */
  function BoundText(v: Json): (r: string)
    requires v != JNull
    ensures TextValue(v) == Some(r)
    ensures v.JStr? ==> r == v.s
  {
    TextValue(v).value
  }

  /** What a boolean column holds after a JSON value is bound to it; `None`
      when PostgreSQL refuses the value. */
  function BoolValue(v: Json): (r: Option<Option<bool>>)
    ensures r.Some? <==> v.JNull? || v.JBool?
    ensures v.JBool? ==> r == Some(Some(v.b))
    ensures v.JNull? ==> r == Some(None)
  {
    match v
    case JNull => Some(None)
    case JBool(b) => Some(Some(b))
    case _ => None
  }

  /** What an integer parameter reads as: a number, or a string of decimal
      digits; `None` when PostgreSQL refuses the value. */
  function IntValue(v: Json): (r: Option<int>)
    ensures v.JNum? ==> r == Some(v.n)
    ensures v.JNull? || v.JBool? ==> r.None?
    ensures v.JStr? ==> (r.Some? <==> ParseDecimal(v.s).Some?)
    ensures v.JStr? && r.Some? ==> r.value == ParseDecimal(v.s).value
  {
    match v
    case JNum(n) => Some(n)
    case JStr(s) => (match ParseDecimal(s) case Some(n) => Some(n) case None => None)
    case _ => None
  }

  /** A route parameter (`req.params.id`, always a string) bound to an
      integer key. */
  function IdParam(s: string): (r: Option<int>)
    ensures r.Some? <==> ParseDecimal(s).Some?
    ensures r.Some? ==> r.value >= 0 && r.value == ParseDecimal(s).value
  {
    IntValue(JStr(s))
  }

  /** Leading zeros in a route key are ignored: `/id/007` is key 7. */
  lemma IdParamLeadingZeros(s: string, zeros: nat)
    requires IdParam(s).Some?
    ensures IdParam(Zeros(zeros) + s) == IdParam(s)
  {
    ParseLeadingZeros(s, zeros);
  }

  /** `WHERE key = n`: the row under key `n`, if any. */
  function Lookup<T>(m: map<Id, T>, n: int): (r: Option<T>)
    ensures r.Some? <==> n >= 1 && n in m
    ensures r.Some? ==> r.value == m[n]
  {
    if n >= 1 && n in m then Some(m[n]) else None
  }

  // ------------------------------------------------------------ integrity

  predicate UniqueUsernames(admins: map<Id, Admin>)
  {
    forall a, b :: a in admins && b in admins && admins[a].username == admins[b].username ==> a == b
  }

  predicate UniqueSlugs(companies: map<Id, Company>)
  {
    forall a, b :: (a in companies && b in companies && companies[a].slug.Some?
                    && companies[a].slug == companies[b].slug) ==> a == b
  }

  /** An INSERT of `slug` would break the unique constraint (NULLs never do). */
  predicate SlugTaken(companies: map<Id, Company>, slug: Option<string>)
  {
    slug.Some? && exists id :: id in companies && companies[id].slug == slug
  }

  predicate UsernameTaken(admins: map<Id, Admin>, username: string)
  {
    exists id :: id in admins && admins[id].username == username
  }

  class Database {
    var companies: map<Id, Company>
    var admins: map<Id, Admin>
    var jobs: map<Id, Job>
    var applications: map<Id, Application>
    // The next value of each SERIAL sequence.
    var nextCompanyId: Id
    var nextAdminId: Id
    var nextJobId: Id
    var nextApplicationId: Id

    /** The next values of the four sequences. */
    function Counters(): (int, int, int, int)
      reads this
    {
      (nextCompanyId, nextAdminId, nextJobId, nextApplicationId)
    }

    predicate Valid()
      reads this
    {
      && (forall id :: id in companies ==> companies[id].id == id && id < nextCompanyId)
      && (forall id :: id in admins ==> admins[id].id == id && id < nextAdminId)
      && (forall id :: id in jobs ==> jobs[id].id == id && id < nextJobId)
      && (forall id :: id in applications ==> applications[id].id == id && id < nextApplicationId)
      && (forall id :: id in admins && admins[id].companyId.Some? ==> admins[id].companyId.value in companies)
      && (forall id :: id in jobs ==> jobs[id].companyId in companies)
      && (forall id :: id in applications ==> applications[id].jobId in jobs)
      && UniqueUsernames(admins)
      && UniqueSlugs(companies)
    }

    constructor()
      ensures Valid()
      ensures companies == map[] && admins == map[] && jobs == map[] && applications == map[]
    {
      companies, admins, jobs, applications := map[], map[], map[], map[];
      nextCompanyId, nextAdminId, nextJobId, nextApplicationId := 1, 1, 1, 1;
    }

    /** `INSERT INTO companies ... RETURNING *`. */
    method InsertCompany(name: Option<string>, slug: Option<string>, logoUrl: Option<string>,
                         primaryColor: Option<string>, now: int) returns (w: Written<Company>)
      requires Valid()
      modifies this
      ensures Valid()
      ensures admins == old(admins) && jobs == old(jobs) && applications == old(applications)
      ensures SlugTaken(old(companies), slug) ==> w == UniqueViolation && companies == old(companies)
      ensures !SlugTaken(old(companies), slug) ==>
        && w == Written(Company(old(nextCompanyId), name, slug, logoUrl, primaryColor, now))
        && old(nextCompanyId) !in old(companies)
        && companies == old(companies)[w.row.id := w.row]
      ensures w.UniqueViolation? ==> Counters() == old(Counters())
      ensures !w.Written? ==> unchanged(this)
      ensures w.Written? ==> Counters() == (old(nextCompanyId) + 1, nextAdminId, nextJobId, nextApplicationId)
      ensures (nextAdminId, nextJobId, nextApplicationId) == old((nextAdminId, nextJobId, nextApplicationId))
    {
      if SlugTaken(companies, slug) {
        return UniqueViolation;
      }
      var row := Company(nextCompanyId, name, slug, logoUrl, primaryColor, now);
      companies := companies[row.id := row];
      nextCompanyId := nextCompanyId + 1;
      w := Written(row);
    }

    /** `INSERT INTO admins ... RETURNING ...`. */
    method InsertAdmin(username: string, passwordHash: string, companyId: Option<Id>)
      returns (w: Written<Admin>)
      requires Valid()
      modifies this
      ensures Valid()
      ensures companies == old(companies) && jobs == old(jobs) && applications == old(applications)
      ensures UsernameTaken(old(admins), username) ==> w == UniqueViolation && admins == old(admins)
      ensures !UsernameTaken(old(admins), username) && companyId.Some? && companyId.value !in companies ==>
        w == ForeignKeyViolation && admins == old(admins)
      ensures !UsernameTaken(old(admins), username) && (companyId.None? || companyId.value in companies) ==>
        && w == Written(Admin(old(nextAdminId), username, passwordHash, companyId))
        && old(nextAdminId) !in old(admins)
        && admins == old(admins)[w.row.id := w.row]
      ensures !w.Written? ==> Counters() == old(Counters())
      ensures !w.Written? ==> unchanged(this)
      ensures w.Written? ==> Counters() == (nextCompanyId, old(nextAdminId) + 1, nextJobId, nextApplicationId)
      ensures (nextCompanyId, nextJobId, nextApplicationId) == old((nextCompanyId, nextJobId, nextApplicationId))
    {
      if UsernameTaken(admins, username) {
        return UniqueViolation;
      }
      if companyId.Some? && companyId.value !in companies {
        return ForeignKeyViolation;
      }
      var row := Admin(nextAdminId, username, passwordHash, companyId);
      admins := admins[row.id := row];
      nextAdminId := nextAdminId + 1;
      w := Written(row);
    }

    /** `INSERT INTO jobs ... RETURNING *`: `draft` with the key the sequence
        hands out. */
    method InsertJob(draft: Job) returns (w: Written<Job>)
      requires Valid()
      modifies this
      ensures Valid()
      ensures companies == old(companies) && admins == old(admins) && applications == old(applications)
      ensures draft.companyId !in companies ==> w == ForeignKeyViolation && jobs == old(jobs)
      ensures draft.companyId in companies ==>
        && w == Written(draft.(id := old(nextJobId)))
        && old(nextJobId) !in old(jobs)
        && jobs == old(jobs)[w.row.id := w.row]
      ensures w.Written? ==> Counters() == (nextCompanyId, nextAdminId, old(nextJobId) + 1, nextApplicationId)
      ensures (nextCompanyId, nextAdminId, nextApplicationId) == old((nextCompanyId, nextAdminId, nextApplicationId))
      ensures !w.Written? ==> Counters() == old(Counters())
      ensures !w.Written? ==> unchanged(this)
    {
      if draft.companyId !in companies {
        return ForeignKeyViolation;
      }
      var row := draft.(id := nextJobId);
      jobs := jobs[row.id := row];
      nextJobId := nextJobId + 1;
      w := Written(row);
    }

    /** `INSERT INTO applications ... RETURNING *`. */
    method InsertApplication(draft: Application) returns (w: Written<Application>)
      requires Valid()
      modifies this
      ensures Valid()
      ensures companies == old(companies) && admins == old(admins) && jobs == old(jobs)
      ensures draft.jobId !in jobs ==> w == ForeignKeyViolation && applications == old(applications)
      ensures draft.jobId in jobs ==>
        && w == Written(draft.(id := old(nextApplicationId)))
        && old(nextApplicationId) !in old(applications)
        && applications == old(applications)[w.row.id := w.row]
      ensures w.Written? ==> Counters() == (nextCompanyId, nextAdminId, nextJobId, old(nextApplicationId) + 1)
      ensures (nextCompanyId, nextAdminId, nextJobId) == old((nextCompanyId, nextAdminId, nextJobId))
      ensures !w.Written? ==> Counters() == old(Counters())
      ensures !w.Written? ==> unchanged(this)
    {
      if draft.jobId !in jobs {
        return ForeignKeyViolation;
      }
      var row := draft.(id := nextApplicationId);
      applications := applications[row.id := row];
      nextApplicationId := nextApplicationId + 1;
      w := Written(row);
    }

    /** `UPDATE jobs SET ... WHERE job_id = row.id`, for a row that stays
        with an existing company. */
    method SetJob(row: Job)
      requires Valid() && row.id in jobs && row.companyId in companies
      modifies this
      ensures Valid()
      ensures jobs == old(jobs)[row.id := row]
      ensures companies == old(companies) && admins == old(admins) && applications == old(applications)
      ensures Counters() == old(Counters())
    {
      jobs := jobs[row.id := row];
    }

    /** `UPDATE applications SET ... WHERE application_id = row.id`. */
    method SetApplication(row: Application)
      requires Valid() && row.id in applications && row.jobId in jobs
      modifies this
      ensures Valid()
      ensures applications == old(applications)[row.id := row]
      ensures companies == old(companies) && admins == old(admins) && jobs == old(jobs)
      ensures Counters() == old(Counters())
    {
      applications := applications[row.id := row];
    }

    /** `UPDATE companies SET ... WHERE company_id = row.id`, keeping the slug. */
    method SetCompany(row: Company)
      requires Valid() && row.id in companies && row.slug == companies[row.id].slug
      modifies this
      ensures Valid()
      ensures companies == old(companies)[row.id := row]
      ensures admins == old(admins) && jobs == old(jobs) && applications == old(applications)
      ensures Counters() == old(Counters())
    {
      companies := companies[row.id := row];
    }
  }
}
