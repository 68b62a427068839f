/** The older single-file admin router (src/routes/admin.js): its
    authentication middleware, which tries a database admin first and falls
    back to the secret in `ADMIN_PASSWORD_HASH`, and its handlers for
    applications, jobs, registration and company settings. */
module LegacyRouter {
  import opened Values
  import opened Text
  import opened Query
  import opened Store
  import opened Credentials

  // ------------------------------------------------------- authentication

  /** `req.admin` once the middleware has let a request through: a database
      admin (`admin_id`, `username`, `company_id`), or the caller who knew the
      legacy secret and gets no `req.admin` at all. */
  datatype Caller = Scoped(adminId: Id, username: string, companyId: Option<Id>) | Unscoped

  /** `req.admin?.company_id` when it is truthy (keys start at 1). */
  function CallerCompany(c: Caller): Option<Id>
  {
    if c.Scoped? then c.companyId else None
  }

  /** `SELECT * FROM admins WHERE username = $1`. */
  function AdminsNamed(admins: map<Id, Admin>, username: string): (ids: seq<Id>)
    ensures Increasing(ids)
    ensures forall id :: id in ids <==> id in admins && admins[id].username == username
  {
    Select(admins, (a: Admin) => a.username == username)
  }

  /** The middleware once a non-empty header is there. A username held by
      exactly one admin is checked against that admin's hash only; otherwise
      the password is checked against the legacy secret. A rejected
      `bcrypt.compare` lands in the `catch`, which also answers AUTH_FAILED. */
  function Authenticate(header: string, admins: map<Id, Admin>, envHash: Option<string>,
                        p: Primitives): (r: Result<Caller>)
    ensures r.Ok? && r.value.Scoped? ==>
      exists id :: id in admins && admins[id].id == r.value.adminId
        && admins[id].username == r.value.username && admins[id].companyId == r.value.companyId
        && LoginOf(header, p).username == Some(admins[id].username)
        && p.compare(LoginOf(header, p).password, admins[id].passwordHash) == Match
    ensures r == Ok(Unscoped) ==>
      envHash.Some? && p.compare(LoginOf(header, p).password, envHash.value) == Match
    ensures r.Err? ==> r.code in {AuthFailed, ServerConfig}
    ensures r == Err(ServerConfig) ==> envHash.None? || envHash.value == ""
  {
    var login := LoginOf(header, p);
    var named := if login.username.Some? then AdminsNamed(admins, login.username.value) else [];
    if |named| == 1 then
      var id := named[0];
      assert id in named;
      var admin := admins[id];
      if p.compare(login.password, admin.passwordHash) == Match then
        assert login.username == Some(admin.username);
        Ok(Scoped(admin.id, admin.username, admin.companyId))
      else
        Err(AuthFailed)
    else if envHash.None? || envHash.value == "" then
      Err(ServerConfig)
    else if p.compare(login.password, envHash.value) == Match then
      Ok(Unscoped)
    else
      Err(AuthFailed)
  }

  /** A username that names one admin is decided by that admin's hash alone:
      a wrong password is AUTH_FAILED, never a second try with the legacy
      secret. */
  lemma AuthKnownUser(header: string, admins: map<Id, Admin>, envHash: Option<string>,
                      p: Primitives, id: Id)
    requires id in admins && UniqueUsernames(admins)
    requires LoginOf(header, p).username == Some(admins[id].username)
    ensures Authenticate(header, admins, envHash, p) ==
      if p.compare(LoginOf(header, p).password, admins[id].passwordHash) == Match
      then Ok(Scoped(admins[id].id, admins[id].username, admins[id].companyId))
      else Err(AuthFailed)
  {
    SingleKey(AdminsNamed(admins, admins[id].username), id);
  }

  /** No username, or one no admin has: only the legacy secret decides. */
  lemma AuthFallback(header: string, admins: map<Id, Admin>, envHash: Option<string>, p: Primitives)
    requires LoginOf(header, p).username.None?
          || !UsernameTaken(admins, LoginOf(header, p).username.value)
    ensures envHash.None? || envHash.value == "" ==>
      Authenticate(header, admins, envHash, p) == Err(ServerConfig)
    ensures envHash.Some? && envHash.value != "" ==>
      Authenticate(header, admins, envHash, p) ==
        if p.compare(LoginOf(header, p).password, envHash.value) == Match
        then Ok(Unscoped) else Err(AuthFailed)
  {
    var login := LoginOf(header, p);
    if login.username.Some? {
      FirstIsMember(AdminsNamed(admins, login.username.value));
    }
  }

  // --------------------------------------------------------------- slugs

  /** `.replace(/(^-|-$)/g, '')`: drops one dash at the start and one at the end. */
  function StripDashes(s: string): string
  {
    var a := if |s| > 0 && s[0] == '-' then s[1..] else s;
    if |a| > 0 && a[|a| - 1] == '-' then a[..|a| - 1] else a
  }

  /** The slug base of a title: lower-cased, runs outside `[a-z0-9]` made one
      dash, dashes at the ends dropped. */
  function SlugBase(title: string): string
  {
    StripDashes(CollapseRuns(Lower(title)))
  }

  /** `${slugBase}-${job.job_id}`. */
  function JobSlug(title: string, id: Id): string
  {
    SlugBase(title) + "-" + Decimal(id)
  }

  /** Only `[a-z0-9]` and dashes. */
  predicate SlugAlphabet(s: string)
  {
    forall k :: 0 <= k < |s| ==> IsSlugChar(s[k]) || s[k] == '-'
  }

  /** Dropping a leading dash keeps the alphabet, the single dashes and the
      letters and digits, and leaves no dash in front. */
  lemma DropLeadingDash(c: string)
    requires SlugAlphabet(c) && NoDoubleDash(c)
    ensures var a := if |c| > 0 && c[0] == '-' then c[1..] else c;
      SlugAlphabet(a) && NoDoubleDash(a) && SlugChars(a) == SlugChars(c)
      && (a != [] ==> a[0] != '-')
  {
    if |c| > 0 && c[0] == '-' {
      var a := c[1..];
      assert c == [c[0]] + a;
      SlugCharsAppend([c[0]], a);
      assert SlugChars([c[0]]) == [];
      assert a != [] ==> a[0] == c[1];
    }
  }

  /** Dropping a trailing dash likewise, keeping a dash-free front. */
  lemma DropTrailingDash(a: string)
    requires SlugAlphabet(a) && NoDoubleDash(a) && (a != [] ==> a[0] != '-')
    ensures var b := if |a| > 0 && a[|a| - 1] == '-' then a[..|a| - 1] else a;
      SlugAlphabet(b) && NoDoubleDash(b) && SlugChars(b) == SlugChars(a)
      && (b != [] ==> b[0] != '-' && b[|b| - 1] != '-')
  {
    if |a| > 0 && a[|a| - 1] == '-' {
      var b := a[..|a| - 1];
      assert a == b + [a[|a| - 1]];
      SlugCharsAppend(b, [a[|a| - 1]]);
      assert SlugChars([a[|a| - 1]]) == [];
      assert b != [] ==> b[|b| - 1] == a[|a| - 2] && b[0] == a[0];
    }
  }

  lemma StripDashesShape(c: string)
    requires SlugAlphabet(c) && NoDoubleDash(c)
    ensures SlugAlphabet(StripDashes(c)) && NoDoubleDash(StripDashes(c))
    ensures StripDashes(c) != [] ==> StripDashes(c)[0] != '-' && StripDashes(c)[|StripDashes(c)| - 1] != '-'
    ensures SlugChars(StripDashes(c)) == SlugChars(c)
  {
    DropLeadingDash(c);
    DropTrailingDash(if |c| > 0 && c[0] == '-' then c[1..] else c);
  }

  /** The base holds `[a-z0-9]` and single dashes between them, and keeps every
      letter and digit of the lower-cased title, in order. */
  lemma SlugBaseShape(title: string)
    ensures SlugAlphabet(SlugBase(title)) && NoDoubleDash(SlugBase(title))
    ensures SlugBase(title) != [] ==> SlugBase(title)[0] != '-' && SlugBase(title)[|SlugBase(title)| - 1] != '-'
    ensures SlugChars(SlugBase(title)) == SlugChars(Lower(title))
    ensures SlugBase(title) == StripDashes(ScanRuns(Lower(title)))
  {
    var l := Lower(title);
    var c := CollapseRuns(l);
    CollapseRunsNoDoubleDash(l);
    CollapseRunsKeepsSlugChars(l);
    CollapseRunsIsScan(l);
    StripDashesShape(c);
  }

  /** The title "A b": the space becomes a dash, giving "a-b". */
  lemma SlugBaseExample()
    ensures SlugBase("A b") == "a-b"
  {
    var l := Lower("A b");
    assert l == "a b";
    assert RunLength(" b") == 1 by {
      assert " b"[1..] == "b";
    }
    assert l[1..] == " b" && " b"[1..] == "b" && "b"[1..] == [];
    CollapseSlugHead(l);
    CollapseRunHead(" b");
    CollapseSlugHead("b");
    assert CollapseRuns(l) == "a-b";
  }

  /** The job's key can be read back from its slug: the digits after the
      last dash. */
  lemma JobSlugKey(title: string, id: Id)
    ensures LastIndexOf(JobSlug(title, id), '-') == |SlugBase(title)|
    ensures ParseDecimal(JobSlug(title, id)[|SlugBase(title)| + 1..]) == Some(id)
  {
    var b, d := SlugBase(title), Decimal(id);
    assert '-' !in d by {
      forall k | 0 <= k < |d| ensures d[k] != '-' {
        assert IsDigit(d[k]);
      }
    }
    assert JobSlug(title, id) == b + ['-'] + d;
    LastIndexOfBefore(b, '-', d);
    assert JobSlug(title, id)[|b| + 1..] == d;
    DecimalRoundTrip(id);
  }

  /** Two jobs with different keys never share a slug, whatever their titles. */
  lemma JobSlugsDistinct(title1: string, id1: Id, title2: string, id2: Id)
    requires id1 != id2
    ensures JobSlug(title1, id1) != JobSlug(title2, id2)
  {
    JobSlugKey(title1, id1);
    JobSlugKey(title2, id2);
  }

  // --------------------------------------------------- partial updates

  /** The columns the PATCH handlers may set. */
  datatype Column =
    | Name | LogoUrl | PrimaryColor
    | Title | Department | Location | JobType | Description | Requirements | Status | IsActive

  /** The body key (and column name) of each column. */
  function KeyOf(c: Column): string
  {
    match c
    case Name => "name"
    case LogoUrl => "logo_url"
    case PrimaryColor => "primary_color"
    case Title => "title"
    case Department => "department"
    case Location => "location"
    case JobType => "job_type"
    case Description => "description"
    case Requirements => "requirements"
    case Status => "status"
    case IsActive => "is_active"
  }

  /** `allowed` of PATCH /settings. */
  const SettingsColumns: seq<Column> := [Name, LogoUrl, PrimaryColor]

  /** `allowed` of PATCH /jobs/:id. */
  const JobColumns: seq<Column> :=
    [Title, Department, Location, JobType, Description, Requirements, Status, IsActive]

  /** One `key = $n` of a SET list with the value bound to `$n`. */
  datatype Assignment = Assignment(column: Column, placeholder: nat, value: Json)

  /** The SET list the handlers build from `allowed`: allowed keys the body
      has (`hasOwnProperty`), in the order of `allowed`, numbered from 1, each
      with the body's value; AssignmentsComplete says no such key is missed. */
  function Assignments(allowed: seq<Column>, body: map<string, Json>): (fields: seq<Assignment>)
    ensures |fields| <= |allowed|
    ensures forall k :: 0 <= k < |fields| ==>
      fields[k].placeholder == k + 1 && fields[k].column in allowed
      && KeyOf(fields[k].column) in body && fields[k].value == body[KeyOf(fields[k].column)]
  {
    if allowed == [] then []
    else
      var init := allowed[..|allowed| - 1];
      var key := allowed[|allowed| - 1];
      assert allowed == init + [key];
      var prefix := Assignments(init, body);
      prefix + (if KeyOf(key) in body then [Assignment(key, |prefix| + 1, body[KeyOf(key)])] else [])
  }

  /** Every allowed key the body has gets an assignment. */
  lemma {:induction false} AssignmentsComplete(allowed: seq<Column>, body: map<string, Json>, column: Column)
    requires column in allowed && KeyOf(column) in body
    ensures exists k :: 0 <= k < |Assignments(allowed, body)| && Assignments(allowed, body)[k].column == column
  {
    var init := allowed[..|allowed| - 1];
    var last := allowed[|allowed| - 1];
    assert allowed == init + [last];
    var prefix := Assignments(init, body);
    var fields := Assignments(allowed, body);
    if column in init {
      AssignmentsComplete(init, body, column);
      var k :| 0 <= k < |prefix| && prefix[k].column == column;
      assert fields[k] == prefix[k];
    } else {
      assert fields[|prefix|].column == column;
    }
  }

  /** The `for (const key of allowed)` loop with its running `idx`: it builds
      exactly `Assignments`, and `idx` ends one past the last placeholder,
      which is where the row key is bound. */
  method CollectAssignments(allowed: seq<Column>, body: map<string, Json>)
    returns (fields: seq<Assignment>, idx: nat)
    ensures fields == Assignments(allowed, body)
    ensures idx == |fields| + 1
  {
    fields := [];
    idx := 1;
    var i := 0;
    while i < |allowed|
      invariant 0 <= i <= |allowed|
      invariant fields == Assignments(allowed[..i], body)
      invariant idx == |fields| + 1
    {
      var key := allowed[i];
      assert allowed[..i + 1][..i] == allowed[..i];
      if KeyOf(key) in body {
        fields := fields + [Assignment(key, idx, body[KeyOf(key)])];
        idx := idx + 1;
      }
      i := i + 1;
    }
    assert allowed[..|allowed|] == allowed;
  }

  /** Appending a column to `allowed` appends at most its one assignment. */
  lemma AssignmentsStep(allowed: seq<Column>, column: Column, body: map<string, Json>)
    ensures var prefix := Assignments(allowed, body);
      Assignments(allowed + [column], body) ==
        prefix + (if KeyOf(column) in body then [Assignment(column, |prefix| + 1, body[KeyOf(column)])] else [])
  {
    var full := allowed + [column];
    assert full[..|full| - 1] == allowed && full[|full| - 1] == column;
  }

  // --------------------------------------------------------- company patch

  /** One assignment applied to a company row. */
  function SetCompanyColumn(c: Company, f: Assignment): Company
  {
    match f.column
    case Name => c.(name := TextValue(f.value))
    case LogoUrl => c.(logoUrl := TextValue(f.value))
    case PrimaryColor => c.(primaryColor := TextValue(f.value))
    case _ => c
  }

  /** `UPDATE companies SET <fields>`. */
  function ApplyCompany(c: Company, fields: seq<Assignment>): Company
  {
    if fields == [] then c
    else SetCompanyColumn(ApplyCompany(c, fields[..|fields| - 1]), fields[|fields| - 1])
  }

  lemma ApplyCompanySnoc(c: Company, fields: seq<Assignment>, f: Assignment)
    ensures ApplyCompany(c, fields + [f]) == SetCompanyColumn(ApplyCompany(c, fields), f)
  {
    assert (fields + [f])[..|fields|] == fields;
  }

  /** What PATCH /settings should leave: each of the three columns the body
      has set to the body's value, every other column as it was. */
  function PatchedCompany(c: Company, body: map<string, Json>): Company
  {
    c.(name := if "name" in body then TextValue(body["name"]) else c.name,
       logoUrl := if "logo_url" in body then TextValue(body["logo_url"]) else c.logoUrl,
       primaryColor := if "primary_color" in body then TextValue(body["primary_color"]) else c.primaryColor)
  }

  /** Applying the next column of `allowed` sets that one column when the
      body has it. */
  lemma ApplyCompanyStep(c: Company, allowed: seq<Column>, column: Column, body: map<string, Json>)
    ensures ApplyCompany(c, Assignments(allowed + [column], body)) ==
      var before := ApplyCompany(c, Assignments(allowed, body));
      if KeyOf(column) in body then SetCompanyColumn(before, Assignment(column, 0, body[KeyOf(column)]))
      else before
  {
    AssignmentsStep(allowed, column, body);
    var prefix := Assignments(allowed, body);
    if KeyOf(column) in body {
      ApplyCompanySnoc(c, prefix, Assignment(column, |prefix| + 1, body[KeyOf(column)]));
    } else {
      assert prefix + [] == prefix;
    }
  }

  /** The SET list PATCH /settings builds changes exactly the columns the
      body names, to the body's values. */
  lemma {:induction false} SettingsPatch(c: Company, body: map<string, Json>)
    ensures ApplyCompany(c, Assignments(SettingsColumns, body)) == PatchedCompany(c, body)
  {
    var c0: seq<Column> := [];
    var c1 := c0 + [Name];
    var c2 := c1 + [LogoUrl];
    assert SettingsColumns == c2 + [PrimaryColor];
    assert Assignments(c0, body) == [];
    ApplyCompanyStep(c, c0, Name, body);
    ApplyCompanyStep(c, c1, LogoUrl, body);
    ApplyCompanyStep(c, c2, PrimaryColor, body);
  }

  // ------------------------------------------------------------- job patch

  /** One assignment applied to a job row; an `is_active` PostgreSQL refuses
      never gets this far. */
  function SetJobColumn(j: Job, f: Assignment): Job
  {
    match f.column
    case Title => j.(title := TextValue(f.value))
    case Department => j.(department := TextValue(f.value))
    case Location => j.(location := TextValue(f.value))
    case JobType => j.(jobType := TextValue(f.value))
    case Description => j.(description := TextValue(f.value))
    case Requirements => j.(requirements := TextValue(f.value))
    case Status => j.(status := TextValue(f.value))
    case IsActive => if BoolValue(f.value).Some? then j.(isActive := BoolValue(f.value).value) else j
    case _ => j
  }

  /** `UPDATE jobs SET <fields>`. */
  function ApplyJob(j: Job, fields: seq<Assignment>): Job
  {
    if fields == [] then j
    else SetJobColumn(ApplyJob(j, fields[..|fields| - 1]), fields[|fields| - 1])
  }

  lemma ApplyJobSnoc(j: Job, fields: seq<Assignment>, f: Assignment)
    ensures ApplyJob(j, fields + [f]) == SetJobColumn(ApplyJob(j, fields), f)
  {
    assert (fields + [f])[..|fields|] == fields;
  }

  /** PostgreSQL accepts the body's `is_active`, if there is one. */
  predicate ActiveBindable(body: map<string, Json>)
  {
    "is_active" !in body || BoolValue(body["is_active"]).Some?
  }

  /** What PATCH /jobs/:id should leave: each allowed column the body has set
      to the body's value; key, company, salary range, posting date and slug
      as they were. */
  function PatchedJob(j: Job, body: map<string, Json>): Job
    requires ActiveBindable(body)
  {
    j.(title := if "title" in body then TextValue(body["title"]) else j.title,
       department := if "department" in body then TextValue(body["department"]) else j.department,
       location := if "location" in body then TextValue(body["location"]) else j.location,
       jobType := if "job_type" in body then TextValue(body["job_type"]) else j.jobType,
       description := if "description" in body then TextValue(body["description"]) else j.description,
       requirements := if "requirements" in body then TextValue(body["requirements"]) else j.requirements,
       status := if "status" in body then TextValue(body["status"]) else j.status,
       isActive := if "is_active" in body then BoolValue(body["is_active"]).value else j.isActive)
  }

  lemma ApplyJobStep(j: Job, allowed: seq<Column>, column: Column, body: map<string, Json>)
    ensures ApplyJob(j, Assignments(allowed + [column], body)) ==
      var before := ApplyJob(j, Assignments(allowed, body));
      if KeyOf(column) in body then SetJobColumn(before, Assignment(column, 0, body[KeyOf(column)]))
      else before
  {
    AssignmentsStep(allowed, column, body);
    var prefix := Assignments(allowed, body);
    if KeyOf(column) in body {
      ApplyJobSnoc(j, prefix, Assignment(column, |prefix| + 1, body[KeyOf(column)]));
    } else {
      assert prefix + [] == prefix;
    }
  }

  /** The text columns of a job row. */
  predicate IsJobText(c: Column)
  {
    c.Title? || c.Department? || c.Location? || c.JobType? || c.Description?
    || c.Requirements? || c.Status?
  }

  /** A job row's value in a text column. */
  function JobText(j: Job, c: Column): Option<string>
  {
    match c
    case Title => j.title
    case Department => j.department
    case Location => j.location
    case JobType => j.jobType
    case Description => j.description
    case Requirements => j.requirements
    case Status => j.status
    case _ => None
  }

  /** Column by column, what one assignment does to a job row. */
  lemma SetJobColumnFields(j: Job, f: Assignment)
    ensures var r := SetJobColumn(j, f);
      && r.id == j.id && r.companyId == j.companyId && r.salaryRange == j.salaryRange
      && r.postedDate == j.postedDate && r.slug == j.slug
      && (forall c :: IsJobText(c) ==>
            JobText(r, c) == if f.column == c then TextValue(f.value) else JobText(j, c))
      && r.isActive == (if f.column == IsActive && BoolValue(f.value).Some? then BoolValue(f.value).value else j.isActive)
  {
  }

  /** One text column after one assignment. */
  lemma SetJobText(j: Job, f: Assignment, c: Column)
    requires IsJobText(c)
    ensures JobText(SetJobColumn(j, f), c) == if f.column == c then TextValue(f.value) else JobText(j, c)
  {
  }

  /** A text column after a SET list built from `allowed`: the body's value
      when the column is allowed and named in the body, else the old value. */
  function TextAfter(before: Option<string>, allowed: seq<Column>, body: map<string, Json>, c: Column): Option<string>
  {
    if c in allowed && KeyOf(c) in body then TextValue(body[KeyOf(c)]) else before
  }

  /** Column by column, what any SET list built by `Assignments` does to a
      job row; the key, company, salary range, posting date and slug are
      never in it. */
  lemma ApplyJobColumns(j: Job, allowed: seq<Column>, body: map<string, Json>)
    ensures var r := ApplyJob(j, Assignments(allowed, body));
      && r.id == j.id && r.companyId == j.companyId && r.salaryRange == j.salaryRange
      && r.postedDate == j.postedDate && r.slug == j.slug
      && (forall c :: IsJobText(c) ==> JobText(r, c) == TextAfter(JobText(j, c), allowed, body, c))
      && r.isActive == (if IsActive in allowed && "is_active" in body && BoolValue(body["is_active"]).Some?
                        then BoolValue(body["is_active"]).value else j.isActive)
  {
    ApplyJobKeeps(j, Assignments(allowed, body));
    ApplyJobActive(j, allowed, body);
    forall c | IsJobText(c)
      ensures JobText(ApplyJob(j, Assignments(allowed, body)), c) == TextAfter(JobText(j, c), allowed, body, c)
    {
      ApplyJobText(j, allowed, body, c);
    }
  }

  /** One text column after a SET list built by `Assignments`. */
  lemma {:induction false} ApplyJobText(j: Job, allowed: seq<Column>, body: map<string, Json>, c: Column)
    requires IsJobText(c)
    ensures JobText(ApplyJob(j, Assignments(allowed, body)), c) == TextAfter(JobText(j, c), allowed, body, c)
  {
    if allowed == [] {
      assert Assignments(allowed, body) == [];
    } else {
      var init := allowed[..|allowed| - 1];
      var last := allowed[|allowed| - 1];
      assert allowed == init + [last];
      ApplyJobText(j, init, body, c);
      ApplyJobStep(j, init, last, body);
      TextAfterStep(JobText(j, c), init, last, body, c);
      var before := ApplyJob(j, Assignments(init, body));
      if KeyOf(last) in body {
        SetJobText(before, Assignment(last, 0, body[KeyOf(last)]), c);
      }
    }
  }

  /** A text column's value after one more allowed column. */
  lemma TextAfterStep(v: Option<string>, init: seq<Column>, last: Column, body: map<string, Json>, c: Column)
    ensures TextAfter(v, init + [last], body, c) ==
      if last == c && KeyOf(c) in body then TextValue(body[KeyOf(c)]) else TextAfter(v, init, body, c)
  {
    assert c in init + [last] <==> c in init || c == last;
  }

  /** No SET list touches the key, company, salary range, posting date or
      slug of a job row. */
  lemma {:induction false} ApplyJobKeeps(j: Job, fields: seq<Assignment>)
    ensures var r := ApplyJob(j, fields);
      && r.id == j.id && r.companyId == j.companyId && r.salaryRange == j.salaryRange
      && r.postedDate == j.postedDate && r.slug == j.slug
  {
    if fields != [] {
      ApplyJobKeeps(j, fields[..|fields| - 1]);
    }
  }

  /** `is_active` after a SET list built by `Assignments`. */
  lemma {:induction false} ApplyJobActive(j: Job, allowed: seq<Column>, body: map<string, Json>)
    ensures ApplyJob(j, Assignments(allowed, body)).isActive ==
      if IsActive in allowed && "is_active" in body && BoolValue(body["is_active"]).Some?
      then BoolValue(body["is_active"]).value else j.isActive
  {
    if allowed == [] {
      assert Assignments(allowed, body) == [];
    } else {
      var init := allowed[..|allowed| - 1];
      var last := allowed[|allowed| - 1];
      assert allowed == init + [last];
      assert IsActive in allowed <==> IsActive in init || IsActive == last;
      ApplyJobActive(j, init, body);
      ApplyJobStep(j, init, last, body);
      var before := ApplyJob(j, Assignments(init, body));
      var r := ApplyJob(j, Assignments(allowed, body));
      if KeyOf(last) in body {
        var f := Assignment(last, 0, body[KeyOf(last)]);
        assert r == SetJobColumn(before, f);
        SetJobColumnFields(before, f);
      } else {
        assert r == before;
      }
    }
  }

  /** Every text column is among the columns PATCH /jobs/:id allows. */
  lemma TextColumnsAllowed(c: Column)
    requires IsJobText(c)
    ensures c in JobColumns
  {
    match c
    case Title => assert JobColumns[0] == c;
    case Department => assert JobColumns[1] == c;
    case Location => assert JobColumns[2] == c;
    case JobType => assert JobColumns[3] == c;
    case Description => assert JobColumns[4] == c;
    case Requirements => assert JobColumns[5] == c;
    case Status => assert JobColumns[6] == c;
  }

  /** Column by column, the row PATCH /jobs/:id should leave. */
  lemma PatchedJobText(j: Job, body: map<string, Json>, c: Column)
    requires ActiveBindable(body) && IsJobText(c)
    ensures JobText(PatchedJob(j, body), c) == TextAfter(JobText(j, c), JobColumns, body, c)
  {
    TextColumnsAllowed(c);
  }

  /** The SET list PATCH /jobs/:id builds changes exactly the allowed columns
      the body names, to the body's values. */
  lemma JobPatch(j: Job, body: map<string, Json>)
    requires ActiveBindable(body)
    ensures ApplyJob(j, Assignments(JobColumns, body)) == PatchedJob(j, body)
  {
    ApplyJobColumns(j, JobColumns, body);
    var r, e := ApplyJob(j, Assignments(JobColumns, body)), PatchedJob(j, body);
    forall c | IsJobText(c)
      ensures JobText(r, c) == JobText(e, c)
    {
      PatchedJobText(j, body, c);
    }
    assert IsActive in JobColumns by { assert JobColumns[7] == IsActive; }
    JobsAgree(r, e);
  }

  /** Two job rows that agree in every column are the same row. */
  lemma JobsAgree(r: Job, e: Job)
    requires r.id == e.id && r.companyId == e.companyId && r.salaryRange == e.salaryRange
    requires r.postedDate == e.postedDate && r.slug == e.slug && r.isActive == e.isActive
    requires forall c :: IsJobText(c) ==> JobText(r, c) == JobText(e, c)
    ensures r == e
  {
    assert JobText(r, Title) == JobText(e, Title);
    assert JobText(r, Department) == JobText(e, Department);
    assert JobText(r, Location) == JobText(e, Location);
    assert JobText(r, JobType) == JobText(e, JobType);
    assert JobText(r, Description) == JobText(e, Description);
    assert JobText(r, Requirements) == JobText(e, Requirements);
    assert JobText(r, Status) == JobText(e, Status);
  }

  /** None of the allowed columns is named in the body. */
  predicate NoneOf(allowed: seq<Column>, body: map<string, Json>)
  {
    forall c :: c in allowed ==> KeyOf(c) !in body
  }

  /** The SET list is empty exactly when the body names none of the allowed
      columns, which is when the handlers answer NO_FIELDS. */
  lemma NoAssignments(allowed: seq<Column>, body: map<string, Json>)
    ensures Assignments(allowed, body) == [] <==> NoneOf(allowed, body)
  {
    var fields := Assignments(allowed, body);
    if fields != [] {
      assert fields[0].column in allowed && KeyOf(fields[0].column) in body;
    }
    if !NoneOf(allowed, body) {
      var c :| c in allowed && KeyOf(c) in body;
      AssignmentsComplete(allowed, body, c);
    }
  }

  // ----------------------------------------------------------- read handlers

  /** The company filter of the admin lists: a scoped caller sees the rows of
      its own company, any other caller every row. */
  predicate InScope(caller: Caller, companyId: Id)
  {
    CallerCompany(caller).None? || CallerCompany(caller).value == companyId
  }

  /** GET /applications: the applications joined to their jobs, only those of
      the caller's company when the caller is scoped, latest `applied_at`
      first. */
  function VisibleApplications(caller: Caller, jobs: map<Id, Job>, applications: map<Id, Application>)
    : (r: seq<Id>)
    ensures Distinct(r)
    ensures forall id :: id in r <==>
      id in applications && applications[id].jobId in jobs
      && InScope(caller, jobs[applications[id].jobId].companyId)
    ensures forall i, j :: 0 <= i < j < |r| ==> applications[r[i]].appliedAt >= applications[r[j]].appliedAt
  {
    SelectOrdered(applications,
      (a: Application) => a.jobId in jobs && InScope(caller, jobs[a.jobId].companyId),
      (a: Application) => a.appliedAt)
  }

  /** GET /jobs: the jobs of the caller's company when the caller is scoped,
      every job otherwise, latest `posted_date` first. */
  function VisibleJobs(caller: Caller, jobs: map<Id, Job>): (r: seq<Id>)
    ensures Distinct(r)
    ensures forall id :: id in r <==> id in jobs && InScope(caller, jobs[id].companyId)
    ensures forall i, j :: 0 <= i < j < |r| ==> jobs[r[i]].postedDate >= jobs[r[j]].postedDate
  {
    SelectOrdered(jobs, (j: Job) => InScope(caller, j.companyId), (j: Job) => j.postedDate)
  }

  /** GET /settings: no company for a caller without one, NOT_FOUND for a
      company that is gone, else the caller's company. */
  function Settings(caller: Caller, companies: map<Id, Company>): (r: Result<Option<Company>>)
    ensures CallerCompany(caller).None? ==> r == Ok(None)
    ensures CallerCompany(caller).Some? ==>
      if CallerCompany(caller).value in companies
      then r == Ok(Some(companies[CallerCompany(caller).value]))
      else r == Err(NotFound)
  {
    match CallerCompany(caller)
    case None => Ok(None)
    case Some(id) => if id in companies then Ok(Some(companies[id])) else Err(NotFound)
  }

  // ------------------------------------------------- application status

  /** PATCH /applications/:id: a status outside new, reviewed, rejected is
      INVALID_STATUS; an id PostgreSQL cannot read as an integer is DB_ERROR;
      an id with no row is NOT_FOUND; otherwise only that row's status
      changes. Any authenticated caller may patch any application. */
  twostate predicate StatusSet(db: Database, id: string, body: map<string, Json>, new r: Result<Application>)
    reads db
  {
    && (!StatusIn(body, LegacyStatuses) ==> r == Err(InvalidStatus))
    && (StatusIn(body, LegacyStatuses) && IdParam(id).None? ==> r == Err(DbError))
    && ((StatusIn(body, LegacyStatuses) && IdParam(id).Some?
         && Lookup(old(db.applications), IdParam(id).value).None?) ==> r == Err(NotFound))
    && (r.Err? ==> unchanged(db))
    && (r.Ok? <==> (StatusIn(body, LegacyStatuses) && IdParam(id).Some?
                    && Lookup(old(db.applications), IdParam(id).value).Some?))
    && (r.Ok? ==>
          && r.value == old(db.applications)[IdParam(id).value].(status := body["status"].s)
          && db.applications == old(db.applications)[IdParam(id).value := r.value]
          && db.companies == old(db.companies) && db.admins == old(db.admins) && db.jobs == old(db.jobs)
          && db.Counters() == old(db.Counters()))
  }

  /** The handler of PATCH /applications/:id, whose outcome is `StatusSet`. */
  method UpdateApplicationStatus(db: Database, id: string, body: map<string, Json>)
    returns (r: Result<Application>)
    requires db.Valid()
    modifies db
    ensures db.Valid()
    ensures StatusSet(db, id, body, r)
  {
    if !StatusIn(body, LegacyStatuses) {
      return Err(InvalidStatus);
    }
    var n := IdParam(id);
    if n.None? {
      return Err(DbError);
    }
    var row := Lookup(db.applications, n.value);
    if row.None? {
      return Err(NotFound);
    }
    var updated := row.value.(status := body["status"].s);
    db.SetApplication(updated);
    r := Ok(updated);
  }

  // ---------------------------------------------------------- job creation

  /** The company a new job goes to: a scoped caller's own company, whatever
      the body says; otherwise the body's `company_id`, which must be truthy
      (MISSING_COMPANY), readable as an integer (DB_ERROR) and name a company
      (INVALID_COMPANY). */
  function JobCompany(caller: Caller, body: map<string, Json>, companies: map<Id, Company>): (r: Result<Id>)
    ensures CallerCompany(caller).Some? ==> r == Ok(CallerCompany(caller).value)
    ensures CallerCompany(caller).None? && !FieldTruthy(body, "company_id") ==> r == Err(MissingCompany)
    ensures CallerCompany(caller).None? && r.Ok? ==>
      FieldTruthy(body, "company_id") && IntValue(body["company_id"]) == Some(r.value) && r.value in companies
    ensures r == Err(InvalidCompany) <==>
      CallerCompany(caller).None? && FieldTruthy(body, "company_id") && IntValue(body["company_id"]).Some?
      && Lookup(companies, IntValue(body["company_id"]).value).None?
    ensures r.Err? ==> r.code in {MissingCompany, InvalidCompany, DbError}
  {
    if CallerCompany(caller).Some? then Ok(CallerCompany(caller).value)
    else if !FieldTruthy(body, "company_id") then Err(MissingCompany)
    else
      match IntValue(body["company_id"])
      case None => Err(DbError)
      case Some(n) => if Lookup(companies, n).Some? then Ok(n) else Err(InvalidCompany)
  }

  /** The job status PostgreSQL fills in when the INSERT names none. */
  const DefaultJobStatus: Option<string> := Some("draft")

  /** The row the INSERT of POST /jobs writes, before its key and slug.
      Destructuring defaults (NULL, and `true` for `is_active`) apply to
      absent keys only. `None` when the handler throws instead: a title that
      is not a string has no `toLowerCase`, and PostgreSQL refuses an
      `is_active` that is not a boolean. */
  function JobDraft(body: map<string, Json>, companyId: Id, now: int): (r: Option<Job>)
    ensures r.Some? <==> "title" in body && body["title"].JStr? && ActiveBindable(body)
    ensures r.Some? ==>
      && r.value.companyId == companyId && r.value.title == Some(body["title"].s)
      && r.value.slug.None? && r.value.salaryRange.None? && r.value.status == DefaultJobStatus
      && r.value.postedDate == now
      && r.value.description == TextValue(FieldOrNull(body, "description"))
      && ("department" !in body ==> r.value.department.None?)
      && ("location" !in body ==> r.value.location.None?)
      && ("job_type" !in body ==> r.value.jobType.None?)
      && ("requirements" !in body ==> r.value.requirements.None?)
      && ("is_active" !in body ==> r.value.isActive == Some(true))
  {
    if "title" in body && body["title"].JStr? && ActiveBindable(body) then
      Some(Job(1, companyId, Some(body["title"].s),
               TextValue(FieldOrNull(body, "department")),
               TextValue(FieldOrNull(body, "location")),
               TextValue(FieldOrNull(body, "job_type")),
               TextValue(FieldOrNull(body, "description")),
               TextValue(FieldOrNull(body, "requirements")),
               None, DefaultJobStatus,
               if "is_active" in body then BoolValue(body["is_active"]).value else Some(true),
               now, None))
    else None
  }

  /** `!title || !description`. */
  predicate JobFieldsPresent(body: map<string, Json>)
  {
    FieldTruthy(body, "title") && FieldTruthy(body, "description")
  }

  /** POST /jobs: validate, pick the company, INSERT, then UPDATE the new row's
      slug to `<slug base>-<key>`. Every refusal comes before the INSERT: a
      body the INSERT cannot bind, or a company that is gone (the foreign
      key), is DB_ERROR. */
  twostate predicate JobCreated(db: Database, caller: Caller, body: map<string, Json>, now: int,
                                new r: Result<Job>)
    reads db
  {
    var company := JobCompany(caller, body, old(db.companies));
    && (!JobFieldsPresent(body) ==> r == Err(ValidationError))
    && (JobFieldsPresent(body) && company.Err? ==> r == Err(company.code))
    && ((JobFieldsPresent(body) && company.Ok?
         && (company.value !in old(db.companies) || JobDraft(body, company.value, now).None?)) ==>
          r == Err(DbError))
    && (r.Err? ==> unchanged(db))
    && (r.Ok? <==>
          && JobFieldsPresent(body) && company.Ok? && company.value in old(db.companies)
          && JobDraft(body, company.value, now).Some?)
    && (r.Ok? ==>
          && company == Ok(r.value.companyId)
          && r.value.id == old(db.nextJobId) && r.value.id !in old(db.jobs)
          && r.value == JobDraft(body, r.value.companyId, now).value.(
               id := r.value.id, slug := Some(JobSlug(body["title"].s, r.value.id)))
          && db.jobs == old(db.jobs)[r.value.id := r.value]
          && db.companies == old(db.companies) && db.admins == old(db.admins)
          && db.applications == old(db.applications))
  }

  /** The handler of POST /jobs, whose outcome is `JobCreated`. */
  method CreateJob(db: Database, caller: Caller, body: map<string, Json>, now: int)
    returns (r: Result<Job>)
    requires db.Valid()
    modifies db
    ensures db.Valid()
    ensures JobCreated(db, caller, body, now, r)
  {
    if !JobFieldsPresent(body) {
      return Err(ValidationError);
    }
    var company := JobCompany(caller, body, db.companies);
    if company.Err? {
      return Err(company.code);
    }
    var draft := JobDraft(body, company.value, now);
    if draft.None? {
      return Err(DbError);
    }
    r := InsertWithSlug(db, draft.value, body["title"].s);
  }

  /** The INSERT of a new job followed by the UPDATE that sets its slug from
      the title and the key the INSERT handed out. */
  method InsertWithSlug(db: Database, draft: Job, title: string) returns (r: Result<Job>)
    requires db.Valid()
    modifies db
    ensures db.Valid()
    ensures r.Ok? <==> draft.companyId in old(db.companies)
    ensures r.Err? ==> r.code == DbError && unchanged(db)
    ensures r.Ok? ==>
      && r.value == draft.(id := old(db.nextJobId), slug := Some(JobSlug(title, old(db.nextJobId))))
      && old(db.nextJobId) !in old(db.jobs)
      && db.jobs == old(db.jobs)[r.value.id := r.value]
      && db.companies == old(db.companies) && db.admins == old(db.admins)
      && db.applications == old(db.applications)
  {
    ghost var jobs0, n := db.jobs, db.nextJobId;
    var w := db.InsertJob(draft);
    if !w.Written? {
      return Err(DbError);
    }
    ghost var jobs1 := db.jobs;
    assert jobs1 == jobs0[n := w.row];
    var job := SetSlug(db, w.row, title);
    UpdateTwice(jobs0, n, w.row, job);
    r := Ok(job);
  }

  /** A second write to the same key leaves only the second row. */
  lemma UpdateTwice<T>(m: map<Id, T>, k: Id, a: T, b: T)
    ensures m[k := a][k := b] == m[k := b]
  {
  }

  /** The UPDATE that follows the INSERT: the slug of the stored row becomes
      the title's slug suffixed with the row's key. */
  method SetSlug(db: Database, row: Job, title: string) returns (job: Job)
    requires db.Valid() && row.id in db.jobs && row.companyId in db.companies
    modifies db
    ensures db.Valid()
    ensures job == row.(slug := Some(JobSlug(title, row.id)))
    ensures db.jobs == old(db.jobs)[row.id := job]
    ensures db.companies == old(db.companies) && db.admins == old(db.admins)
    ensures db.applications == old(db.applications)
  {
    job := row.(slug := Some(JobSlug(title, row.id)));
    db.SetJob(job);
  }

  // ---------------------------------------------------------- registration

  /** `!company_name || !admin_username || !admin_password`. */
  predicate RegisterFieldsPresent(body: map<string, Json>)
  {
    FieldTruthy(body, "company_name") && FieldTruthy(body, "admin_username")
      && FieldTruthy(body, "admin_password")
  }

  /** POST /register (no authentication): validate, refuse a taken username
      (USER_EXISTS), INSERT the company, hash the password, INSERT the admin
      bound to the new company. A password bcrypt cannot hash (not a string)
      fails after the company INSERT, which stays. */
  twostate predicate CompanyRegistered(db: Database, body: map<string, Json>, now: int, p: Primitives,
                                       new r: Result<(Company, Admin)>)
    reads db
  {
    && (!RegisterFieldsPresent(body) ==> r == Err(ValidationError) && unchanged(db))
    && ((RegisterFieldsPresent(body)
         && UsernameTaken(old(db.admins), BoundText(body["admin_username"]))) ==>
          r == Err(UserExists) && unchanged(db))
    && ((r.Ok? || r == Err(DbError)) <==>
          (RegisterFieldsPresent(body) && !UsernameTaken(old(db.admins), BoundText(body["admin_username"]))))
    && ((r.Ok? || r == Err(DbError)) ==>
          && db.companies == old(db.companies)[old(db.nextCompanyId) :=
               Company(old(db.nextCompanyId), TextValue(body["company_name"]), None,
                       TextValue(FieldOrNull(body, "logo_url")), TextValue(FieldOrNull(body, "primary_color")), now)]
          && old(db.nextCompanyId) !in old(db.companies)
          && db.jobs == old(db.jobs) && db.applications == old(db.applications))
    && (r == Err(DbError) <==>
          (RegisterFieldsPresent(body) && !UsernameTaken(old(db.admins), BoundText(body["admin_username"]))
           && !body["admin_password"].JStr?))
    && (r == Err(DbError) ==> db.admins == old(db.admins))
    && (r.Ok? ==>
          && old(db.nextCompanyId) in db.companies
          && r.value.0 == db.companies[old(db.nextCompanyId)]
          && r.value.1 == Admin(old(db.nextAdminId), BoundText(body["admin_username"]),
                                p.hash(body["admin_password"].s), Some(r.value.0.id))
          && old(db.nextAdminId) !in old(db.admins)
          && db.admins == old(db.admins)[r.value.1.id := r.value.1])
  }

  /** The handler of POST /register, whose outcome is `CompanyRegistered`. */
  method RegisterCompany(db: Database, body: map<string, Json>, now: int, p: Primitives)
    returns (r: Result<(Company, Admin)>)
    requires db.Valid()
    modifies db
    ensures db.Valid()
    ensures CompanyRegistered(db, body, now, p, r)
  {
    if !RegisterFieldsPresent(body) {
      return Err(ValidationError);
    }
    var username := BoundText(body["admin_username"]);
    if UsernameTaken(db.admins, username) {
      return Err(UserExists);
    }
    var c := db.InsertCompany(TextValue(body["company_name"]), None,
      TextValue(FieldOrNull(body, "logo_url")), TextValue(FieldOrNull(body, "primary_color")), now);
    assert c.Written?;
    if !body["admin_password"].JStr? {
      return Err(DbError);
    }
    var hash := p.hash(body["admin_password"].s);
    var a := db.InsertAdmin(username, hash, Some(c.row.id));
    assert a.Written?;
    r := Ok((c.row, a.row));
  }

  /** An admin that registration created can log in: a header whose token
      decodes to `username:password` authenticates as that admin, with that
      admin's company, provided bcrypt verifies its own hashes and the
      username holds no colon. */
  lemma RegisteredAdminAuthenticates(header: string, admins: map<Id, Admin>, envHash: Option<string>,
                                     p: Primitives, id: Id, password: string)
    requires HashVerifies(p) && UniqueUsernames(admins)
    requires id in admins && admins[id].passwordHash == p.hash(password)
    requires admins[id].username != "" && ':' !in admins[id].username
    requires p.decode(Token(header)) == admins[id].username + ":" + password
    ensures Authenticate(header, admins, envHash, p) ==
      Ok(Scoped(admins[id].id, admins[id].username, admins[id].companyId))
  {
    ParseNamed(admins[id].username, password);
    AuthKnownUser(header, admins, envHash, p, id);
  }

  // --------------------------------------------------------------- settings

  /** PATCH /settings: NO_COMPANY for a caller without a company, NO_FIELDS
      when the body names none of name, logo_url, primary_color; otherwise
      the UPDATE sets exactly the named ones. An UPDATE that finds no row
      answers `{company: undefined}`, here `Ok(None)`. */
  twostate predicate SettingsSaved(db: Database, caller: Caller, body: map<string, Json>,
                                   new r: Result<Option<Company>>)
    reads db
  {
    && (CallerCompany(caller).None? ==> r == Err(NoCompany))
    && (CallerCompany(caller).Some? && NoneOf(SettingsColumns, body) ==> r == Err(NoFields))
    && (r.Ok? <==> CallerCompany(caller).Some? && !NoneOf(SettingsColumns, body))
    && (r.Err? || r == Ok(None) ==> unchanged(db))
    && (r.Ok? ==>
          var id := CallerCompany(caller).value;
          if id in old(db.companies) then
            && r == Ok(Some(PatchedCompany(old(db.companies)[id], body)))
            && db.companies == old(db.companies)[id := r.value.value]
            && db.admins == old(db.admins) && db.jobs == old(db.jobs) && db.applications == old(db.applications)
          else r == Ok(None))
  }

  /** The handler of PATCH /settings, whose outcome is `SettingsSaved`. */
  method UpdateSettings(db: Database, caller: Caller, body: map<string, Json>)
    returns (r: Result<Option<Company>>)
    requires db.Valid()
    modifies db
    ensures db.Valid()
    ensures SettingsSaved(db, caller, body, r)
  {
    if CallerCompany(caller).None? {
      return Err(NoCompany);
    }
    var id := CallerCompany(caller).value;
    var fields, idx := CollectAssignments(SettingsColumns, body);
    NoAssignments(SettingsColumns, body);
    if |fields| == 0 {
      return Err(NoFields);
    }
    if id !in db.companies {
      return Ok(None);
    }
    var updated := ApplyCompany(db.companies[id], fields);
    SettingsPatch(db.companies[id], body);
    db.SetCompany(updated);
    r := Ok(Some(updated));
  }

  // -------------------------------------------------------------- job patch

  /** The ownership check a scoped caller's PATCH /jobs/:id passes first: an
      id PostgreSQL cannot read is DB_ERROR, a missing job NOT_FOUND (before
      any ownership test), another company's job FORBIDDEN. Callers without a
      company skip it. */
  function JobGate(caller: Caller, id: string, jobs: map<Id, Job>): (r: Option<ErrorCode>)
    ensures CallerCompany(caller).None? ==> r.None?
    ensures r == Some(NotFound) <==>
      CallerCompany(caller).Some? && IdParam(id).Some? && Lookup(jobs, IdParam(id).value).None?
    ensures r == Some(Forbidden) <==>
      CallerCompany(caller).Some? && IdParam(id).Some? && Lookup(jobs, IdParam(id).value).Some?
      && jobs[IdParam(id).value].companyId != CallerCompany(caller).value
    ensures r.None? && CallerCompany(caller).Some? ==>
      IdParam(id).Some? && IdParam(id).value in jobs
      && jobs[IdParam(id).value].companyId == CallerCompany(caller).value
    ensures r.Some? ==> r.value in {DbError, NotFound, Forbidden}
  {
    if CallerCompany(caller).None? then None
    else if IdParam(id).None? then Some(DbError)
    else if Lookup(jobs, IdParam(id).value).None? then Some(NotFound)
    else if jobs[IdParam(id).value].companyId != CallerCompany(caller).value then Some(Forbidden)
    else None
  }

  /** PATCH /jobs/:id: the ownership check, then an UPDATE of exactly the
      allowed columns the body names. A key PostgreSQL cannot read as an
      integer, or an `is_active` it cannot bind, is DB_ERROR; an UPDATE that
      finds no row is NOT_FOUND. The slug is not recomputed, and the row
      keeps its company, so the second ownership check after the UPDATE can
      never refuse. */
  twostate predicate JobPatched(db: Database, caller: Caller, id: string, body: map<string, Json>,
                                new r: Result<Job>)
    reads db
  {
    var gate := JobGate(caller, id, old(db.jobs));
    && (gate.Some? ==> r == Err(gate.value))
    && (gate.None? && NoneOf(JobColumns, body) ==> r == Err(NoFields))
    && ((gate.None? && !NoneOf(JobColumns, body) && (IdParam(id).None? || !ActiveBindable(body))) ==>
          r == Err(DbError))
    && ((gate.None? && !NoneOf(JobColumns, body) && IdParam(id).Some? && ActiveBindable(body)
         && Lookup(old(db.jobs), IdParam(id).value).None?) ==> r == Err(NotFound))
    && (r.Err? ==> unchanged(db))
    && (r.Ok? <==>
          && gate.None? && !NoneOf(JobColumns, body) && ActiveBindable(body)
          && IdParam(id).Some? && Lookup(old(db.jobs), IdParam(id).value).Some?)
    && (r.Ok? ==>
          var n := IdParam(id).value;
          && ActiveBindable(body)
          && r.value == PatchedJob(old(db.jobs)[n], body)
          && r.value.slug == old(db.jobs)[n].slug
          && db.jobs == old(db.jobs)[n := r.value]
          && db.companies == old(db.companies) && db.admins == old(db.admins)
          && db.applications == old(db.applications))
    && (r.Ok? && CallerCompany(caller).Some? ==> r.value.companyId == CallerCompany(caller).value)
  }

  /** The handler of PATCH /jobs/:id, whose outcome is `JobPatched`. */
  method UpdateJob(db: Database, caller: Caller, id: string, body: map<string, Json>)
    returns (r: Result<Job>)
    requires db.Valid()
    modifies db
    ensures db.Valid()
    ensures JobPatched(db, caller, id, body, r)
  {
    var gate := JobGate(caller, id, db.jobs);
    if gate.Some? {
      return Err(gate.value);
    }
    var fields, idx := CollectAssignments(JobColumns, body);
    NoAssignments(JobColumns, body);
    if |fields| == 0 {
      return Err(NoFields);
    }
    var n := IdParam(id);
    if n.None? || !ActiveBindable(body) {
      return Err(DbError);
    }
    var row := Lookup(db.jobs, n.value);
    if row.None? {
      return Err(NotFound);
    }
    var updated := ApplyJob(row.value, fields);
    JobPatch(row.value, body);
    db.SetJob(updated);
    r := Ok(updated);
  }

  // ----------------------------------------------------------------- routes

  /** The routes of the router, with their parameters and JSON bodies. */
  datatype Request =
    | GetApplications
    | PatchApplication(id: string, body: map<string, Json>)
    | PostJob(body: map<string, Json>)
    | PostRegister(body: map<string, Json>)
    | GetSettings
    | PatchSettings(body: map<string, Json>)
    | GetJobs
    | PatchJob(id: string, body: map<string, Json>)

  /** The payload of a successful reply. */
  datatype Reply =
    | ApplicationList(applications: seq<Application>)
    | ApplicationRow(application: Application)
    | JobList(jobRows: seq<Job>)
    | JobRow(job: Job)
    | Registered(company: Company, admin: Admin)
    | CompanySettings(settings: Option<Company>)

  /** The handler outcome inside a reply of the matching kind. */
  function ApplicationOf(r: Result<Reply>): Result<Application>
    requires r.Ok? ==> r.value.ApplicationRow?
  {
    match r
    case Ok(v) => Ok(v.application)
    case Err(e) => Err(e)
  }

  function JobOf(r: Result<Reply>): Result<Job>
    requires r.Ok? ==> r.value.JobRow?
  {
    match r
    case Ok(v) => Ok(v.job)
    case Err(e) => Err(e)
  }

  function SettingsOf(r: Result<Reply>): Result<Option<Company>>
    requires r.Ok? ==> r.value.CompanySettings?
  {
    match r
    case Ok(v) => Ok(v.settings)
    case Err(e) => Err(e)
  }

  function RegistrationOf(r: Result<Reply>): Result<(Company, Admin)>
    requires r.Ok? ==> r.value.Registered?
  {
    match r
    case Ok(v) => Ok((v.company, v.admin))
    case Err(e) => Err(e)
  }

  /** What a protected route answers and writes once `caller` is through:
      the reads change nothing and answer the caller's rows, each write
      answers and writes exactly what its handler does. */
  twostate predicate Served(db: Database, caller: Caller, now: int, req: Request, new r: Result<Reply>)
    requires !req.PostRegister?
    reads db
  {
    match req
    case GetApplications =>
      && unchanged(db)
      && r == Ok(ApplicationList(Rows(old(db.applications),
                                      VisibleApplications(caller, old(db.jobs), old(db.applications)))))
    case GetJobs =>
      unchanged(db) && r == Ok(JobList(Rows(old(db.jobs), VisibleJobs(caller, old(db.jobs)))))
    case GetSettings =>
      && unchanged(db)
      && (r.Ok? <==> Settings(caller, old(db.companies)).Ok?)
      && (r.Ok? ==> r.value == CompanySettings(Settings(caller, old(db.companies)).value))
      && (r.Err? ==> r.code == Settings(caller, old(db.companies)).code)
    case PatchApplication(id, body) =>
      (r.Ok? ==> r.value.ApplicationRow?) && StatusSet(db, id, body, ApplicationOf(r))
    case PostJob(body) =>
      (r.Ok? ==> r.value.JobRow?) && JobCreated(db, caller, body, now, JobOf(r))
    case PatchSettings(body) =>
      (r.Ok? ==> r.value.CompanySettings?) && SettingsSaved(db, caller, body, SettingsOf(r))
    case PatchJob(id, body) =>
      (r.Ok? ==> r.value.JobRow?) && JobPatched(db, caller, id, body, JobOf(r))
  }

  /** One request through the router: every route but POST /register runs
      `authenticateAdmin` first, which answers UNAUTHORIZED for a missing or
      empty header and otherwise the middleware's error, and then no handler
      runs and nothing is written. */
  method Handle(db: Database, header: Option<string>, envHash: Option<string>, p: Primitives,
                now: int, req: Request) returns (r: Result<Reply>)
    requires db.Valid()
    modifies db
    ensures db.Valid()
    ensures !req.PostRegister? && !HeaderPresent(header) ==> r == Err(Unauthorized) && unchanged(db)
    ensures (!req.PostRegister? && HeaderPresent(header)
             && Authenticate(header.value, old(db.admins), envHash, p).Err?) ==>
      r == Err(Authenticate(header.value, old(db.admins), envHash, p).code) && unchanged(db)
    ensures req.GetApplications? || req.GetJobs? || req.GetSettings? ==> unchanged(db)
    ensures (!req.PostRegister? && HeaderPresent(header)
             && Authenticate(header.value, old(db.admins), envHash, p).Ok?) ==>
      Served(db, Authenticate(header.value, old(db.admins), envHash, p).value, now, req, r)
    ensures req.PostRegister? ==>
      (r.Ok? ==> r.value.Registered?) && CompanyRegistered(db, req.body, now, p, RegistrationOf(r))
  {
    if req.PostRegister? {
      var out := RegisterCompany(db, req.body, now, p);
      r := match out case Ok(v) => Ok(Registered(v.0, v.1)) case Err(e) => Err(e);
      return;
    }
    if !HeaderPresent(header) {
      return Err(Unauthorized);
    }
    var auth := Authenticate(header.value, db.admins, envHash, p);
    if auth.Err? {
      return Err(auth.code);
    }
    r := Serve(db, auth.value, now, req);
  }

  /** A protected route once `authenticateAdmin` has let `caller` through:
      the reads change nothing and answer the rows in the caller's scope;
      every write answers the row its handler leaves in the table, and a
      refused one changes nothing. */
  method Serve(db: Database, caller: Caller, now: int, req: Request) returns (r: Result<Reply>)
    requires db.Valid() && !req.PostRegister?
    modifies db
    ensures db.Valid()
    ensures Served(db, caller, now, req, r)
    ensures req.GetApplications? || req.GetJobs? || req.GetSettings? ==> unchanged(db)
    ensures r.Err? ==> unchanged(db)
    ensures req.GetApplications? ==>
      r == Ok(ApplicationList(Rows(db.applications, VisibleApplications(caller, db.jobs, db.applications))))
    ensures req.GetJobs? ==> r == Ok(JobList(Rows(db.jobs, VisibleJobs(caller, db.jobs))))
    ensures req.GetSettings? ==> (r.Ok? <==> Settings(caller, db.companies).Ok?)
    ensures req.GetSettings? && r.Ok? ==> r.value == CompanySettings(Settings(caller, db.companies).value)
    ensures req.GetSettings? && r.Err? ==> r.code == Settings(caller, db.companies).code
    ensures req.PatchApplication? ==>
      (r.Ok? <==> StatusIn(req.body, LegacyStatuses) && IdParam(req.id).Some?
                  && Lookup(old(db.applications), IdParam(req.id).value).Some?)
    ensures req.PatchApplication? && r.Ok? ==>
      && IdParam(req.id).Some? && IdParam(req.id).value in old(db.applications)
      && r.value == ApplicationRow(old(db.applications)[IdParam(req.id).value].(status := req.body["status"].s))
      && db.applications == old(db.applications)[IdParam(req.id).value := r.value.application]
    ensures req.PostJob? && r.Ok? ==>
      && r.value.JobRow? && r.value.job.id !in old(db.jobs)
      && JobCompany(caller, req.body, old(db.companies)) == Ok(r.value.job.companyId)
      && db.jobs == old(db.jobs)[r.value.job.id := r.value.job]
    ensures req.PatchSettings? && r.Ok? ==> r.value.CompanySettings?
    ensures req.PatchSettings? && r.Ok? && r.value.settings.Some? ==>
      && CallerCompany(caller).Some? && CallerCompany(caller).value in old(db.companies)
      && r.value.settings.value == PatchedCompany(old(db.companies)[CallerCompany(caller).value], req.body)
      && db.companies == old(db.companies)[CallerCompany(caller).value := r.value.settings.value]
    ensures req.PatchJob? && JobGate(caller, req.id, old(db.jobs)).Some? ==>
      r == Err(JobGate(caller, req.id, old(db.jobs)).value)
    ensures req.PatchJob? && r.Ok? ==>
      && IdParam(req.id).Some? && IdParam(req.id).value in old(db.jobs) && ActiveBindable(req.body)
      && r.value == JobRow(PatchedJob(old(db.jobs)[IdParam(req.id).value], req.body))
      && db.jobs == old(db.jobs)[IdParam(req.id).value := r.value.job]
  {
    match req {
      case GetApplications =>
        r := Ok(ApplicationList(Rows(db.applications, VisibleApplications(caller, db.jobs, db.applications))));
      case PatchApplication(id, body) =>
        var out := UpdateApplicationStatus(db, id, body);
        r := match out case Ok(a) => Ok(ApplicationRow(a)) case Err(e) => Err(e);
      case PostJob(body) =>
        var out := CreateJob(db, caller, body, now);
        r := match out case Ok(j) => Ok(JobRow(j)) case Err(e) => Err(e);
      case GetSettings =>
        var out := Settings(caller, db.companies);
        r := match out case Ok(c) => Ok(CompanySettings(c)) case Err(e) => Err(e);
      case PatchSettings(body) =>
        var out := UpdateSettings(db, caller, body);
        r := match out case Ok(c) => Ok(CompanySettings(c)) case Err(e) => Err(e);
      case GetJobs =>
        r := Ok(JobList(Rows(db.jobs, VisibleJobs(caller, db.jobs))));
      case PatchJob(id, body) =>
        var out := UpdateJob(db, caller, id, body);
        r := match out case Ok(j) => Ok(JobRow(j)) case Err(e) => Err(e);
    }
  }
}
