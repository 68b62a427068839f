/** The backend's job model (backend/src/models/job.js): the two reads, the
    INSERT of `create` with a slug computed from the title, and the partial
    UPDATE of `update`, which writes only the fields whose new value is
    truthy and recomputes the slug of a truthy title. */
module JobModel {
  import opened Values
  import opened Text
  import opened Query
  import opened Store

  // ------------------------------------------------------------------ reads

  /** `findByCompanyId`: the company's jobs (the JOIN needs the company),
      latest `posted_date` first. */
  function FindByCompanyId(companyId: Id, companies: map<Id, Company>, jobs: map<Id, Job>): (r: seq<Id>)
    ensures Distinct(r)
    ensures forall id :: id in r <==> id in jobs && jobs[id].companyId == companyId && companyId in companies
    ensures forall i, j :: 0 <= i < j < |r| ==> jobs[r[i]].postedDate >= jobs[r[j]].postedDate
  {
    SelectOrdered(jobs, (j: Job) => j.companyId == companyId && companyId in companies, (j: Job) => j.postedDate)
  }

  /** `findById`: the job under that key, if its company is there too; the
      query throws (SERVER_ERROR for the caller) on an id PostgreSQL cannot
      read as an integer. */
  function FindById(id: string, companies: map<Id, Company>, jobs: map<Id, Job>): (r: Result<Option<Job>>)
    ensures r.Err? <==> IdParam(id).None?
    ensures r.Err? ==> r.code == ServerError
    ensures r.Ok? && r.value.Some? ==>
      Lookup(jobs, IdParam(id).value) == r.value && r.value.value.companyId in companies
    ensures r == Ok(None) <==>
      IdParam(id).Some? && (Lookup(jobs, IdParam(id).value).None? || jobs[IdParam(id).value].companyId !in companies)
  {
    match IdParam(id)
    case None => Err(ServerError)
    case Some(n) =>
      match Lookup(jobs, n)
      case None => Ok(None)
      case Some(j) => if j.companyId in companies then Ok(Some(j)) else Ok(None)
  }

  // ------------------------------------------------------------------ slugs

  /** `title.toLowerCase().replace(/[^a-z0-9]+/g, '-')`, the slug `update`
      computes: every run outside `[a-z0-9]` one dash, no dash trimmed and
      no key appended. */
  function TitleSlug(title: string): string
  {
    CollapseRuns(Lower(title))
  }

  /** The slug keeps every letter and digit of the lower-cased title, in
      order, with single dashes between them, and is empty only for an empty
      title. */
  lemma TitleSlugShape(title: string)
    ensures TitleSlug(title) == [] <==> title == []
    ensures SlugChars(TitleSlug(title)) == SlugChars(Lower(title))
    ensures NoDoubleDash(TitleSlug(title))
    ensures TitleSlug(title) == ScanRuns(Lower(title))
  {
    CollapseRunsKeepsSlugChars(Lower(title));
    CollapseRunsNoDoubleDash(Lower(title));
    CollapseRunsIsScan(Lower(title));
  }

  /** The title "A  b": the two spaces become one dash, "a-b". */
  lemma TitleSlugExample()
    ensures TitleSlug("A  b") == "a-b"
  {
    var l := Lower("A  b");
    assert l == "a  b";
    assert RunLength("  b") == 2 by {
      assert "  b"[1..] == " b" && " b"[1..] == "b";
    }
    assert l[1..] == "  b" && "  b"[2..] == "b" && "b"[1..] == [];
    CollapseSlugHead(l);
    CollapseRunHead("  b");
    CollapseSlugHead("b");
  }

  /** `lower(regexp_replace($1, '[^a-z0-9]+', '-', 'g'))` as `create` writes
      it: the replacement runs on the raw title, before `lower`. */
  function SqlSlugAsWritten(title: string): string
  {
    Lower(CollapseRuns(title))
  }

  /** Lower-casing changes nothing without capitals. */
  lemma LowerNoCapitals(s: string)
    requires forall k :: 0 <= k < |s| ==> !('A' <= s[k] <= 'Z')
    ensures Lower(s) == s
  {
  }

  /** As written, the `lower` comes too late: the slug is the replacement of
      the raw title, whose capitals have already become dashes, so it keeps
      only the title's lower-case letters and digits. */
  lemma {:induction false} SqlSlugAsWrittenDropsCapitals(title: string)
    ensures SqlSlugAsWritten(title) == CollapseRuns(title)
    ensures SlugChars(SqlSlugAsWritten(title)) == SlugChars(title)
  {
    LowerNoCapitals(CollapseRuns(title));
    CollapseRunsKeepsSlugChars(title);
  }

  /** The title "Go": as written its slug is "-o"; lower-casing first, as
      `update` does, gives "go". */
  lemma SqlSlugCounterexample()
    ensures SqlSlugAsWritten("Go") == "-o"
    ensures TitleSlug("Go") == "go"
  {
    assert CollapseRuns("Go") == "-o" by {
      assert RunLength("Go") == 1;
      assert "Go"[1..] == "o";
      assert RunLength("o") == 0;
    }
    assert Lower("-o") == "-o";
    assert Lower("Go") == "go";
    assert CollapseRuns("go") == "go" by {
      assert RunLength("go") == 0;
      assert "go"[1..] == "o";
    }
  }

  /** Without capitals the two formulas agree. */
  lemma SlugsAgreeWithoutCapitals(title: string)
    requires forall k :: 0 <= k < |title| ==> !('A' <= title[k] <= 'Z')
    ensures SqlSlugAsWritten(title) == TitleSlug(title)
  {
    LowerNoCapitals(title);
    LowerNoCapitals(CollapseRuns(title));
  }

  // ----------------------------------------------------------------- create

  /** `status = 'draft'`: the destructuring default of `create`. */
  const DefaultStatus: string := "draft"

  /** The row `create` inserts, before its key: the title, description,
      requirements, status, job type, location and salary range of
      `jobData` (NULL when absent), `status` defaulting to `draft` only when
      absent, the slug its SQL computes from the title (NULL for a NULL
      title), and the column defaults for department and is_active. The slug
      is the formula as written: it keeps the title's lower-case letters and
      digits only. */
  function NewJob(jobData: map<string, Json>, companyId: Id, now: int): (j: Job)
    ensures j.companyId == companyId && j.postedDate == now
    ensures j.title == TextValue(FieldOrNull(jobData, "title"))
    ensures j.slug.Some? <==> j.title.Some?
    ensures j.slug.Some? ==> j.slug.value == SqlSlugAsWritten(j.title.value)
    ensures j.slug.Some? ==> SlugChars(j.slug.value) == SlugChars(j.title.value)
    ensures j.status == if "status" in jobData then TextValue(jobData["status"]) else Some(DefaultStatus)
    ensures j.department.None? && j.isActive == Some(true)
  {
    var title := TextValue(FieldOrNull(jobData, "title"));
    var slug := if title.Some? then Some(SqlSlugAsWritten(title.value)) else None;
    assert slug.Some? ==> SlugChars(slug.value) == SlugChars(title.value) by {
      if title.Some? {
        SqlSlugAsWrittenDropsCapitals(title.value);
      }
    }
    Job(1, companyId, title, None,
        TextValue(FieldOrNull(jobData, "location")),
        TextValue(FieldOrNull(jobData, "job_type")),
        TextValue(FieldOrNull(jobData, "description")),
        TextValue(FieldOrNull(jobData, "requirements")),
        TextValue(FieldOrNull(jobData, "salary_range")),
        if "status" in jobData then TextValue(jobData["status"]) else Some(DefaultStatus),
        Some(true), now, slug)
  }

  /** The row `create` evidently means to insert: the same row, with the
      title lower-cased before the replacement, as `update` does, so that
      the slug keeps every letter and digit of the title. */
  function NewJobCorrected(jobData: map<string, Json>, companyId: Id, now: int): (j: Job)
    ensures j == NewJob(jobData, companyId, now).(slug := j.slug)
    ensures j.slug.Some? <==> j.title.Some?
    ensures j.slug.Some? ==> j.slug.value == TitleSlug(j.title.value) == ScanRuns(Lower(j.title.value))
    ensures j.slug.Some? ==>
      SlugChars(j.slug.value) == SlugChars(Lower(j.title.value)) && NoDoubleDash(j.slug.value)
  {
    var j := NewJob(jobData, companyId, now);
    if j.title.Some? then
      TitleSlugShape(j.title.value);
      j.(slug := Some(TitleSlug(j.title.value)))
    else j
  }

  /** The company key `create` binds: `company_id` of `jobData`, when
      PostgreSQL reads it as an integer that can be a key at all. */
  function CompanyKey(jobData: map<string, Json>): (r: Option<Id>)
    ensures r.Some? <==>
      IntValue(FieldOrNull(jobData, "company_id")).Some? && IntValue(FieldOrNull(jobData, "company_id")).value >= 1
    ensures r.Some? ==> Some(r.value as int) == IntValue(FieldOrNull(jobData, "company_id"))
  {
    match IntValue(FieldOrNull(jobData, "company_id"))
    case Some(n) => if n >= 1 then Some(n) else None
    case None => None
  }

  /** `create(jobData)`: one INSERT, refused (SERVER_ERROR for the caller)
      when `company_id` is missing, is not an integer or names no company. */
  method Create(db: Database, jobData: map<string, Json>, now: int) returns (r: Result<Job>)
    requires db.Valid()
    modifies db
    ensures db.Valid()
    ensures r.Ok? <==> CompanyKey(jobData).Some? && CompanyKey(jobData).value in old(db.companies)
    ensures r.Err? ==> r == Err(ServerError) && unchanged(db)
    ensures r.Ok? ==>
      && r.value == NewJob(jobData, CompanyKey(jobData).value, now).(id := old(db.nextJobId))
      && old(db.nextJobId) !in old(db.jobs)
      && db.jobs == old(db.jobs)[r.value.id := r.value]
      && db.companies == old(db.companies) && db.admins == old(db.admins)
      && db.applications == old(db.applications)
  {
    var companyId := CompanyKey(jobData);
    if companyId.None? {
      return Err(ServerError);
    }
    var w := db.InsertJob(NewJob(jobData, companyId.value, now));
    if !w.Written? {
      return Err(ServerError);
    }
    r := Ok(w.row);
  }

  // ----------------------------------------------------------------- update

  /** The columns `update` can set, in the order of its `if` blocks. */
  datatype JobField = Title | Description | Requirements | Status | JobType | Location | SalaryRange | Slug

  /** The `jobData` key of each field. */
  function KeyOf(f: JobField): string
  {
    match f
    case Title => "title"
    case Description => "description"
    case Requirements => "requirements"
    case Status => "status"
    case JobType => "job_type"
    case Location => "location"
    case SalaryRange => "salary_range"
    case Slug => "job_slug"
  }

  /** The field of the `k`-th `if` block of `update`, from 0. */
  function FieldAt(k: nat): JobField
    requires k < 8
  {
    if k == 0 then Title
    else if k == 1 then Description
    else if k == 2 then Requirements
    else if k == 3 then Status
    else if k == 4 then JobType
    else if k == 5 then Location
    else if k == 6 then SalaryRange
    else Slug
  }

  /** The position of a field's `if` block: every field has exactly one. */
  function Rank(f: JobField): (k: nat)
    ensures k < 8 && FieldAt(k) == f
  {
    match f
    case Title => 0
    case Description => 1
    case Requirements => 2
    case Status => 3
    case JobType => 4
    case Location => 5
    case SalaryRange => 6
    case Slug => 7
  }

  /** A title `update` can work with: a falsy one is skipped, a truthy one
      must be a string, or `title.toLowerCase` throws. */
  predicate TitleUsable(jobData: map<string, Json>)
  {
    !FieldTruthy(jobData, "title") || jobData["title"].JStr?
  }

  /** What `update` writes to a field, if anything: a truthy new value, as
      text; for the slug, the slug of a truthy title. */
  function NewValue(jobData: map<string, Json>, f: JobField): (r: Option<string>)
    requires TitleUsable(jobData)
    ensures f != Slug ==> (r.Some? <==> FieldTruthy(jobData, KeyOf(f)))
    ensures f == Slug ==> (r.Some? <==> FieldTruthy(jobData, "title"))
    ensures f == Slug && r.Some? ==> r.value == TitleSlug(jobData["title"].s)
    ensures f == Title && r.Some? ==> r.value == jobData["title"].s
  {
    if f == Slug then
      if FieldTruthy(jobData, "title") then Some(TitleSlug(jobData["title"].s)) else None
    else if FieldTruthy(jobData, KeyOf(f)) then Some(BoundText(jobData[KeyOf(f)]))
    else None
  }

  /** One `column = $n` of the SET list with the text bound to `$n`. */
  datatype Setting = Setting(field: JobField, placeholder: nat, value: string)

  /** The SET list after the first `n` `if` blocks: the fields written so
      far, in order, numbered from 1. */
  function Planned(n: nat, jobData: map<string, Json>): (s: seq<Setting>)
    requires n <= 8 && TitleUsable(jobData)
    ensures |s| <= n
  {
    if n == 0 then []
    else
      var prefix := Planned(n - 1, jobData);
      var f := FieldAt(n - 1);
      prefix + (if NewValue(jobData, f).Some? then [Setting(f, |prefix| + 1, NewValue(jobData, f).value)] else [])
  }

  lemma PlannedStep(n: nat, jobData: map<string, Json>)
    requires n < 8 && TitleUsable(jobData)
    ensures var f := FieldAt(n);
      NewValue(jobData, f).Some? ==>
        Planned(n + 1, jobData) ==
          Planned(n, jobData) + [Setting(f, |Planned(n, jobData)| + 1, NewValue(jobData, f).value)]
    ensures NewValue(jobData, FieldAt(n)).None? ==> Planned(n + 1, jobData) == Planned(n, jobData)
  {
    assert Planned(n, jobData) + [] == Planned(n, jobData);
  }

  /** Every entry of the SET list is a field of an earlier block with the
      value `update` writes to it, and its placeholder is its position from
      1. */
  lemma {:induction false} PlannedSettings(n: nat, jobData: map<string, Json>)
    requires n <= 8 && TitleUsable(jobData)
    ensures forall k :: 0 <= k < |Planned(n, jobData)| ==> Planned(n, jobData)[k].placeholder == k + 1
    ensures forall k :: 0 <= k < |Planned(n, jobData)| ==> Rank(Planned(n, jobData)[k].field) < n
    ensures forall k :: 0 <= k < |Planned(n, jobData)| ==>
      NewValue(jobData, Planned(n, jobData)[k].field) == Some(Planned(n, jobData)[k].value)
  {
    if n > 0 {
      PlannedSettings(n - 1, jobData);
      PlannedStep(n - 1, jobData);
      var prefix, s := Planned(n - 1, jobData), Planned(n, jobData);
      var f := FieldAt(n - 1);
      if NewValue(jobData, f).Some? {
        var last := Setting(f, |prefix| + 1, NewValue(jobData, f).value);
        assert s == prefix + [last];
        forall k | 0 <= k < |s|
          ensures s[k].placeholder == k + 1 && Rank(s[k].field) < n && NewValue(jobData, s[k].field) == Some(s[k].value)
        {
          if k < |prefix| {
            assert s[k] == prefix[k];
          } else {
            assert s[k] == last;
          }
        }
      }
    }
  }

  /** A field of an earlier block that `update` writes has its entry in the
      SET list. */
  lemma {:induction false} PlannedKeeps(n: nat, jobData: map<string, Json>, f: JobField)
    requires n <= 8 && TitleUsable(jobData)
    requires Rank(f) < n && NewValue(jobData, f).Some?
    ensures Planned(n, jobData) != []
  {
    PlannedStep(n - 1, jobData);
    if Rank(f) < n - 1 {
      PlannedKeeps(n - 1, jobData, f);
      assert |Planned(n, jobData)| >= |Planned(n - 1, jobData)|;
    } else {
      assert FieldAt(n - 1) == f;
      assert |Planned(n, jobData)| == |Planned(n - 1, jobData)| + 1;
    }
  }

  /** Nothing truthy to write. */
  predicate WritesNothing(jobData: map<string, Json>)
  {
    && !FieldTruthy(jobData, "title") && !FieldTruthy(jobData, "description")
    && !FieldTruthy(jobData, "requirements") && !FieldTruthy(jobData, "status")
    && !FieldTruthy(jobData, "job_type") && !FieldTruthy(jobData, "location")
    && !FieldTruthy(jobData, "salary_range")
  }

  /** A field that `update` writes makes the SET list non-empty. */
  lemma WrittenFieldNonEmpty(jobData: map<string, Json>, f: JobField)
    requires TitleUsable(jobData) && NewValue(jobData, f).Some?
    ensures !WritesNothing(jobData)
  {
    match f
    case Title =>
    case Description =>
    case Requirements =>
    case Status =>
    case JobType =>
    case Location =>
    case SalaryRange =>
    case Slug =>
  }

  /** The SET list is empty exactly when no field has a truthy new value,
      which `update` refuses (it would send `SET  WHERE`). */
  lemma PlannedEmpty(jobData: map<string, Json>)
    requires TitleUsable(jobData)
    ensures Planned(8, jobData) == [] <==> WritesNothing(jobData)
  {
    if WritesNothing(jobData) {
      NothingPlanned(jobData);
    } else {
      SomethingPlanned(jobData);
    }
  }

  /** No truthy field: no entry in the SET list. */
  lemma NothingPlanned(jobData: map<string, Json>)
    requires TitleUsable(jobData) && WritesNothing(jobData)
    ensures Planned(8, jobData) == []
  {
    PlannedSettings(8, jobData);
    var s := Planned(8, jobData);
    if s != [] {
      assert NewValue(jobData, s[0].field) == Some(s[0].value);
      WrittenFieldNonEmpty(jobData, s[0].field);
    }
  }

  /** A truthy field: an entry in the SET list. */
  lemma SomethingPlanned(jobData: map<string, Json>)
    requires TitleUsable(jobData) && !WritesNothing(jobData)
    ensures Planned(8, jobData) != []
  {
    var f :=
      if FieldTruthy(jobData, "title") then Title
      else if FieldTruthy(jobData, "description") then Description
      else if FieldTruthy(jobData, "requirements") then Requirements
      else if FieldTruthy(jobData, "status") then Status
      else if FieldTruthy(jobData, "job_type") then JobType
      else if FieldTruthy(jobData, "location") then Location
      else SalaryRange;
    assert NewValue(jobData, f).Some?;
    PlannedKeeps(8, jobData, f);
  }

  /** One `if (x) { updates.push(`x = $${valueIndex}`); values.push(x);
      valueIndex++; }` block of `update`, for a field read from `jobData`. */
  method PushIfTruthy(jobData: map<string, Json>, f: JobField, settings: seq<Setting>, valueIndex: nat)
    returns (settings': seq<Setting>, valueIndex': nat)
    requires TitleUsable(jobData) && f != Slug
    requires settings == Planned(Rank(f), jobData) && valueIndex == |settings| + 1
    ensures settings' == Planned(Rank(f) + 1, jobData) && valueIndex' == |settings'| + 1
  {
    settings', valueIndex' := settings, valueIndex;
    if FieldTruthy(jobData, KeyOf(f)) {
      settings' := settings' + [Setting(f, valueIndex', BoundText(jobData[KeyOf(f)]))];
      valueIndex' := valueIndex' + 1;
    }
    PlannedStep(Rank(f), jobData);
  }

  /** The `let job_slug` and the eight `if` blocks: the SET list is
      `Planned`, every placeholder one more than the one before, and
      `valueIndex` ends at the placeholder the key binds to. */
  method BuildSettings(jobData: map<string, Json>) returns (settings: seq<Setting>, valueIndex: nat)
    requires TitleUsable(jobData)
    ensures settings == Planned(8, jobData)
    ensures valueIndex == |settings| + 1
  {
    var jobSlug: Option<string> := None;
    if FieldTruthy(jobData, "title") {
      jobSlug := Some(TitleSlug(jobData["title"].s));
    }
    settings, valueIndex := PushFieldBlocks(jobData);
    settings, valueIndex := PushSlug(jobData, jobSlug, settings, valueIndex);
  }

  /** The seven blocks of the columns read from `jobData`, from `title` to
      `salary_range`, starting from an empty SET list and `valueIndex` 1. */
  method PushFieldBlocks(jobData: map<string, Json>) returns (settings: seq<Setting>, valueIndex: nat)
    requires TitleUsable(jobData)
    ensures settings == Planned(7, jobData) && valueIndex == |settings| + 1
  {
    settings, valueIndex := [], 1;
    settings, valueIndex := PushIfTruthy(jobData, Title, settings, valueIndex);
    settings, valueIndex := PushIfTruthy(jobData, Description, settings, valueIndex);
    settings, valueIndex := PushIfTruthy(jobData, Requirements, settings, valueIndex);
    settings, valueIndex := PushLaterBlocks(jobData, settings, valueIndex);
  }

  /** The blocks from `status` to `salary_range`. */
  method PushLaterBlocks(jobData: map<string, Json>, settings: seq<Setting>, valueIndex: nat)
    returns (settings': seq<Setting>, valueIndex': nat)
    requires TitleUsable(jobData)
    requires settings == Planned(3, jobData) && valueIndex == |settings| + 1
    ensures settings' == Planned(7, jobData) && valueIndex' == |settings'| + 1
  {
    settings', valueIndex' := PushIfTruthy(jobData, Status, settings, valueIndex);
    settings', valueIndex' := PushIfTruthy(jobData, JobType, settings', valueIndex');
    settings', valueIndex' := PushIfTruthy(jobData, Location, settings', valueIndex');
    settings', valueIndex' := PushIfTruthy(jobData, SalaryRange, settings', valueIndex');
  }

  /** The last block, `if (job_slug)`: the slug of a truthy title is never
      empty, so it is written exactly when the title is truthy. */
  method PushSlug(jobData: map<string, Json>, jobSlug: Option<string>, settings: seq<Setting>, valueIndex: nat)
    returns (settings': seq<Setting>, valueIndex': nat)
    requires TitleUsable(jobData)
    requires jobSlug == if FieldTruthy(jobData, "title") then Some(TitleSlug(jobData["title"].s)) else None
    requires settings == Planned(7, jobData) && valueIndex == |settings| + 1
    ensures settings' == Planned(8, jobData) && valueIndex' == |settings'| + 1
  {
    PlannedStep(7, jobData);
    assert FieldAt(7) == Slug && NewValue(jobData, Slug) == jobSlug;
    settings', valueIndex' := settings, valueIndex;
    if jobSlug.Some? {
      TitleSlugShape(jobData["title"].s);
    }
    if jobSlug.Some? && jobSlug.value != "" {
      settings' := settings' + [Setting(Slug, valueIndex', jobSlug.value)];
      valueIndex' := valueIndex' + 1;
    }
  }

  /** One setting applied to a job row. */
  function SetField(j: Job, s: Setting): Job
  {
    match s.field
    case Title => j.(title := Some(s.value))
    case Description => j.(description := Some(s.value))
    case Requirements => j.(requirements := Some(s.value))
    case Status => j.(status := Some(s.value))
    case JobType => j.(jobType := Some(s.value))
    case Location => j.(location := Some(s.value))
    case SalaryRange => j.(salaryRange := Some(s.value))
    case Slug => j.(slug := Some(s.value))
  }

  /** `UPDATE jobs SET <settings>` on one row. */
  function ApplySettings(j: Job, settings: seq<Setting>): Job
  {
    if settings == [] then j
    else SetField(ApplySettings(j, settings[..|settings| - 1]), settings[|settings| - 1])
  }

  lemma ApplySettingsSnoc(j: Job, settings: seq<Setting>, s: Setting)
    ensures ApplySettings(j, settings + [s]) == SetField(ApplySettings(j, settings), s)
  {
    assert (settings + [s])[..|settings|] == settings;
  }

  /** The column of a job row that a field names. */
  function Get(j: Job, f: JobField): Option<string>
  {
    match f
    case Title => j.title
    case Description => j.description
    case Requirements => j.requirements
    case Status => j.status
    case JobType => j.jobType
    case Location => j.location
    case SalaryRange => j.salaryRange
    case Slug => j.slug
  }

  /** One setting changes its own column and no other. */
  lemma SetFieldValues(j: Job, s: Setting)
    ensures var r := SetField(j, s);
      && r.id == j.id && r.companyId == j.companyId && r.department == j.department
      && r.isActive == j.isActive && r.postedDate == j.postedDate
      && forall g :: Get(r, g) == if g == s.field then Some(s.value) else Get(j, g)
  {
  }

  /** A field after the first `n` blocks. */
  function ValueAfter(before: Option<string>, n: nat, jobData: map<string, Json>, f: JobField): Option<string>
    requires TitleUsable(jobData)
  {
    if Rank(f) < n && NewValue(jobData, f).Some? then NewValue(jobData, f) else before
  }

  lemma RankOfFieldAt(k: nat)
    requires k < 8
    ensures Rank(FieldAt(k)) == k
  {
  }

  /** Field by field, what the SET list of the first `n` blocks does to a
      job row; the key, company, department, is_active and posted_date are
      never in it. */
  lemma {:induction false} ApplyFields(j: Job, n: nat, jobData: map<string, Json>)
    requires n <= 8 && TitleUsable(jobData)
    ensures var r := ApplySettings(j, Planned(n, jobData));
      && r.id == j.id && r.companyId == j.companyId && r.department == j.department
      && r.isActive == j.isActive && r.postedDate == j.postedDate
      && forall g :: Get(r, g) == ValueAfter(Get(j, g), n, jobData, g)
  {
    if n > 0 {
      ApplyFields(j, n - 1, jobData);
      PlannedStep(n - 1, jobData);
      RankOfFieldAt(n - 1);
      var f := FieldAt(n - 1);
      var before := ApplySettings(j, Planned(n - 1, jobData));
      if NewValue(jobData, f).Some? {
        var s := Setting(f, |Planned(n - 1, jobData)| + 1, NewValue(jobData, f).value);
        ApplySettingsSnoc(j, Planned(n - 1, jobData), s);
        SetFieldValues(before, s);
      }
    }
  }

  /** What `update` should leave: each of title, description, requirements,
      status, job type, location and salary range replaced when its new
      value is truthy, the slug recomputed when the title is, everything
      else (company, department, is_active among them) as it was. */
  function TruthyPatched(j: Job, jobData: map<string, Json>): (r: Job)
    requires TitleUsable(jobData)
    ensures r.id == j.id && r.companyId == j.companyId && r.department == j.department
    ensures r.isActive == j.isActive && r.postedDate == j.postedDate
  {
    j.(title := if FieldTruthy(jobData, "title") then Some(jobData["title"].s) else j.title,
       description := if FieldTruthy(jobData, "description") then Some(BoundText(jobData["description"])) else j.description,
       requirements := if FieldTruthy(jobData, "requirements") then Some(BoundText(jobData["requirements"])) else j.requirements,
       status := if FieldTruthy(jobData, "status") then Some(BoundText(jobData["status"])) else j.status,
       jobType := if FieldTruthy(jobData, "job_type") then Some(BoundText(jobData["job_type"])) else j.jobType,
       location := if FieldTruthy(jobData, "location") then Some(BoundText(jobData["location"])) else j.location,
       salaryRange := if FieldTruthy(jobData, "salary_range") then Some(BoundText(jobData["salary_range"])) else j.salaryRange,
       slug := if FieldTruthy(jobData, "title") then Some(TitleSlug(jobData["title"].s)) else j.slug)
  }

  /** The SET list `update` builds writes exactly the truthy fields and the
      slug of a truthy title. */
  lemma UpdatePatch(j: Job, jobData: map<string, Json>)
    requires TitleUsable(jobData)
    ensures ApplySettings(j, Planned(8, jobData)) == TruthyPatched(j, jobData)
  {
    ApplyFields(j, 8, jobData);
    PatchFields(j, jobData);
    var r, e := ApplySettings(j, Planned(8, jobData)), TruthyPatched(j, jobData);
    assert Get(r, Title) == Get(e, Title) && Get(r, Description) == Get(e, Description);
    assert Get(r, Requirements) == Get(e, Requirements) && Get(r, Status) == Get(e, Status);
    assert Get(r, JobType) == Get(e, JobType) && Get(r, Location) == Get(e, Location);
    assert Get(r, SalaryRange) == Get(e, SalaryRange) && Get(r, Slug) == Get(e, Slug);
  }

  /** Each column of `TruthyPatched` is what all eight blocks leave in it. */
  lemma PatchFields(j: Job, jobData: map<string, Json>)
    requires TitleUsable(jobData)
    ensures forall g :: Get(TruthyPatched(j, jobData), g) == ValueAfter(Get(j, g), 8, jobData, g)
  {
    forall g ensures Get(TruthyPatched(j, jobData), g) == ValueAfter(Get(j, g), 8, jobData, g) {
      match g
      case Title =>
      case Description =>
      case Requirements =>
      case Status =>
      case JobType =>
      case Location =>
      case SalaryRange =>
      case Slug =>
    }
  }

  /** The row `WHERE id = $n` selects, from the `id` of `jobData`: `None`
      when PostgreSQL cannot read it as an integer (the query throws),
      `Some(None)` when it selects nothing (a NULL id matches no row). */
  function RowKey(jobData: map<string, Json>, jobs: map<Id, Job>): (r: Option<Option<Id>>)
    ensures FieldOrNull(jobData, "id") == JNull ==> r == Some(None)
    ensures r.None? <==> FieldOrNull(jobData, "id") != JNull && IntValue(FieldOrNull(jobData, "id")).None?
    ensures r.Some? && r.value.Some? ==>
      r.value.value in jobs && Some(r.value.value as int) == IntValue(FieldOrNull(jobData, "id"))
  {
    var v := FieldOrNull(jobData, "id");
    if v == JNull then Some(None)
    else
      match IntValue(v)
      case None => None
      case Some(n) => if n >= 1 && n in jobs then Some(Some(n)) else Some(None)
  }

  /** The column the WHERE of `update` names. As written it is `id`, but
      `jobs` is keyed by `job_id`, the name every other query of the
      repository uses, so PostgreSQL rejects the statement whatever the row;
      `JobIdColumn` is the evidently intended key. */
  datatype KeyColumn = IdColumn | JobIdColumn

  /** `update(jobData)`: a truthy title that is not a string throws, so does
      an empty SET list (the SQL is malformed), an `id` PostgreSQL cannot
      read and, as written, the unknown `id` column; with the `job_id`
      column, an `id` without a row returns nothing and otherwise the row
      becomes `TruthyPatched`. Every throw reaches the caller as
      SERVER_ERROR. */
  method Update(db: Database, jobData: map<string, Json>, key: KeyColumn) returns (r: Result<Option<Job>>)
    requires db.Valid()
    modifies db
    ensures db.Valid()
    ensures !TitleUsable(jobData) ==> r == Err(ServerError)
    ensures TitleUsable(jobData) && WritesNothing(jobData) ==> r == Err(ServerError)
    ensures key == IdColumn ==> r == Err(ServerError) && unchanged(db)
    ensures key == JobIdColumn ==>
      (r.Err? <==> !TitleUsable(jobData) || WritesNothing(jobData) || RowKey(jobData, old(db.jobs)).None?)
    ensures r.Err? ==> r.code == ServerError
    ensures key == JobIdColumn ==> (r == Ok(None) <==> r.Ok? && RowKey(jobData, old(db.jobs)) == Some(None))
    ensures r.Err? || r == Ok(None) ==> unchanged(db)
    ensures r.Ok? && r.value.Some? ==>
      var n := RowKey(jobData, old(db.jobs)).value.value;
      && TitleUsable(jobData) && n in old(db.jobs)
      && r.value.value == TruthyPatched(old(db.jobs)[n], jobData)
      && db.jobs == old(db.jobs)[n := r.value.value]
      && db.companies == old(db.companies) && db.admins == old(db.admins)
      && db.applications == old(db.applications)
  {
    if !TitleUsable(jobData) {
      return Err(ServerError);
    }
    var settings, valueIndex := BuildSettings(jobData);
    PlannedEmpty(jobData);
    if settings == [] || key == IdColumn {
      return Err(ServerError);
    }
    var n := RowKey(jobData, db.jobs);
    if n.None? {
      return Err(ServerError);
    }
    if n.value.None? {
      return Ok(None);
    }
    var row := db.jobs[n.value.value];
    var updated := ApplySettings(row, settings);
    UpdatePatch(row, jobData);
    db.SetJob(updated);
    r := Ok(Some(updated));
  }
}
