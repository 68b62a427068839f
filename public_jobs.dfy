/** The public job routes (backend/src/routes/jobs.js): read-only queries
    over companies and jobs. A company's board shows its published, active
    jobs; a shareable link names a job by company slug and job slug; the id
    lookup ignores publication altogether. */
module PublicJobs {
  import opened Values
  import opened Text
  import opened Query
  import opened Store

  /** The message GET /api/jobs answers with. */
  const RootMessage: string :=
    "Use /api/companies/:company_slug/jobs to list public jobs for a company"

  /** A job the public may see on the board of the company with slug
      `companySlug`: `c.slug = $1 AND j.status = 'published' AND
      j.is_active = true`, joined to its company. A company without a slug
      matches no parameter. */
  predicate OnBoard(j: Job, companySlug: string, companies: map<Id, Company>)
  {
    && j.companyId in companies
    && companies[j.companyId].slug == Some(companySlug)
    && j.status == Some("published")
    && j.isActive == Some(true)
  }

  /** GET /companies/:company_slug/jobs: the company's public jobs, every
      one once, latest `posted_date` first. */
  function Board(companySlug: string, companies: map<Id, Company>, jobs: map<Id, Job>)
    : (r: seq<Id>)
    ensures Distinct(r)
    ensures forall id :: id in r <==> id in jobs && OnBoard(jobs[id], companySlug, companies)
    ensures forall i, j :: 0 <= i < j < |r| ==> jobs[r[i]].postedDate >= jobs[r[j]].postedDate
  {
    SelectOrdered(jobs, (j: Job) => OnBoard(j, companySlug, companies), (j: Job) => j.postedDate)
  }

  /** The job behind a shareable link: on the company's board and carrying
      the job slug. */
  predicate AtLink(j: Job, companySlug: string, jobSlug: string, companies: map<Id, Company>)
  {
    OnBoard(j, companySlug, companies) && j.slug == Some(jobSlug)
  }

  /** GET /companies/:company_slug/jobs/:job_slug: `LIMIT 1` of the jobs at
      that link (the first in key order, as a scan without ORDER BY finds
      them); NOT_FOUND when there is none. */
  function Detail(companySlug: string, jobSlug: string, companies: map<Id, Company>,
                  jobs: map<Id, Job>): (r: Result<Id>)
    ensures r.Err? <==> forall id :: id in jobs ==> !AtLink(jobs[id], companySlug, jobSlug, companies)
    ensures r.Err? ==> r.code == NotFound
    ensures r.Ok? ==> r.value in jobs && AtLink(jobs[r.value], companySlug, jobSlug, companies)
    ensures r.Ok? ==> forall id :: id in jobs && AtLink(jobs[id], companySlug, jobSlug, companies)
                                   ==> r.value <= id
  {
    var ids := Select(jobs, (j: Job) => AtLink(j, companySlug, jobSlug, companies));
    if ids == [] then Err(NotFound)
    else
      FirstIsLeast(ids);
      FirstIsMember(ids);
      Ok(ids[0])
  }

  /** GET /id/:id: the job under that key whatever its status; NOT_FOUND
      when there is none, DB_ERROR when the key is not an integer. */
  function ById(id: string, jobs: map<Id, Job>): (r: Result<Job>)
    ensures r.Err? && r.code == DbError <==> IdParam(id).None?
    ensures r.Err? ==> r.code in {DbError, NotFound}
    ensures r.Ok? <==> IdParam(id).Some? && Lookup(jobs, IdParam(id).value).Some?
    ensures r.Ok? ==> r.value == jobs[IdParam(id).value]
  {
    match IdParam(id)
    case None => Err(DbError)
    case Some(n) =>
      match Lookup(jobs, n)
      case None => Err(NotFound)
      case Some(j) => Ok(j)
  }

  /** The public routes of the jobs router. */
  datatype Route =
    | Root
    | CompanyBoard(companySlug: string)
    | JobLink(companySlug: string, jobSlug: string)
    | JobById(id: string)

  datatype Reply =
    | Message(text: string)
    | JobList(rows: seq<Job>)
    | JobRow(job: Job)

  /** The rows of a company's board: the rows of every job `Board` selects,
      in its order; so every one on the board, latest first. */
  function BoardRows(companySlug: string, companies: map<Id, Company>, jobs: map<Id, Job>)
    : (r: seq<Job>)
    ensures r == Rows(jobs, Board(companySlug, companies, jobs))
    ensures forall k :: 0 <= k < |r| ==> OnBoard(r[k], companySlug, companies)
    ensures forall i, j :: 0 <= i < j < |r| ==> r[i].postedDate >= r[j].postedDate
  {
    var ids := Board(companySlug, companies, jobs);
    BoardRowsOnBoard(companySlug, companies, jobs, ids);
    Rows(jobs, ids)
  }

  lemma BoardRowsOnBoard(companySlug: string, companies: map<Id, Company>, jobs: map<Id, Job>, ids: seq<Id>)
    requires ids == Board(companySlug, companies, jobs)
    ensures forall k :: 0 <= k < |ids| ==> ids[k] in jobs && OnBoard(jobs[ids[k]], companySlug, companies)
  {
    forall k | 0 <= k < |ids|
      ensures ids[k] in jobs && OnBoard(jobs[ids[k]], companySlug, companies)
    {
      assert ids[k] in ids;
    }
  }

  /** The answer to a shareable link: the row `Detail` finds, or its error. */
  function LinkReply(companySlug: string, jobSlug: string, companies: map<Id, Company>,
                     jobs: map<Id, Job>): (r: Result<Job>)
    ensures r.Ok? ==> AtLink(r.value, companySlug, jobSlug, companies) && r.value in jobs.Values
    ensures r.Err? ==> r.code == NotFound
    ensures r.Err? ==> forall id :: id in jobs ==> !AtLink(jobs[id], companySlug, jobSlug, companies)
  {
    var d := Detail(companySlug, jobSlug, companies, jobs);
    if d.Err? then Err(d.code) else Ok(jobs[d.value])
  }

  /** The router: the root answers with its message; a board lists only
      the company's published, active jobs, latest first; a link serves a
      job at that link or NOT_FOUND when there is none; the id lookup
      serves the stored row. */
  function Serve(route: Route, companies: map<Id, Company>, jobs: map<Id, Job>): (r: Result<Reply>)
    ensures route.Root? ==> r == Ok(Message(RootMessage))
    ensures route.CompanyBoard? ==> r == Ok(JobList(BoardRows(route.companySlug, companies, jobs)))
    ensures route.CompanyBoard? ==> r.Ok? && r.value.JobList?
    ensures route.CompanyBoard? ==> forall k :: 0 <= k < |r.value.rows| ==>
      OnBoard(r.value.rows[k], route.companySlug, companies)
    ensures route.CompanyBoard? ==> forall i, j :: 0 <= i < j < |r.value.rows| ==>
      r.value.rows[i].postedDate >= r.value.rows[j].postedDate
    ensures route.JobLink? && r.Ok? ==>
      r.value.JobRow? && AtLink(r.value.job, route.companySlug, route.jobSlug, companies)
      && r.value.job in jobs.Values
    ensures route.JobLink? && r.Err? ==>
      && r.code == NotFound
      && (forall id :: id in jobs ==> !AtLink(jobs[id], route.companySlug, route.jobSlug, companies))
    ensures route.JobById? && r.Ok? ==>
      r.value.JobRow? && IdParam(route.id).Some? && Lookup(jobs, IdParam(route.id).value) == Some(r.value.job)
    ensures route.JobById? && r.Err? ==> r.code in {DbError, NotFound}
    ensures route.JobLink? ==> (r.Ok? <==> LinkReply(route.companySlug, route.jobSlug, companies, jobs).Ok?)
    ensures route.JobLink? && r.Ok? ==> r.value == JobRow(LinkReply(route.companySlug, route.jobSlug, companies, jobs).value)
    ensures route.JobById? ==> (r.Ok? <==> ById(route.id, jobs).Ok?)
    ensures route.JobById? && r.Ok? ==> r.value == JobRow(ById(route.id, jobs).value)
    ensures route.JobById? && r.Err? ==> r.code == ById(route.id, jobs).code
  {
    match route
    case Root => Ok(Message(RootMessage))
    case CompanyBoard(slug) => Ok(JobList(BoardRows(slug, companies, jobs)))
    case JobLink(slug, jobSlug) =>
      var l := LinkReply(slug, jobSlug, companies, jobs);
      if l.Err? then Err(l.code) else Ok(JobRow(l.value))
    case JobById(id) =>
      var b := ById(id, jobs);
      if b.Err? then Err(b.code) else Ok(JobRow(b.value))
  }

  /** The root route answers the same whatever the tables hold. */
  lemma RootReadsNothing(c1: map<Id, Company>, j1: map<Id, Job>, c2: map<Id, Company>, j2: map<Id, Job>)
    ensures Serve(Root, c1, j1) == Serve(Root, c2, j2)
    ensures Serve(Root, c1, j1).Ok?
  {
  }

  /** A job reached by its link is on that company's board. */
  lemma LinkedIsOnBoard(companySlug: string, jobSlug: string, companies: map<Id, Company>,
                        jobs: map<Id, Job>)
    requires Detail(companySlug, jobSlug, companies, jobs).Ok?
    ensures Detail(companySlug, jobSlug, companies, jobs).value in Board(companySlug, companies, jobs)
  {
  }

  /** Every job on a board with a slug can be reached by a link naming that
      slug, and the link leads to a job carrying it. */
  lemma OnBoardIsLinked(companySlug: string, id: Id, companies: map<Id, Company>,
                        jobs: map<Id, Job>)
    requires id in Board(companySlug, companies, jobs)
    requires jobs[id].slug.Some?
    ensures Detail(companySlug, jobs[id].slug.value, companies, jobs).Ok?
    ensures jobs[Detail(companySlug, jobs[id].slug.value, companies, jobs).value].slug == jobs[id].slug
  {
    assert AtLink(jobs[id], companySlug, jobs[id].slug.value, companies);
  }

  /** The id lookup finds any stored job by its key, written in decimal,
      published or not, active or not: a job missing from every board is
      still served. */
  lemma ByIdIgnoresPublication(n: Id, jobs: map<Id, Job>)
    requires n in jobs
    ensures ById(Decimal(n), jobs) == Ok(jobs[n])
  {
    DecimalRoundTrip(n);
  }

  /** Two jobs of one company at the same link: both are on the board, but
      the link never serves the one with the larger key. */
  lemma DuplicateLinkServesOne(companySlug: string, jobSlug: string, companies: map<Id, Company>,
                               jobs: map<Id, Job>, a: Id, b: Id)
    requires a in jobs && b in jobs && a < b
    requires AtLink(jobs[a], companySlug, jobSlug, companies)
    requires AtLink(jobs[b], companySlug, jobSlug, companies)
    ensures Detail(companySlug, jobSlug, companies, jobs).Ok?
    ensures Detail(companySlug, jobSlug, companies, jobs).value != b
    ensures a in Board(companySlug, companies, jobs) && b in Board(companySlug, companies, jobs)
  {
  }
}
