/** The backend's application model (backend/src/models/application.js):
    every query reaches an application through its job, so a company only
    ever sees, or changes, the applications to its own jobs. */
module ApplicationModel {
  import opened Values
  import opened Query
  import opened Store

  /** The application's job exists and belongs to the company: the
      `JOIN jobs j ... WHERE j.company_id = $n` of every query. */
  predicate OfCompany(a: Application, companyId: Id, jobs: map<Id, Job>)
  {
    a.jobId in jobs && jobs[a.jobId].companyId == companyId
  }

  /** `findByCompanyId`: the applications to the company's jobs, latest
      `applied_at` first. */
  function FindByCompanyId(companyId: Id, jobs: map<Id, Job>, applications: map<Id, Application>)
    : (r: seq<Id>)
    ensures Distinct(r)
    ensures forall id :: id in r <==> id in applications && OfCompany(applications[id], companyId, jobs)
    ensures forall i, j :: 0 <= i < j < |r| ==>
      applications[r[i]].appliedAt >= applications[r[j]].appliedAt
  {
    SelectOrdered(applications, (a: Application) => OfCompany(a, companyId, jobs),
                  (a: Application) => a.appliedAt)
  }

  /** `findById(applicationId, companyId)`: the application under that key
      if it is one of the company's; the query throws on a key PostgreSQL
      cannot read as an integer. */
  function FindById(applicationId: string, companyId: Id, jobs: map<Id, Job>,
                    applications: map<Id, Application>): (r: Result<Option<Application>>)
    ensures r.Err? <==> IdParam(applicationId).None?
    ensures r.Err? ==> r.code == ServerError
    ensures r.Ok? && r.value.Some? <==>
      && IdParam(applicationId).Some?
      && Lookup(applications, IdParam(applicationId).value).Some?
      && OfCompany(applications[IdParam(applicationId).value], companyId, jobs)
    ensures r.Ok? && r.value.Some? ==> r.value == Lookup(applications, IdParam(applicationId).value)
  {
    match IdParam(applicationId)
    case None => Err(ServerError)
    case Some(n) =>
      match Lookup(applications, n)
      case None => Ok(None)
      case Some(a) => if OfCompany(a, companyId, jobs) then Ok(Some(a)) else Ok(None)
  }

  /** What `findById` finds, `findByCompanyId` lists under the same key. */
  lemma FoundIsListed(applicationId: string, companyId: Id, jobs: map<Id, Job>,
                      applications: map<Id, Application>)
    requires FindById(applicationId, companyId, jobs, applications).Ok?
    requires FindById(applicationId, companyId, jobs, applications).value.Some?
    ensures IdParam(applicationId).value in FindByCompanyId(companyId, jobs, applications)
  {
  }

  /** `updateStatus(applicationId, status, companyId)`: one UPDATE joined to
      the jobs, so it changes the status of the application exactly when
      `findById` with the same arguments would find it, and nothing else;
      the caller reads the changed row back. */
  method UpdateStatus(db: Database, applicationId: string, status: string, companyId: Id)
    returns (r: Result<Option<Application>>)
    requires db.Valid()
    modifies db
    ensures db.Valid()
    ensures r.Err? <==> IdParam(applicationId).None?
    ensures r.Err? ==> r.code == ServerError
    ensures r.Ok? && r.value.Some? <==>
      FindById(applicationId, companyId, old(db.jobs), old(db.applications)).Ok?
      && FindById(applicationId, companyId, old(db.jobs), old(db.applications)).value.Some?
    ensures r.Err? || r == Ok(None) ==> unchanged(db)
    ensures r.Ok? && r.value.Some? ==>
      var before := FindById(applicationId, companyId, old(db.jobs), old(db.applications)).value.value;
      && r.value.value == before.(status := status)
      && db.applications == old(db.applications)[before.id := r.value.value]
      && db.jobs == old(db.jobs) && db.companies == old(db.companies) && db.admins == old(db.admins)
      && FindById(applicationId, companyId, db.jobs, db.applications) == r
  {
    var n := IdParam(applicationId);
    if n.None? {
      return Err(ServerError);
    }
    var row := Lookup(db.applications, n.value);
    if row.None? || !OfCompany(row.value, companyId, db.jobs) {
      return Ok(None);
    }
    var updated := row.value.(status := status);
    db.SetApplication(updated);
    r := Ok(Some(updated));
  }
}
