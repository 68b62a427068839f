/** The backend's authentication middleware (backend/src/middleware/auth.js)
    with the two admin lookups it calls (backend/src/models/admin.js). A
    username is checked against the database only; the legacy secret serves
    only credentials without a username, and then stands for the first admin
    of company 1. */
module BackendAuth {
  import opened Values
  import opened Query
  import opened Store
  import opened Credentials

  /** `req.admin`: an admin row joined to its company, with the company's
      key and slug (`company_slug`). */
  datatype Identity = Identity(admin: Admin, companyId: Id, companySlug: Option<string>)

  /** The admin survives `JOIN companies c ON a.company_id = c.company_id`. */
  predicate HasCompany(a: Admin, companies: map<Id, Company>)
  {
    a.companyId.Some? && a.companyId.value in companies
  }

  /** The joined row of an admin that has its company. */
  function IdentityOf(a: Admin, companies: map<Id, Company>): (r: Identity)
    requires HasCompany(a, companies)
    ensures r.admin == a && Some(r.companyId) == a.companyId
    ensures r.companySlug == companies[r.companyId].slug
  {
    Identity(a, a.companyId.value, companies[a.companyId.value].slug)
  }

  /** The admins the JOIN keeps and `keep` selects, by ascending key. */
  function Joined(admins: map<Id, Admin>, companies: map<Id, Company>, keep: Admin -> bool): (ids: seq<Id>)
    ensures Increasing(ids)
    ensures forall id :: id in ids <==> id in admins && HasCompany(admins[id], companies) && keep(admins[id])
  {
    Select(admins, (a: Admin) => HasCompany(a, companies) && keep(a))
  }

  /** `Admin.findByUsername`: the joined admin with that username and the
      smallest key. */
  function FindByUsername(admins: map<Id, Admin>, companies: map<Id, Company>, username: string)
    : (r: Option<Identity>)
    ensures r.None? <==>
      forall id :: id in admins && admins[id].username == username ==> !HasCompany(admins[id], companies)
    ensures r.Some? ==>
      exists id :: id in admins && admins[id].username == username && HasCompany(admins[id], companies)
        && r.value == IdentityOf(admins[id], companies)
        && forall other :: (other in admins && admins[other].username == username
                            && HasCompany(admins[other], companies)) ==> id <= other
  {
    var ids := Joined(admins, companies, (a: Admin) => a.username == username);
    if ids == [] then None
    else
      var first := ids[0];
      assert first in ids;
      FirstIsLeast(ids);
      Some(IdentityOf(admins[first], companies))
  }

  /** `Admin.findByCompanyId`: the joined admin of that company with the
      smallest key. */
  function FindByCompanyId(admins: map<Id, Admin>, companies: map<Id, Company>, companyId: Id)
    : (r: Option<Identity>)
    ensures r.None? <==> forall id :: id in admins ==> admins[id].companyId != Some(companyId) || companyId !in companies
    ensures r.Some? ==>
      exists id :: id in admins && admins[id].companyId == Some(companyId) && companyId in companies
        && r.value == IdentityOf(admins[id], companies)
        && forall other :: other in admins && admins[other].companyId == Some(companyId) ==> id <= other
  {
    var ids := Joined(admins, companies, (a: Admin) => a.companyId == Some(companyId));
    if ids == [] then None
    else
      var first := ids[0];
      assert first in ids;
      FirstIsLeast(ids);
      Some(IdentityOf(admins[first], companies))
  }

  /** The middleware once a non-empty header is there. With a username, only
      that database admin can let the request through; without one, the
      legacy secret does, for company 1's first admin. A rejected
      `bcrypt.compare` lands in the `catch`: SERVER_ERROR. */
  function Authenticate(header: string, admins: map<Id, Admin>, companies: map<Id, Company>,
                        envHash: Option<string>, p: Primitives): (r: Result<Identity>)
    ensures r.Ok? ==>
      exists id :: id in admins && HasCompany(admins[id], companies)
        && r.value == IdentityOf(admins[id], companies)
    ensures LoginOf(header, p).username.Some? && r.Ok? ==>
      r.value.admin.username == LoginOf(header, p).username.value
      && p.compare(LoginOf(header, p).password, r.value.admin.passwordHash) == Match
    ensures (LoginOf(header, p).username.Some?
             && FindByUsername(admins, companies, LoginOf(header, p).username.value).None?) ==>
      r == Err(InvalidCredentials)
    ensures LoginOf(header, p).username.None? && (envHash.None? || envHash.value == "") ==>
      r == Err(ConfigError)
    ensures LoginOf(header, p).username.None? && r.Ok? ==>
      envHash.Some? && p.compare(LoginOf(header, p).password, envHash.value) == Match
      && r.value.companyId == 1
    ensures r == Err(ConfigError) ==>
      LoginOf(header, p).username.None?
      && (envHash.None? || envHash.value == "" || FindByCompanyId(admins, companies, 1).None?)
    ensures r.Err? ==> r.code in {InvalidCredentials, ConfigError, ServerError}
  {
    var login := LoginOf(header, p);
    match login.username
    case Some(u) =>
      (match FindByUsername(admins, companies, u)
       case None => Err(InvalidCredentials)
       case Some(found) =>
         match p.compare(login.password, found.admin.passwordHash)
         case Match => Ok(found)
         case Mismatch => Err(InvalidCredentials)
         case Fails => Err(ServerError))
    case None =>
      if envHash.None? || envHash.value == "" then Err(ConfigError)
      else
        match p.compare(login.password, envHash.value)
        case Fails => Err(ServerError)
        case Mismatch => Err(InvalidCredentials)
        case Match =>
          match FindByCompanyId(admins, companies, 1)
          case None => Err(ConfigError)
          case Some(found) => Ok(found)
  }

  /** A username that names one admin of an existing company is decided by
      that admin's hash: a match admits it, a mismatch is
      INVALID_CREDENTIALS, a failing comparison SERVER_ERROR. */
  lemma AuthKnownUser(header: string, admins: map<Id, Admin>, companies: map<Id, Company>,
                      envHash: Option<string>, p: Primitives, id: Id)
    requires id in admins && UniqueUsernames(admins) && HasCompany(admins[id], companies)
    requires LoginOf(header, p).username == Some(admins[id].username)
    ensures Authenticate(header, admins, companies, envHash, p) ==
      match p.compare(LoginOf(header, p).password, admins[id].passwordHash)
      case Match => Ok(IdentityOf(admins[id], companies))
      case Mismatch => Err(InvalidCredentials)
      case Fails => Err(ServerError)
  {
    var username := admins[id].username;
    SingleKey(Joined(admins, companies, (a: Admin) => a.username == username), id);
  }

  /** Without a username the legacy secret decides: unset or empty is
      CONFIG_ERROR, a mismatch INVALID_CREDENTIALS, a failing comparison
      SERVER_ERROR; a match lets the request through as company 1's first
      admin, or is CONFIG_ERROR when company 1 has none. */
  lemma AuthLegacySecret(header: string, admins: map<Id, Admin>, companies: map<Id, Company>,
                         envHash: Option<string>, p: Primitives)
    requires LoginOf(header, p).username.None?
    ensures envHash.None? || envHash.value == "" ==>
      Authenticate(header, admins, companies, envHash, p) == Err(ConfigError)
    ensures envHash.Some? && envHash.value != "" ==>
      Authenticate(header, admins, companies, envHash, p) ==
        match p.compare(LoginOf(header, p).password, envHash.value)
        case Fails => Err(ServerError)
        case Mismatch => Err(InvalidCredentials)
        case Match =>
          if FindByCompanyId(admins, companies, 1).None? then Err(ConfigError)
          else Ok(FindByCompanyId(admins, companies, 1).value)
  {
  }

  /** With a username the legacy secret plays no part: the answer is the
      same whatever `ADMIN_PASSWORD_HASH` holds. */
  lemma NamedIgnoresSecret(header: string, admins: map<Id, Admin>, companies: map<Id, Company>,
                           env1: Option<string>, env2: Option<string>, p: Primitives)
    requires LoginOf(header, p).username.Some?
    ensures Authenticate(header, admins, companies, env1, p) == Authenticate(header, admins, companies, env2, p)
  {
  }

  /** The start-up check of `ADMIN_PASSWORD_HASH` in backend/src/index.js: set,
      starting with `$2` and at least 50 characters long. */
  predicate SecretAccepted(envHash: Option<string>)
  {
    envHash.Some? && |envHash.value| >= 50 && envHash.value[..2] == "$2"
  }

  /** Once the server has started, CONFIG_ERROR means there is no admin of
      company 1 to stand for the legacy secret. */
  lemma ConfigErrorMeansNoAdmin(header: string, admins: map<Id, Admin>, companies: map<Id, Company>,
                                envHash: Option<string>, p: Primitives)
    requires SecretAccepted(envHash)
    requires Authenticate(header, admins, companies, envHash, p) == Err(ConfigError)
    ensures LoginOf(header, p).username.None?
    ensures forall id :: id in admins ==> admins[id].companyId != Some(1) || 1 !in companies
  {
    assert envHash.value != "" by {
      assert |envHash.value| >= 50;
    }
  }
}
