/** The public application route (backend/src/routes/applications.js): a
    multipart form with one `resume` file, whose extension must be `.pdf` or
    `.docx`, and an email that must match the route's regular expression;
    the application is stored with status `new` and the upload's path. */
module ApplicationRoutes {
  import opened Values
  import opened Text
  import opened Store

  // ------------------------------------------------------------- file names

  /** A path with its trailing `/` characters removed. */
  function TrimSlashes(s: string): (r: string)
    ensures r <= s
    ensures r == [] || r[|r| - 1] != '/'
    ensures forall k :: |r| <= k < |s| ==> s[k] == '/'
  {
    if s != [] && s[|s| - 1] == '/' then TrimSlashes(s[..|s| - 1]) else s
  }

  /** The last component of a POSIX path. */
  function BaseName(s: string): (b: string)
    ensures '/' !in b
  {
    var t := TrimSlashes(s);
    t[LastIndexOf(t, '/') + 1..]
  }

  /** `path.extname(name)` on POSIX: from the last `.` of the last component
      to its end; empty when that component has no `.`, starts with its
      only `.`, or is `..`. */
  function ExtName(name: string): (e: string)
    ensures e == [] || (e[0] == '.' && '.' !in e[1..])
    ensures |e| <= |BaseName(name)|
    ensures e == BaseName(name)[|BaseName(name)| - |e|..]
    ensures e != [] ==> |e| < |BaseName(name)|
  {
    var base := BaseName(name);
    var d := LastIndexOf(base, '.');
    if d <= 0 || base == ".." then "" else base[d..]
  }

  /** A name with no `/` is its own last component. */
  lemma BaseNameOfPlain(s: string)
    requires '/' !in s
    ensures BaseName(s) == s
  {
    assert TrimSlashes(s) == s by {
      if s != [] {
        assert s[|s| - 1] in s;
      }
    }
  }

  /** A stem, a dot and an extension free of dots: the extension is what
      `path.extname` returns. */
  lemma ExtNameOf(stem: string, x: string)
    requires stem != [] && '/' !in stem
    requires x != [] && '/' !in x && '.' !in x
    ensures ExtName(stem + "." + x) == "." + x
  {
    var name := stem + "." + x;
    assert '/' !in name by {
      forall k | 0 <= k < |name|
        ensures name[k] != '/'
      {
        if k < |stem| {
          assert name[k] == stem[k];
        } else if k > |stem| {
          assert name[k] == x[k - |stem| - 1];
        }
      }
    }
    BaseNameOfPlain(name);
    LastIndexOfBefore(stem, '.', x);
    assert name == stem + ['.'] + x;
    assert name[|stem|..] == "." + x;
  }

  /** The extensions the filter lets through. */
  const AllowedTypes: set<string> := {".pdf", ".docx"}

  /** `fileFilter`: the upload is kept when the lower-cased extension of
      its original name is one of the allowed types. */
  predicate FileFilter(originalName: string)
  {
    Lower(ExtName(originalName)) in AllowedTypes
  }

  /** Lower-casing leaves the dot in front of an extension alone. */
  lemma LowerDotted(x: string)
    ensures Lower("." + x) == "." + Lower(x)
  {
    var l, r := Lower("." + x), "." + Lower(x);
    assert |l| == |r|;
    forall k | 0 <= k < |l|
      ensures l[k] == r[k]
    {
      if k > 0 {
        assert ("." + x)[k] == x[k - 1];
      }
    }
  }

  /** The allowed types are exactly `pdf` and `docx` behind a dot. */
  lemma DottedAllowed(y: string)
    ensures "." + y in AllowedTypes <==> y == "pdf" || y == "docx"
  {
    if y == "pdf" {
      assert "." + y == ".pdf";
    } else if y == "docx" {
      assert "." + y == ".docx";
    } else {
      assert ("." + y)[1..] == y;
      assert ".pdf"[1..] == "pdf" && ".docx"[1..] == "docx";
    }
  }

  /** Any stem with a `pdf` or `docx` extension, in any letter case, passes. */
  lemma DocumentsAccepted(stem: string, x: string)
    requires stem != [] && '/' !in stem
    requires x != [] && '/' !in x && '.' !in x
    requires Lower(x) == "pdf" || Lower(x) == "docx"
    ensures FileFilter(stem + "." + x)
  {
    ExtNameOf(stem, x);
    LowerDotted(x);
    DottedAllowed(Lower(x));
  }

  /** Any other extension is refused. */
  lemma OtherTypesRefused(stem: string, x: string)
    requires stem != [] && '/' !in stem
    requires x != [] && '/' !in x && '.' !in x
    requires Lower(x) != "pdf" && Lower(x) != "docx"
    ensures !FileFilter(stem + "." + x)
  {
    ExtNameOf(stem, x);
    LowerDotted(x);
    DottedAllowed(Lower(x));
  }

  /** A file named only by its extension, such as `.pdf`, has none in
      `path.extname`'s sense, so it is refused. */
  lemma DotFileRefused(x: string)
    requires '/' !in x && '.' !in x
    ensures !FileFilter("." + x)
  {
    var name := "." + x;
    assert '/' !in name by {
      forall k | 0 <= k < |name|
        ensures name[k] != '/'
      {
        if k > 0 {
          assert name[k] == x[k - 1];
        }
      }
    }
    BaseNameOfPlain(name);
    LastIndexOfBefore([], '.', x);
    assert [] + ['.'] + x == name;
  }

  // ------------------------------------------------------------ email regex

  /** `\w`: an ASCII letter, digit or underscore. */
  predicate WordChar(c: char)
  {
    ('a' <= c <= 'z') || ('A' <= c <= 'Z') || ('0' <= c <= '9') || c == '_'
  }

  /** `[\w-.]`: the characters before the `@`. */
  predicate LocalChar(c: char)
  {
    WordChar(c) || c == '-' || c == '.'
  }

  /** `[\w-]`: the characters of a domain label. */
  predicate LabelChar(c: char)
  {
    WordChar(c) || c == '-'
  }

  predicate LocalChars(s: string)
  {
    forall k :: 0 <= k < |s| ==> LocalChar(s[k])
  }

  predicate LabelChars(s: string)
  {
    forall k :: 0 <= k < |s| ==> LabelChar(s[k])
  }

  /** `[\w-]{2,4}$`: the last label. */
  predicate TopLabel(t: string)
  {
    2 <= |t| <= 4 && LabelChars(t)
  }

  /** `([\w-]+\.)+[\w-]{2,4}$` matched against the text after the `@`: a
      non-empty label and a dot, followed by the last label or by another
      such group. */
  predicate DomainMatch(d: string)
    decreases |d|, 1
  {
    exists k :: 0 < k < |d| && DomainSplitAt(d, k)
  }

  /** `d` is a label, a dot at `k`, and the rest of a matching domain. */
  predicate DomainSplitAt(d: string, k: int)
    decreases |d|, 0
  {
    0 < k < |d| && d[k] == '.' && LabelChars(d[..k])
    && (TopLabel(d[k + 1..]) || DomainMatch(d[k + 1..]))
  }

  /** `/^[\w-.]+@([\w-]+\.)+[\w-]{2,4}$/.test(s)`: some `@` splits `s` into
      a non-empty local part and a matching domain. */
  predicate MatchesEmailRegex(s: string)
  {
    exists i :: 0 < i < |s| && EmailSplitAt(s, i)
  }

  /** `s` is a local part, an `@` at `i`, and a matching domain. */
  predicate EmailSplitAt(s: string, i: int)
  {
    0 < i < |s| && s[i] == '@' && LocalChars(s[..i]) && DomainMatch(s[i + 1..])
  }

  /** The same domains, read by splitting at the dots: at least two labels,
      all but the last non-empty label characters, the last of two to four. */
  predicate DomainShape(d: string)
  {
    DomainLabels(Split(d, '.'))
  }

  /** At least two labels, all but the last non-empty label characters, the
      last of two to four. */
  predicate DomainLabels(labels: seq<string>)
  {
    && |labels| >= 2
    && (forall k :: 0 <= k < |labels| - 1 ==> labels[k] != [] && LabelChars(labels[k]))
    && TopLabel(labels[|labels| - 1])
  }

  /** Label characters include no dot. */
  lemma LabelHasNoDot(t: string)
    requires LabelChars(t)
    ensures '.' !in t
  {
    forall j | 0 <= j < |t|
      ensures t[j] != '.'
    {
      assert LabelChar(t[j]);
    }
  }

  /** A label in front of good labels keeps them good. */
  lemma DomainLabelsCons(p: string, tail: seq<string>)
    requires p != [] && LabelChars(p) && DomainLabels(tail)
    ensures DomainLabels([p] + tail)
  {
    var labels := [p] + tail;
    forall j | 0 <= j < |labels| - 1
      ensures labels[j] != [] && LabelChars(labels[j])
    {
      if j > 0 {
        assert labels[j] == tail[j - 1];
      }
    }
    assert labels[|labels| - 1] == tail[|tail| - 1];
  }

  /** Dropping the first of three or more good labels keeps them good. */
  lemma DomainLabelsTail(labels: seq<string>)
    requires DomainLabels(labels) && |labels| > 2
    ensures DomainLabels(labels[1..])
  {
    var tail := labels[1..];
    forall j | 0 <= j < |tail| - 1
      ensures tail[j] != [] && LabelChars(tail[j])
    {
      assert tail[j] == labels[j + 1];
    }
    assert tail[|tail| - 1] == labels[|labels| - 1];
  }

  /** The same addresses, read by splitting at the `@`: exactly one `@`, a
      non-empty local part before it, a domain of the right shape after. */
  predicate EmailShape(s: string)
  {
    var parts := Split(s, '@');
    |parts| == 2 && parts[0] != [] && LocalChars(parts[0]) && DomainShape(parts[1])
  }

  /** A matching domain has no `@`. */
  lemma {:induction false} DomainMatchNoAt(d: string)
    requires DomainMatch(d)
    ensures '@' !in d
    decreases |d|
  {
    var k :| 0 < k < |d| && DomainSplitAt(d, k);
    var rest := d[k + 1..];
    if !TopLabel(rest) {
      DomainMatchNoAt(rest);
    }
    forall j | 0 <= j < |d|
      ensures d[j] != '@'
    {
      if j < k {
        assert d[j] == d[..k][j];
      } else if j > k {
        assert d[j] == rest[j - k - 1];
      }
    }
  }

  /** A domain the regex's group matches splits at its dots into the right
      labels. */
  lemma {:induction false} DomainMatchToShape(d: string)
    requires DomainMatch(d)
    ensures DomainShape(d)
    decreases |d|
  {
    var k :| 0 < k < |d| && DomainSplitAt(d, k);
    var p, rest := d[..k], d[k + 1..];
    LabelHasNoDot(p);
    assert d == p + ['.'] + rest;
    SplitCons(p, rest, '.');
    if TopLabel(rest) {
      LabelHasNoDot(rest);
      SplitNone(rest, '.');
      assert DomainLabels([p, rest]);
      assert [p] + [rest] == [p, rest];
    } else {
      DomainMatchToShape(rest);
      DomainLabelsCons(p, Split(rest, '.'));
    }
  }

  /** A domain whose dot-separated labels have the right shape is matched
      by the regex's group. */
  lemma {:induction false} DomainShapeToMatch(d: string)
    requires DomainShape(d)
    ensures DomainMatch(d)
    decreases |d|
  {
    var labels := Split(d, '.');
    var p := labels[0];
    var tail := labels[1..];
    var rest := Join(tail, '.');
    assert d == p + ['.'] + rest;
    var k := |p|;
    assert d[..k] == p && d[k + 1..] == rest;
    if |labels| == 2 {
      assert rest == labels[1];
    } else {
      SplitJoin(tail, '.');
      DomainLabelsTail(labels);
      DomainShapeToMatch(rest);
    }
    assert DomainSplitAt(d, k);
  }

  /** The regex's domain group and the split reading accept the same
      domains. */
  lemma DomainMatchShape(d: string)
    ensures DomainMatch(d) <==> DomainShape(d)
  {
    if DomainMatch(d) {
      DomainMatchToShape(d);
    }
    if DomainShape(d) {
      DomainShapeToMatch(d);
    }
  }

  /** An address the regex matches has one `@`, after a well-formed local
      part and before a well-formed domain. */
  lemma EmailMatchToShape(s: string)
    requires MatchesEmailRegex(s)
    ensures EmailShape(s)
  {
    var i :| 0 < i < |s| && EmailSplitAt(s, i);
    var local, d := s[..i], s[i + 1..];
    assert '@' !in local by {
      forall j | 0 <= j < |local|
        ensures local[j] != '@'
      {
        assert LocalChar(local[j]);
      }
    }
    DomainMatchNoAt(d);
    assert s == local + ['@'] + d;
    SplitCons(local, d, '@');
    SplitNone(d, '@');
    DomainMatchToShape(d);
  }

  /** An address of that shape is matched by the regex. */
  lemma EmailShapeToMatch(s: string)
    requires EmailShape(s)
    ensures MatchesEmailRegex(s)
  {
    var parts := Split(s, '@');
    var local, d := parts[0], parts[1];
    assert s == local + ['@'] + d;
    var i := |local|;
    assert s[..i] == local && s[i + 1..] == d;
    DomainShapeToMatch(d);
    assert EmailSplitAt(s, i);
  }

  /** The route's regex and the split reading accept the same addresses. */
  lemma EmailRegexShape(s: string)
    ensures MatchesEmailRegex(s) <==> EmailShape(s)
  {
    if MatchesEmailRegex(s) {
      EmailMatchToShape(s);
    }
    if EmailShape(s) {
      EmailShapeToMatch(s);
    }
  }

  /** `emailRegex.test(undefined)` tests the string `undefined`. */
  function EmailTested(fields: map<string, string>): string
  {
    if "email" in fields then fields["email"] else "undefined"
  }

  /** A form without an email never passes the check. */
  lemma MissingEmailRefused(fields: map<string, string>)
    requires "email" !in fields
    ensures !MatchesEmailRegex(EmailTested(fields))
  {
    var s := EmailTested(fields);
    assert forall i :: 0 <= i < |s| ==> s[i] != '@';
  }

  /** An address whose last label is longer than four characters, such as
      one under `.museum`, is refused. */
  lemma LongTopLabelRefused(local: string, domain: string, top: string)
    requires '@' !in domain && '@' !in top && '.' !in top
    requires |top| > 4
    ensures !MatchesEmailRegex(local + "@" + domain + "." + top)
  {
    var after := domain + "." + top;
    var s := local + "@" + after;
    assert '@' !in after by {
      forall j | 0 <= j < |after|
        ensures after[j] != '@'
      {
        if j < |domain| {
          assert after[j] == domain[j];
        } else if j > |domain| {
          assert after[j] == top[j - |domain| - 1];
        }
      }
    }
    assert s == local + ['@'] + after;
    assert s == local + "@" + domain + "." + top;
    SplitSnoc(local, after, '@');
    assert after == domain + ['.'] + top;
    SplitSnoc(domain, top, '.');
    if MatchesEmailRegex(s) {
      EmailMatchToShape(s);
      assert false;
    }
  }

  // ------------------------------------------------------------ submission

  /** The file multer kept: its client-side name and where it was stored. */
  datatype Upload = Upload(originalName: string, path: string)

  /** A text field of the form, or NULL when it is absent. */
  function FormField(fields: map<string, string>, key: string): (r: Option<string>)
    ensures r.Some? <==> key in fields
    ensures r.Some? ==> r.value == fields[key]
  {
    if key in fields then Some(fields[key]) else None
  }

  /** The job the form names: its `job_id` read as a positive integer. An
      absent, unreadable or non-positive id names no job. */
  function JobKey(fields: map<string, string>): (r: Option<Id>)
    ensures r.Some? <==> "job_id" in fields && IdParam(fields["job_id"]).Some?
                         && IdParam(fields["job_id"]).value >= 1
    ensures r.Some? ==> r.value == IdParam(fields["job_id"]).value
  {
    if "job_id" in fields then
      match IdParam(fields["job_id"])
      case Some(n) => if n >= 1 then Some(n) else None
      case None => None
    else None
  }

  /** The row the INSERT stores, before the database gives it its key. */
  function NewApplication(jobId: Id, fields: map<string, string>, file: Upload, now: int)
    : (a: Application)
    ensures a.jobId == jobId && a.status == "new" && a.resumePath == file.path
    ensures a.email == FormField(fields, "email") && a.fullName == FormField(fields, "full_name")
    ensures a.phone == FormField(fields, "phone") && a.coverLetter == FormField(fields, "cover_letter")
    ensures a.appliedAt == now
  {
    Application(1, jobId, FormField(fields, "full_name"), FormField(fields, "email"),
                FormField(fields, "phone"), FormField(fields, "cover_letter"),
                file.path, "new", now)
  }

  /** POST /api/applications. A refused upload fails in multer and reaches
      the application's error handler (SERVER_ERROR); then a missing file is
      FILE_REQUIRED and an email the regex refuses INVALID_EMAIL; a job id
      the INSERT cannot use fails as SERVER_ERROR. Otherwise one application
      is stored, with status `new`. */
  method Submit(db: Database, fields: map<string, string>, file: Option<Upload>, now: int)
    returns (r: Result<Application>)
    requires db.Valid()
    modifies db
    ensures db.Valid()
    ensures file.Some? && !FileFilter(file.value.originalName) ==> r == Err(ServerError)
    ensures file.None? ==> r == Err(FileRequired)
    ensures file.Some? && FileFilter(file.value.originalName) && !MatchesEmailRegex(EmailTested(fields))
            ==> r == Err(InvalidEmail)
    ensures r.Ok? <==>
      && file.Some? && FileFilter(file.value.originalName)
      && MatchesEmailRegex(EmailTested(fields))
      && JobKey(fields).Some? && JobKey(fields).value in old(db.jobs)
    ensures r.Err? ==> r.code in {ServerError, FileRequired, InvalidEmail} && unchanged(db)
    ensures r.Ok? ==>
      && r.value == NewApplication(JobKey(fields).value, fields, file.value, now).(id := old(db.nextApplicationId))
      && db.applications == old(db.applications)[r.value.id := r.value]
      && db.jobs == old(db.jobs) && db.companies == old(db.companies) && db.admins == old(db.admins)
  {
    if file.Some? && !FileFilter(file.value.originalName) {
      return Err(ServerError);
    }
    if file.None? {
      return Err(FileRequired);
    }
    if !MatchesEmailRegex(EmailTested(fields)) {
      return Err(InvalidEmail);
    }
    var jobId := JobKey(fields);
    if jobId.None? {
      return Err(ServerError);
    }
    var w := db.InsertApplication(NewApplication(jobId.value, fields, file.value, now));
    if !w.Written? {
      return Err(ServerError);
    }
    r := Ok(w.row);
  }

  /** A stored application is the form as submitted: its email passes the
      regex and its resume is the kept upload. */
  lemma SubmittedIsValid(a: Application, fields: map<string, string>, file: Upload, now: int)
    requires JobKey(fields).Some?
    requires a == NewApplication(JobKey(fields).value, fields, file, now)
    requires MatchesEmailRegex(EmailTested(fields))
    ensures a.email.Some? && EmailShape(a.email.value)
  {
    if "email" !in fields {
      MissingEmailRefused(fields);
    }
    EmailRegexShape(fields["email"]);
  }
}
