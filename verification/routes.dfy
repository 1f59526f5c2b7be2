/**
 * The public and student pages: applying to a program, viewing one's own
 * application, the home page's featured universities and testimonials, and
 * the contact form.
 */
module Routes {
  import opened Wrappers
  import opened Text
  import opened Tables
  import opened Models
  import opened Store

  /** The application table and its counter: what applying writes. */
  datatype ApplicationTable = ApplicationTable(applications: map<int, Application>, nextId: int)

  function ApplicationTableOf(db: Database): ApplicationTable
    reads db
  {
    ApplicationTable(db.applications, db.nextApplicationId)
  }

  /** The filter of the duplicate check: an application by this user for this program. */
  function ByUserForProgram(userId: int, programId: int): Application -> bool {
    (a: Application) => a.userId == userId && a.programId == programId
  }

  /** Some application already carries this reference number. */
  predicate ReferenceTaken(applications: map<int, Application>, reference: string) {
    exists k :: k in applications && applications[k].referenceNumber == Some(reference)
  }

  /**
   * The request: a GET shows the form; a POST carries the two statements
   * (empty when absent) and the ten draws the reference number is made from.
   */
  datatype ApplyRequest = ApplyGet | ApplyPost(personalStatement: string, statementOfPurpose: string, draws: seq<nat>)

  datatype ApplyOutcome =
    | ProgramNotFound                   // 404
    | AlreadyApplied(applicationId: int)
    | ShowForm
    | Created(applicationId: int)
    | ReferenceCollision                // unique violation at commit, rolled back

  /**
   * `apply_to_program`: 404 for an unknown program; a user who already has
   * an application for the program is sent to it; otherwise a POST inserts a
   * DRAFT application at the program's institution with a fresh reference
   * number, and a GET only shows the form.
   */
  function Apply(t: ApplicationTable, programs: map<int, Program>, caller: int, programId: int,
                 request: ApplyRequest, now: int): (r: (ApplicationTable, ApplyOutcome))
    requires IdsBelow(t.applications, t.nextId)
    requires request.ApplyPost? ==> |request.draws| == ReferenceLength
    ensures !r.1.Created? ==> r.0 == t
    ensures r.1 == ProgramNotFound <==> programId !in programs
    ensures r.1.AlreadyApplied? <==>
      programId in programs && exists k :: k in t.applications && ByUserForProgram(caller, programId)(t.applications[k])
    ensures r.1.AlreadyApplied? ==>
      r.1.applicationId in t.applications && ByUserForProgram(caller, programId)(t.applications[r.1.applicationId])
    ensures request.ApplyGet? ==> r.0 == t
    ensures r.1 == ShowForm <==>
      && request.ApplyGet? && programId in programs
      && !(exists k :: k in t.applications && ByUserForProgram(caller, programId)(t.applications[k]))
    ensures r.1 == ReferenceCollision <==>
      && request.ApplyPost? && programId in programs
      && !(exists k :: k in t.applications && ByUserForProgram(caller, programId)(t.applications[k]))
      && ReferenceTaken(t.applications, GenerateReferenceNumber(request.draws))
    ensures r.1.Created? <==>
      && request.ApplyPost? && programId in programs
      && !(exists k :: k in t.applications && ByUserForProgram(caller, programId)(t.applications[k]))
      && !ReferenceTaken(t.applications, GenerateReferenceNumber(request.draws))
    ensures r.1.Created? ==>
      && r.1.applicationId == t.nextId && r.0.nextId == t.nextId + 1
      && t.nextId in r.0.applications
      && r.0.applications == t.applications[t.nextId := r.0.applications[t.nextId]]
      && var a := r.0.applications[t.nextId];
         && a.userId == caller && a.programId == programId && programId in programs
         && a.institutionId == programs[programId].institutionId && a.status == Draft
         && a.referenceNumber == Some(GenerateReferenceNumber(request.draws))
         && !ReferenceTaken(t.applications, a.referenceNumber.value)
         && a.personalStatement == request.personalStatement && a.statementOfPurpose == request.statementOfPurpose
         && a.submittedAt.None? && a.decisionDate.None? && a.decisionNotes.None? && a.createdAt == now
  {
    if programId !in programs then (t, ProgramNotFound)
    else
      match FirstKey(t.applications, ByUserForProgram(caller, programId), 1, t.nextId)
      case Some(existing) => (t, AlreadyApplied(existing))
      case None =>
        match request
        case ApplyGet => (t, ShowForm)
        case ApplyPost(personalStatement, statementOfPurpose, draws) =>
          var reference := GenerateReferenceNumber(draws);
          if ReferenceTaken(t.applications, reference) then (t, ReferenceCollision)
          else
            var application := Application(caller, programs[programId].institutionId, programId, Draft,
                                           Some(reference), personalStatement, statementOfPurpose,
                                           None, None, None, now);
            (ApplicationTable(t.applications[t.nextId := application], t.nextId + 1), Created(t.nextId))
  }

  /** No user has two applications for the same program. */
  ghost predicate OnePerUserProgram(applications: map<int, Application>) {
    forall a, b ::
      (a in applications && b in applications && applications[a].userId == applications[b].userId
       && applications[a].programId == applications[b].programId) ==> a == b
  }

  /** Every application is filed at the institution that offers its program. */
  ghost predicate AtProgramInstitution(applications: map<int, Application>, programs: map<int, Program>) {
    forall k :: k in applications ==>
      (applications[k].programId in programs
       && applications[k].institutionId == programs[applications[k].programId].institutionId)
  }

  /** Applying never gives a user a second application for the same program. */
  lemma ApplyKeepsOnePerUserProgram(t: ApplicationTable, programs: map<int, Program>, caller: int, programId: int,
                                    request: ApplyRequest, now: int)
    requires IdsBelow(t.applications, t.nextId) && OnePerUserProgram(t.applications)
    requires request.ApplyPost? ==> |request.draws| == ReferenceLength
    ensures OnePerUserProgram(Apply(t, programs, caller, programId, request, now).0.applications)
  {
    var r := Apply(t, programs, caller, programId, request, now);
    if r.1.Created? {
      var m := r.0.applications;
      forall a, b | a in m && b in m && m[a].userId == m[b].userId && m[a].programId == m[b].programId
        ensures a == b
      {
        if a != b && (a == t.nextId || b == t.nextId) {
          assert false;
        }
      }
    }
  }

  /** Applying keeps every application at its program's institution. */
  lemma ApplyKeepsProgramInstitution(t: ApplicationTable, programs: map<int, Program>, caller: int, programId: int,
                                     request: ApplyRequest, now: int)
    requires IdsBelow(t.applications, t.nextId) && AtProgramInstitution(t.applications, programs)
    requires request.ApplyPost? ==> |request.draws| == ReferenceLength
    ensures AtProgramInstitution(Apply(t, programs, caller, programId, request, now).0.applications, programs)
  {
  }

  /** Applying keeps reference numbers unique and the keys below the counter. */
  lemma ApplyKeepsKeys(t: ApplicationTable, programs: map<int, Program>, caller: int, programId: int,
                       request: ApplyRequest, now: int)
    requires 1 <= t.nextId && IdsBelow(t.applications, t.nextId) && ReferencesUnique(t.applications)
    requires request.ApplyPost? ==> |request.draws| == ReferenceLength
    ensures var after := Apply(t, programs, caller, programId, request, now).0;
            1 <= after.nextId && IdsBelow(after.applications, after.nextId) && ReferencesUnique(after.applications)
  {
    var r := Apply(t, programs, caller, programId, request, now);
    if r.1.Created? {
      var m := r.0.applications;
      forall a, b | a in m && b in m && m[a].referenceNumber.Some? && m[a].referenceNumber == m[b].referenceNumber
        ensures a == b
      {
        if a != b && (a == t.nextId || b == t.nextId) {
          assert false;
        }
      }
    }
  }

  method ApplyToProgram(db: Database, caller: int, programId: int, request: ApplyRequest, now: int)
    returns (outcome: ApplyOutcome)
    requires db.Valid()
    requires request.ApplyPost? ==> |request.draws| == ReferenceLength
    modifies db`applications, db`nextApplicationId
    ensures db.Valid()
    ensures (ApplicationTableOf(db), outcome) == Apply(old(ApplicationTableOf(db)), db.programs, caller, programId, request, now)
  {
    ApplyKeepsKeys(ApplicationTableOf(db), db.programs, caller, programId, request, now);
    if programId !in db.programs {
      return ProgramNotFound;
    }
    var existing := FirstKey(db.applications, ByUserForProgram(caller, programId), 1, db.nextApplicationId);
    if existing.Some? {
      return AlreadyApplied(existing.value);
    }
    if request.ApplyGet? {
      return ShowForm;
    }
    var reference := GenerateReferenceNumber(request.draws);
    if ReferenceTaken(db.applications, reference) {
      return ReferenceCollision;
    }
    var application := Application(caller, db.programs[programId].institutionId, programId, Draft,
                                   Some(reference), request.personalStatement, request.statementOfPurpose,
                                   None, None, None, now);
    var id := db.nextApplicationId;
    db.applications := db.applications[id := application];
    db.nextApplicationId := id + 1;
    outcome := Created(id);
  }

  datatype ViewOutcome = ViewNotFound | ViewDenied | ViewShown(application: Application)

  /** `view_application`: only the owner sees an application; anyone else is sent to the dashboard. */
  function ViewApplication(applications: map<int, Application>, caller: int, applicationId: int): (r: ViewOutcome)
    ensures r.ViewNotFound? <==> applicationId !in applications
    ensures r.ViewDenied? <==> applicationId in applications && applications[applicationId].userId != caller
    ensures r.ViewShown? ==> applicationId in applications && r.application == applications[applicationId]
                             && r.application.userId == caller
  {
    if applicationId !in applications then ViewNotFound
    else if applications[applicationId].userId != caller then ViewDenied
    else ViewShown(applications[applicationId])
  }

  /** The application a returning applicant is redirected to is one they may view. */
  lemma AlreadyAppliedIsViewable(t: ApplicationTable, programs: map<int, Program>, caller: int, programId: int,
                                 request: ApplyRequest, now: int)
    requires IdsBelow(t.applications, t.nextId)
    requires request.ApplyPost? ==> |request.draws| == ReferenceLength
    requires Apply(t, programs, caller, programId, request, now).1.AlreadyApplied?
    ensures ViewApplication(t.applications, caller, Apply(t, programs, caller, programId, request, now).1.applicationId).ViewShown?
  {
  }

  /** A newly created application is one its applicant may view. */
  lemma CreatedIsViewable(t: ApplicationTable, programs: map<int, Program>, caller: int, programId: int,
                          request: ApplyRequest, now: int)
    requires IdsBelow(t.applications, t.nextId)
    requires request.ApplyPost? ==> |request.draws| == ReferenceLength
    requires Apply(t, programs, caller, programId, request, now).1.Created?
    ensures var r := Apply(t, programs, caller, programId, request, now);
            ViewApplication(r.0.applications, caller, r.1.applicationId).ViewShown?
  {
  }

  // ---------------------------------------------------------------------------
  // The home page.

  /** The countries featured on the home page, in display order. */
  const FeaturedCountries: seq<string> := ["ca", "us", "gb", "au", "ie", "de"]

  const PerCountry := 3


  /** The comprehension's condition: the lowercased country code is `cc`. */
  function InCountry(cc: string): Institution -> bool {
    (i: Institution) => Lower(i.countryCode) == cc
  }

  /** Active and in country `cc`. */
  function ActiveIn(cc: string): Institution -> bool {
    (i: Institution) => i.isActive && Lower(i.countryCode) == cc
  }

  /** The institutions featured for one country: the first three active ones there. */
  function CountryPicks(rows: seq<Institution>, cc: string): seq<Institution> {
    Take(Filter(Filter(rows, IsActiveInstitution), InCountry(cc)), PerCountry)
  }

  /** The country has at least one active institution to show. */
  function HasPicks(rows: seq<Institution>): string -> bool {
    (cc: string) => CountryPicks(rows, cc) != []
  }

  /** Filtering one more element of a list extends the filtered prefix by that element when it passes. */
  lemma OrderStep<T>(s: seq<T>, i: int, p: T -> bool)
    requires 0 <= i < |s|
    ensures Filter(s[..i + 1], p) == Filter(s[..i], p) + (if p(s[i]) then [s[i]] else [])
  {
    assert s[..i + 1] == s[..i] + [s[i]];
    FilterAppend(s[..i], [s[i]], p);
    FilterOne(s[i], p);
  }

  /** The first i + 1 elements hold what the first i hold, and element i. */
  lemma PrefixStep<T>(s: seq<T>, i: int)
    requires 0 <= i < |s|
    ensures forall x :: x in s[..i + 1] <==> x in s[..i] || x == s[i]
  {
    assert s[..i + 1] == s[..i] + [s[i]];
  }

  /**
   * `index`: for each listed country with at least one active institution,
   * its first three active institutions in scan order; other countries have
   * no entry. The dictionary is returned as its entries in insertion order
   * (`order`, the keys) and as a map from key to entry.
   */
  method FeaturedUniversities(rows: seq<Institution>)
    returns (order: seq<string>, featured: map<string, seq<Institution>>)
    ensures order == Filter(FeaturedCountries, HasPicks(rows))
    ensures forall cc :: cc in featured <==> cc in FeaturedCountries && CountryPicks(rows, cc) != []
    ensures forall cc :: cc in featured ==> featured[cc] == CountryPicks(rows, cc)
  {
    var institutions := Filter(rows, IsActiveInstitution);
    featured := map[];
    order := [];
    for i := 0 to |FeaturedCountries|
      invariant order == Filter(FeaturedCountries[..i], HasPicks(rows))
      invariant forall cc :: cc in featured <==> cc in FeaturedCountries[..i] && CountryPicks(rows, cc) != []
      invariant forall cc :: cc in featured ==> featured[cc] == CountryPicks(rows, cc)
    {
      var country := FeaturedCountries[i];
      var countryUnis := Filter(institutions, InCountry(country));
      assert Take(countryUnis, PerCountry) == CountryPicks(rows, country);
      assert HasPicks(rows)(country) <==> countryUnis != [];
      OrderStep(FeaturedCountries, i, HasPicks(rows));
      PrefixStep(FeaturedCountries, i);
      if countryUnis != [] {
        featured := featured[country := Take(countryUnis, PerCountry)];
        order := order + [country];
      }
    }
    assert FeaturedCountries[..|FeaturedCountries|] == FeaturedCountries;
  }

  /**
   * What a featured country shows: at most three institutions, each active and
   * in that country, in the order the table listed them, and none left out
   * when the country has three or fewer.
   */
  lemma CountryPicksMeaning(rows: seq<Institution>, cc: string)
    ensures var picks := CountryPicks(rows, cc);
      && |picks| <= PerCountry
      && (forall i :: 0 <= i < |picks| ==> picks[i].isActive && Lower(picks[i].countryCode) == cc)
      && |picks| <= |Filter(rows, ActiveIn(cc))| && picks == Filter(rows, ActiveIn(cc))[..|picks|]
      && (|picks| < PerCountry ==> picks == Filter(rows, ActiveIn(cc)))
  {
    FilterTwice(rows, IsActiveInstitution, InCountry(cc), ActiveIn(cc));
    FilterSubset(Filter(rows, IsActiveInstitution), InCountry(cc));
    var inCountry := Filter(Filter(rows, IsActiveInstitution), InCountry(cc));
    var picks := CountryPicks(rows, cc);
    forall i | 0 <= i < |picks|
      ensures picks[i].isActive && Lower(picks[i].countryCode) == cc
    {
      assert picks[i] == inCountry[i];
      assert InCountry(cc)(inCountry[i]);
      assert inCountry[i] in Filter(rows, IsActiveInstitution);
    }
  }

  const MaxTestimonials := 6

  /**
   * The featured testimonials: the first six of the loaded list. A missing or
   * malformed file loads as `None`, which shows none.
   */
  function FeaturedTestimonials<T>(loaded: Option<seq<T>>): (r: seq<T>)
    ensures |r| <= MaxTestimonials
    ensures loaded.None? ==> r == []
    ensures loaded.Some? ==> |r| <= |loaded.value| && r == loaded.value[..|r|]
    ensures loaded.Some? && |loaded.value| <= MaxTestimonials ==> r == loaded.value
    ensures loaded.Some? && |loaded.value| > MaxTestimonials ==> |r| == MaxTestimonials
  {
    match loaded
    case None => []
    case Some(testimonials) => if testimonials == [] then [] else Take(testimonials, MaxTestimonials)
  }

  // ---------------------------------------------------------------------------
  // The contact form.

  /** The four form fields; an absent field is `None` and reads as the empty string. */
  datatype ContactForm = ContactForm(name: Option<string>, email: Option<string>,
                                     subject: Option<string>, message: Option<string>)

  datatype ContactOutcome = ContactPage | ContactRejected | ContactAccepted

  /** `contact`: a POST is accepted exactly when every field has something other than whitespace. */
  function Contact(isPost: bool, form: ContactForm): (r: ContactOutcome)
    ensures !isPost ==> r == ContactPage
    ensures r == ContactAccepted <==>
      && isPost && HasVisibleChar(form.name.GetOr("")) && HasVisibleChar(form.email.GetOr(""))
      && HasVisibleChar(form.subject.GetOr("")) && HasVisibleChar(form.message.GetOr(""))
    ensures isPost ==> r != ContactPage
  {
    if !isPost then ContactPage
    else
      var name := Strip(form.name.GetOr(""));
      var email := Strip(form.email.GetOr(""));
      var subject := Strip(form.subject.GetOr(""));
      var message := Strip(form.message.GetOr(""));
      if name == [] || email == [] || subject == [] || message == [] then ContactRejected
      else ContactAccepted
  }
}
