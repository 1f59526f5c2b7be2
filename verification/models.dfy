/**
 * The schema: the three enumerations, the rows of the six tables, the
 * reference-number generator and `full_name`. Money columns (Numeric(10, 2))
 * are integer cents; timestamps are ticks of an abstract clock.
 */
module Models {
  import opened Wrappers
  import opened Text

  datatype UserRole = Student | Admin | InstitutionStaff

  /** The `.value` of each `UserRole` member. */
  function RoleValue(r: UserRole): string {
    match r
    case Student => "student"
    case Admin => "admin"
    case InstitutionStaff => "institution"
  }

  datatype ApplicationStatus = Draft | Submitted | UnderReview | Accepted | Rejected | Waitlisted

  const AllApplicationStatuses: set<ApplicationStatus> :=
    {Draft, Submitted, UnderReview, Accepted, Rejected, Waitlisted}

  /** The `.value` of each `ApplicationStatus` member. */
  function StatusValue(s: ApplicationStatus): string {
    match s
    case Draft => "draft"
    case Submitted => "submitted"
    case UnderReview => "under_review"
    case Accepted => "accepted"
    case Rejected => "rejected"
    case Waitlisted => "waitlisted"
  }

  /**
   * `ApplicationStatus(v)`: look a member up by its value. Python raises
   * ValueError for any other string and for None; that is `None` here.
   */
  function ParseApplicationStatus(v: Option<string>): (r: Option<ApplicationStatus>)
    ensures r.Some? ==> v == Some(StatusValue(r.value))
    ensures r.None? ==> forall s :: v != Some(StatusValue(s))
  {
    match v
    case None => None
    case Some(text) =>
      if text == "draft" then Some(Draft)
      else if text == "submitted" then Some(Submitted)
      else if text == "under_review" then Some(UnderReview)
      else if text == "accepted" then Some(Accepted)
      else if text == "rejected" then Some(Rejected)
      else if text == "waitlisted" then Some(Waitlisted)
      else None
  }

  /** The enumeration has exactly six members, and parsing a member's value gives it back. */
  lemma ApplicationStatusRoundTrip(s: ApplicationStatus)
    ensures s in AllApplicationStatuses && |AllApplicationStatuses| == 6
    ensures ParseApplicationStatus(Some(StatusValue(s))) == Some(s)
  {
  }

  datatype PaymentStatus = Pending | Completed | Failed | Refunded

  const AllPaymentStatuses: set<PaymentStatus> := {Pending, Completed, Failed, Refunded}

  /** The `.value` of each `PaymentStatus` member. */
  function PaymentStatusValue(s: PaymentStatus): string {
    match s
    case Pending => "pending"
    case Completed => "completed"
    case Failed => "failed"
    case Refunded => "refunded"
  }

  /** The enumeration has exactly four members with four distinct values. */
  lemma PaymentStatusEnumerated(s: PaymentStatus, t: PaymentStatus)
    ensures s in AllPaymentStatuses && |AllPaymentStatuses| == 4
    ensures PaymentStatusValue(s) == PaymentStatusValue(t) ==> s == t
  {
  }

  /** A row of `users`. Registration fills every text column, so they are plain strings here. */
  datatype User = User(
    email: string,
    passwordHash: string,
    firstName: string,
    lastName: string,
    phone: string,
    country: string,
    role: UserRole,
    educationLevel: string,
    fieldOfInterest: string,
    preferredDestinations: Option<seq<string>>,
    isActive: bool,
    isVerified: bool,
    createdAt: int,
    lastLogin: Option<int>)

  /** A row of `users` built from the given columns; the others take their column defaults. */
  function NewUser(email: string, passwordHash: string, firstName: string, lastName: string,
                   phone: string, country: string, educationLevel: string, fieldOfInterest: string,
                   preferredDestinations: Option<seq<string>>, now: int): (u: User)
    ensures u.role == Student && u.isActive && !u.isVerified
    ensures u.createdAt == now && u.lastLogin.None?
    ensures u.email == email && u.passwordHash == passwordHash
    ensures u.firstName == firstName && u.lastName == lastName && u.phone == phone && u.country == country
    ensures u.educationLevel == educationLevel && u.fieldOfInterest == fieldOfInterest
    ensures u.preferredDestinations == preferredDestinations
  {
    User(email, passwordHash, firstName, lastName, phone, country,
         Student,        // role default
         educationLevel, fieldOfInterest, preferredDestinations,
         true,           // is_active default
         false,          // is_verified default
         now, None)
  }

  /** `User.full_name`: first name, one space, last name. */
  function FullName(u: User): (r: string)
    ensures |r| == |u.firstName| + 1 + |u.lastName|
    ensures r[..|u.firstName|] == u.firstName && r[|u.firstName|] == ' '
    ensures r[|u.firstName| + 1..] == u.lastName
  {
    u.firstName + " " + u.lastName
  }

  /**
   * When neither first name contains a space, the full name determines both
   * names: the first space of the full name is the separator.
   */
  lemma {:induction false} FullNameDeterminesNames(u: User, v: User)
    requires ' ' !in u.firstName && ' ' !in v.firstName
    requires FullName(u) == FullName(v)
    ensures u.firstName == v.firstName && u.lastName == v.lastName
  {
  }

  /** A row of `institutions`. */
  datatype Institution = Institution(
    name: string,
    country: string,
    countryCode: string,
    city: string,
    description: Option<string>,
    applicationFee: Option<int>,
    worldRanking: Option<int>,
    isActive: bool,
    isVerified: bool)

  /** The `is_active` filter that the listings and the dashboard apply to institutions. */
  predicate IsActiveInstitution(i: Institution) { i.isActive }

  /** A row of `programs`. */
  datatype Program = Program(
    institutionId: int,
    name: string,
    degreeType: string,
    fieldOfStudy: string,
    tuitionFee: int,
    isActive: bool)

  /** A row of `applications`. */
  datatype Application = Application(
    userId: int,
    institutionId: int,
    programId: int,
    status: ApplicationStatus,
    referenceNumber: Option<string>,
    personalStatement: string,
    statementOfPurpose: string,
    submittedAt: Option<int>,
    decisionDate: Option<int>,
    decisionNotes: Option<string>,
    createdAt: int)

  /** A row of `payments`. */
  datatype Payment = Payment(
    userId: int,
    applicationId: Option<int>,
    stripePaymentIntentId: Option<string>,
    amount: int,
    currency: string,
    description: string,
    status: PaymentStatus,
    createdAt: int,
    completedAt: Option<int>,
    stripeMetadata: Option<string>)

  /** One key of the JSON object stored in `admin_logs.details`; `None` is JSON null. */
  datatype Detail = Detail(key: string, value: Option<string>)

  /** A row of `admin_logs`. */
  datatype AdminLog = AdminLog(
    adminId: int,
    action: string,
    targetType: Option<string>,
    targetId: Option<int>,
    details: Option<seq<Detail>>,
    ipAddress: Option<string>,
    createdAt: int)

  /** `users.email` is a unique column. */
  ghost predicate EmailsUnique(users: map<int, User>) {
    forall a, b :: a in users && b in users && users[a].email == users[b].email ==> a == b
  }

  /** Changing a row without changing its email keeps emails unique. */
  lemma SameEmailKeepsUnique(users: map<int, User>, id: int, u: User)
    requires EmailsUnique(users) && id in users && u.email == users[id].email
    ensures EmailsUnique(users[id := u])
  {
    var m := users[id := u];
    forall a, b | a in m && b in m && m[a].email == m[b].email
      ensures a == b
    {
      assert m[a].email == users[a].email && m[b].email == users[b].email;
    }
  }

  /** `applications.reference_number` is a unique column (NULLs do not collide). */
  ghost predicate ReferencesUnique(applications: map<int, Application>) {
    forall a, b ::
      (a in applications && b in applications && applications[a].referenceNumber.Some?
       && applications[a].referenceNumber == applications[b].referenceNumber) ==> a == b
  }

  /** `payments.stripe_payment_intent_id` is a unique column (NULLs do not collide). */
  ghost predicate IntentIdsUnique(payments: map<int, Payment>) {
    forall a, b ::
      (a in payments && b in payments && payments[a].stripePaymentIntentId.Some?
       && payments[a].stripePaymentIntentId == payments[b].stripePaymentIntentId) ==> a == b
  }

  const ReferenceLength := 10

  /** A character of `string.ascii_uppercase + string.digits`. */
  predicate IsReferenceChar(c: char) {
    'A' <= c <= 'Z' || '0' <= c <= '9'
  }

  /** Character `d mod 36` of "ABC...XYZ0123456789". */
  function ReferenceChar(d: nat): (c: char)
    ensures IsReferenceChar(c)
  {
    var i := d % 36;
    if i < 26 then ('A' as int + i) as char else ('0' as int + i - 26) as char
  }

  /**
   * `generate_reference_number`: ten independent draws from the 36-character
   * alphabet. `random.choices` is replaced by the draws it would make.
   */
  function GenerateReferenceNumber(draws: seq<nat>): (r: string)
    requires |draws| == ReferenceLength
    ensures |r| == ReferenceLength
    ensures forall i :: 0 <= i < |r| ==> IsReferenceChar(r[i])
  {
    seq(ReferenceLength, i requires 0 <= i < ReferenceLength => ReferenceChar(draws[i]))
  }

  /** The position of a reference character in the alphabet. */
  function ReferenceIndex(c: char): (d: nat)
    requires IsReferenceChar(c)
    ensures d < 36 && ReferenceChar(d) == c
  {
    if 'A' <= c <= 'Z' then c as int - 'A' as int else c as int - '0' as int + 26
  }

  /** Every ten-character string over the alphabet is a possible reference number. */
  lemma EveryReferenceReachable(s: string)
    requires |s| == ReferenceLength
    requires forall i :: 0 <= i < |s| ==> IsReferenceChar(s[i])
    ensures exists draws :: |draws| == ReferenceLength && GenerateReferenceNumber(draws) == s
  {
    var draws := seq(ReferenceLength, i requires 0 <= i < ReferenceLength => ReferenceIndex(s[i]));
    assert GenerateReferenceNumber(draws) == s;
  }
}
