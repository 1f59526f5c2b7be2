/**
 * The administration blueprint: the admin-only gate, the audit log, user
 * activation, the decision on an application, and the dashboard figures.
 */
module Admin {
  import opened Wrappers
  import opened Tables
  import opened Models
  import opened Store
  import Payments

  /** Who is making the request, as the session knows it. */
  datatype Principal = Anonymous | Authenticated(userId: int, role: UserRole)

  datatype Gate = LoginRedirect | AdminDenied | AdminAllowed(adminId: int)

  /**
   * `admin_required` inside `login_required`: an anonymous visitor is sent to
   * the login page, any other non-admin is sent to the index, and only an
   * admin reaches the wrapped handler.
   */
  function AdminGate(p: Principal): (r: Gate)
    ensures r.LoginRedirect? <==> p.Anonymous?
    ensures r.AdminAllowed? <==> p.Authenticated? && p.role == Admin
    ensures r.AdminAllowed? ==> r.adminId == p.userId
  {
    match p
    case Anonymous => LoginRedirect
    case Authenticated(userId, role) => if role == Admin then AdminAllowed(userId) else AdminDenied
  }

  /**
   * The `admin_logs` row `log_admin_action` builds: the details are stored as
   * JSON only when there are any (an empty dict is falsy).
   */
  function AdminLogEntry(adminId: int, action: string, targetType: Option<string>, targetId: Option<int>,
                         details: seq<Detail>, ip: Option<string>, now: int): (r: AdminLog)
    ensures r.details.None? <==> details == []
    ensures r.details.Some? ==> r.details.value == details
    ensures r.adminId == adminId && r.action == action && r.createdAt == now
  {
    AdminLog(adminId, action, targetType, targetId, if details == [] then None else Some(details), ip, now)
  }

  /**
   * `log_admin_action`: appends exactly one row, or nothing when the write
   * fails (`storeFails`); the failure is reported to no caller.
   */
  method LogAdminAction(db: Database, adminId: int, action: string, targetType: Option<string>,
                        targetId: Option<int>, details: seq<Detail>, ip: Option<string>, now: int,
                        storeFails: bool)
    modifies db`adminLogs
    ensures db.adminLogs == old(db.adminLogs) +
      if storeFails then [] else [AdminLogEntry(adminId, action, targetType, targetId, details, ip, now)]
  {
    if !storeFails {
      db.adminLogs := db.adminLogs + [AdminLogEntry(adminId, action, targetType, targetId, details, ip, now)];
    }
  }

  // ---------------------------------------------------------------------------
  // User activation.

  function ToggleActive(u: User): (r: User)
    ensures r.isActive == !u.isActive
    ensures r.(isActive := u.isActive) == u
  {
    u.(isActive := !u.isActive)
  }

  /** Toggling twice gives the user back. */
  lemma ToggleTwice(u: User)
    ensures ToggleActive(ToggleActive(u)) == u
  {
  }

  /** The log row of a toggle: the action names the user's new state, the target is the user, the details its email. */
  function ToggleLogEntry(adminId: int, userId: int, toggled: User, ip: Option<string>, now: int): (r: AdminLog)
    ensures r.action == "user_activated" <==> toggled.isActive
    ensures r.action == "user_deactivated" <==> !toggled.isActive
    ensures r.adminId == adminId && r.targetType == Some("user") && r.targetId == Some(userId) && r.createdAt == now
    ensures r.details == Some([Detail("email", Some(toggled.email))])
  {
    AdminLogEntry(adminId, if toggled.isActive then "user_activated" else "user_deactivated",
                  Some("user"), Some(userId), [Detail("email", Some(toggled.email))], ip, now)
  }

  datatype ToggleOutcome = ToggleRefused(gate: Gate) | UserNotFound | Toggled(nowActive: bool)

  /**
   * `toggle_user_status`: an admin flips one user's `is_active` (404 for an
   * unknown user), commits, then logs "user_activated" or
   * "user_deactivated" with the user's email.
   */
  method ToggleUserStatus(db: Database, principal: Principal, userId: int, ip: Option<string>,
                          now: int, logFails: bool) returns (outcome: ToggleOutcome)
    requires db.Valid()
    modifies db`users, db`adminLogs
    ensures db.Valid()
    ensures !AdminGate(principal).AdminAllowed? ==>
      outcome == ToggleRefused(AdminGate(principal)) && db.users == old(db.users) && db.adminLogs == old(db.adminLogs)
    ensures AdminGate(principal).AdminAllowed? && userId !in old(db.users) ==>
      outcome == UserNotFound && db.users == old(db.users) && db.adminLogs == old(db.adminLogs)
    ensures AdminGate(principal).AdminAllowed? && userId in old(db.users) ==>
      var toggled := ToggleActive(old(db.users)[userId]);
      && outcome == Toggled(toggled.isActive)
      && db.users == old(db.users)[userId := toggled]
      && db.adminLogs == old(db.adminLogs) +
           if logFails then [] else [ToggleLogEntry(AdminGate(principal).adminId, userId, toggled, ip, now)]
  {
    var gate := AdminGate(principal);
    if !gate.AdminAllowed? {
      return ToggleRefused(gate);
    }
    if userId !in db.users {
      return UserNotFound;
    }
    var toggled := ToggleActive(db.users[userId]);
    SameEmailKeepsUnique(db.users, userId, toggled);
    db.users := db.users[userId := toggled];
    var entry := ToggleLogEntry(gate.adminId, userId, toggled, ip, now);
    LogAdminAction(db, gate.adminId, entry.action, entry.targetType, entry.targetId,
                   [Detail("email", Some(toggled.email))], ip, now, logFails);
    outcome := Toggled(toggled.isActive);
  }

  // ---------------------------------------------------------------------------
  // Decisions on applications.

  /**
   * The assignments of `update_application_status` before the commit. An
   * unknown or missing status value raises and the request is rolled back,
   * which is `None`. Otherwise status and notes are written, and the decision
   * date only for "accepted" or "rejected".
   */
  function ApplyDecision(app: Application, newStatus: Option<string>, notes: Option<string>, now: int): (r: Option<Application>)
    ensures r.None? <==> forall s :: newStatus != Some(StatusValue(s))
    ensures r.Some? ==> newStatus == Some(StatusValue(r.value.status)) && r.value.decisionNotes == notes
    ensures r.Some? ==>
      r.value.decisionDate == if r.value.status == Accepted || r.value.status == Rejected then Some(now) else app.decisionDate
    ensures r.Some? ==> r.value.(status := app.status, decisionNotes := app.decisionNotes, decisionDate := app.decisionDate) == app
  {
    match ParseApplicationStatus(newStatus)
    case None => None
    case Some(status) =>
      var decided := status == Accepted || status == Rejected;
      Some(app.(status := status, decisionNotes := notes, decisionDate := if decided then Some(now) else app.decisionDate))
  }

  /** The audit row of a committed decision: old status, new status and reference number. */
  function DecisionLogEntry(adminId: int, applicationId: int, before: Application, newStatus: string,
                            ip: Option<string>, now: int): (r: AdminLog)
    ensures r.action == "application_status_updated" && r.targetId == Some(applicationId)
    ensures r.details == Some([Detail("old_status", Some(StatusValue(before.status))),
                               Detail("new_status", Some(newStatus)),
                               Detail("reference_number", before.referenceNumber)])
  {
    AdminLogEntry(adminId, "application_status_updated", Some("application"), Some(applicationId),
                  [Detail("old_status", Some(StatusValue(before.status))),
                   Detail("new_status", Some(newStatus)),
                   Detail("reference_number", before.referenceNumber)], ip, now)
  }

  datatype DecisionOutcome = DecisionRefused(gate: Gate) | ApplicationNotFound | StatusUpdated | RolledBack

  /** Changing a row without changing its reference number keeps reference numbers unique. */
  lemma SameReferenceKeepsUnique(applications: map<int, Application>, id: int, app: Application)
    requires ReferencesUnique(applications) && id in applications
    requires app.referenceNumber == applications[id].referenceNumber
    ensures ReferencesUnique(applications[id := app])
  {
    var m := applications[id := app];
    forall a, b | a in m && b in m && m[a].referenceNumber.Some? && m[a].referenceNumber == m[b].referenceNumber
      ensures a == b
    {
      assert m[a].referenceNumber == applications[a].referenceNumber;
      assert m[b].referenceNumber == applications[b].referenceNumber;
    }
  }

  /**
   * `update_application_status`: the decision is committed first and logged
   * afterwards, so a failed log write leaves the decision in place.
   */
  method UpdateApplicationStatus(db: Database, principal: Principal, applicationId: int,
                                 newStatus: Option<string>, notes: Option<string>,
                                 ip: Option<string>, now: int, logFails: bool) returns (outcome: DecisionOutcome)
    requires db.Valid()
    modifies db`applications, db`adminLogs
    ensures db.Valid()
    ensures outcome == StatusUpdated <==>
      && AdminGate(principal).AdminAllowed? && applicationId in old(db.applications)
      && ApplyDecision(old(db.applications)[applicationId], newStatus, notes, now).Some?
    ensures outcome != StatusUpdated ==> db.applications == old(db.applications) && db.adminLogs == old(db.adminLogs)
    ensures outcome == StatusUpdated ==>
      var before := old(db.applications)[applicationId];
      && db.applications == old(db.applications)[applicationId := ApplyDecision(before, newStatus, notes, now).value]
      && db.adminLogs == old(db.adminLogs) +
           if logFails then []
           else [DecisionLogEntry(AdminGate(principal).adminId, applicationId, before, newStatus.value, ip, now)]
  {
    var gate := AdminGate(principal);
    if !gate.AdminAllowed? {
      return DecisionRefused(gate);
    }
    if applicationId !in db.applications {
      return ApplicationNotFound;
    }
    var before := db.applications[applicationId];
    var decided := ApplyDecision(before, newStatus, notes, now);
    if decided.None? {
      return RolledBack;
    }
    SameReferenceKeepsUnique(db.applications, applicationId, decided.value);
    db.applications := db.applications[applicationId := decided.value];
    var entry := DecisionLogEntry(gate.adminId, applicationId, before, newStatus.value, ip, now);
    LogAdminAction(db, gate.adminId, entry.action, entry.targetType, entry.targetId,
                   entry.details.value, ip, now, logFails);
    outcome := StatusUpdated;
  }

  // ---------------------------------------------------------------------------
  // Dashboard figures. Each count or sum ranges over the keys below the
  // table's counter, which is every row of a valid store.

  predicate IsStudent(u: User) { u.role == Student }
  predicate IsActiveProgram(p: Program) { p.isActive }
  predicate AnyApplication(a: Application) { true }
  predicate IsSubmitted(a: Application) { a.status == Submitted }

  /** A payment's contribution to revenue: its amount when COMPLETED. */
  function CompletedAmount(p: Payment): int {
    if p.status == Completed then p.amount else 0
  }

  /** `func.sum(amount)` over COMPLETED payments; SQL's NULL for no rows becomes 0 through `or 0`. */
  function Revenue(payments: map<int, Payment>, hi: int): (r: int)
    ensures (forall k :: k in payments ==> payments[k].status != Completed) ==> r == 0
    ensures (forall k :: k in payments ==> payments[k].amount >= 0) ==> r >= 0
  {
    if forall k :: k in payments ==> payments[k].status != Completed then
      SumOfZeros(payments, CompletedAmount, hi);
      Sum(payments, CompletedAmount, hi)
    else if forall k :: k in payments ==> payments[k].amount >= 0 then
      SumNonNegative(payments, CompletedAmount, hi);
      Sum(payments, CompletedAmount, hi)
    else
      Sum(payments, CompletedAmount, hi)
  }

  datatype Stats = Stats(
    totalUsers: nat,
    totalInstitutions: nat,
    totalPrograms: nat,
    totalApplications: nat,
    pendingApplications: nat,
    totalRevenue: int)

  /**
   * The `stats` dictionary of the dashboard: each count is the number of rows
   * the matching query lists, and the revenue is the sum of COMPLETED amounts.
   */
  function DashboardStats(users: map<int, User>, institutions: map<int, Institution>,
                          programs: map<int, Program>, applications: map<int, Application>,
                          payments: map<int, Payment>,
                          userHi: int, institutionHi: int, programHi: int, applicationHi: int, paymentHi: int): (r: Stats)
    ensures r.totalUsers == |Filter(Scan(users, userHi), OnRow(IsStudent))|
    ensures r.totalInstitutions == |Filter(Scan(institutions, institutionHi), OnRow(IsActiveInstitution))|
    ensures r.totalPrograms == |Filter(Scan(programs, programHi), OnRow(IsActiveProgram))|
    ensures r.totalApplications == |Scan(applications, applicationHi)|
    ensures r.pendingApplications == |Filter(Scan(applications, applicationHi), OnRow(IsSubmitted))|
    ensures r.totalRevenue == Revenue(payments, paymentHi)
    ensures r.pendingApplications <= r.totalApplications
    ensures (forall k :: k in payments ==> payments[k].status != Completed) ==> r.totalRevenue == 0
    ensures (forall k :: k in payments ==> payments[k].amount >= 0) ==> r.totalRevenue >= 0
  {
    ScanCount(users, IsStudent, userHi);
    ScanCount(institutions, IsActiveInstitution, institutionHi);
    ScanCount(programs, IsActiveProgram, programHi);
    ScanCount(applications, AnyApplication, applicationHi);
    FilterAll(Scan(applications, applicationHi), OnRow(AnyApplication));
    ScanCount(applications, IsSubmitted, applicationHi);
    CountMonotonic(applications, IsSubmitted, AnyApplication, applicationHi);
    Stats(Count(users, IsStudent, userHi),
          Count(institutions, IsActiveInstitution, institutionHi),
          Count(programs, IsActiveProgram, programHi),
          Count(applications, AnyApplication, applicationHi),
          Count(applications, IsSubmitted, applicationHi),
          Revenue(payments, paymentHi))
  }

  /** Starting a checkout never changes revenue: the row it adds is PENDING. */
  lemma CheckoutKeepsRevenue(l: Payments.Ledger, c: Payments.Catalog, caller: int, applicationId: int,
                             provider: Payments.ProviderSession, now: int)
    requires Payments.WellKeyed(l)
    ensures var after := Payments.Checkout(l, c, caller, applicationId, provider, now).0;
            Revenue(after.payments, after.nextId) == Revenue(l.payments, l.nextId)
  {
    var after := Payments.Checkout(l, c, caller, applicationId, provider, now).0;
    if after != l {
      SumAgrees(after.payments, l.payments, CompletedAmount, l.nextId);
    }
  }

  /** A refund lowers revenue by exactly the refunded amount. */
  lemma RefundLowersRevenue(l: Payments.Ledger, caller: int, paymentId: int)
    requires Payments.WellKeyed(l)
    requires Payments.Refund(l, caller, paymentId).1 == Payments.RefundSubmitted
    ensures var after := Payments.Refund(l, caller, paymentId).0;
            Revenue(after.payments, after.nextId) == Revenue(l.payments, l.nextId) - l.payments[paymentId].amount
  {
    SumUpdate(l.payments, CompletedAmount, l.nextId, paymentId, l.payments[paymentId].(status := Refunded));
  }

  /** A completion event for a payment that is already COMPLETED does not count it twice. */
  lemma RedeliveredWebhookKeepsRevenue(l: Payments.Ledger, paymentId: int, now: int)
    requires Payments.WellKeyed(l) && paymentId in l.payments && l.payments[paymentId].status == Completed
    ensures var after := Payments.HandleWebhook(l, Payments.Event(Payments.CheckoutCompletedEvent, Some(paymentId)), now).0;
            Revenue(after.payments, after.nextId) == Revenue(l.payments, l.nextId)
  {
    SumUpdate(l.payments, CompletedAmount, l.nextId, paymentId,
              l.payments[paymentId].(status := Completed, completedAt := Some(now)));
  }

  /**
   * A completion event for a payment that is not COMPLETED (PENDING, or a
   * FAILED or REFUNDED one it revives) adds its amount to revenue.
   */
  lemma WebhookAddsRevenue(l: Payments.Ledger, paymentId: int, now: int)
    requires Payments.WellKeyed(l) && paymentId in l.payments && l.payments[paymentId].status != Completed
    ensures var after := Payments.HandleWebhook(l, Payments.Event(Payments.CheckoutCompletedEvent, Some(paymentId)), now).0;
            Revenue(after.payments, after.nextId) == Revenue(l.payments, l.nextId) + l.payments[paymentId].amount
  {
    SumUpdate(l.payments, CompletedAmount, l.nextId, paymentId,
              l.payments[paymentId].(status := Completed, completedAt := Some(now)));
  }
}
