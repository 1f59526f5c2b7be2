/**
 * The relational store as one object whose tables the request handlers
 * update in place. Each table maps the primary key to the row; `next...`
 * is the table's auto-increment counter. Committed writes are assignments to
 * these fields; a rolled-back request leaves them as they were.
 */
module Store {
  import opened Tables
  import opened Models
  import opened Wrappers

  class Database {
    var users: map<int, User>
    var institutions: map<int, Institution>
    var programs: map<int, Program>
    var applications: map<int, Application>
    var payments: map<int, Payment>
    var adminLogs: seq<AdminLog>
    var nextUserId: int
    var nextInstitutionId: int
    var nextProgramId: int
    var nextApplicationId: int
    var nextPaymentId: int

    /** Keys come from the counters, and the unique columns hold no duplicates. */
    ghost predicate Valid()
      reads this
    {
      && 1 <= nextUserId && 1 <= nextInstitutionId && 1 <= nextProgramId
      && 1 <= nextApplicationId && 1 <= nextPaymentId
      && IdsBelow(users, nextUserId)
      && IdsBelow(institutions, nextInstitutionId)
      && IdsBelow(programs, nextProgramId)
      && IdsBelow(applications, nextApplicationId)
      && IdsBelow(payments, nextPaymentId)
      && EmailsUnique(users)
      && ReferencesUnique(applications)
      && IntentIdsUnique(payments)
    }

    /** Rewrites one user row without changing its email. */
    method SetUser(id: int, u: User)
      requires Valid() && id in users && u.email == users[id].email
      modifies this`users
      ensures Valid()
      ensures users == old(users)[id := u]
    {
      ghost var before := users;
      users := users[id := u];
      forall a, b | a in users && b in users && users[a].email == users[b].email
        ensures a == b
      {
        assert users[a].email == before[a].email && users[b].email == before[b].email;
      }
    }

    /** Inserts a user under the next id; the email must be new. */
    method InsertUser(u: User) returns (id: int)
      requires Valid() && forall k :: k in users ==> users[k].email != u.email
      modifies this`users, this`nextUserId
      ensures Valid()
      ensures id == old(nextUserId) && nextUserId == id + 1
      ensures users == old(users)[id := u]
    {
      id := nextUserId;
      users := users[id := u];
      nextUserId := id + 1;
    }

    /** Rewrites one institution row. */
    method SetInstitution(id: int, i: Institution)
      requires Valid() && id in institutions
      modifies this`institutions
      ensures Valid()
      ensures institutions == old(institutions)[id := i]
    {
      institutions := institutions[id := i];
    }

    /** Inserts a payment without a provider session under the next id. */
    method InsertPayment(p: Payment) returns (id: int)
      requires Valid() && p.stripePaymentIntentId.None?
      modifies this`payments, this`nextPaymentId
      ensures Valid()
      ensures id == old(nextPaymentId) && nextPaymentId == id + 1
      ensures payments == old(payments)[id := p]
    {
      id := nextPaymentId;
      payments := payments[id := p];
      nextPaymentId := id + 1;
    }

    /** Records the provider's session id on a payment; no other payment may carry it. */
    method AttachIntent(id: int, intentId: string)
      requires Valid() && id in payments
      requires forall k :: k in payments ==> payments[k].stripePaymentIntentId != Some(intentId)
      modifies this`payments
      ensures Valid()
      ensures payments == old(payments)[id := old(payments)[id].(stripePaymentIntentId := Some(intentId))]
    {
      payments := payments[id := payments[id].(stripePaymentIntentId := Some(intentId))];
    }

    /** A freshly created schema (`db.create_all()`): every table empty. */
    constructor ()
      ensures Valid()
      ensures users == map[] && institutions == map[] && programs == map[]
      ensures applications == map[] && payments == map[] && adminLogs == []
    {
      users, institutions, programs, applications, payments := map[], map[], map[], map[], map[];
      adminLogs := [];
      nextUserId, nextInstitutionId, nextProgramId, nextApplicationId, nextPaymentId := 1, 1, 1, 1, 1;
    }
  }
}
