/** Accounts, invitations, reset tickets and credentials of the control database.

    Every operation is one immediate transaction: it commits or leaves the tables
    as they were. An invitation or a ticket is named by one key, which stands for
    its id and its token hash, both unique in the schema. */
module ControlPlane {
  import opened Options

  type Id = string

  datatype Role = Admin | Member

  datatype User = User(email: string, vault: Id, role: Role, active: bool, created: int, updated: int, lastLogin: Option<int>)

  datatype CapabilityState = Pending | Accepted | Consumed | Revoked | Expired

  datatype Invitation = Invitation(email: string, role: Role, state: CapabilityState, createdBy: Id, acceptedBy: Option<Id>,
                                   created: int, expires: int, resolved: Option<int>)

  datatype Ticket = Ticket(user: Id, state: CapabilityState, createdBy: Id, created: int, expires: int, resolved: Option<int>)

  /** `updated` is the revision a login or a change must name. */
  datatype Password = Password(envelope: string, created: int, updated: int)

  datatype Recovery = Recovery(user: Id, envelope: string, active: bool, created: int, revoked: Option<int>)

  datatype Db = Db(users: map<Id, User>, invitations: map<Id, Invitation>, tickets: map<Id, Ticket>,
                   passwords: map<Id, Password>, recoveries: map<Id, Recovery>)

  datatype Error =
    | InvalidInput | Forbidden | NotFound | Conflict | SelfDisable | LastActiveAdmin | AlreadyBootstrapped
    | Inactive | HasExpired | CredentialConflict | RecoveryConflict | ConstraintFailed

  /** The tables after a transaction and what it reported; an expiry is both recorded and reported. */
  datatype Outcome = Outcome(db: Db, error: Option<Error>)

  function Refused(db: Db, error: Error): Outcome { Outcome(db, Some(error)) }

  function Done(db: Db): Outcome { Outcome(db, None) }

  datatype NewUser = NewUser(id: Id, email: string, vault: Id, password: string, recoveryId: Id, recovery: string)

  /** A recovery envelope as a caller read it earlier. */
  datatype Expected = Expected(id: Id, user: Id, envelope: string, created: int)

  const MAX_INVITATION_LIFETIME: int := 7 * 24 * 60 * 60 * 1000
  const MAX_RESET_LIFETIME: int := 60 * 60 * 1000

  /** Operation times lie between the years 2000 and 9999, in milliseconds. */
  predicate ValidTime(now: int) {
    946_684_800_000 <= now < 253_402_300_800_000
  }

  predicate ValidExpiry(now: int, expires: int, lifetime: int) {
    ValidTime(now) && ValidTime(expires) && now < expires <= now + lifetime
  }

  // ----- shared pieces -----

  predicate ActiveUser(db: Db, id: Id) {
    id in db.users && db.users[id].active
  }

  predicate ActiveAdmin(db: Db, id: Id) {
    ActiveUser(db, id) && db.users[id].role == Admin
  }

  predicate AnotherActiveAdmin(db: Db, id: Id) {
    exists other :: other in db.users && other != id && ActiveAdmin(db, other)
  }

  function Later(a: int, b: int): int {
    if a > b then a else b
  }

  function RevokedInvitation(i: Invitation, now: int): Invitation {
    i.(state := Revoked, resolved := Some(Later(i.created, now)))
  }

  function RevokedTicket(t: Ticket, now: int): Ticket {
    t.(state := Revoked, resolved := Some(Later(t.created, now)))
  }

  predicate IssuedPending(i: Invitation, user: Id) {
    i.state == Pending && i.createdBy == user
  }

  predicate TouchesPending(t: Ticket, user: Id) {
    t.state == Pending && (t.createdBy == user || t.user == user)
  }

  /** Revokes what a user has issued and every ticket for the user. */
  function RevokePending(db: Db, user: Id, now: int): Db {
    db.(invitations := map k | k in db.invitations ::
          if IssuedPending(db.invitations[k], user) then RevokedInvitation(db.invitations[k], now) else db.invitations[k],
        tickets := map k | k in db.tickets ::
          if TouchesPending(db.tickets[k], user) then RevokedTicket(db.tickets[k], now) else db.tickets[k])
  }

  predicate EmailTaken(db: Db, email: string) {
    exists id :: id in db.users && db.users[id].email == email
  }

  predicate VaultTaken(db: Db, vault: Id) {
    exists id :: id in db.users && db.users[id].vault == vault
  }

  predicate HasActiveRecovery(db: Db, user: Id) {
    exists r :: r in db.recoveries && db.recoveries[r].active && db.recoveries[r].user == user
  }

  function InsertUser(db: Db, u: NewUser, role: Role, now: int): Outcome {
    if u.id in db.users || EmailTaken(db, u.email) || VaultTaken(db, u.vault) then Refused(db, Conflict)
    else if u.id in db.passwords || u.recoveryId in db.recoveries || HasActiveRecovery(db, u.id) then
      Refused(db, ConstraintFailed)
    else Done(db.(users := db.users[u.id := User(u.email, u.vault, role, true, now, now, None)],
                  passwords := db.passwords[u.id := Password(u.password, now, now)],
                  recoveries := db.recoveries[u.recoveryId := Recovery(u.id, u.recovery, true, now, None)]))
  }

  function TouchUser(db: Db, id: Id, now: int): Db {
    if id in db.users then db.(users := db.users[id := db.users[id].(updated := Later(db.users[id].updated, now))]) else db
  }

  // ----- users -----

  function Bootstrap(db: Db, u: NewUser, now: int): Outcome {
    if !ValidTime(now) then Refused(db, InvalidInput)
    else if db.users != map[] then Refused(db, AlreadyBootstrapped)
    else InsertUser(db, u, Admin, now)
  }

  function DisableUser(db: Db, actor: Id, target: Id, now: int): Outcome {
    if !ValidTime(now) then Refused(db, InvalidInput)
    else if actor == target then Refused(db, SelfDisable)
    else if !ActiveAdmin(db, actor) then Refused(db, Forbidden)
    else if target !in db.users then Refused(db, NotFound)
    else
      var user := db.users[target];
      if !user.active then Done(RevokePending(db, target, now))
      else if user.role == Admin && !AnotherActiveAdmin(db, target) then Refused(db, LastActiveAdmin)
      else if now < user.created then Refused(db, ConstraintFailed)
      else Done(RevokePending(db.(users := db.users[target := user.(active := false, updated := now)]), target, now))
  }

  function EnableUser(db: Db, actor: Id, target: Id, now: int): Outcome {
    if !ValidTime(now) then Refused(db, InvalidInput)
    else if !ActiveAdmin(db, actor) then Refused(db, Forbidden)
    else if target !in db.users then Refused(db, NotFound)
    else if now < db.users[target].created then Refused(db, ConstraintFailed)
    else Done(db.(users := db.users[target := db.users[target].(active := true, updated := now)]))
  }

  function SetUserRole(db: Db, actor: Id, target: Id, role: Role, now: int): Outcome {
    if !ValidTime(now) then Refused(db, InvalidInput)
    else if !ActiveAdmin(db, actor) then Refused(db, Forbidden)
    else if target !in db.users then Refused(db, NotFound)
    else
      var user := db.users[target];
      if user.role == role then Done(db)
      else if user.role == Admin && user.active && !AnotherActiveAdmin(db, target) then Refused(db, LastActiveAdmin)
      else if now < user.created then Refused(db, ConstraintFailed)
      else
        var changed := db.(users := db.users[target := user.(role := role, updated := now)]);
        Done(if user.role == Admin then RevokePending(changed, target, now) else changed)
  }

  // ----- invitations -----

  predicate Stale(i: Invitation, email: string, now: int) {
    i.state == Pending && i.email == email && i.expires <= now
  }

  function ExpireInvitations(db: Db, email: string, now: int): Db {
    db.(invitations := map k | k in db.invitations ::
          if Stale(db.invitations[k], email, now)
          then db.invitations[k].(state := Expired, resolved := Some(now)) else db.invitations[k])
  }

  predicate StaleFromFuture(db: Db, email: string, now: int) {
    exists k :: k in db.invitations && Stale(db.invitations[k], email, now) && now < db.invitations[k].created
  }

  predicate Invited(db: Db, email: string) {
    exists k :: k in db.invitations && db.invitations[k].state == Pending && db.invitations[k].email == email
  }

  function CreateInvitation(db: Db, actor: Id, key: Id, email: string, role: Role, expires: int, now: int): Outcome {
    if !ValidExpiry(now, expires, MAX_INVITATION_LIFETIME) then Refused(db, InvalidInput)
    else if !ActiveAdmin(db, actor) then Refused(db, Forbidden)
    else if EmailTaken(db, email) then Refused(db, Conflict)
    else if StaleFromFuture(db, email, now) then Refused(db, ConstraintFailed)
    else
      var cleared := ExpireInvitations(db, email, now);
      if key in cleared.invitations || Invited(cleared, email) then Refused(db, Conflict)
      else Done(cleared.(invitations :=
                  cleared.invitations[key := Invitation(email, role, Pending, actor, None, now, expires, None)]))
  }

  function AcceptInvitation(db: Db, key: Id, u: NewUser, now: int): Outcome {
    if !ValidTime(now) then Refused(db, InvalidInput)
    else if key !in db.invitations then Refused(db, NotFound)
    else
      var i := db.invitations[key];
      if i.state != Pending then Refused(db, Inactive)
      else if i.expires <= now then
        if now < i.created then Refused(db, ConstraintFailed)
        else Outcome(db.(invitations := db.invitations[key := i.(state := Expired, resolved := Some(now))]), Some(HasExpired))
      else if u.email != i.email then Refused(db, InvalidInput)
      else
        var inserted := InsertUser(db, u, i.role, now);
        if inserted.error.Some? then Refused(db, inserted.error.value)
        else if now < i.created then Refused(db, ConstraintFailed)
        else Done(inserted.db.(invitations :=
                    db.invitations[key := i.(state := Accepted, acceptedBy := Some(u.id), resolved := Some(now))]))
  }

  function RevokeInvitation(db: Db, actor: Id, key: Id, now: int): Outcome {
    if !ValidTime(now) then Refused(db, InvalidInput)
    else if !ActiveAdmin(db, actor) then Refused(db, Forbidden)
    else if key !in db.invitations then Refused(db, NotFound)
    else if db.invitations[key].state != Pending then Refused(db, Inactive)
    else if now < db.invitations[key].created then Refused(db, ConstraintFailed)
    else Done(db.(invitations := db.invitations[key := db.invitations[key].(state := Revoked, resolved := Some(now))]))
  }

  // ----- reset tickets -----

  predicate PendingFor(t: Ticket, user: Id) {
    t.state == Pending && t.user == user
  }

  /** Resolves every pending ticket of a user, except one. */
  function CloseTickets(db: Db, user: Id, except: Option<Id>, now: int): Db {
    db.(tickets := map k | k in db.tickets ::
          if PendingFor(db.tickets[k], user) && Some(k) != except
          then db.tickets[k].(state := if except.None? && db.tickets[k].expires <= now then Expired else Revoked,
                              resolved := Some(now))
          else db.tickets[k])
  }

  predicate PendingFromFuture(db: Db, user: Id, now: int) {
    exists k :: k in db.tickets && PendingFor(db.tickets[k], user) && now < db.tickets[k].created
  }

  function CreateTicket(db: Db, actor: Id, target: Id, key: Id, expires: int, now: int): Outcome {
    if !ValidExpiry(now, expires, MAX_RESET_LIFETIME) then Refused(db, InvalidInput)
    else if !ActiveAdmin(db, actor) then Refused(db, Forbidden)
    else if target !in db.users then Refused(db, NotFound)
    else if !db.users[target].active then Refused(db, Forbidden)
    else if PendingFromFuture(db, target, now) then Refused(db, ConstraintFailed)
    else if key in db.tickets then Refused(db, Conflict)
    else
      var closed := CloseTickets(db, target, None, now);
      Done(closed.(tickets := closed.tickets[key := Ticket(target, Pending, actor, now, expires, None)]))
  }

  function RevokeTicket(db: Db, actor: Id, key: Id, now: int): Outcome {
    if !ValidTime(now) then Refused(db, InvalidInput)
    else if !ActiveAdmin(db, actor) then Refused(db, Forbidden)
    else if key !in db.tickets then Refused(db, NotFound)
    else if db.tickets[key].state != Pending then Refused(db, Inactive)
    else if now < db.tickets[key].created then Refused(db, ConstraintFailed)
    else Done(db.(tickets := db.tickets[key := db.tickets[key].(state := Revoked, resolved := Some(now))]))
  }

  predicate Matches(db: Db, e: Expected) {
    e.id in db.recoveries
    && db.recoveries[e.id].active && db.recoveries[e.id].user == e.user
    && db.recoveries[e.id].envelope == e.envelope && db.recoveries[e.id].created == e.created
  }

  /** Revokes the expected envelope and installs its replacement. */
  function SwapRecovery(db: Db, e: Expected, id: Id, envelope: string, now: int): Outcome {
    if !Matches(db, e) then Refused(db, RecoveryConflict)
    else if id in db.recoveries then Refused(db, Conflict)
    else
      var revoked := db.(recoveries := db.recoveries[e.id := db.recoveries[e.id].(active := false, revoked := Some(now))]);
      if HasActiveRecovery(revoked, e.user) then Refused(db, Conflict)
      else Done(revoked.(recoveries := revoked.recoveries[id := Recovery(e.user, envelope, true, now, None)]))
  }

  function ReplacementIsNew(e: Expected, id: Id, envelope: string, now: int): bool {
    ValidTime(now) && id != e.id && envelope != e.envelope && e.created <= now
  }

  function CompleteReset(db: Db, key: Id, e: Expected, password: string, id: Id, envelope: string, now: int): Outcome {
    if !ReplacementIsNew(e, id, envelope, now) then Refused(db, InvalidInput)
    else if key !in db.tickets then Refused(db, NotFound)
    else
      var t := db.tickets[key];
      if t.state != Pending then Refused(db, Inactive)
      else if t.expires <= now then
        if now < t.created then Refused(db, ConstraintFailed)
        else Outcome(db.(tickets := db.tickets[key := t.(state := Expired, resolved := Some(now))]), Some(HasExpired))
      else if t.user != e.user then Refused(db, RecoveryConflict)
      else if !ActiveUser(db, t.user) then Refused(db, Forbidden)
      else if t.user !in db.passwords || db.passwords[t.user].updated >= now then Refused(db, CredentialConflict)
      else
        var swapped := SwapRecovery(db, e, id, envelope, now);
        if swapped.error.Some? then Refused(db, swapped.error.value)
        else if PendingFromFuture(db, t.user, now) then Refused(db, ConstraintFailed)
        else
          var consumed := swapped.db.(
            passwords := db.passwords[t.user := db.passwords[t.user].(envelope := password, updated := now)],
            tickets := db.tickets[key := t.(state := Consumed, resolved := Some(now))]);
          Done(TouchUser(CloseTickets(consumed, t.user, Some(key), now), t.user, now))
  }

  // ----- credentials -----

  predicate NamesRevision(db: Db, user: Id, envelope: string, revision: int) {
    user in db.passwords && db.passwords[user].envelope == envelope && db.passwords[user].updated == revision
  }

  function RecordLogin(db: Db, user: Id, envelope: string, revision: int, now: int): Outcome {
    if !ValidTime(now) then Refused(db, InvalidInput)
    else if now < revision then Refused(db, CredentialConflict)
    else if !ActiveUser(db, user) then Refused(db, Forbidden)
    else if !NamesRevision(db, user, envelope, revision) then Refused(db, CredentialConflict)
    else
      var u := db.users[user];
      if now < u.created then Refused(db, InvalidInput)
      else Done(db.(users := db.users[user :=
                  u.(lastLogin := if u.lastLogin.None? || u.lastLogin.value < now then Some(now) else u.lastLogin)]))
  }

  function ReplacePassword(db: Db, user: Id, envelope: string, revision: int, replacement: string, now: int): Outcome {
    if !ValidTime(now) || envelope == replacement then Refused(db, InvalidInput)
    else if now <= revision then Refused(db, CredentialConflict)
    else if !ActiveUser(db, user) then Refused(db, Forbidden)
    else if !NamesRevision(db, user, envelope, revision) then Refused(db, CredentialConflict)
    else Done(TouchUser(db.(passwords :=
                db.passwords[user := db.passwords[user].(envelope := replacement, updated := now)]), user, now))
  }

  function RotateRecovery(db: Db, e: Expected, id: Id, envelope: string, now: int): Outcome {
    if !ReplacementIsNew(e, id, envelope, now) then Refused(db, RecoveryConflict)
    else if !ActiveUser(db, e.user) then Refused(db, Forbidden)
    else
      var swapped := SwapRecovery(db, e, id, envelope, now);
      if swapped.error.Some? then swapped else Done(TouchUser(swapped.db, e.user, now))
  }

  // ----- runs -----

  datatype Op =
    | BootstrapOp(u: NewUser)
    | DisableOp(actor: Id, target: Id)
    | EnableOp(actor: Id, target: Id)
    | RoleOp(actor: Id, target: Id, role: Role)
    | InviteOp(actor: Id, key: Id, email: string, role: Role, expires: int)
    | AcceptOp(key: Id, u: NewUser)
    | RevokeInvitationOp(actor: Id, key: Id)
    | TicketOp(actor: Id, target: Id, key: Id, expires: int)
    | RevokeTicketOp(actor: Id, key: Id)
    | ResetOp(key: Id, e: Expected, password: string, id: Id, envelope: string)
    | LoginOp(user: Id, envelope: string, revision: int)
    | ReplaceOp(user: Id, envelope: string, revision: int, replacement: string)
    | RotateOp(e: Expected, id: Id, envelope: string)

  function Run(db: Db, op: Op, now: int): Outcome {
    match op
    case BootstrapOp(u) => Bootstrap(db, u, now)
    case DisableOp(actor, target) => DisableUser(db, actor, target, now)
    case EnableOp(actor, target) => EnableUser(db, actor, target, now)
    case RoleOp(actor, target, role) => SetUserRole(db, actor, target, role, now)
    case InviteOp(actor, key, email, role, expires) => CreateInvitation(db, actor, key, email, role, expires, now)
    case AcceptOp(key, u) => AcceptInvitation(db, key, u, now)
    case RevokeInvitationOp(actor, key) => RevokeInvitation(db, actor, key, now)
    case TicketOp(actor, target, key, expires) => CreateTicket(db, actor, target, key, expires, now)
    case RevokeTicketOp(actor, key) => RevokeTicket(db, actor, key, now)
    case ResetOp(key, e, password, id, envelope) => CompleteReset(db, key, e, password, id, envelope, now)
    case LoginOp(user, envelope, revision) => RecordLogin(db, user, envelope, revision, now)
    case ReplaceOp(user, envelope, revision, replacement) => ReplacePassword(db, user, envelope, revision, replacement, now)
    case RotateOp(e, id, envelope) => RotateRecovery(db, e, id, envelope, now)
  }

  // ----- what every reachable state keeps -----

  ghost predicate HasAdmin(db: Db) {
    db.users != map[] ==> exists id :: ActiveAdmin(db, id)
  }

  ghost predicate InvitationsBacked(db: Db) {
    forall k :: k in db.invitations && db.invitations[k].state == Pending ==> ActiveAdmin(db, db.invitations[k].createdBy)
  }

  ghost predicate TicketsBacked(db: Db) {
    forall k :: k in db.tickets && db.tickets[k].state == Pending ==>
      ActiveAdmin(db, db.tickets[k].createdBy) && ActiveUser(db, db.tickets[k].user)
  }

  predicate BothPending(db: Db, a: Id, b: Id) {
    a in db.tickets && b in db.tickets && db.tickets[a].state == Pending && db.tickets[b].state == Pending
  }

  predicate BothActive(db: Db, a: Id, b: Id) {
    a in db.recoveries && b in db.recoveries && db.recoveries[a].active && db.recoveries[b].active
  }

  ghost predicate OneTicketEach(db: Db) {
    forall a, b :: BothPending(db, a, b) && db.tickets[a].user == db.tickets[b].user ==> a == b
  }

  /** Pending capabilities are backed by people who may hold them. */
  ghost predicate Authorized(db: Db) {
    HasAdmin(db) && InvitationsBacked(db) && TicketsBacked(db) && OneTicketEach(db)
  }

  ghost predicate OneActiveRecovery(db: Db) {
    forall a, b :: BothActive(db, a, b) && db.recoveries[a].user == db.recoveries[b].user ==> a == b
  }

  /** Every user has exactly one active recovery envelope and one password. */
  ghost predicate Recoverable(db: Db) {
    && db.passwords.Keys == db.users.Keys
    && (forall r :: r in db.recoveries ==> db.recoveries[r].user in db.users)
    && (forall id :: id in db.users ==> HasActiveRecovery(db, id))
    && OneActiveRecovery(db)
  }

  ghost predicate Safe(db: Db) {
    Authorized(db) && Recoverable(db)
  }

  // ----- authorization -----

  /** Nobody loses standing. */
  ghost predicate UsersGrow(users: map<Id, User>, after: map<Id, User>) {
    forall id :: id in users && users[id].active ==>
      id in after && after[id].active && (users[id].role == Admin ==> after[id].role == Admin)
  }

  ghost predicate InvitationsClose(invitations: map<Id, Invitation>, after: map<Id, Invitation>) {
    forall k :: k in after && after[k].state == Pending ==> k in invitations && invitations[k] == after[k]
  }

  ghost predicate TicketsClose(tickets: map<Id, Ticket>, after: map<Id, Ticket>) {
    forall k :: k in after && after[k].state == Pending ==> k in tickets && tickets[k] == after[k]
  }

  /** Nobody loses standing and nothing becomes pending. */
  ghost predicate OnlyGrows(db: Db, after: Db) {
    && UsersGrow(db.users, after.users)
    && InvitationsClose(db.invitations, after.invitations)
    && TicketsClose(db.tickets, after.tickets)
  }

  lemma {:induction false} NothingGrows(db: Db)
    ensures OnlyGrows(db, db)
  {
  }

  lemma {:induction false} OneUserGrows(users: map<Id, User>, id: Id, user: User)
    requires id !in users || ((users[id].active ==> user.active) && (users[id].role == Admin ==> user.role == Admin))
    ensures UsersGrow(users, users[id := user])
  {
  }

  lemma {:induction false} OneInvitationCloses(invitations: map<Id, Invitation>, key: Id, i: Invitation)
    requires i.state != Pending
    ensures InvitationsClose(invitations, invitations[key := i])
  {
  }

  lemma {:induction false} OneTicketCloses(tickets: map<Id, Ticket>, key: Id, t: Ticket)
    requires t.state != Pending
    ensures TicketsClose(tickets, tickets[key := t])
  {
  }

  lemma {:induction false} GrowingKeepsAuthorized(db: Db, after: Db)
    requires Authorized(db) && OnlyGrows(db, after) && db.users != map[]
    ensures Authorized(after)
  {
    var admin :| ActiveAdmin(db, admin);
    assert UsersGrow(db.users, after.users);
    assert InvitationsClose(db.invitations, after.invitations) && TicketsClose(db.tickets, after.tickets);
    assert forall id :: ActiveAdmin(db, id) ==> ActiveAdmin(after, id);
    assert forall a, b :: BothPending(after, a, b) ==> BothPending(db, a, b);
  }

  lemma {:induction false} PendingHasAdmin(db: Db, id: Id)
    requires ActiveUser(db, id)
    ensures db.users != map[]
  {
    assert id in db.users.Keys;
  }

  /** Whatever becomes of a user whose capabilities are revoked, the rest stays backed. */
  lemma {:induction false} RevokingKeepsAuthorized(db: Db, target: Id, user: User, now: int, other: Id)
    requires Authorized(db) && other != target && ActiveAdmin(db, other)
    ensures Authorized(RevokePending(db.(users := db.users[target := user]), target, now))
  {
    var after := RevokePending(db.(users := db.users[target := user]), target, now);
    assert ActiveAdmin(after, other);
    forall k | k in after.invitations && after.invitations[k].state == Pending
      ensures ActiveAdmin(after, after.invitations[k].createdBy)
    {
      assert after.invitations[k] == db.invitations[k];
    }
    forall k | k in after.tickets && after.tickets[k].state == Pending
      ensures after.tickets[k] == db.tickets[k]
      ensures ActiveAdmin(after, after.tickets[k].createdBy) && ActiveUser(after, after.tickets[k].user)
    {
      assert after.tickets[k] == db.tickets[k];
    }
  }

  lemma {:induction false} BootstrapAuthorized(db: Db, u: NewUser, now: int)
    requires Authorized(db)
    ensures Authorized(Bootstrap(db, u, now).db)
  {
    var after := Bootstrap(db, u, now).db;
    if after != db {
      assert forall id :: !ActiveUser(db, id);
      assert ActiveAdmin(after, u.id);
    }
  }

  lemma {:induction false} DisableAuthorized(db: Db, actor: Id, target: Id, now: int)
    requires Authorized(db)
    ensures Authorized(DisableUser(db, actor, target, now).db)
  {
    var r := DisableUser(db, actor, target, now);
    if r.error.None? {
      var user := db.users[target];
      assert db.users[target := user] == db.users;
      RevokingKeepsAuthorized(db, target, user, now, actor);
      RevokingKeepsAuthorized(db, target, user.(active := false, updated := now), now, actor);
    }
  }

  lemma {:induction false} RoleAuthorized(db: Db, actor: Id, target: Id, role: Role, now: int)
    requires Authorized(db)
    ensures Authorized(SetUserRole(db, actor, target, role, now).db)
  {
    var r := SetUserRole(db, actor, target, role, now);
    if r.error.None? && db.users[target].role != role {
      var user := db.users[target];
      if user.role == Admin {
        var other := actor;
        if user.active {
          other :| other in db.users && other != target && ActiveAdmin(db, other);
        }
        RevokingKeepsAuthorized(db, target, user.(role := role, updated := now), now, other);
      } else {
        PendingHasAdmin(db, actor);
        NothingGrows(db);
        OneUserGrows(db.users, target, user.(role := role, updated := now));
        GrowingKeepsAuthorized(db, r.db);
      }
    }
  }

  lemma {:induction false} EnableAuthorized(db: Db, actor: Id, target: Id, now: int)
    requires Authorized(db)
    ensures Authorized(EnableUser(db, actor, target, now).db)
  {
    if EnableUser(db, actor, target, now).error.None? {
      PendingHasAdmin(db, actor);
      NothingGrows(db);
      OneUserGrows(db.users, target, db.users[target].(active := true, updated := now));
      GrowingKeepsAuthorized(db, EnableUser(db, actor, target, now).db);
    }
  }

  lemma {:induction false} NewInvitationAuthorized(db: Db, key: Id, i: Invitation)
    requires Authorized(db) && ActiveAdmin(db, i.createdBy)
    ensures Authorized(db.(invitations := db.invitations[key := i]))
  {
    var after := db.(invitations := db.invitations[key := i]);
    assert forall id :: ActiveAdmin(db, id) ==> ActiveAdmin(after, id);
    assert forall a, b :: BothPending(after, a, b) ==> BothPending(db, a, b);
  }

  lemma {:induction false} ExpiringGrows(db: Db, email: string, now: int)
    ensures OnlyGrows(db, ExpireInvitations(db, email, now))
  {
    NothingGrows(db);
    assert InvitationsClose(db.invitations, ExpireInvitations(db, email, now).invitations);
  }

  lemma {:induction false} InviteAuthorized(db: Db, actor: Id, key: Id, email: string, role: Role, expires: int, now: int)
    requires Authorized(db)
    ensures Authorized(CreateInvitation(db, actor, key, email, role, expires, now).db)
  {
    if CreateInvitation(db, actor, key, email, role, expires, now).error.None? {
      PendingHasAdmin(db, actor);
      ExpiringGrows(db, email, now);
      GrowingKeepsAuthorized(db, ExpireInvitations(db, email, now));
      NewInvitationAuthorized(ExpireInvitations(db, email, now), key,
                              Invitation(email, role, Pending, actor, None, now, expires, None));
    }
  }

  lemma {:induction false} AcceptGrows(db: Db, key: Id, u: NewUser, now: int)
    ensures OnlyGrows(db, AcceptInvitation(db, key, u, now).db)
  {
    NothingGrows(db);
    if key in db.invitations {
      var i := db.invitations[key];
      OneInvitationCloses(db.invitations, key, i.(state := Expired, resolved := Some(now)));
      OneInvitationCloses(db.invitations, key, i.(state := Accepted, acceptedBy := Some(u.id), resolved := Some(now)));
      if u.id !in db.users {
        OneUserGrows(db.users, u.id, User(u.email, u.vault, i.role, true, now, now, None));
      }
    }
  }

  lemma {:induction false} AcceptAuthorized(db: Db, key: Id, u: NewUser, now: int)
    requires Authorized(db)
    ensures Authorized(AcceptInvitation(db, key, u, now).db)
  {
    var r := AcceptInvitation(db, key, u, now);
    if r.error.None? || r.error == Some(HasExpired) {
      assert InvitationsBacked(db);
      PendingHasAdmin(db, db.invitations[key].createdBy);
      AcceptGrows(db, key, u, now);
      GrowingKeepsAuthorized(db, r.db);
    }
  }

  lemma {:induction false} RevokeInvitationAuthorized(db: Db, actor: Id, key: Id, now: int)
    requires Authorized(db)
    ensures Authorized(RevokeInvitation(db, actor, key, now).db)
  {
    if RevokeInvitation(db, actor, key, now).error.None? {
      PendingHasAdmin(db, actor);
      NothingGrows(db);
      OneInvitationCloses(db.invitations, key, db.invitations[key].(state := Revoked, resolved := Some(now)));
      GrowingKeepsAuthorized(db, RevokeInvitation(db, actor, key, now).db);
    }
  }

  lemma {:induction false} ClosedTickets(db: Db, target: Id, now: int)
    ensures var closed := CloseTickets(db, target, None, now);
            && OnlyGrows(db, closed)
            && forall k :: k in closed.tickets && closed.tickets[k].state == Pending ==> closed.tickets[k].user != target
  {
    NothingGrows(db);
    assert TicketsClose(db.tickets, CloseTickets(db, target, None, now).tickets);
  }

  lemma {:induction false} NewTicketAuthorized(db: Db, key: Id, t: Ticket)
    requires Authorized(db) && ActiveAdmin(db, t.createdBy) && ActiveUser(db, t.user)
    requires forall k :: k in db.tickets && db.tickets[k].state == Pending ==> db.tickets[k].user != t.user
    ensures Authorized(db.(tickets := db.tickets[key := t]))
  {
    var after := db.(tickets := db.tickets[key := t]);
    assert forall id :: ActiveAdmin(db, id) ==> ActiveAdmin(after, id);
    forall a, b | BothPending(after, a, b) && after.tickets[a].user == after.tickets[b].user ensures a == b {
      assert a != key && b != key ==> BothPending(db, a, b);
    }
  }

  lemma {:induction false} TicketAuthorized(db: Db, actor: Id, target: Id, key: Id, expires: int, now: int)
    requires Authorized(db)
    ensures Authorized(CreateTicket(db, actor, target, key, expires, now).db)
  {
    if CreateTicket(db, actor, target, key, expires, now).error.None? {
      PendingHasAdmin(db, actor);
      ClosedTickets(db, target, now);
      GrowingKeepsAuthorized(db, CloseTickets(db, target, None, now));
      NewTicketAuthorized(CloseTickets(db, target, None, now), key, Ticket(target, Pending, actor, now, expires, None));
    }
  }

  lemma {:induction false} RevokeTicketAuthorized(db: Db, actor: Id, key: Id, now: int)
    requires Authorized(db)
    ensures Authorized(RevokeTicket(db, actor, key, now).db)
  {
    if RevokeTicket(db, actor, key, now).error.None? {
      PendingHasAdmin(db, actor);
      NothingGrows(db);
      OneTicketCloses(db.tickets, key, db.tickets[key].(state := Revoked, resolved := Some(now)));
      GrowingKeepsAuthorized(db, RevokeTicket(db, actor, key, now).db);
    }
  }

  lemma {:induction false} ResetGrows(db: Db, key: Id, e: Expected, password: string, id: Id, envelope: string, now: int)
    ensures OnlyGrows(db, CompleteReset(db, key, e, password, id, envelope, now).db)
  {
    NothingGrows(db);
    if key in db.tickets {
      var t := db.tickets[key];
      OneTicketCloses(db.tickets, key, t.(state := Expired, resolved := Some(now)));
      ResetCloses(db, t.(state := Consumed, resolved := Some(now)), key, now);
      if t.user in db.users {
        OneUserGrows(db.users, t.user, db.users[t.user].(updated := Later(db.users[t.user].updated, now)));
      }
    }
  }

  lemma {:induction false} ResetCloses(db: Db, t: Ticket, key: Id, now: int)
    requires t.state != Pending
    ensures forall d: Db {:trigger CloseTickets(d, t.user, Some(key), now)} ::
              d.tickets == db.tickets[key := t] ==>
              TicketsClose(db.tickets, CloseTickets(d, t.user, Some(key), now).tickets)
  {
  }

  lemma {:induction false} ResetAuthorized(db: Db, key: Id, e: Expected, password: string, id: Id, envelope: string, now: int)
    requires Authorized(db)
    ensures Authorized(CompleteReset(db, key, e, password, id, envelope, now).db)
  {
    var r := CompleteReset(db, key, e, password, id, envelope, now);
    if r.error.None? || r.error == Some(HasExpired) {
      assert TicketsBacked(db);
      PendingHasAdmin(db, db.tickets[key].createdBy);
      ResetGrows(db, key, e, password, id, envelope, now);
      GrowingKeepsAuthorized(db, r.db);
    }
  }

  /** Credentials play no part in standing. */
  lemma {:induction false} SameStanding(db: Db, after: Db, user: Id)
    requires Authorized(db) && ActiveUser(db, user)
    requires after.invitations == db.invitations && after.tickets == db.tickets
    requires user in after.users && after.users == db.users[user := after.users[user]]
    requires after.users[user].active == db.users[user].active && after.users[user].role == db.users[user].role
    ensures Authorized(after)
  {
    PendingHasAdmin(db, user);
    NothingGrows(db);
    OneUserGrows(db.users, user, after.users[user]);
    GrowingKeepsAuthorized(db, after);
  }

  lemma {:induction false} LoginAuthorized(db: Db, user: Id, envelope: string, revision: int, now: int)
    requires Authorized(db)
    ensures Authorized(RecordLogin(db, user, envelope, revision, now).db)
  {
    if RecordLogin(db, user, envelope, revision, now).error.None? {
      SameStanding(db, RecordLogin(db, user, envelope, revision, now).db, user);
    }
  }

  lemma {:induction false} ReplaceAuthorized(db: Db, user: Id, envelope: string, revision: int, replacement: string, now: int)
    requires Authorized(db)
    ensures Authorized(ReplacePassword(db, user, envelope, revision, replacement, now).db)
  {
    if ReplacePassword(db, user, envelope, revision, replacement, now).error.None? {
      SameStanding(db, ReplacePassword(db, user, envelope, revision, replacement, now).db, user);
    }
  }

  lemma {:induction false} RotateAuthorized(db: Db, e: Expected, id: Id, envelope: string, now: int)
    requires Authorized(db)
    ensures Authorized(RotateRecovery(db, e, id, envelope, now).db)
  {
    if RotateRecovery(db, e, id, envelope, now).error.None? {
      SameStanding(db, RotateRecovery(db, e, id, envelope, now).db, e.user);
    }
  }

  lemma {:induction false} RunAuthorized(db: Db, op: Op, now: int)
    requires Authorized(db)
    ensures Authorized(Run(db, op, now).db)
  {
    match op
    case BootstrapOp(u) => BootstrapAuthorized(db, u, now);
    case DisableOp(actor, target) => DisableAuthorized(db, actor, target, now);
    case EnableOp(actor, target) => EnableAuthorized(db, actor, target, now);
    case RoleOp(actor, target, role) => RoleAuthorized(db, actor, target, role, now);
    case InviteOp(actor, key, email, role, expires) => InviteAuthorized(db, actor, key, email, role, expires, now);
    case AcceptOp(key, u) => AcceptAuthorized(db, key, u, now);
    case RevokeInvitationOp(actor, key) => RevokeInvitationAuthorized(db, actor, key, now);
    case TicketOp(actor, target, key, expires) => TicketAuthorized(db, actor, target, key, expires, now);
    case RevokeTicketOp(actor, key) => RevokeTicketAuthorized(db, actor, key, now);
    case ResetOp(key, e, password, id, envelope) => ResetAuthorized(db, key, e, password, id, envelope, now);
    case LoginOp(user, envelope, revision) => LoginAuthorized(db, user, envelope, revision, now);
    case ReplaceOp(user, envelope, revision, replacement) =>
      ReplaceAuthorized(db, user, envelope, revision, replacement, now);
    case RotateOp(e, id, envelope) => RotateAuthorized(db, e, id, envelope, now);
  }

  // ----- recovery -----

  lemma {:induction false} SameRecoveries(db: Db, after: Db)
    requires Recoverable(db) && after.recoveries == db.recoveries
    requires after.users.Keys == db.users.Keys == after.passwords.Keys
    ensures Recoverable(after)
  {
    assert forall a, b :: BothActive(after, a, b) ==> BothActive(db, a, b);
    forall id | id in after.users ensures HasActiveRecovery(after, id) {
      assert id in db.users.Keys;
      assert HasActiveRecovery(db, id);
    }
    forall r | r in after.recoveries ensures after.recoveries[r].user in after.users {
      assert after.recoveries[r].user in db.users.Keys;
    }
  }

  lemma {:induction false} InsertRecoverable(db: Db, u: NewUser, role: Role, now: int)
    requires Recoverable(db)
    ensures Recoverable(InsertUser(db, u, role, now).db)
  {
    var after := InsertUser(db, u, role, now).db;
    if InsertUser(db, u, role, now).error.None? {
      assert after.recoveries[u.recoveryId].active;
      forall id | id in after.users ensures HasActiveRecovery(after, id) {
        if id != u.id {
          var r :| r in db.recoveries && db.recoveries[r].active && db.recoveries[r].user == id;
          assert after.recoveries[r] == db.recoveries[r];
        }
      }
      forall a, b | BothActive(after, a, b) && after.recoveries[a].user == after.recoveries[b].user ensures a == b {
        assert a != u.recoveryId && b != u.recoveryId ==> BothActive(db, a, b);
      }
    }
  }

  lemma {:induction false} SwapRecoverable(db: Db, e: Expected, id: Id, envelope: string, now: int)
    requires Recoverable(db)
    ensures Recoverable(SwapRecovery(db, e, id, envelope, now).db)
    ensures var after := SwapRecovery(db, e, id, envelope, now).db; after.users == db.users && after.passwords == db.passwords
  {
    var after := SwapRecovery(db, e, id, envelope, now).db;
    if SwapRecovery(db, e, id, envelope, now).error.None? {
      assert after.recoveries[id].active;
      forall u | u in after.users ensures HasActiveRecovery(after, u) {
        if u != e.user {
          var r :| r in db.recoveries && db.recoveries[r].active && db.recoveries[r].user == u;
          assert after.recoveries[r] == db.recoveries[r];
        }
      }
      forall a, b | BothActive(after, a, b) && after.recoveries[a].user == after.recoveries[b].user ensures a == b {
        if a != id { OldActive(db, e, id, envelope, now, a); }
        if b != id { OldActive(db, e, id, envelope, now, b); }
        assert a != id && b != id ==> BothActive(db, a, b);
      }
    }
  }

  /** After a swap, an active envelope other than the new one was active before and is another user's. */
  lemma {:induction false} OldActive(db: Db, e: Expected, id: Id, envelope: string, now: int, a: Id)
    requires Recoverable(db) && SwapRecovery(db, e, id, envelope, now).error.None?
    requires a in SwapRecovery(db, e, id, envelope, now).db.recoveries && a != id
    requires SwapRecovery(db, e, id, envelope, now).db.recoveries[a].active
    ensures a in db.recoveries && db.recoveries[a] == SwapRecovery(db, e, id, envelope, now).db.recoveries[a]
    ensures db.recoveries[a].user != e.user
  {
    assert a != e.id;
    assert db.recoveries[a].user == e.user ==> BothActive(db, a, e.id);
  }

  lemma {:induction false} RunRecoverable(db: Db, op: Op, now: int)
    requires Recoverable(db)
    ensures Recoverable(Run(db, op, now).db)
  {
    var after := Run(db, op, now).db;
    if op.BootstrapOp? {
      InsertRecoverable(db, op.u, Admin, now);
    } else if op.AcceptOp? {
      AcceptRecoverable(db, op.key, op.u, now);
    } else if op.ResetOp? {
      ResetRecoverable(db, op.key, op.e, op.password, op.id, op.envelope, now);
    } else if op.RotateOp? {
      RotateRecoverable(db, op.e, op.id, op.envelope, now);
    } else if op.ReplaceOp? {
      ReplaceKeepsKeys(db, op.user, op.envelope, op.revision, op.replacement, now);
      SameRecoveries(db, after);
    } else {
      OthersKeepPasswords(db, op, now);
      OthersKeepUsers(db, op, now);
      SameRecoveries(db, after);
    }
  }

  lemma {:induction false} ReplaceKeepsKeys(db: Db, user: Id, envelope: string, revision: int, replacement: string, now: int)
    requires Recoverable(db)
    ensures var after := ReplacePassword(db, user, envelope, revision, replacement, now).db;
            after.recoveries == db.recoveries && after.users.Keys == db.users.Keys == after.passwords.Keys
  {
    var r := ReplacePassword(db, user, envelope, revision, replacement, now);
    if r.error.None? {
      assert db.users.Keys + {user} == db.users.Keys;
      assert db.passwords.Keys + {user} == db.passwords.Keys;
    }
  }

  lemma {:induction false} AcceptRecoverable(db: Db, key: Id, u: NewUser, now: int)
    requires Recoverable(db)
    ensures Recoverable(AcceptInvitation(db, key, u, now).db)
  {
    var r := AcceptInvitation(db, key, u, now);
    if r.error.None? {
      var inserted := InsertUser(db, u, db.invitations[key].role, now).db;
      InsertRecoverable(db, u, db.invitations[key].role, now);
      assert inserted.passwords.Keys == inserted.users.Keys;
      SameRecoveries(inserted, r.db);
    } else {
      assert db.passwords.Keys == db.users.Keys;
      SameRecoveries(db, r.db);
    }
  }

  lemma {:induction false} ResetRecoverable(db: Db, key: Id, e: Expected, password: string, id: Id, envelope: string, now: int)
    requires Recoverable(db)
    ensures Recoverable(CompleteReset(db, key, e, password, id, envelope, now).db)
  {
    var r := CompleteReset(db, key, e, password, id, envelope, now);
    assert db.passwords.Keys == db.users.Keys;
    if r.error.None? {
      SwapRecoverable(db, e, id, envelope, now);
      SameRecoveries(SwapRecovery(db, e, id, envelope, now).db, r.db);
    } else {
      SameRecoveries(db, r.db);
    }
  }

  lemma {:induction false} RotateRecoverable(db: Db, e: Expected, id: Id, envelope: string, now: int)
    requires Recoverable(db)
    ensures Recoverable(RotateRecovery(db, e, id, envelope, now).db)
  {
    var r := RotateRecovery(db, e, id, envelope, now);
    if r.error.None? {
      assert db.passwords.Keys == db.users.Keys;
      SwapRecoverable(db, e, id, envelope, now);
      SameRecoveries(SwapRecovery(db, e, id, envelope, now).db, r.db);
    }
  }

  // ----- runs -----

  const Empty := Db(map[], map[], map[], map[], map[])

  ghost predicate IsRun(dbs: seq<Db>, ops: seq<(Op, int)>) {
    && |dbs| == |ops| + 1
    && dbs[0] == Empty
    && forall k {:trigger ops[k]} :: 0 <= k < |ops| ==> dbs[k + 1] == Run(dbs[k], ops[k].0, ops[k].1).db
  }

  /** In every reachable state a bootstrapped database has an active administrator;
      every pending invitation and ticket was issued by a currently active one; every
      pending ticket is for an active user, who has no other; and every user has
      exactly one active recovery envelope. */
  lemma {:induction false} EveryStateSafe(dbs: seq<Db>, ops: seq<(Op, int)>, k: nat)
    requires IsRun(dbs, ops) && k < |dbs|
    ensures Safe(dbs[k])
  {
    if k > 0 {
      EveryStateSafe(dbs, ops, k - 1);
      RunAuthorized(dbs[k - 1], ops[k - 1].0, ops[k - 1].1);
      RunRecoverable(dbs[k - 1], ops[k - 1].0, ops[k - 1].1);
    }
  }

  /** A committed step keeps a password as it is or gives it a later revision. */
  ghost predicate RevisionKept(db: Db, after: Db, user: Id) {
    user !in db.passwords
    || (user in after.passwords
        && (after.passwords[user] == db.passwords[user] || after.passwords[user].updated > db.passwords[user].updated))
  }

  lemma {:induction false} RevisionKeptTwice(a: Db, b: Db, c: Db, user: Id)
    requires RevisionKept(a, b, user) && RevisionKept(b, c, user)
    ensures RevisionKept(a, c, user)
  {
  }

  lemma {:induction false} RunKeepsRevision(db: Db, op: Op, now: int, user: Id)
    ensures RevisionKept(db, Run(db, op, now).db, user)
  {
    match op
    case BootstrapOp(u) => InsertKeepsRevision(db, u, Admin, now, user);
    case AcceptOp(key, u) => AcceptKeepsRevision(db, key, u, now, user);
    case ResetOp(key, e, password, id, envelope) => ResetKeepsRevision(db, key, e, password, id, envelope, now, user);
    case ReplaceOp(who, envelope, revision, replacement) =>
    case RotateOp(e, id, envelope) =>
    case _ => OthersKeepPasswords(db, op, now);
  }

  lemma {:induction false} InsertKeepsRevision(db: Db, u: NewUser, role: Role, now: int, user: Id)
    ensures RevisionKept(db, InsertUser(db, u, role, now).db, user)
  {
  }

  lemma {:induction false} AcceptKeepsRevision(db: Db, key: Id, u: NewUser, now: int, user: Id)
    ensures RevisionKept(db, AcceptInvitation(db, key, u, now).db, user)
  {
    if key in db.invitations { InsertKeepsRevision(db, u, db.invitations[key].role, now, user); }
  }

  lemma {:induction false} ResetKeepsRevision(db: Db, key: Id, e: Expected, password: string, id: Id, envelope: string, now: int, user: Id)
    ensures RevisionKept(db, CompleteReset(db, key, e, password, id, envelope, now).db, user)
  {
  }

  predicate TouchesAccounts(op: Op) {
    op.BootstrapOp? || op.AcceptOp? || op.ResetOp? || op.ReplaceOp? || op.RotateOp?
  }

  lemma {:induction false} OthersKeepPasswords(db: Db, op: Op, now: int)
    requires !TouchesAccounts(op)
    ensures Run(db, op, now).db.passwords == db.passwords && Run(db, op, now).db.recoveries == db.recoveries
  {
  }

  lemma {:induction false} OthersKeepUsers(db: Db, op: Op, now: int)
    requires !TouchesAccounts(op)
    ensures Run(db, op, now).db.users.Keys == db.users.Keys
  {
    match op
    case DisableOp(actor, target) => assert target in db.users ==> db.users.Keys + {target} == db.users.Keys;
    case EnableOp(actor, target) => assert target in db.users ==> db.users.Keys + {target} == db.users.Keys;
    case RoleOp(actor, target, role) => assert target in db.users ==> db.users.Keys + {target} == db.users.Keys;
    case LoginOp(user, envelope, revision) => assert user in db.users ==> db.users.Keys + {user} == db.users.Keys;
    case _ =>
  }

  lemma {:induction false} StepKeepsRevision(dbs: seq<Db>, ops: seq<(Op, int)>, k: nat, user: Id)
    requires IsRun(dbs, ops) && k < |ops|
    ensures RevisionKept(dbs[k], dbs[k + 1], user)
  {
    RunKeepsRevision(dbs[k], ops[k].0, ops[k].1, user);
  }

  lemma {:induction false} RevisionsOnlyGrow(dbs: seq<Db>, ops: seq<(Op, int)>, i: nat, j: nat, user: Id)
    requires IsRun(dbs, ops) && i <= j < |dbs|
    ensures RevisionKept(dbs[i], dbs[j], user)
  {
    if i < j {
      RevisionsOnlyGrow(dbs, ops, i, j - 1, user);
      StepKeepsRevision(dbs, ops, j - 1, user);
      RevisionKeptTwice(dbs[i], dbs[j - 1], dbs[j], user);
    }
  }

  ghost predicate Names(op: Op, user: Id, envelope: string, revision: int) {
    (op.LoginOp? || op.ReplaceOp?) && op.user == user && op.envelope == envelope && op.revision == revision
  }

  /** Once a password has been replaced, no login or change that names the replaced
      credential ever commits again, however the clock moves. */
  lemma {:induction false} StaleCredentialNeverCommits(dbs: seq<Db>, ops: seq<(Op, int)>, i: nat, j: nat, k: nat, user: Id)
    requires IsRun(dbs, ops) && i <= j <= k < |ops| && user in dbs[i].passwords
    requires user in dbs[j].passwords && dbs[j].passwords[user] != dbs[i].passwords[user]
    requires Names(ops[k].0, user, dbs[i].passwords[user].envelope, dbs[i].passwords[user].updated)
    ensures dbs[k + 1] == dbs[k]
  {
    RevisionsOnlyGrow(dbs, ops, i, j, user);
    RevisionsOnlyGrow(dbs, ops, j, k, user);
    assert dbs[k].passwords[user].updated > dbs[i].passwords[user].updated;
  }
}
