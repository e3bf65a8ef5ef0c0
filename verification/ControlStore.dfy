/** The transactions of the control database that update several tables, as the code
    runs them, and what each one means for the accounts it touches. */
module ControlStore {
  import opened Options
  import opened ControlPlane

  // ----- what a transaction means -----

  /** Between the years 2000 and 9999, in milliseconds. */
  predicate InEra(now: int) {
    946_684_800_000 <= now < 253_402_300_800_000
  }

  predicate Administers(db: Db, id: Id) {
    id in db.users && db.users[id].active && db.users[id].role == Admin
  }

  function Latest(a: int, b: int): int {
    if a < b then b else a
  }

  /** Every pending invitation this user issued and every pending ticket by or for this user
      is revoked, no earlier than it was made; all other rows are as before. */
  ghost predicate RevokesExactly(before: Db, after: Db, user: Id, now: int) {
    && after.invitations.Keys == before.invitations.Keys && after.tickets.Keys == before.tickets.Keys
    && (forall k :: k in before.invitations ==> var i := before.invitations[k];
          after.invitations[k]
          == if i.state == Pending && i.createdBy == user then i.(state := Revoked, resolved := Some(Latest(i.created, now))) else i)
    && (forall k :: k in before.tickets ==> var t := before.tickets[k];
          after.tickets[k]
          == if t.state == Pending && (t.createdBy == user || t.user == user)
             then t.(state := Revoked, resolved := Some(Latest(t.created, now))) else t)
  }

  ghost predicate OnlyUserChanges(before: Db, after: Db, user: Id) {
    user in before.users && user in after.users && after.users == before.users[user := after.users[user]]
  }

  ghost predicate SecretsStay(before: Db, after: Db) {
    after.passwords == before.passwords && after.recoveries == before.recoveries
  }

  lemma {:induction false} RevokingMeans(db: Db, user: Id, now: int)
    ensures RevokesExactly(db, RevokePending(db, user, now), user, now)
  {
  }

  /** Who may disable whom; another administrator is always left, namely the actor. */
  predicate MayDisable(db: Db, actor: Id, target: Id, now: int) {
    && InEra(now) && actor != target && Administers(db, actor) && target in db.users
    && (db.users[target].active ==> db.users[target].created <= now)
  }

  ghost predicate Disables(before: Db, after: Db, error: Option<Error>, actor: Id, target: Id, now: int) {
    && (error.None? <==> MayDisable(before, actor, target, now))
    && error != Some(LastActiveAdmin)
    && (error.Some? ==> after == before)
    && (error.None? ==>
          && OnlyUserChanges(before, after, target) && !after.users[target].active
          && after.users[target]
             == (if before.users[target].active then before.users[target].(active := false, updated := now) else before.users[target])
          && RevokesExactly(before, after, target, now) && SecretsStay(before, after))
  }

  lemma {:induction false} DisableMeans(db: Db, actor: Id, target: Id, now: int)
    ensures var r := DisableUser(db, actor, target, now); Disables(db, r.db, r.error, actor, target, now)
  {
    if MayDisable(db, actor, target, now) {
      assert AnotherActiveAdmin(db, target);
      var user := db.users[target];
      var users := db.users[target := if user.active then user.(active := false, updated := now) else user];
      assert !user.active ==> users == db.users;
      RevokingMeans(db.(users := users), target, now);
      assert DisableUser(db, actor, target, now) == Done(RevokePending(db.(users := users), target, now));
    }
  }

  /** A role may change unless that takes the last active administrator away. */
  ghost predicate MaySetRole(db: Db, actor: Id, target: Id, role: Role, now: int) {
    && InEra(now) && Administers(db, actor) && target in db.users
    && (db.users[target].role != role ==>
          && db.users[target].created <= now
          && (Administers(db, target) ==> exists other :: other != target && Administers(db, other)))
  }

  ghost predicate SetsRole(before: Db, after: Db, error: Option<Error>, actor: Id, target: Id, role: Role, now: int) {
    && (error.None? <==> MaySetRole(before, actor, target, role, now))
    && (error.Some? ==> after == before)
    && (error.None? ==>
          && OnlyUserChanges(before, after, target) && after.users[target].role == role && SecretsStay(before, after)
          && after.users[target]
             == (if before.users[target].role == role then before.users[target] else before.users[target].(role := role, updated := now))
          && if before.users[target].role == Admin && role == Member then RevokesExactly(before, after, target, now)
             else after.invitations == before.invitations && after.tickets == before.tickets)
  }

  lemma {:induction false} SetRoleMeans(db: Db, actor: Id, target: Id, role: Role, now: int)
    ensures var r := SetUserRole(db, actor, target, role, now); SetsRole(db, r.db, r.error, actor, target, role, now)
  {
    AnotherExactly(db, target);
    if MaySetRole(db, actor, target, role, now) {
      var user := db.users[target];
      if user.role == role {
        assert db.users == db.users[target := user];
      } else {
        var changed := db.(users := db.users[target := user.(role := role, updated := now)]);
        RevokingMeans(changed, target, now);
        assert SetUserRole(db, actor, target, role, now) == Done(if user.role == Admin then RevokePending(changed, target, now) else changed);
      }
    }
  }

  lemma {:induction false} AnotherExactly(db: Db, target: Id)
    ensures AnotherActiveAdmin(db, target) <==> exists other :: other != target && Administers(db, other)
  {
    if other :| other != target && Administers(db, other) {
      assert ActiveAdmin(db, other);
    }
    if other :| other in db.users && other != target && ActiveAdmin(db, other) {
      assert Administers(db, other);
    }
  }

  /** An invitation that somebody could still accept. */
  predicate Standing(i: Invitation, email: string, now: int) {
    i.state == Pending && i.email == email && now < i.expires
  }

  /** An invitation of this address that waits although its time is over. */
  predicate RanOut(i: Invitation, email: string, now: int) {
    i.state == Pending && i.email == email && now >= i.expires
  }

  ghost predicate MayInvite(db: Db, actor: Id, key: Id, email: string, expires: int, now: int) {
    && InEra(now) && InEra(expires) && now < expires <= now + 604_800_000 && Administers(db, actor) && key !in db.invitations
    && (forall id :: id in db.users ==> db.users[id].email != email)
    && forall k :: k in db.invitations ==>
         !Standing(db.invitations[k], email, now) && (RanOut(db.invitations[k], email, now) ==> db.invitations[k].created <= now)
  }

  ghost predicate Invites(before: Db, after: Db, error: Option<Error>, actor: Id, key: Id, email: string, role: Role, expires: int,
                          now: int) {
    && (error.None? <==> MayInvite(before, actor, key, email, expires, now))
    && (error.Some? ==> after == before)
    && (error.None? ==>
          && after == before.(invitations := after.invitations) && after.invitations.Keys == before.invitations.Keys + {key}
          && after.invitations[key] == Invitation(email, role, Pending, actor, None, now, expires, None)
          && (forall k :: k in after.invitations && after.invitations[k].state == Pending && after.invitations[k].email == email
                ==> k == key)
          && (forall k :: k in before.invitations ==>
                after.invitations[k]
                == if RanOut(before.invitations[k], email, now) then before.invitations[k].(state := Expired, resolved := Some(now))
                   else before.invitations[k]))
  }

  lemma {:induction false} InviteMeans(db: Db, actor: Id, key: Id, email: string, role: Role, expires: int, now: int)
    ensures var r := CreateInvitation(db, actor, key, email, role, expires, now);
            Invites(db, r.db, r.error, actor, key, email, role, expires, now)
  {
    StandingIsInvited(db, email, now);
    RanOutFromFuture(db, email, now);
    if MayInvite(db, actor, key, email, expires, now) {
      ExpiringMeans(db, email, now);
    }
  }

  lemma {:induction false} RanOutFromFuture(db: Db, email: string, now: int)
    ensures StaleFromFuture(db, email, now)
            <==> exists k :: k in db.invitations && RanOut(db.invitations[k], email, now) && db.invitations[k].created > now
  {
    if k :| k in db.invitations && RanOut(db.invitations[k], email, now) && db.invitations[k].created > now {
      assert Stale(db.invitations[k], email, now);
    }
    if k :| k in db.invitations && Stale(db.invitations[k], email, now) && now < db.invitations[k].created {
      assert RanOut(db.invitations[k], email, now);
    }
  }

  lemma {:induction false} ExpiringMeans(db: Db, email: string, now: int)
    requires forall k :: k in db.invitations ==> !Standing(db.invitations[k], email, now)
    ensures var cleared := ExpireInvitations(db, email, now).invitations;
      && cleared.Keys == db.invitations.Keys
      && (forall k :: k in cleared ==> !(cleared[k].state == Pending && cleared[k].email == email))
      && (forall k :: k in cleared ==>
            cleared[k]
            == if RanOut(db.invitations[k], email, now) then db.invitations[k].(state := Expired, resolved := Some(now))
               else db.invitations[k])
  {
  }

  lemma {:induction false} StandingIsInvited(db: Db, email: string, now: int)
    ensures Invited(ExpireInvitations(db, email, now), email)
            <==> exists k :: k in db.invitations && Standing(db.invitations[k], email, now)
  {
    var cleared := ExpireInvitations(db, email, now);
    forall k | k in db.invitations
      ensures Standing(db.invitations[k], email, now) <==> cleared.invitations[k].state == Pending && cleared.invitations[k].email == email
    {
    }
    if k :| k in db.invitations && Standing(db.invitations[k], email, now) {
      assert cleared.invitations[k].state == Pending;
    }
  }

  ghost predicate Unused(db: Db, u: NewUser) {
    && u.id !in db.users && u.recoveryId !in db.recoveries
    && forall id :: id in db.users ==> db.users[id].email != u.email && db.users[id].vault != u.vault
  }

  ghost predicate MayAccept(db: Db, key: Id, u: NewUser, now: int) {
    && InEra(now) && key in db.invitations && Standing(db.invitations[key], u.email, now)
    && db.invitations[key].created <= now && Unused(db, u)
  }

  ghost predicate Joins(before: Db, after: Db, u: NewUser, role: Role, now: int) {
    && after.users == before.users[u.id := User(u.email, u.vault, role, true, now, now, None)]
    && after.passwords == before.passwords[u.id := Password(u.password, now, now)]
    && after.recoveries == before.recoveries[u.recoveryId := Recovery(u.id, u.recovery, true, now, None)]
    && after.tickets == before.tickets
  }

  /** The invitation is used up and its user exists, or neither. */
  ghost predicate Accepts(before: Db, after: Db, error: Option<Error>, key: Id, u: NewUser, now: int) {
    && (error.None? <==> MayAccept(before, key, u, now))
    && (error == Some(HasExpired) <==>
          && InEra(now) && key in before.invitations && before.invitations[key].state == Pending
          && before.invitations[key].created <= now && before.invitations[key].expires <= now)
    && (error == Some(HasExpired) ==>
          after == before.(invitations := before.invitations[key := before.invitations[key].(state := Expired, resolved := Some(now))]))
    && (error.Some? && error != Some(HasExpired) ==> after == before)
    && (error.None? ==>
          && Joins(before, after, u, before.invitations[key].role, now)
          && after.invitations == before.invitations[key := before.invitations[key].(
               state := Accepted, acceptedBy := Some(u.id), resolved := Some(now))])
  }

  lemma {:induction false} InsertMeans(db: Db, u: NewUser, role: Role, now: int)
    requires Safe(db)
    ensures InsertUser(db, u, role, now).error.None? <==> Unused(db, u)
  {
    assert db.passwords.Keys == db.users.Keys;
    assert HasActiveRecovery(db, u.id) ==> u.id in db.users;
  }

  lemma {:induction false} AcceptMeans(db: Db, key: Id, u: NewUser, now: int)
    requires Safe(db)
    ensures var r := AcceptInvitation(db, key, u, now); Accepts(db, r.db, r.error, key, u, now)
  {
    if key in db.invitations { InsertMeans(db, u, db.invitations[key].role, now); }
  }

  ghost predicate MayIssueTicket(db: Db, actor: Id, target: Id, key: Id, expires: int, now: int) {
    && InEra(now) && InEra(expires) && now < expires <= now + 3_600_000 && Administers(db, actor)
    && target in db.users && db.users[target].active && key !in db.tickets
    && forall k :: k in db.tickets && db.tickets[k].state == Pending && db.tickets[k].user == target ==> db.tickets[k].created <= now
  }

  /** The new ticket is its user's only pending one, and nobody else's ticket changes. */
  ghost predicate Issues(before: Db, after: Db, error: Option<Error>, actor: Id, target: Id, key: Id, expires: int, now: int) {
    && (error.None? <==> MayIssueTicket(before, actor, target, key, expires, now))
    && (error.Some? ==> after == before)
    && (error.None? ==>
          && after == before.(tickets := after.tickets) && after.tickets.Keys == before.tickets.Keys + {key}
          && after.tickets[key] == Ticket(target, Pending, actor, now, expires, None)
          && (forall k :: k in after.tickets && after.tickets[k].state == Pending && after.tickets[k].user == target ==> k == key)
          && (forall k :: k in before.tickets ==> var t := before.tickets[k];
                after.tickets[k]
                == if t.state == Pending && t.user == target
                   then t.(state := if t.expires <= now then Expired else Revoked, resolved := Some(now)) else t))
  }

  lemma {:induction false} IssueMeans(db: Db, actor: Id, target: Id, key: Id, expires: int, now: int)
    ensures var r := CreateTicket(db, actor, target, key, expires, now);
            Issues(db, r.db, r.error, actor, target, key, expires, now)
  {
  }

  /** The envelope is the user's active one, as the caller read it, and the replacement differs. */
  predicate MayReplace(db: Db, e: Expected, id: Id, envelope: string, now: int) {
    && InEra(now) && e.created <= now && e.id in db.recoveries
    && db.recoveries[e.id] == Recovery(e.user, e.envelope, true, e.created, db.recoveries[e.id].revoked)
    && id !in db.recoveries && envelope != e.envelope
  }

  predicate MayReset(db: Db, key: Id, e: Expected, id: Id, envelope: string, now: int) {
    && MayReplace(db, e, id, envelope, now)
    && key in db.tickets && db.tickets[key].state == Pending && db.tickets[key].user == e.user
    && db.tickets[key].created <= now < db.tickets[key].expires
    && e.user in db.passwords && db.passwords[e.user].updated < now
  }

  ghost predicate TicketUsedUp(before: Db, after: Db, key: Id, user: Id, now: int) {
    && key in before.tickets
    && after.tickets == before.tickets[key := before.tickets[key].(state := Consumed, resolved := Some(now))]
    && forall k :: k in after.tickets && after.tickets[k].state == Pending ==> after.tickets[k].user != user
  }

  /** The new envelope is the user's one active one and the expected one is revoked. */
  ghost predicate EnvelopeReplaced(before: Db, after: Db, e: Expected, id: Id, envelope: string, now: int) {
    && e.id in before.recoveries
    && after.recoveries == before.recoveries[e.id := before.recoveries[e.id].(active := false, revoked := Some(now))]
                                            [id := Recovery(e.user, envelope, true, now, None)]
    && forall r :: r in after.recoveries && after.recoveries[r].user == e.user ==> (after.recoveries[r].active <==> r == id)
  }

  ghost predicate UserTouched(before: Db, after: Db, user: Id, now: int) {
    user in before.users
    && after.users == before.users[user := before.users[user].(updated := Latest(before.users[user].updated, now))]
  }

  ghost predicate PasswordReplaced(before: Db, after: Db, user: Id, password: string, now: int) {
    && UserTouched(before, after, user, now) && after.invitations == before.invitations && user in before.passwords
    && after.passwords == before.passwords[user := before.passwords[user].(envelope := password, updated := now)]
  }

  /** Password, recovery envelope and ticket change together or not at all. */
  ghost predicate Resets(before: Db, after: Db, error: Option<Error>, key: Id, e: Expected, password: string, id: Id, envelope: string,
                         now: int) {
    && (error.None? <==> MayReset(before, key, e, id, envelope, now))
    && (error == Some(HasExpired) <==>
          && InEra(now) && id != e.id && envelope != e.envelope && e.created <= now && key in before.tickets
          && before.tickets[key].state == Pending && before.tickets[key].created <= now && before.tickets[key].expires <= now)
    && (error == Some(HasExpired) ==>
          after == before.(tickets := before.tickets[key := before.tickets[key].(state := Expired, resolved := Some(now))]))
    && (error.Some? && error != Some(HasExpired) ==> after == before)
    && (error.None? ==>
          && PasswordReplaced(before, after, e.user, password, now)
          && TicketUsedUp(before, after, key, e.user, now)
          && EnvelopeReplaced(before, after, e, id, envelope, now))
  }

  /** In a safe state a user has no pending ticket beside a given one. */
  lemma {:induction false} NoSiblings(db: Db, key: Id, now: int)
    requires Safe(db) && key in db.tickets && db.tickets[key].state == Pending
    ensures PendingFromFuture(db, db.tickets[key].user, now) <==> now < db.tickets[key].created
    ensures forall k :: k in db.tickets && PendingFor(db.tickets[k], db.tickets[key].user) ==> k == key
  {
    forall k | k in db.tickets && PendingFor(db.tickets[k], db.tickets[key].user) ensures k == key {
      assert BothPending(db, k, key);
    }
  }

  lemma {:induction false} OnlyOneActive(db: Db, e: Expected)
    requires Safe(db) && Matches(db, e)
    ensures forall r :: r in db.recoveries && db.recoveries[r].active && db.recoveries[r].user == e.user ==> r == e.id
  {
    forall r | r in db.recoveries && db.recoveries[r].active && db.recoveries[r].user == e.user ensures r == e.id {
      assert BothActive(db, r, e.id);
    }
  }

  lemma {:induction false} SwapMeans(db: Db, e: Expected, id: Id, envelope: string, now: int)
    requires Safe(db)
    ensures var r := SwapRecovery(db, e, id, envelope, now);
      && (r.error.None? <==> Matches(db, e) && id !in db.recoveries)
      && (r.error.None? ==> r.db == db.(recoveries := r.db.recoveries) && EnvelopeReplaced(db, r.db, e, id, envelope, now))
  {
    if Matches(db, e) {
      OnlyOneActive(db, e);
    }
  }

  /** With no sibling tickets, using one up is all that happens to the tickets. */
  lemma {:induction false} UsingUp(db: Db, after: Db, key: Id, now: int)
    requires Safe(db) && key in db.tickets && db.tickets[key].state == Pending
    requires after.tickets == db.tickets[key := db.tickets[key].(state := Consumed, resolved := Some(now))]
    ensures TicketUsedUp(db, CloseTickets(after, db.tickets[key].user, Some(key), now), key, db.tickets[key].user, now)
  {
    NoSiblings(db, key, now);
    assert CloseTickets(after, db.tickets[key].user, Some(key), now).tickets == after.tickets;
  }

  lemma {:induction false} ResetRefusals(db: Db, key: Id, e: Expected, password: string, id: Id, envelope: string, now: int)
    requires Safe(db)
    ensures CompleteReset(db, key, e, password, id, envelope, now).error.None? <==> MayReset(db, key, e, id, envelope, now)
  {
    SwapMeans(db, e, id, envelope, now);
    if key in db.tickets && db.tickets[key].state == Pending {
      NoSiblings(db, key, now);
      assert TicketsBacked(db) && ActiveUser(db, db.tickets[key].user);
    }
  }

  lemma {:induction false} ResetEffect(db: Db, key: Id, e: Expected, password: string, id: Id, envelope: string, now: int)
    requires Safe(db) && MayReset(db, key, e, id, envelope, now)
    ensures var after := CompleteReset(db, key, e, password, id, envelope, now).db;
      PasswordReplaced(db, after, e.user, password, now) && TicketUsedUp(db, after, key, e.user, now)
      && EnvelopeReplaced(db, after, e, id, envelope, now)
  {
    var r := CompleteReset(db, key, e, password, id, envelope, now);
    ResetRefusals(db, key, e, password, id, envelope, now);
    SwapMeans(db, e, id, envelope, now);
    var consumed := SwapRecovery(db, e, id, envelope, now).db.(
      passwords := db.passwords[e.user := db.passwords[e.user].(envelope := password, updated := now)],
      tickets := db.tickets[key := db.tickets[key].(state := Consumed, resolved := Some(now))]);
    var closed := CloseTickets(consumed, e.user, Some(key), now);
    assert r.db == TouchUser(closed, e.user, now);
    UsingUp(db, consumed, key, now);
    assert TicketsBacked(db) && e.user in db.users;
  }

  lemma {:induction false} ResetMeans(db: Db, key: Id, e: Expected, password: string, id: Id, envelope: string, now: int)
    requires Safe(db)
    ensures var r := CompleteReset(db, key, e, password, id, envelope, now);
            Resets(db, r.db, r.error, key, e, password, id, envelope, now)
  {
    ResetRefusals(db, key, e, password, id, envelope, now);
    if MayReset(db, key, e, id, envelope, now) {
      ResetEffect(db, key, e, password, id, envelope, now);
    }
  }

  // ----- the transactions on one table -----

  /** Everything but the users' table is as before. */
  predicate OnlyUsers(before: Db, after: Db) {
    after == before.(users := after.users)
  }

  lemma {:induction false} NobodyHasNoEnvelope(db: Db, id: Id)
    requires Safe(db) && db.users.Keys == {}
    ensures id !in db.recoveries
  {
  }

  lemma {:induction false} BootstrapMeans(db: Db, u: NewUser, now: int)
    requires Safe(db)
    ensures var r := Bootstrap(db, u, now);
      && (r.error.None? <==> InEra(now) && db.users == map[])
      && (r.error.None? ==> Joins(db, r.db, u, Admin, now) && r.db.invitations == db.invitations)
      && (r.error.Some? ==> r.db == db)
  {
    if db.users == map[] {
      InsertMeans(db, u, Admin, now);
      NobodyHasNoEnvelope(db, u.recoveryId);
    }
  }

  lemma {:induction false} EnableMeans(db: Db, actor: Id, target: Id, now: int)
    ensures var r := EnableUser(db, actor, target, now);
      && (r.error.None? <==> InEra(now) && Administers(db, actor) && target in db.users && db.users[target].created <= now)
      && (r.error.None? ==>
            && OnlyUsers(db, r.db) && OnlyUserChanges(db, r.db, target)
            && r.db.users[target] == db.users[target].(active := true, updated := now))
      && (r.error.Some? ==> r.db == db)
  {
  }

  lemma {:induction false} RevokeInvitationMeans(db: Db, actor: Id, key: Id, now: int)
    ensures var r := RevokeInvitation(db, actor, key, now);
      && (r.error.None? <==> InEra(now) && Administers(db, actor) && key in db.invitations
                             && db.invitations[key].state == Pending && db.invitations[key].created <= now)
      && (r.error.None? ==>
            && r.db == db.(invitations := r.db.invitations) && r.db.invitations.Keys == db.invitations.Keys
            && r.db.invitations[key] == db.invitations[key].(state := Revoked, resolved := Some(now))
            && forall k :: k in db.invitations && k != key ==> r.db.invitations[k] == db.invitations[k])
      && (r.error.Some? ==> r.db == db)
  {
    if key in db.invitations { assert db.invitations.Keys + {key} == db.invitations.Keys; }
  }

  lemma {:induction false} RevokeTicketMeans(db: Db, actor: Id, key: Id, now: int)
    ensures var r := RevokeTicket(db, actor, key, now);
      && (r.error.None? <==> InEra(now) && Administers(db, actor) && key in db.tickets
                             && db.tickets[key].state == Pending && db.tickets[key].created <= now)
      && (r.error.None? ==>
            && r.db == db.(tickets := r.db.tickets) && r.db.tickets.Keys == db.tickets.Keys
            && r.db.tickets[key] == db.tickets[key].(state := Revoked, resolved := Some(now))
            && forall k :: k in db.tickets && k != key ==> r.db.tickets[k] == db.tickets[k])
      && (r.error.Some? ==> r.db == db)
  {
    if key in db.tickets { assert db.tickets.Keys + {key} == db.tickets.Keys; }
  }

  /** The caller names the password as it is stored. */
  predicate NamesStored(db: Db, user: Id, envelope: string, revision: int) {
    user in db.passwords && db.passwords[user].envelope == envelope && db.passwords[user].updated == revision
  }

  lemma {:induction false} LoginMeans(db: Db, user: Id, envelope: string, revision: int, now: int)
    ensures var r := RecordLogin(db, user, envelope, revision, now);
      && (r.error.None? <==> InEra(now) && revision <= now && user in db.users && db.users[user].active && NamesStored(db, user, envelope, revision)
                             && db.users[user].created <= now)
      && (r.error.None? ==>
            && OnlyUsers(db, r.db) && OnlyUserChanges(db, r.db, user)
            && r.db.users[user] == db.users[user].(lastLogin := r.db.users[user].lastLogin) && r.db.users[user].lastLogin.Some?
            && r.db.users[user].lastLogin.value >= now
            && (db.users[user].lastLogin.None? || db.users[user].lastLogin.value < now ==> r.db.users[user].lastLogin.value == now)
            && (db.users[user].lastLogin.Some? && db.users[user].lastLogin.value >= now ==> r.db.users[user].lastLogin == db.users[user].lastLogin))
      && (r.error.Some? ==> r.db == db)
  {
  }

  lemma {:induction false} ReplacePasswordMeans(db: Db, user: Id, envelope: string, revision: int, replacement: string, now: int)
    ensures var r := ReplacePassword(db, user, envelope, revision, replacement, now);
      && (r.error.None? <==> InEra(now) && envelope != replacement && revision < now && user in db.users && db.users[user].active
                             && NamesStored(db, user, envelope, revision))
      && (r.error.None? ==>
            && PasswordReplaced(db, r.db, user, replacement, now)
            && r.db.tickets == db.tickets && r.db.recoveries == db.recoveries)
      && (r.error.Some? ==> r.db == db)
  {
  }

  lemma {:induction false} RotateMeans(db: Db, e: Expected, id: Id, envelope: string, now: int)
    requires Safe(db)
    ensures var r := RotateRecovery(db, e, id, envelope, now);
      && (r.error.None? <==> MayReplace(db, e, id, envelope, now) && e.user in db.users && db.users[e.user].active)
      && (r.error.None? ==>
            && EnvelopeReplaced(db, r.db, e, id, envelope, now) && UserTouched(db, r.db, e.user, now)
            && r.db.passwords == db.passwords && r.db.invitations == db.invitations && r.db.tickets == db.tickets)
      && (r.error.Some? ==> r.db == db)
  {
    SwapMeans(db, e, id, envelope, now);
  }

  // ----- the transactions on several tables -----

  class Store {
    var users: map<Id, User>
    var invitations: map<Id, Invitation>
    var tickets: map<Id, Ticket>
    var passwords: map<Id, Password>
    var recoveries: map<Id, Recovery>

    function Contents(): Db
      reads this
    {
      Db(users, invitations, tickets, passwords, recoveries)
    }

    ghost predicate Valid()
      reads this
    {
      Safe(Contents())
    }

    constructor ()
      ensures Valid() && Contents() == Empty
    {
      users, invitations, tickets, passwords, recoveries := map[], map[], map[], map[], map[];
    }

    /** Puts back the tables a transaction started from. */
    method Rollback(db: Db)
      modifies this
      ensures Contents() == db
    {
      users, invitations, tickets, passwords, recoveries := db.users, db.invitations, db.tickets, db.passwords, db.recoveries;
    }

    /** In a safe state only an identity, address, vault or envelope id in use is in the way. */
    method InsertPreparedUser(u: NewUser, role: Role, now: int) returns (error: Option<Error>)
      requires Valid()
      modifies this
      ensures error.None? <==> Unused(old(Contents()), u)
      ensures error.None? ==> Joins(old(Contents()), Contents(), u, role, now) && invitations == old(invitations)
      ensures error.Some? ==> Contents() == old(Contents())
      ensures Outcome(Contents(), error) == InsertUser(old(Contents()), u, role, now)
    {
      InsertMeans(Contents(), u, role, now);
      if u.id in users || EmailTaken(Contents(), u.email) || VaultTaken(Contents(), u.vault) {
        return Some(Conflict);
      }
      if u.id in passwords || u.recoveryId in recoveries || HasActiveRecovery(Contents(), u.id) {
        return Some(ConstraintFailed);
      }
      users := users[u.id := User(u.email, u.vault, role, true, now, now, None)];
      passwords := passwords[u.id := Password(u.password, now, now)];
      recoveries := recoveries[u.recoveryId := Recovery(u.id, u.recovery, true, now, None)];
      return None;
    }

    method RevokePendingCapabilities(user: Id, now: int)
      modifies this`invitations, this`tickets
      ensures Contents() == RevokePending(old(Contents()), user, now)
    {
      invitations := map k | k in invitations ::
        if IssuedPending(invitations[k], user) then RevokedInvitation(invitations[k], now) else invitations[k];
      tickets := map k | k in tickets ::
        if TouchesPending(tickets[k], user) then RevokedTicket(tickets[k], now) else tickets[k];
    }

    method DisableUser(actor: Id, target: Id, now: int) returns (error: Option<Error>)
      requires Valid()
      modifies this
      ensures Valid()
      ensures Outcome(Contents(), error) == Run(old(Contents()), DisableOp(actor, target), now)
      ensures Disables(old(Contents()), Contents(), error, actor, target, now)
    {
      DisableMeans(Contents(), actor, target, now);
      StaysSafe(Contents(), DisableOp(actor, target), now);
      error := DisableTransaction(actor, target, now);
    }

    method DisableTransaction(actor: Id, target: Id, now: int) returns (error: Option<Error>)
      modifies this
      ensures Outcome(Contents(), error) == Run(old(Contents()), DisableOp(actor, target), now)
    {
      if !ValidTime(now) { return Some(InvalidInput); }
      if actor == target { return Some(SelfDisable); }
      if !ActiveAdmin(Contents(), actor) { return Some(Forbidden); }
      if target !in users { return Some(NotFound); }
      var user := users[target];
      if user.active {
        if user.role == Admin && !AnotherActiveAdmin(Contents(), target) { return Some(LastActiveAdmin); }
        if now < user.created { return Some(ConstraintFailed); }
        users := users[target := user.(active := false, updated := now)];
      }
      RevokePendingCapabilities(target, now);
      return None;
    }

    method SetUserRole(actor: Id, target: Id, role: Role, now: int) returns (error: Option<Error>)
      requires Valid()
      modifies this
      ensures Valid()
      ensures Outcome(Contents(), error) == Run(old(Contents()), RoleOp(actor, target, role), now)
      ensures SetsRole(old(Contents()), Contents(), error, actor, target, role, now)
    {
      SetRoleMeans(Contents(), actor, target, role, now);
      StaysSafe(Contents(), RoleOp(actor, target, role), now);
      if !ValidTime(now) { return Some(InvalidInput); }
      if !ActiveAdmin(Contents(), actor) { return Some(Forbidden); }
      if target !in users { return Some(NotFound); }
      var user := users[target];
      if user.role == role { return None; }
      if user.role == Admin && role != Admin && user.active && !AnotherActiveAdmin(Contents(), target) {
        return Some(LastActiveAdmin);
      }
      if now < user.created { return Some(ConstraintFailed); }
      users := users[target := user.(role := role, updated := now)];
      if user.role == Admin && role != Admin {
        RevokePendingCapabilities(target, now);
      }
      return None;
    }

    method ExpirePrior(email: string, now: int)
      modifies this`invitations
      ensures Contents() == ExpireInvitations(old(Contents()), email, now)
    {
      invitations := map k | k in invitations ::
        if Stale(invitations[k], email, now) then invitations[k].(state := Expired, resolved := Some(now)) else invitations[k];
    }

    method CreateInvitation(actor: Id, key: Id, email: string, role: Role, expires: int, now: int)
      returns (error: Option<Error>)
      requires Valid()
      modifies this
      ensures Valid()
      ensures Outcome(Contents(), error) == Run(old(Contents()), InviteOp(actor, key, email, role, expires), now)
      ensures Invites(old(Contents()), Contents(), error, actor, key, email, role, expires, now)
    {
      InviteMeans(Contents(), actor, key, email, role, expires, now);
      StaysSafe(Contents(), InviteOp(actor, key, email, role, expires), now);
      if !ValidExpiry(now, expires, MAX_INVITATION_LIFETIME) { return Some(InvalidInput); }
      if !ActiveAdmin(Contents(), actor) { return Some(Forbidden); }
      if EmailTaken(Contents(), email) { return Some(Conflict); }
      var start := Contents();
      if StaleFromFuture(Contents(), email, now) { return Some(ConstraintFailed); }
      ExpirePrior(email, now);
      if key in invitations || Invited(Contents(), email) {
        Rollback(start);
        return Some(Conflict);
      }
      invitations := invitations[key := Invitation(email, role, Pending, actor, None, now, expires, None)];
      return None;
    }

    method AcceptInvitation(key: Id, u: NewUser, now: int) returns (error: Option<Error>)
      requires Valid()
      modifies this
      ensures Valid()
      ensures Outcome(Contents(), error) == Run(old(Contents()), AcceptOp(key, u), now)
      ensures Accepts(old(Contents()), Contents(), error, key, u, now)
    {
      AcceptMeans(Contents(), key, u, now);
      StaysSafe(Contents(), AcceptOp(key, u), now);
      if !ValidTime(now) { return Some(InvalidInput); }
      if key !in invitations { return Some(NotFound); }
      var i := invitations[key];
      if i.state != Pending { return Some(Inactive); }
      if i.expires <= now {
        if now < i.created { return Some(ConstraintFailed); }
        invitations := invitations[key := i.(state := Expired, resolved := Some(now))];
        return Some(HasExpired);
      }
      if u.email != i.email { return Some(InvalidInput); }
      var start := Contents();
      error := InsertPreparedUser(u, i.role, now);
      if error.Some? {
        Rollback(start);
        return;
      }
      if now < i.created {
        Rollback(start);
        return Some(ConstraintFailed);
      }
      invitations := invitations[key := i.(state := Accepted, acceptedBy := Some(u.id), resolved := Some(now))];
    }

    method InvalidatePrior(target: Id, now: int)
      modifies this`tickets
      ensures Contents() == CloseTickets(old(Contents()), target, None, now)
    {
      tickets := map k | k in tickets ::
        if PendingFor(tickets[k], target)
        then tickets[k].(state := if tickets[k].expires <= now then Expired else Revoked, resolved := Some(now)) else tickets[k];
    }

    method CreatePasswordResetTicket(actor: Id, target: Id, key: Id, expires: int, now: int) returns (error: Option<Error>)
      requires Valid()
      modifies this
      ensures Valid()
      ensures Outcome(Contents(), error) == Run(old(Contents()), TicketOp(actor, target, key, expires), now)
      ensures Issues(old(Contents()), Contents(), error, actor, target, key, expires, now)
    {
      IssueMeans(Contents(), actor, target, key, expires, now);
      StaysSafe(Contents(), TicketOp(actor, target, key, expires), now);
      error := TicketTransaction(actor, target, key, expires, now);
    }

    method TicketTransaction(actor: Id, target: Id, key: Id, expires: int, now: int) returns (error: Option<Error>)
      modifies this
      ensures Outcome(Contents(), error) == Run(old(Contents()), TicketOp(actor, target, key, expires), now)
    {
      if !ValidExpiry(now, expires, MAX_RESET_LIFETIME) { return Some(InvalidInput); }
      if !ActiveAdmin(Contents(), actor) { return Some(Forbidden); }
      if target !in users { return Some(NotFound); }
      if !users[target].active { return Some(Forbidden); }
      if PendingFromFuture(Contents(), target, now) { return Some(ConstraintFailed); }
      var start := Contents();
      InvalidatePrior(target, now);
      if key in tickets {
        Rollback(start);
        return Some(Conflict);
      }
      tickets := tickets[key := Ticket(target, Pending, actor, now, expires, None)];
      return None;
    }

    method SwapRecoveryEnvelope(e: Expected, id: Id, envelope: string, now: int) returns (error: Option<Error>)
      modifies this`recoveries
      ensures error == SwapRecovery(old(Contents()), e, id, envelope, now).error
      ensures error.None? ==> Contents() == SwapRecovery(old(Contents()), e, id, envelope, now).db
    {
      if !Matches(Contents(), e) { return Some(RecoveryConflict); }
      if id in recoveries { return Some(Conflict); }
      recoveries := recoveries[e.id := recoveries[e.id].(active := false, revoked := Some(now))];
      if HasActiveRecovery(Contents(), e.user) { return Some(Conflict); }
      recoveries := recoveries[id := Recovery(e.user, envelope, true, now, None)];
      return None;
    }

    method AdvanceUser(id: Id, now: int)
      modifies this`users
      ensures Contents() == TouchUser(old(Contents()), id, now)
    {
      if id in users {
        users := users[id := users[id].(updated := Later(users[id].updated, now))];
      }
    }

    method CompletePasswordReset(key: Id, e: Expected, password: string, id: Id, envelope: string, now: int)
      returns (error: Option<Error>)
      requires Valid()
      modifies this
      ensures Valid()
      ensures Outcome(Contents(), error) == Run(old(Contents()), ResetOp(key, e, password, id, envelope), now)
      ensures Resets(old(Contents()), Contents(), error, key, e, password, id, envelope, now)
    {
      StaysSafe(Contents(), ResetOp(key, e, password, id, envelope), now);
      ResetMeans(Contents(), key, e, password, id, envelope, now);
      error := ResetTransaction(key, e, password, id, envelope, now);
    }

    /** The order of the updates: envelope, password, ticket, sibling tickets, user. */
    method ResetTransaction(key: Id, e: Expected, password: string, id: Id, envelope: string, now: int)
      returns (error: Option<Error>)
      modifies this
      ensures Outcome(Contents(), error) == Run(old(Contents()), ResetOp(key, e, password, id, envelope), now)
    {
      if !ReplacementIsNew(e, id, envelope, now) { return Some(InvalidInput); }
      if key !in tickets { return Some(NotFound); }
      var t := tickets[key];
      if t.state != Pending { return Some(Inactive); }
      if t.expires <= now {
        if now < t.created { return Some(ConstraintFailed); }
        tickets := tickets[key := t.(state := Expired, resolved := Some(now))];
        return Some(HasExpired);
      }
      if t.user != e.user { return Some(RecoveryConflict); }
      if !ActiveUser(Contents(), t.user) { return Some(Forbidden); }
      if t.user !in passwords || passwords[t.user].updated >= now { return Some(CredentialConflict); }
      var start := Contents();
      error := SwapRecoveryEnvelope(e, id, envelope, now);
      if error.Some? {
        Rollback(start);
        return;
      }
      if PendingFromFuture(start, t.user, now) {
        Rollback(start);
        return Some(ConstraintFailed);
      }
      passwords := passwords[t.user := passwords[t.user].(envelope := password, updated := now)];
      tickets := tickets[key := t.(state := Consumed, resolved := Some(now))];
      RevokeSiblings(t.user, key, now);
      AdvanceUser(t.user, now);
    }

    method RevokeSiblings(user: Id, key: Id, now: int)
      modifies this`tickets
      ensures Contents() == CloseTickets(old(Contents()), user, Some(key), now)
    {
      tickets := map k | k in tickets ::
        if PendingFor(tickets[k], user) && k != key then tickets[k].(state := Revoked, resolved := Some(now)) else tickets[k];
    }
  }

  lemma {:induction false} StaysSafe(db: Db, op: Op, now: int)
    requires Safe(db)
    ensures Safe(Run(db, op, now).db)
  {
    RunAuthorized(db, op, now);
    RunRecoverable(db, op, now);
  }
}
