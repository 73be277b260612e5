/** What every write endpoint keeps: the invariant of the whole store.

    `StoreOk` collects the facts the endpoints rely on without checking
    them: request, invitation, history and connection ids are numbered
    from the collection count (nothing is ever deleted from those
    collections), marker ids are distinct ids of the `other` form, and the
    lock side and the user side of every grant agree (`Mirror.Mirrored`).

    Each lemma below takes the store an endpoint starts from and states
    `StoreOk` of exactly the new state the endpoint's `ensures` describes.
    Where the lemma needs more than `StoreOk` (the lock or the user an
    endpoint writes to exists, a new lock id is unused), the service does
    not check it either. For post_new_lock and accept_request the last
    section proves that on those inputs the invariant is lost; for the
    grant endpoints on invitations the missing-record cases are left
    without such a lemma. */
module Invariants {
  import opened Common
  import opened Ids
  import opened Records
  import opened Probes
  import opened Mirror
  import opened Steps

  predicate Numbered(rs: seq<Request>, vs: seq<Invitation>, hs: seq<History>, cs: seq<Connection>) {
    && Sequential("req", RequestIds(rs))
    && Sequential("invite", InvitationIds(vs))
    && Sequential("his", HistoryIds(hs))
    && Sequential("con", ConnectionIds(cs))
  }

  predicate StoreOk(users: seq<User>, locks: seq<Lock>, rs: seq<Request>, vs: seq<Invitation>,
                    os: seq<Other>, hs: seq<History>, cs: seq<Connection>)
  {
    && Mirrored(locks, users)
    && Numbered(rs, vs, hs, cs)
    && MarkersOk(os)
  }

  /** The empty store of a fresh deployment. */
  lemma EmptyStoreOk()
    ensures StoreOk([], [], [], [], [], [], [])
  {
  }

  /** Numbered request ids are distinct: what accept_all_request needs. */
  lemma StoreRequestIdsDistinct(users: seq<User>, locks: seq<Lock>, rs: seq<Request>, vs: seq<Invitation>,
                                os: seq<Other>, hs: seq<History>, cs: seq<Connection>)
    requires StoreOk(users, locks, rs, vs, os, hs, cs)
    ensures Distinct(RequestIds(rs))
  {
    SequentialIdsDistinct("req", RequestIds(rs));
  }

  /** Every request on `lockId` names a stored lock and a stored user: the
      inputs on which each accept_request of accept_all_request keeps
      `StoreOk` (`AcceptRequestKeepsStore`). */
  predicate RequestsResolve(rs: seq<Request>, locks: seq<Lock>, users: seq<User>, lockId: string) {
    forall k :: 0 <= k < |rs| && rs[k].lockId == lockId ==>
      rs[k].lockId in LockIds(locks) && rs[k].userId in UserIds(users)
  }

  /** post_new_lock, for a new lock id and an existing creator. */
  lemma PostNewLockKeepsStore(users: seq<User>, locks: seq<Lock>, rs: seq<Request>, vs: seq<Invitation>,
                              os: seq<Other>, hs: seq<History>, cs: seq<Connection>,
                              userId: string, lockId: string, lockName: string, lockLocation: string, lockImage: string)
    requires StoreOk(users, locks, rs, vs, os, hs, cs)
    requires lockId !in LockIds(locks) && userId in UserIds(users)
    ensures StoreOk(EditUser(EditUser(users, userId, AddLocation(lockLocation)),
                             userId, AddAdminDetail(LockDetail(lockId, lockName, lockLocation, lockImage))),
                    locks + [FreshLock(lockId, userId)], rs, vs, os, hs, cs)
  {
    NewLockChainKeepsMirror(locks, users, userId, LockDetail(lockId, lockName, lockLocation, lockImage), lockLocation);
  }

  /** post_lock_location. */
  lemma PostLockLocationKeepsStore(users: seq<User>, locks: seq<Lock>, rs: seq<Request>, vs: seq<Invitation>,
                                   os: seq<Other>, hs: seq<History>, cs: seq<Connection>,
                                   userId: string, location: string)
    requires StoreOk(users, locks, rs, vs, os, hs, cs)
    ensures StoreOk(EditUser(users, userId, AddLocation(location)), locks, rs, vs, os, hs, cs)
  {
    UserEditKeepsMirror(locks, users, userId, AddLocation(location));
  }

  /** post_new_request, whatever the lock id names. */
  lemma PostNewRequestKeepsStore(users: seq<User>, locks: seq<Lock>, rs: seq<Request>, vs: seq<Invitation>,
                                 os: seq<Other>, hs: seq<History>, cs: seq<Connection>, os': seq<Other>,
                                 lockId: string, lockName: string, lockLocation: string, lockImage: string,
                                 userId: string, now: int)
    requires StoreOk(users, locks, rs, vs, os, hs, cs)
    requires AppendedMarker(os, os', "sent", userId, None, lockId, now)
    ensures
      var reqId := MakeId("req", |rs| + 1);
      var hisId := MakeId("his", |hs| + 1);
      StoreOk(users,
              EditLock(EditLock(locks, lockId, AddRequest(reqId)), lockId, AddHistory(hisId)),
              rs + [Request(reqId, lockId, lockName, lockLocation, lockImage, userId, Sent, now)],
              vs, os', hs + [History(hisId, userId, lockId, "req", now)], cs)
  {
    var reqId := MakeId("req", |rs| + 1);
    var hisId := MakeId("his", |hs| + 1);
    TwoLockEditsKeepMirror(locks, users, lockId, AddRequest(reqId), AddHistory(hisId));
    RequestAppend(rs, Request(reqId, lockId, lockName, lockLocation, lockImage, userId, Sent, now));
    HistoryAppend(hs, History(hisId, userId, lockId, "req", now));
    AppendedMarkerKeepsIds(os, os', "sent", userId, None, lockId, now);
  }

  /** accept_request on the `i`-th request, when its lock and its user
      exist. */
  lemma AcceptRequestKeepsStore(users: seq<User>, locks: seq<Lock>, rs: seq<Request>, vs: seq<Invitation>,
                                os: seq<Other>, hs: seq<History>, cs: seq<Connection>, os': seq<Other>,
                                i: nat, expire: int, now: int)
    requires StoreOk(users, locks, rs, vs, os, hs, cs)
    requires i < |rs| && rs[i].lockId in LockIds(locks) && rs[i].userId in UserIds(users)
    requires AppendedMarker(os, os', "accepted", rs[i].userId, None, rs[i].lockId, now)
    ensures
      var q := rs[i];
      var g := RequestGuest(q, expire);
      var conId := MakeId("con", |cs| + 1);
      var hisId := MakeId("his", |hs| + 1);
      StoreOk(EditUser(EditUser(users, q.userId, AddGuestGrant(g)), q.userId, AddLocation(q.lockLocation)),
              EditLock(EditLock(EditLock(EditLock(locks, q.lockId, AddGuest(g)),
                q.lockId, AddConnect(conId)), q.lockId, AddHistory(hisId)), q.lockId, DropRequest(q.reqId)),
              rs[i := AcceptedRequest(q, expire)], vs, os',
              hs + [History(hisId, q.userId, q.lockId, "connect", now)],
              cs + [Connection(conId, q.lockId, q.userId, "guest", now)])
  {
    var q := rs[i];
    var g := RequestGuest(q, expire);
    var conId := MakeId("con", |cs| + 1);
    var hisId := MakeId("his", |hs| + 1);
    GrantChainKeepsMirror(locks, users, AddGuest(g), AddGuestGrant(g), q.lockLocation,
                          AddConnect(conId), AddHistory(hisId), DropRequest(q.reqId));
    RequestUpdate(rs, i, AcceptedRequest(q, expire));
    HistoryAppend(hs, History(hisId, q.userId, q.lockId, "connect", now));
    ConnectAppend(cs, Connection(conId, q.lockId, q.userId, "guest", now));
    AppendedMarkerKeepsIds(os, os', "accepted", q.userId, None, q.lockId, now);
  }

  /** decline_request on the `i`-th request. */
  lemma DeclineRequestKeepsStore(users: seq<User>, locks: seq<Lock>, rs: seq<Request>, vs: seq<Invitation>,
                                 os: seq<Other>, hs: seq<History>, cs: seq<Connection>, i: nat)
    requires StoreOk(users, locks, rs, vs, os, hs, cs) && i < |rs|
    ensures StoreOk(users, EditLock(locks, rs[i].lockId, DropRequest(rs[i].reqId)),
                    rs[i := rs[i].(requestStatus := Declined)], vs, os, hs, cs)
  {
    LockEditKeepsMirror(locks, users, rs[i].lockId, DropRequest(rs[i].reqId));
    RequestUpdate(rs, i, rs[i].(requestStatus := Declined));
  }

  /** post_new_invitation, whatever the lock id names. */
  lemma PostNewInvitationKeepsStore(users: seq<User>, locks: seq<Lock>, rs: seq<Request>, vs: seq<Invitation>,
                                    os: seq<Other>, hs: seq<History>, cs: seq<Connection>, os': seq<Other>,
                                    srcUserId: string, desUserId: string, role: string, lockId: string, stamp: int)
    requires StoreOk(users, locks, rs, vs, os, hs, cs)
    requires AppendedMarker(os, os', "invite", desUserId, Some(role), lockId, stamp)
    ensures
      var v := Invitation(MakeId("invite", |vs| + 1), srcUserId, desUserId, role, lockId, Invite, stamp);
      StoreOk(users, EditLock(locks, lockId, AddInvitation(v.invId)), rs, vs + [v], os', hs, cs)
  {
    var v := Invitation(MakeId("invite", |vs| + 1), srcUserId, desUserId, role, lockId, Invite, stamp);
    LockEditKeepsMirror(locks, users, lockId, AddInvitation(v.invId));
    InvitationAppend(vs, v);
    AppendedMarkerKeepsIds(os, os', "invite", desUserId, Some(role), lockId, stamp);
  }

  /** accept_invitation on the `i`-th invitation, when its lock and its
      invitee exist: the state it leaves when its marker delete raises. */
  lemma AcceptInvitationKeepsStore(users: seq<User>, locks: seq<Lock>, rs: seq<Request>, vs: seq<Invitation>,
                                   os: seq<Other>, hs: seq<History>, cs: seq<Connection>, os': seq<Other>,
                                   i: nat, lockName: string, lockLocation: string, lockImage: string, now: int)
    requires StoreOk(users, locks, rs, vs, os, hs, cs)
    requires i < |vs| && vs[i].lockId in LockIds(locks) && vs[i].desUserId in UserIds(users)
    requires AppendedMarker(os, os', "accepted", vs[i].desUserId, None, vs[i].lockId, now)
    ensures
      var v := vs[i];
      var d := LockDetail(v.lockId, lockName, lockLocation, lockImage);
      var g := Guest(v.desUserId, v.lockId, lockName, lockLocation, lockImage, None);
      var conId := MakeId("con", |cs| + 1);
      var hisId := MakeId("his", |hs| + 1);
      StoreOk(EditUser(EditUser(users, v.desUserId, InviteUserEdit(v, d, g)), v.desUserId, AddLocation(lockLocation)),
              EditLock(EditLock(EditLock(EditLock(locks, v.lockId, InviteLockEdit(v, g)),
                v.lockId, AddConnect(conId)), v.lockId, AddHistory(hisId)), v.lockId, DropInvitation(v.invId)),
              rs, vs[i := v.(invStatus := Accepted)], os',
              hs + [History(hisId, v.desUserId, v.lockId, "connect", now)],
              cs + [Connection(conId, v.lockId, v.desUserId, v.role, now)])
  {
    var v := vs[i];
    var d := LockDetail(v.lockId, lockName, lockLocation, lockImage);
    var g := Guest(v.desUserId, v.lockId, lockName, lockLocation, lockImage, None);
    var conId := MakeId("con", |cs| + 1);
    var hisId := MakeId("his", |hs| + 1);
    InviteEditsPaired(v, d, g);
    GrantChainKeepsMirror(locks, users, InviteLockEdit(v, g), InviteUserEdit(v, d, g), lockLocation,
                          AddConnect(conId), AddHistory(hisId), DropInvitation(v.invId));
    InvitationUpdate(vs, i, v.(invStatus := Accepted));
    HistoryAppend(hs, History(hisId, v.desUserId, v.lockId, "connect", now));
    ConnectAppend(cs, Connection(conId, v.lockId, v.desUserId, v.role, now));
    AppendedMarkerKeepsIds(os, os', "accepted", v.desUserId, None, v.lockId, now);
  }

  /** The same for `Service.Store.AcceptInvitationAsIntended`, whose
      marker delete goes through. */
  lemma AcceptInvitationAsIntendedKeepsStore(users: seq<User>, locks: seq<Lock>, rs: seq<Request>, vs: seq<Invitation>,
                                             os: seq<Other>, hs: seq<History>, cs: seq<Connection>, os': seq<Other>,
                                             i: nat, lockName: string, lockLocation: string, lockImage: string, now: int)
    requires StoreOk(users, locks, rs, vs, os, hs, cs)
    requires i < |vs| && vs[i].lockId in LockIds(locks) && vs[i].desUserId in UserIds(users)
    requires AppendedMarker(DeleteOne(os, InviteMarkerFilter(vs[i])), os', "accepted", vs[i].desUserId, None, vs[i].lockId, now)
    ensures
      var v := vs[i];
      var d := LockDetail(v.lockId, lockName, lockLocation, lockImage);
      var g := Guest(v.desUserId, v.lockId, lockName, lockLocation, lockImage, None);
      var conId := MakeId("con", |cs| + 1);
      var hisId := MakeId("his", |hs| + 1);
      StoreOk(EditUser(EditUser(users, v.desUserId, InviteUserEdit(v, d, g)), v.desUserId, AddLocation(lockLocation)),
              EditLock(EditLock(EditLock(EditLock(locks, v.lockId, InviteLockEdit(v, g)),
                v.lockId, AddConnect(conId)), v.lockId, AddHistory(hisId)), v.lockId, DropInvitation(v.invId)),
              rs, vs[i := v.(invStatus := Accepted)], os',
              hs + [History(hisId, v.desUserId, v.lockId, "connect", now)],
              cs + [Connection(conId, v.lockId, v.desUserId, v.role, now)])
  {
    var v := vs[i];
    var d := LockDetail(v.lockId, lockName, lockLocation, lockImage);
    var g := Guest(v.desUserId, v.lockId, lockName, lockLocation, lockImage, None);
    var conId := MakeId("con", |cs| + 1);
    var hisId := MakeId("his", |hs| + 1);
    InviteEditsPaired(v, d, g);
    GrantChainKeepsMirror(locks, users, InviteLockEdit(v, g), InviteUserEdit(v, d, g), lockLocation,
                          AddConnect(conId), AddHistory(hisId), DropInvitation(v.invId));
    InvitationUpdate(vs, i, v.(invStatus := Accepted));
    HistoryAppend(hs, History(hisId, v.desUserId, v.lockId, "connect", now));
    ConnectAppend(cs, Connection(conId, v.lockId, v.desUserId, v.role, now));
    MarkerDelete(os, InviteMarkerFilter(v));
    AppendedMarkerKeepsIds(DeleteOne(os, InviteMarkerFilter(v)), os', "accepted", v.desUserId, None, v.lockId, now);
  }

  /** decline_invitation on the `i`-th invitation: the state it leaves
      when its marker delete raises. */
  lemma DeclineInvitationKeepsStore(users: seq<User>, locks: seq<Lock>, rs: seq<Request>, vs: seq<Invitation>,
                                    os: seq<Other>, hs: seq<History>, cs: seq<Connection>, i: nat)
    requires StoreOk(users, locks, rs, vs, os, hs, cs) && i < |vs|
    ensures StoreOk(users, EditLock(locks, vs[i].lockId, DropInvitation(vs[i].invId)), rs,
                    vs[i := vs[i].(invStatus := Declined)], os, hs, cs)
  {
    LockEditKeepsMirror(locks, users, vs[i].lockId, DropInvitation(vs[i].invId));
    InvitationUpdate(vs, i, vs[i].(invStatus := Declined));
  }

  /** The same for `Service.Store.DeclineInvitationAsIntended`. */
  lemma DeclineInvitationAsIntendedKeepsStore(users: seq<User>, locks: seq<Lock>, rs: seq<Request>, vs: seq<Invitation>,
                                              os: seq<Other>, hs: seq<History>, cs: seq<Connection>, i: nat)
    requires StoreOk(users, locks, rs, vs, os, hs, cs) && i < |vs|
    ensures StoreOk(users, EditLock(locks, vs[i].lockId, DropInvitation(vs[i].invId)), rs,
                    vs[i := vs[i].(invStatus := Declined)], DeleteOne(os, InviteMarkerFilter(vs[i])), hs, cs)
  {
    LockEditKeepsMirror(locks, users, vs[i].lockId, DropInvitation(vs[i].invId));
    InvitationUpdate(vs, i, vs[i].(invStatus := Declined));
    MarkerDelete(os, InviteMarkerFilter(vs[i]));
  }

  /** delete_invitation_notification on the `i`-th invitation. Its marker
      delete removes nothing (`Steps.NoMarkerHasInvitationId`). */
  lemma DeleteInvitationNotificationKeepsStore(users: seq<User>, locks: seq<Lock>, rs: seq<Request>, vs: seq<Invitation>,
                                               os: seq<Other>, hs: seq<History>, cs: seq<Connection>, i: nat)
    requires StoreOk(users, locks, rs, vs, os, hs, cs) && i < |vs|
    ensures DeleteOne(os, [("otherId", vs[i].invId)]) == os
    ensures StoreOk(users, EditLock(locks, vs[i].lockId, DropInvitation(vs[i].invId)), rs,
                    vs[i := vs[i].(invStatus := Declined)], DeleteOne(os, [("otherId", vs[i].invId)]), hs, cs)
  {
    LockEditKeepsMirror(locks, users, vs[i].lockId, DropInvitation(vs[i].invId));
    InvitationUpdate(vs, i, vs[i].(invStatus := Declined));
    NoMarkerHasInvitationId(vs, os, i);
  }

  /** delete_other_notification. */
  lemma DeleteOtherNotificationKeepsStore(users: seq<User>, locks: seq<Lock>, rs: seq<Request>, vs: seq<Invitation>,
                                          os: seq<Other>, hs: seq<History>, cs: seq<Connection>, notiId: string)
    requires StoreOk(users, locks, rs, vs, os, hs, cs)
    ensures StoreOk(users, locks, rs, vs, DeleteOne(os, [("otherId", notiId)]), hs, cs)
    ensures notiId !in OtherIds(DeleteOne(os, [("otherId", notiId)]))
  {
    MarkerDelete(os, [("otherId", notiId)]);
    DeleteByIdRemovesId(os, notiId);
  }

  /** delete_warning_notification clearing a lock's warnings. */
  lemma ClearWarningsKeepsStore(users: seq<User>, locks: seq<Lock>, rs: seq<Request>, vs: seq<Invitation>,
                                os: seq<Other>, hs: seq<History>, cs: seq<Connection>, lockId: string)
    requires StoreOk(users, locks, rs, vs, os, hs, cs)
    ensures StoreOk(users, EditLock(locks, lockId, ClearWarnings), rs, vs, os, hs, cs)
  {
    LockEditKeepsMirror(locks, users, lockId, ClearWarnings);
  }

  // ---------------------------------------------------------------------
  // Inputs the endpoints do not check, and what they do to the store.

  /** post_new_lock with a lock id some lock already has: whatever the
      user side becomes, two locks share the id. */
  lemma ReusedLockIdBreaksStore(users: seq<User>, locks: seq<Lock>, rs: seq<Request>, vs: seq<Invitation>,
                                os: seq<Other>, hs: seq<History>, cs: seq<Connection>, lockId: string, userId: string)
    requires lockId in LockIds(locks)
    ensures !StoreOk(users, locks + [FreshLock(lockId, userId)], rs, vs, os, hs, cs)
  {
    var ls := locks + [FreshLock(lockId, userId)];
    var k :| 0 <= k < |locks| && LockIds(locks)[k] == lockId;
    assert LockIds(ls)[k] == lockId == LockIds(ls)[|locks|];
  }

  /** post_new_lock by a user id with no user document: the new lock names
      an admin nobody is. */
  lemma UnknownCreatorBreaksStore(users: seq<User>, locks: seq<Lock>, rs: seq<Request>, vs: seq<Invitation>,
                                  os: seq<Other>, hs: seq<History>, cs: seq<Connection>,
                                  userId: string, lockId: string, lockName: string, lockLocation: string, lockImage: string)
    requires userId !in UserIds(users)
    ensures !StoreOk(EditUser(EditUser(users, userId, AddLocation(lockLocation)),
                              userId, AddAdminDetail(LockDetail(lockId, lockName, lockLocation, lockImage))),
                     locks + [FreshLock(lockId, userId)], rs, vs, os, hs, cs)
  {
    var us := EditUser(EditUser(users, userId, AddLocation(lockLocation)),
                       userId, AddAdminDetail(LockDetail(lockId, lockName, lockLocation, lockImage)));
    var ls := locks + [FreshLock(lockId, userId)];
    assert ls[|locks|].admin[0] == userId && userId !in UserIds(us);
    assert !LockClosed(ls[|locks|], UserIds(us));
  }

  /** accept_request on a request whose lock has no document (post_new_request
      stores such requests, `PostNewRequestKeepsStore`): the requester gets
      a guest grant on a lock id no lock has. */
  lemma MissingLockGrantBreaksStore(users: seq<User>, locks: seq<Lock>, rs: seq<Request>, vs: seq<Invitation>,
                                    os': seq<Other>, hs: seq<History>, cs: seq<Connection>,
                                    i: nat, expire: int, now: int)
    requires i < |rs| && rs[i].lockId !in LockIds(locks) && rs[i].userId in UserIds(users)
    ensures
      var q := rs[i];
      var g := RequestGuest(q, expire);
      var conId := MakeId("con", |cs| + 1);
      var hisId := MakeId("his", |hs| + 1);
      !StoreOk(EditUser(EditUser(users, q.userId, AddGuestGrant(g)), q.userId, AddLocation(q.lockLocation)),
               EditLock(EditLock(EditLock(EditLock(locks, q.lockId, AddGuest(g)),
                 q.lockId, AddConnect(conId)), q.lockId, AddHistory(hisId)), q.lockId, DropRequest(q.reqId)),
               rs[i := AcceptedRequest(q, expire)], vs, os',
               hs + [History(hisId, q.userId, q.lockId, "connect", now)],
               cs + [Connection(conId, q.lockId, q.userId, "guest", now)])
  {
    var q := rs[i];
    var g := RequestGuest(q, expire);
    var conId := MakeId("con", |cs| + 1);
    var hisId := MakeId("his", |hs| + 1);
    IndexOfFirst(UserIds(users), q.userId);
    var j := FindUser(users, q.userId).value;
    var us1 := EditUser(users, q.userId, AddGuestGrant(g));
    var us2 := EditUser(us1, q.userId, AddLocation(q.lockLocation));
    assert FindUser(us1, q.userId) == Some(j);
    var u := us2[j];
    assert u.guest == users[j].guest + [g];
    var ls := EditLock(EditLock(EditLock(EditLock(locks, q.lockId, AddGuest(g)),
                q.lockId, AddConnect(conId)), q.lockId, AddHistory(hisId)), q.lockId, DropRequest(q.reqId));
    assert LockIds(ls) == LockIds(locks);
    assert u.guest[|u.guest| - 1].lockId !in LockIds(ls);
    assert !UserClosed(u, LockIds(ls));
  }
}
