/** The write endpoints of main.py over one sequential store.

    `Store` holds one sequence per MongoDB collection, in insertion order.
    `find_one` and `update_one` act on the first record that matches,
    `$push` appends, `$pull` removes every equal element, `insert_one`
    appends a record and `delete_one` removes the first matching one.
    `datetime.now()` is the parameter `now`, read once per call.

    Each endpoint states the whole new state of what it modifies.
    `Invariants` proves, about those state expressions, when the store's
    invariant survives an endpoint: ids stay numbered from the collection
    count and marker ids stay fresh on every input, but the two sides of
    every grant agree afterwards only when the lock and the user an endpoint
    writes to exist and a new lock id is unused. post_new_lock and
    accept_request check none of that, and on such inputs they break the
    invariant (`Invariants.ReusedLockIdBreaksStore`,
    `Invariants.UnknownCreatorBreaksStore`,
    `Invariants.MissingLockGrantBreaksStore`); `PostNewLockChecked` and
    `AcceptRequestChecked` are the versions with the checks.
    `AcceptAllRequest` carries the invariant through its loop itself, on
    the inputs where each of its accept_request calls keeps it. */
module Service {
  import opened Common
  import opened Ids
  import opened Records
  import opened Probes
  import opened Mirror
  import opened Steps
  import opened Invariants

  /** The server's answer to a `delete_one` whose second positional
      argument, the collation, is the projection `{'_id': 0}`: pymongo
      raises `OperationFailure`. */
  const CollationRejected: string := "OperationFailure: invalid collation"

  class Store {
    var users: seq<User>
    var locks: seq<Lock>
    var requests: seq<Request>
    var invitations: seq<Invitation>
    var others: seq<Other>
    var histories: seq<History>
    var connects: seq<Connection>
    var warnings: seq<Warning>

    constructor ()
      ensures users == [] && locks == [] && requests == [] && invitations == []
      ensures others == [] && histories == [] && connects == [] && warnings == []
    {
      users, locks, requests, invitations := [], [], [], [];
      others, histories, connects, warnings := [], [], [], [];
    }

    // -------------------------------------------------------------------
    // Id helpers (main.py:120-249). The four whose probe key differs from
    // the stored key always return the first candidate.

    method GenerateRequestId() returns (id: string)
      ensures id == MakeId("req", |requests| + 1)
    {
      id := GenerateId("req", |requests|, ValuesUnder(RequestDocs(requests), "requestId"));
      RequestIdIsFirstCandidate(requests);
    }

    method GenerateInvitationId() returns (id: string)
      ensures id == MakeId("invite", |invitations| + 1)
    {
      id := GenerateId("invite", |invitations|, ValuesUnder(InvitationDocs(invitations), "invitationId"));
      InvitationIdIsFirstCandidate(invitations);
    }

    method GenerateConnectId() returns (id: string)
      ensures id == MakeId("con", |connects| + 1)
    {
      id := GenerateId("con", |connects|, ValuesUnder(ConnectionDocs(connects), "connectId"));
      ConnectIdIsFirstCandidate(connects);
    }

    method GenerateHistoryId() returns (id: string)
      ensures id == MakeId("his", |histories| + 1)
    {
      id := GenerateId("his", |histories|, ValuesUnder(HistoryDocs(histories), "historyId"));
      HistoryIdIsFirstCandidate(histories);
    }

    /** The probe sees the stored marker ids, so the id is unused. */
    method GenerateOtherId() returns (id: string)
      ensures id !in OtherIds(others) && HasPrefix(id, "other")
    {
      id := GenerateId("other", |others|, ValuesUnder(OtherDocs(others), "otherId"));
      OtherIdFresh(others);
    }

    method GenerateWarningId() returns (id: string)
      ensures id == NextWarningId(warnings)
      ensures id !in WarningIds(warnings)
    {
      id := GenerateId("warning", |warnings|, ValuesUnder(WarningDocs(warnings), "warningId"));
      WarningIdFresh(warnings);
    }

    // -------------------------------------------------------------------
    // Locks and locations.

    /** post_new_lock (main.py:813-868). The duplicate check compares a
        string with embedded documents and never fires. */
    method PostNewLock(userId: string, lockId: string, lockName: string, lockLocation: string, lockImage: string)
      returns (r: Outcome)
      modifies this`locks, this`users
      ensures r == Done
      ensures locks == old(locks) + [FreshLock(lockId, userId)]
      ensures users == EditUser(EditUser(old(users), userId, AddLocation(lockLocation)),
                                userId, AddAdminDetail(LockDetail(lockId, lockName, lockLocation, lockImage)))
    {
      var hit := FindAdminQuery(users, userId, lockId);
      AdminQueryNeverMatches(users, userId, lockId);
      if hit.Some? {
        assert false;
      }
      locks := locks + [FreshLock(lockId, userId)];
      users := EditUser(users, userId, AddLocation(lockLocation));
      var d := LockDetail(lockId, lockName, lockLocation, lockImage);
      users := EditUser(users, userId, AddAdminDetail(d));
      r := Done;
    }

    /** post_new_lock with the duplicate check its comment describes (a lock
        id some lock already has is refused) and a refusal of a creator
        with no user document. Unlike `PostNewLock`
        (`Invariants.ReusedLockIdBreaksStore`,
        `Invariants.UnknownCreatorBreaksStore`) it keeps the store's
        invariant on every input. */
    method PostNewLockChecked(userId: string, lockId: string, lockName: string, lockLocation: string, lockImage: string)
      returns (r: Outcome)
      requires StoreOk(users, locks, requests, invitations, others, histories, connects)
      modifies this`locks, this`users
      ensures StoreOk(users, locks, requests, invitations, others, histories, connects)
      ensures lockId in LockIds(old(locks))
              ==> r == Fail(Conflict("Lock ID Already Exists")) && locks == old(locks) && users == old(users)
      ensures lockId !in LockIds(old(locks)) && userId !in UserIds(old(users))
              ==> r == Fail(NotFound("User not found")) && locks == old(locks) && users == old(users)
      ensures lockId !in LockIds(old(locks)) && userId in UserIds(old(users)) ==>
        && r == Done
        && locks == old(locks) + [FreshLock(lockId, userId)]
        && users == EditUser(EditUser(old(users), userId, AddLocation(lockLocation)),
                             userId, AddAdminDetail(LockDetail(lockId, lockName, lockLocation, lockImage)))
    {
      if lockId in LockIds(locks) {
        r := Fail(Conflict("Lock ID Already Exists"));
        return;
      }
      if userId !in UserIds(users) {
        r := Fail(NotFound("User not found"));
        return;
      }
      PostNewLockKeepsStore(users, locks, requests, invitations, others, histories, connects,
                            userId, lockId, lockName, lockLocation, lockImage);
      r := PostNewLock(userId, lockId, lockName, lockLocation, lockImage);
    }

    /** post_lock_location (main.py:1032-1058). */
    method PostLockLocation(userId: string, location: string) returns (r: Outcome)
      modifies this`users
      ensures FindUserLocation(old(users), userId, location).Some?
              ==> r == Fail(Conflict("Lock location already exists")) && users == old(users)
      ensures FindUserLocation(old(users), userId, location).None?
              ==> r == Done && users == EditUser(old(users), userId, AddLocation(location))
    {
      var dup := FindUserLocation(users, userId, location);
      if dup.Some? {
        r := Fail(Conflict("Lock location already exists"));
        return;
      }
      users := EditUser(users, userId, AddLocation(location));
      r := Done;
    }

    // -------------------------------------------------------------------
    // Requests.

    /** post_new_request (main.py:871-960). */
    method PostNewRequest(lockId: string, lockName: string, lockLocation: string, lockImage: string, userId: string, now: int)
      returns (r: Outcome)
      modifies this`requests, this`locks, this`others, this`histories
      ensures FindRequestPair(old(requests), lockId, userId).Some?
              ==> r == Fail(Conflict("Request already exists"))
                  && requests == old(requests) && locks == old(locks) && others == old(others) && histories == old(histories)
      ensures FindRequestPair(old(requests), lockId, userId).None? ==>
        var reqId := MakeId("req", |old(requests)| + 1);
        var hisId := MakeId("his", |old(histories)| + 1);
        && r == Done
        && requests == old(requests) + [Request(reqId, lockId, lockName, lockLocation, lockImage, userId, Sent, now)]
        && locks == EditLock(EditLock(old(locks), lockId, AddRequest(reqId)), lockId, AddHistory(hisId))
        && AppendedMarker(old(others), others, "sent", userId, None, lockId, now)
        && histories == old(histories) + [History(hisId, userId, lockId, "req", now)]
    {
      var dup := FindRequestPair(requests, lockId, userId);
      if dup.Some? {
        r := Fail(Conflict("Request already exists"));
        return;
      }
      var reqId := GenerateRequestId();
      var otherId := GenerateOtherId();
      var hisId := GenerateHistoryId();
      var o := Other(otherId, "sent", userId, None, lockId, now);
      MarkerAppend(others, o);
      var ls := EditLock(locks, lockId, AddRequest(reqId));
      ls := EditLock(ls, lockId, AddHistory(hisId));
      requests := requests + [Request(reqId, lockId, lockName, lockLocation, lockImage, userId, Sent, now)];
      others := others + [o];
      histories := histories + [History(hisId, userId, lockId, "req", now)];
      locks := ls;
      r := Done;
    }

    /** accept_request (main.py:1705-1828). The request's status is not
        checked: an accepted or declined request is accepted again. */
    method AcceptRequest(reqId: string, expire: int, now: int) returns (r: Outcome)
      modifies this`requests, this`locks, this`users, this`connects, this`histories, this`others
      ensures FindRequest(old(requests), reqId).None? ==>
        && r == Fail(NotFound("Request not found"))
        && requests == old(requests) && locks == old(locks) && users == old(users)
        && connects == old(connects) && histories == old(histories) && others == old(others)
      ensures FindRequest(old(requests), reqId).Some? ==>
        var i := FindRequest(old(requests), reqId).value;
        var q := old(requests)[i];
        var g := RequestGuest(q, expire);
        var conId := MakeId("con", |old(connects)| + 1);
        var hisId := MakeId("his", |old(histories)| + 1);
        && r == Done
        && requests == old(requests)[i := AcceptedRequest(q, expire)]
        && locks == EditLock(EditLock(EditLock(EditLock(old(locks), q.lockId, AddGuest(g)),
                      q.lockId, AddConnect(conId)), q.lockId, AddHistory(hisId)), q.lockId, DropRequest(reqId))
        && users == EditUser(EditUser(old(users), q.userId, AddGuestGrant(g)), q.userId, AddLocation(q.lockLocation))
        && connects == old(connects) + [Connection(conId, q.lockId, q.userId, "guest", now)]
        && histories == old(histories) + [History(hisId, q.userId, q.lockId, "connect", now)]
        && AppendedMarker(old(others), others, "accepted", q.userId, None, q.lockId, now)
    {
      var found := FindRequest(requests, reqId);
      if found.None? {
        r := Fail(NotFound("Request not found"));
        return;
      }
      var i := found.value;
      var q := requests[i];
      var g := RequestGuest(q, expire);
      var conId := GenerateConnectId();
      var hisId := GenerateHistoryId();
      var otherId := GenerateOtherId();
      var o := Other(otherId, "accepted", q.userId, None, q.lockId, now);
      MarkerAppend(others, o);
      // The marker delete filters on `submode` and removes nothing.
      SentMarkerDeleteIsNoOp(others + [o], q.userId, q.lockId);
      var ls := EditLock(locks, q.lockId, AddGuest(g));
      ls := EditLock(ls, q.lockId, AddConnect(conId));
      ls := EditLock(ls, q.lockId, AddHistory(hisId));
      ls := EditLock(ls, q.lockId, DropRequest(reqId));
      var us := EditUser(users, q.userId, AddGuestGrant(g));
      us := EditUser(us, q.userId, AddLocation(q.lockLocation));
      requests := requests[i := AcceptedRequest(q, expire)];
      connects := connects + [Connection(conId, q.lockId, q.userId, "guest", now)];
      histories := histories + [History(hisId, q.userId, q.lockId, "connect", now)];
      others := DeleteOne(others + [o], SentMarkerFilter(q.userId, q.lockId));
      locks := ls;
      users := us;
      r := Done;
    }

    /** accept_request that refuses a request whose lock or requester has
        no document. Unlike `AcceptRequest`
        (`Invariants.MissingLockGrantBreaksStore`) it keeps the store's
        invariant on every input. */
    method AcceptRequestChecked(reqId: string, expire: int, now: int) returns (r: Outcome)
      requires StoreOk(users, locks, requests, invitations, others, histories, connects)
      modifies this`requests, this`locks, this`users, this`connects, this`histories, this`others
      ensures StoreOk(users, locks, requests, invitations, others, histories, connects)
      ensures FindRequest(old(requests), reqId).None? ==>
        && r == Fail(NotFound("Request not found"))
        && requests == old(requests) && locks == old(locks) && users == old(users)
        && connects == old(connects) && histories == old(histories) && others == old(others)
      ensures FindRequest(old(requests), reqId).Some? ==>
        var q := old(requests)[FindRequest(old(requests), reqId).value];
        (q.lockId !in LockIds(old(locks)) || q.userId !in UserIds(old(users))) ==>
          && r == Fail(NotFound(if q.lockId !in LockIds(old(locks)) then "Lock not found" else "User not found"))
          && requests == old(requests) && locks == old(locks) && users == old(users)
          && connects == old(connects) && histories == old(histories) && others == old(others)
      ensures FindRequest(old(requests), reqId).Some? ==>
        var i := FindRequest(old(requests), reqId).value;
        var q := old(requests)[i];
        var g := RequestGuest(q, expire);
        var conId := MakeId("con", |old(connects)| + 1);
        var hisId := MakeId("his", |old(histories)| + 1);
        (q.lockId in LockIds(old(locks)) && q.userId in UserIds(old(users))) ==>
          && r == Done
          && requests == old(requests)[i := AcceptedRequest(q, expire)]
          && locks == EditLock(EditLock(EditLock(EditLock(old(locks), q.lockId, AddGuest(g)),
                        q.lockId, AddConnect(conId)), q.lockId, AddHistory(hisId)), q.lockId, DropRequest(reqId))
          && users == EditUser(EditUser(old(users), q.userId, AddGuestGrant(g)), q.userId, AddLocation(q.lockLocation))
          && connects == old(connects) + [Connection(conId, q.lockId, q.userId, "guest", now)]
          && histories == old(histories) + [History(hisId, q.userId, q.lockId, "connect", now)]
          && AppendedMarker(old(others), others, "accepted", q.userId, None, q.lockId, now)
    {
      var found := FindRequest(requests, reqId);
      if found.None? {
        r := Fail(NotFound("Request not found"));
        return;
      }
      var q := requests[found.value];
      if q.lockId !in LockIds(locks) {
        r := Fail(NotFound("Lock not found"));
        return;
      }
      if q.userId !in UserIds(users) {
        r := Fail(NotFound("User not found"));
        return;
      }
      // the state accept_request leaves, named before the call
      ghost var us0, ls0, rs0, vs0, os0, hs0, cs0 := users, locks, requests, invitations, others, histories, connects;
      ghost var g := RequestGuest(q, expire);
      ghost var conId := MakeId("con", |connects| + 1);
      ghost var hisId := MakeId("his", |histories| + 1);
      ghost var us1 := EditUser(EditUser(users, q.userId, AddGuestGrant(g)), q.userId, AddLocation(q.lockLocation));
      ghost var ls1 := EditLock(EditLock(EditLock(EditLock(locks, q.lockId, AddGuest(g)),
                         q.lockId, AddConnect(conId)), q.lockId, AddHistory(hisId)), q.lockId, DropRequest(reqId));
      ghost var rs1 := requests[found.value := AcceptedRequest(q, expire)];
      ghost var hs1 := histories + [History(hisId, q.userId, q.lockId, "connect", now)];
      ghost var cs1 := connects + [Connection(conId, q.lockId, q.userId, "guest", now)];
      r := AcceptRequest(reqId, expire, now);
      assert users == us1 && locks == ls1 && requests == rs1 && histories == hs1 && connects == cs1;
      AcceptRequestKeepsStore(us0, ls0, rs0, vs0, os0, hs0, cs0, others, found.value, expire, now);
      assert StoreOk(us1, ls1, rs1, vs0, others, hs1, cs1);
    }

    /** accept_all_request (main.py:1831-1858): accept_request on every
        request of the lock, whatever its status, in collection order. The
        loop walks the collection as it was on entry and skips the requests
        of other locks, which calls accept_request on the same ids in the
        same order as iterating over the query result. Request ids are
        distinct in every store the endpoints build
        (`Invariants.StoreRequestIdsDistinct`).

        When the lock exists it ends up with one guest entry per request
        and with none of their ids in its request list; every stored
        requester holds the guest entry of each of its requests. The
        store's invariant is kept when every request of the lock names a
        stored lock and a stored user, the condition under which one
        accept_request keeps it. */
    method AcceptAllRequest(lockId: string, expire: int, now: int) returns (r: Outcome)
      requires Distinct(RequestIds(requests))
      modifies this`requests, this`locks, this`users, this`connects, this`histories, this`others
      ensures r == Done
      ensures |requests| == |old(requests)|
      ensures forall i :: 0 <= i < |requests| ==>
        requests[i] == if old(requests)[i].lockId == lockId then AcceptedRequest(old(requests)[i], expire) else old(requests)[i]
      ensures |connects| == |old(connects)| + |LockRequestIds(old(requests), lockId)|
      ensures |histories| == |old(histories)| + |LockRequestIds(old(requests), lockId)|
      ensures |others| == |old(others)| + |LockRequestIds(old(requests), lockId)|
      ensures LockIds(locks) == LockIds(old(locks)) && UserIds(users) == UserIds(old(users))
      ensures FindLock(old(locks), lockId).None? ==> locks == old(locks)
      ensures FindLock(old(locks), lockId).Some? ==>
        var li := FindLock(old(locks), lockId).value;
        && locks[li].guest == old(locks)[li].guest + LockGrants(old(requests), lockId, expire)
        && forall k :: 0 <= k < |old(requests)| && old(requests)[k].lockId == lockId ==>
             old(requests)[k].reqId !in locks[li].request
      ensures forall k ::
        0 <= k < |old(requests)| && old(requests)[k].lockId == lockId && FindUser(old(users), old(requests)[k].userId).Some? ==>
        RequestGuest(old(requests)[k], expire) in users[FindUser(old(users), old(requests)[k].userId).value].guest
      ensures old(StoreOk(users, locks, requests, invitations, others, histories, connects))
              && RequestsResolve(old(requests), old(locks), old(users), lockId) ==>
        StoreOk(users, locks, requests, invitations, others, histories, connects)
    {
      var rs0 := requests;
      ghost var ls0, us0 := locks, users;
      ghost var fl := FindLock(locks, lockId);
      ghost var ready := StoreOk(users, locks, requests, invitations, others, histories, connects)
                         && RequestsResolve(requests, locks, users, lockId);
      var n := 0;
      ghost var accepted := 0;
      while n < |rs0|
        invariant 0 <= n <= |rs0|
        invariant requests == AcceptedPrefix(rs0, lockId, expire, n)
        invariant accepted == |LockRequestIds(rs0[..n], lockId)|
        invariant |connects| == |old(connects)| + accepted
        invariant |histories| == |old(histories)| + accepted
        invariant |others| == |old(others)| + accepted
        invariant LockIds(locks) == LockIds(ls0) && UserIds(users) == UserIds(us0)
        invariant fl.None? ==> locks == ls0
        invariant fl.Some? ==> locks[fl.value].guest == ls0[fl.value].guest + LockGrants(rs0[..n], lockId, expire)
        invariant fl.Some? ==> forall k :: 0 <= k < n && rs0[k].lockId == lockId ==> rs0[k].reqId !in locks[fl.value].request
        invariant forall k :: 0 <= k < n && rs0[k].lockId == lockId && FindUser(us0, rs0[k].userId).Some? ==>
          RequestGuest(rs0[k], expire) in users[FindUser(us0, rs0[k].userId).value].guest
        invariant ready ==> StoreOk(users, locks, requests, invitations, others, histories, connects)
      {
        LockRequestIdsSnoc(rs0, n, lockId);
        if rs0[n].lockId == lockId {
          AcceptOne(rs0, n, lockId, expire, now, ls0, us0, fl, ready);
          accepted := accepted + 1;
        } else {
          AcceptedPrefixStep(rs0, lockId, expire, n);
          AcceptAllSkip(rs0, n, lockId, expire, ls0, locks, us0, users);
        }
        n := n + 1;
      }
      assert rs0[..n] == rs0;
      r := Done;
    }

    /** One round of accept_all_request's loop, on the `n`-th request of the
        collection as it was on entry, when that request is on the lock. */
    method AcceptOne(rs0: seq<Request>, n: nat, lockId: string, expire: int, now: int,
                     ghost ls0: seq<Lock>, ghost us0: seq<User>, ghost fl: Option<nat>, ghost ready: bool)
      requires n < |rs0| && rs0[n].lockId == lockId
      requires Distinct(RequestIds(rs0))
      requires requests == AcceptedPrefix(rs0, lockId, expire, n)
      requires LockIds(locks) == LockIds(ls0) && UserIds(users) == UserIds(us0)
      requires fl == FindLock(ls0, lockId)
      requires fl.None? ==> locks == ls0
      requires fl.Some? ==> locks[fl.value].guest == ls0[fl.value].guest + LockGrants(rs0[..n], lockId, expire)
      requires fl.Some? ==> forall k :: 0 <= k < n && rs0[k].lockId == lockId ==> rs0[k].reqId !in locks[fl.value].request
      requires forall k :: 0 <= k < n && rs0[k].lockId == lockId && FindUser(us0, rs0[k].userId).Some? ==>
        RequestGuest(rs0[k], expire) in users[FindUser(us0, rs0[k].userId).value].guest
      requires ready ==> StoreOk(users, locks, requests, invitations, others, histories, connects)
                         && RequestsResolve(rs0, ls0, us0, lockId)
      modifies this`requests, this`locks, this`users, this`connects, this`histories, this`others
      ensures requests == AcceptedPrefix(rs0, lockId, expire, n + 1)
      ensures |connects| == |old(connects)| + 1 && |histories| == |old(histories)| + 1 && |others| == |old(others)| + 1
      ensures LockIds(locks) == LockIds(ls0) && UserIds(users) == UserIds(us0)
      ensures fl.None? ==> locks == ls0
      ensures fl.Some? ==> locks[fl.value].guest == ls0[fl.value].guest + LockGrants(rs0[..n + 1], lockId, expire)
      ensures fl.Some? ==> forall k :: 0 <= k < n + 1 && rs0[k].lockId == lockId ==> rs0[k].reqId !in locks[fl.value].request
      ensures forall k :: 0 <= k < n + 1 && rs0[k].lockId == lockId && FindUser(us0, rs0[k].userId).Some? ==>
        RequestGuest(rs0[k], expire) in users[FindUser(us0, rs0[k].userId).value].guest
      ensures ready ==> StoreOk(users, locks, requests, invitations, others, histories, connects)
    {
      AcceptedPrefixStep(rs0, lockId, expire, n);
      assert RequestIds(requests)[n] == rs0[n].reqId;
      IndexOfDistinct(RequestIds(requests), n);
      ghost var q := rs0[n];
      ghost var ls1, us1, rs1, os1, hs1, cs1 := locks, users, requests, others, histories, connects;
      ghost var conId := MakeId("con", |connects| + 1);
      ghost var hisId := MakeId("his", |histories| + 1);
      ghost var ls2 := AcceptedLocks(ls1, q, expire, conId, hisId);
      ghost var us2 := AcceptedUsers(us1, q, expire);
      AcceptAllLockStep(rs0, n, lockId, expire, ls0, ls1, conId, hisId);
      AcceptAllUserStep(rs0, n, lockId, expire, us0, us1);
      var _ := AcceptRequest(rs0[n].reqId, expire, now);
      assert locks == ls2 && users == us2;
      if ready {
        AcceptRequestKeepsStore(us1, ls1, rs1, invitations, os1, hs1, cs1, others, n, expire, now);
      }
    }

    /** decline_request (main.py:1861-1896). */
    method DeclineRequest(reqId: string) returns (r: Outcome)
      modifies this`requests, this`locks, this`others
      ensures FindRequest(old(requests), reqId).None? ==>
        r == Fail(NotFound("Request not found")) && requests == old(requests) && locks == old(locks)
      ensures FindRequest(old(requests), reqId).Some? ==>
        var i := FindRequest(old(requests), reqId).value;
        var q := old(requests)[i];
        && r == Done
        && requests == old(requests)[i := q.(requestStatus := Declined)]
        && locks == EditLock(old(locks), q.lockId, DropRequest(reqId))
      ensures others == old(others)
    {
      var found := FindRequest(requests, reqId);
      if found.None? {
        r := Fail(NotFound("Request not found"));
        return;
      }
      var q := requests[found.value];
      requests := requests[found.value := q.(requestStatus := Declined)];
      locks := EditLock(locks, q.lockId, DropRequest(reqId));
      // The marker delete filters on `submode` and removes nothing.
      SentMarkerDeleteIsNoOp(others, q.userId, q.lockId);
      others := DeleteOne(others, SentMarkerFilter(q.userId, q.lockId));
      r := Done;
    }

    // -------------------------------------------------------------------
    // Invitations.

    /** post_new_invitation (main.py:963-1029). */
    method PostNewInvitation(srcUserId: string, desUserId: string, role: string, lockId: string, dateTime: Option<int>, now: int)
      returns (r: Outcome)
      modifies this`invitations, this`locks, this`others
      ensures FindInvitationTriple(old(invitations), srcUserId, desUserId, lockId).Some?
              ==> r == Fail(Conflict("Invitation already exists"))
                  && invitations == old(invitations) && locks == old(locks) && others == old(others)
      ensures FindInvitationTriple(old(invitations), srcUserId, desUserId, lockId).None? ==>
        var stamp := if dateTime.Some? then dateTime.value else now;
        var v := Invitation(MakeId("invite", |old(invitations)| + 1), srcUserId, desUserId, role, lockId, Invite, stamp);
        && r == Done
        && invitations == old(invitations) + [v]
        && locks == EditLock(old(locks), lockId, AddInvitation(v.invId))
        && AppendedMarker(old(others), others, "invite", desUserId, Some(role), lockId, stamp)
    {
      var dup := FindInvitationTriple(invitations, srcUserId, desUserId, lockId);
      if dup.Some? {
        r := Fail(Conflict("Invitation already exists"));
        return;
      }
      var invId := GenerateInvitationId();
      var stamp := if dateTime.Some? then dateTime.value else now;
      invitations := invitations + [Invitation(invId, srcUserId, desUserId, role, lockId, Invite, stamp)];
      locks := EditLock(locks, lockId, AddInvitation(invId));
      var otherId := GenerateOtherId();
      var o := Other(otherId, "invite", desUserId, Some(role), lockId, stamp);
      MarkerAppend(others, o);
      others := others + [o];
      r := Done;
    }

    /** accept_invitation (main.py:1899-2034). Every write up to the pull
        of the invitation from the lock is done; the closing `delete_one`
        passes `{'_id': 0}` as its second positional argument, which pymongo
        sends as the collation, and the server's refusal propagates as a
        500. The invitation's marker therefore stays
        (`Steps.InviteMarkerLingers`); `AcceptInvitationAsIntended` is the
        endpoint without that argument. */
    method AcceptInvitation(invId: string, lockName: string, lockLocation: string, lockImage: string, now: int)
      returns (r: Outcome)
      modifies this`invitations, this`locks, this`users, this`connects, this`histories, this`others
      ensures FindInvitation(old(invitations), invId).None? ==>
        && r == Fail(NotFound("Invitation not found"))
        && invitations == old(invitations) && locks == old(locks) && users == old(users)
        && connects == old(connects) && histories == old(histories) && others == old(others)
      ensures FindInvitation(old(invitations), invId).Some? ==>
        var i := FindInvitation(old(invitations), invId).value;
        var v := old(invitations)[i];
        var d := LockDetail(v.lockId, lockName, lockLocation, lockImage);
        var g := Guest(v.desUserId, v.lockId, lockName, lockLocation, lockImage, None);
        var conId := MakeId("con", |old(connects)| + 1);
        var hisId := MakeId("his", |old(histories)| + 1);
        && r == Fail(Internal(CollationRejected))
        && invitations == old(invitations)[i := v.(invStatus := Accepted)]
        && locks == EditLock(EditLock(EditLock(EditLock(old(locks), v.lockId, InviteLockEdit(v, g)),
                      v.lockId, AddConnect(conId)), v.lockId, AddHistory(hisId)), v.lockId, DropInvitation(invId))
        && users == EditUser(EditUser(old(users), v.desUserId, InviteUserEdit(v, d, g)), v.desUserId, AddLocation(lockLocation))
        && connects == old(connects) + [Connection(conId, v.lockId, v.desUserId, v.role, now)]
        && histories == old(histories) + [History(hisId, v.desUserId, v.lockId, "connect", now)]
        && AppendedMarker(old(others), others, "accepted", v.desUserId, None, v.lockId, now)
    {
      var found := FindInvitation(invitations, invId);
      if found.None? {
        r := Fail(NotFound("Invitation not found"));
        return;
      }
      var i := found.value;
      var v := invitations[i];
      var d := LockDetail(v.lockId, lockName, lockLocation, lockImage);
      var g := Guest(v.desUserId, v.lockId, lockName, lockLocation, lockImage, None);
      var conId := GenerateConnectId();
      var hisId := GenerateHistoryId();
      var otherId := GenerateOtherId();
      var o := Other(otherId, "accepted", v.desUserId, None, v.lockId, now);
      MarkerAppend(others, o);
      var ls := EditLock(locks, v.lockId, InviteLockEdit(v, g));
      ls := EditLock(ls, v.lockId, AddConnect(conId));
      ls := EditLock(ls, v.lockId, AddHistory(hisId));
      ls := EditLock(ls, v.lockId, DropInvitation(invId));
      var us := EditUser(users, v.desUserId, InviteUserEdit(v, d, g));
      us := EditUser(us, v.desUserId, AddLocation(lockLocation));
      invitations := invitations[i := v.(invStatus := Accepted)];
      connects := connects + [Connection(conId, v.lockId, v.desUserId, v.role, now)];
      histories := histories + [History(hisId, v.desUserId, v.lockId, "connect", now)];
      others := others + [o];
      locks := ls;
      users := us;
      // the marker delete raises before the reply is built
      r := Fail(Internal(CollationRejected));
    }

    /** accept_invitation with its marker delete called on the filter
        alone: the invitation's own marker goes
        (`Probes.InviteMarkerDeleted`), the new `accepted` marker stays. */
    method AcceptInvitationAsIntended(invId: string, lockName: string, lockLocation: string, lockImage: string, now: int)
      returns (r: Outcome)
      modifies this`invitations, this`locks, this`users, this`connects, this`histories, this`others
      ensures FindInvitation(old(invitations), invId).None? ==>
        && r == Fail(NotFound("Invitation not found"))
        && invitations == old(invitations) && locks == old(locks) && users == old(users)
        && connects == old(connects) && histories == old(histories) && others == old(others)
      ensures FindInvitation(old(invitations), invId).Some? ==>
        var i := FindInvitation(old(invitations), invId).value;
        var v := old(invitations)[i];
        var d := LockDetail(v.lockId, lockName, lockLocation, lockImage);
        var g := Guest(v.desUserId, v.lockId, lockName, lockLocation, lockImage, None);
        var conId := MakeId("con", |old(connects)| + 1);
        var hisId := MakeId("his", |old(histories)| + 1);
        && r == Done
        && invitations == old(invitations)[i := v.(invStatus := Accepted)]
        && locks == EditLock(EditLock(EditLock(EditLock(old(locks), v.lockId, InviteLockEdit(v, g)),
                      v.lockId, AddConnect(conId)), v.lockId, AddHistory(hisId)), v.lockId, DropInvitation(invId))
        && users == EditUser(EditUser(old(users), v.desUserId, InviteUserEdit(v, d, g)), v.desUserId, AddLocation(lockLocation))
        && connects == old(connects) + [Connection(conId, v.lockId, v.desUserId, v.role, now)]
        && histories == old(histories) + [History(hisId, v.desUserId, v.lockId, "connect", now)]
        && AppendedMarker(DeleteOne(old(others), InviteMarkerFilter(v)), others, "accepted", v.desUserId, None, v.lockId, now)
    {
      var found := FindInvitation(invitations, invId);
      if found.None? {
        r := Fail(NotFound("Invitation not found"));
        return;
      }
      var i := found.value;
      var v := invitations[i];
      var d := LockDetail(v.lockId, lockName, lockLocation, lockImage);
      var g := Guest(v.desUserId, v.lockId, lockName, lockLocation, lockImage, None);
      var conId := GenerateConnectId();
      var hisId := GenerateHistoryId();
      var otherId := GenerateOtherId();
      var o := Other(otherId, "accepted", v.desUserId, None, v.lockId, now);
      // The invitation's own marker goes; the new `accepted` one stays.
      AcceptedMarkerUnmatched(otherId, v, now);
      DeleteOneAppend(others, o, InviteMarkerFilter(v));
      DeleteKeepsAbsent(others, InviteMarkerFilter(v), otherId);
      MarkerAppend(DeleteOne(others, InviteMarkerFilter(v)), o);
      var ls := EditLock(locks, v.lockId, InviteLockEdit(v, g));
      ls := EditLock(ls, v.lockId, AddConnect(conId));
      ls := EditLock(ls, v.lockId, AddHistory(hisId));
      ls := EditLock(ls, v.lockId, DropInvitation(invId));
      var us := EditUser(users, v.desUserId, InviteUserEdit(v, d, g));
      us := EditUser(us, v.desUserId, AddLocation(lockLocation));
      invitations := invitations[i := v.(invStatus := Accepted)];
      connects := connects + [Connection(conId, v.lockId, v.desUserId, v.role, now)];
      histories := histories + [History(hisId, v.desUserId, v.lockId, "connect", now)];
      others := DeleteOne(others + [o], InviteMarkerFilter(v));
      locks := ls;
      users := us;
      r := Done;
    }

    /** decline_invitation (main.py:2037-2072). The status update and the
        pull are done; the marker delete fails as in accept_invitation,
        so the markers are untouched and the reply is a 500. */
    method DeclineInvitation(invId: string) returns (r: Outcome)
      modifies this`invitations, this`locks, this`others
      ensures FindInvitation(old(invitations), invId).None? ==>
        r == Fail(NotFound("Invitation not found"))
        && invitations == old(invitations) && locks == old(locks) && others == old(others)
      ensures FindInvitation(old(invitations), invId).Some? ==>
        var i := FindInvitation(old(invitations), invId).value;
        var v := old(invitations)[i];
        && r == Fail(Internal(CollationRejected))
        && invitations == old(invitations)[i := v.(invStatus := Declined)]
        && locks == EditLock(old(locks), v.lockId, DropInvitation(invId))
        && others == old(others)
    {
      var found := FindInvitation(invitations, invId);
      if found.None? {
        r := Fail(NotFound("Invitation not found"));
        return;
      }
      var v := invitations[found.value];
      invitations := invitations[found.value := v.(invStatus := Declined)];
      locks := EditLock(locks, v.lockId, DropInvitation(invId));
      // the marker delete raises before the reply is built
      r := Fail(Internal(CollationRejected));
    }

    /** decline_invitation with its marker delete called on the filter
        alone. */
    method DeclineInvitationAsIntended(invId: string) returns (r: Outcome)
      modifies this`invitations, this`locks, this`others
      ensures FindInvitation(old(invitations), invId).None? ==>
        r == Fail(NotFound("Invitation not found"))
        && invitations == old(invitations) && locks == old(locks) && others == old(others)
      ensures FindInvitation(old(invitations), invId).Some? ==>
        var i := FindInvitation(old(invitations), invId).value;
        var v := old(invitations)[i];
        && r == Done
        && invitations == old(invitations)[i := v.(invStatus := Declined)]
        && locks == EditLock(old(locks), v.lockId, DropInvitation(invId))
        && others == DeleteOne(old(others), InviteMarkerFilter(v))
    {
      var found := FindInvitation(invitations, invId);
      if found.None? {
        r := Fail(NotFound("Invitation not found"));
        return;
      }
      var v := invitations[found.value];
      invitations := invitations[found.value := v.(invStatus := Declined)];
      locks := EditLock(locks, v.lockId, DropInvitation(invId));
      others := DeleteOne(others, InviteMarkerFilter(v));
      r := Done;
    }

    // -------------------------------------------------------------------
    // Notification deletes.

    /** delete_warning_notification (main.py:1607-1641). Without an id (or
        with an empty one) the lock's warnings are cleared. With an id the
        `$pull` condition is the document `{'reqId': notiId}`, which no
        element of the list of warning id strings equals, so nothing is
        removed. */
    method DeleteWarningNotification(lockId: string, notiId: Option<string>) returns (r: Outcome)
      modifies this`locks
      ensures r == Done
      ensures notiId.None? || notiId.value == "" ==> locks == EditLock(old(locks), lockId, ClearWarnings)
      ensures notiId.Some? && notiId.value != "" ==> locks == old(locks)
    {
      if notiId.None? || notiId.value == "" {
        locks := EditLock(locks, lockId, ClearWarnings);
      }
      r := Done;
    }

    /** delete_invitation_notification (main.py:1644-1680). The one id is
        used both as an invitation id and as a marker id; the `$pull` on the
        markers names a field markers do not have and changes nothing. */
    method DeleteInvitationNotification(notiId: string) returns (r: Outcome)
      modifies this`invitations, this`locks, this`others
      ensures FindInvitation(old(invitations), notiId).None? ==>
        r == Fail(Internal("'NoneType' object is not subscriptable"))
        && invitations == old(invitations) && locks == old(locks) && others == old(others)
      ensures FindInvitation(old(invitations), notiId).Some? ==>
        var i := FindInvitation(old(invitations), notiId).value;
        var v := old(invitations)[i];
        && r == Done
        && invitations == old(invitations)[i := v.(invStatus := Declined)]
        && locks == EditLock(old(locks), v.lockId, DropInvitation(notiId))
        && others == DeleteOne(old(others), [("otherId", notiId)])
    {
      var found := FindInvitation(invitations, notiId);
      if found.None? {
        // the status update matched nothing; reading the missing record raises
        r := Fail(Internal("'NoneType' object is not subscriptable"));
        return;
      }
      var v := invitations[found.value];
      invitations := invitations[found.value := v.(invStatus := Declined)];
      locks := EditLock(locks, v.lockId, DropInvitation(notiId));
      others := DeleteOne(others, [("otherId", notiId)]);
      r := Done;
    }

    /** delete_other_notification (main.py:1683-1702). */
    method DeleteOtherNotification(notiId: string) returns (r: Outcome)
      modifies this`others
      ensures r == Done
      ensures others == DeleteOne(old(others), [("otherId", notiId)])
    {
      others := DeleteOne(others, [("otherId", notiId)]);
      r := Done;
    }
  }
}
