/** The earlier revision of the service (api/main.py), over its own schema.

    A user lists the locks it administers or is a member of by lock id, and
    its guest entries by the lock id they carry; a lock carries its own
    name, location and image, lists admins and members by user id and its
    guests by the user id of each guest entry. `accept_request` writes to
    two more lists, `roleToUserIdListDict.guest` on the lock and
    `userRoleToLockIdListDict.guest` on the user (`guestUsers` and
    `guestLocks` here), which nothing in this revision reads.

    Lookups and updates act on the first record with the id, as in the
    current revision; `datetime.now()` is the parameter `now`. */
module Legacy {
  import opened Common
  import opened Ids
  import opened Records
  import opened Probes
  import opened Steps
  import opened Feed
  import opened Views

  datatype LegacyUser = LegacyUser(
    userId: string, lockLocationList: seq<string>,
    admin: seq<string>, member: seq<string>, guest: seq<string>,
    guestLocks: seq<string>)

  /** An entry of a lock's warning list: a warning id, or an embedded
      document. */
  datatype WarningEntry = WarningRef(warningId: string) | WarningDoc(doc: Doc)

  datatype LegacyLock = LegacyLock(
    lockId: string, lockName: string, lockLocation: string, lockImage: string,
    lockStatus: string, securityStatus: string, admin: seq<string>, member: seq<string>,
    guest: seq<string>, invitation: seq<string>, request: seq<string>, history: seq<string>,
    warning: seq<WarningEntry>, guestUsers: seq<string>)

  /** A request of this revision. `lockLocation` is absent from the
      requests `post_new_request` stores. */
  datatype LegacyRequest = LegacyRequest(
    reqId: string, lockId: string, userId: string, requestStatus: Status,
    datetime: int, lockLocation: Option<string>)

  function LegacyRequestDoc(q: LegacyRequest): Doc {
    var base := map["reqId" := q.reqId, "lockId" := q.lockId, "userId" := q.userId,
                    "requestStatus" := StatusName(q.requestStatus)];
    if q.lockLocation.Some? then base["lockLocation" := q.lockLocation.value] else base
  }

  function LegacyRequestDocs(rs: seq<LegacyRequest>): seq<Doc> {
    seq(|rs|, i requires 0 <= i < |rs| => LegacyRequestDoc(rs[i]))
  }

  function LegacyUserIds(users: seq<LegacyUser>): seq<string> { seq(|users|, i requires 0 <= i < |users| => users[i].userId) }
  function LegacyLockIds(locks: seq<LegacyLock>): seq<string> { seq(|locks|, i requires 0 <= i < |locks| => locks[i].lockId) }
  function LegacyRequestIds(rs: seq<LegacyRequest>): seq<string> { seq(|rs|, i requires 0 <= i < |rs| => rs[i].reqId) }

  function FindLegacyUser(users: seq<LegacyUser>, userId: string): Option<nat> { IndexOf(LegacyUserIds(users), userId) }
  function FindLegacyLock(locks: seq<LegacyLock>, lockId: string): Option<nat> { IndexOf(LegacyLockIds(locks), lockId) }
  function FindLegacyRequest(rs: seq<LegacyRequest>, reqId: string): Option<nat> { IndexOf(LegacyRequestIds(rs), reqId) }

  /** `find_one({'lockId': lockId})`. */
  function LockOf(locks: seq<LegacyLock>, lockId: string): (r: Option<LegacyLock>)
    ensures r.Some? ==> r.value.lockId == lockId
  {
    match FindLegacyLock(locks, lockId)
    case None => None
    case Some(i) => assert LegacyLockIds(locks)[i] == locks[i].lockId; Some(locks[i])
  }

  /** The request probe of this revision also asks for `requestId`, a key
      its request documents do not store. */
  lemma LegacyRequestIdIsFirstCandidate(rs: seq<LegacyRequest>)
    ensures NextId("req", |rs|, ValuesUnder(LegacyRequestDocs(rs), "requestId")) == MakeId("req", |rs| + 1)
  {
    forall i | 0 <= i < |rs| ensures "requestId" !in LegacyRequestDocs(rs)[i] {
      assert LegacyRequestDocs(rs)[i] == LegacyRequestDoc(rs[i]);
    }
    BlindProbe("req", LegacyRequestDocs(rs), "requestId");
  }

  // ---------------------------------------------------------------------
  // In-place edits of one user or one lock document.

  datatype UserPush =
    | PushLocation(location: string)
    | PushAdmin(lockId: string)
    | PushGuestLock(guestLockId: string)
    | PushGuestEntry(entryLockId: string)

  datatype LockPush =
    | PushRequest(reqId: string)
    | PushHistory(hisId: string)
    | PushGuestUser(guestUserId: string)
    | PushGuest(entryUserId: string)
    | ClearWarningList
    | PullWarning(notiId: string)

  function ApplyUserPush(u: LegacyUser, e: UserPush): LegacyUser {
    match e
    case PushLocation(x) => u.(lockLocationList := u.lockLocationList + [x])
    case PushAdmin(x) => u.(admin := u.admin + [x])
    case PushGuestLock(x) => u.(guestLocks := u.guestLocks + [x])
    case PushGuestEntry(x) => u.(guest := u.guest + [x])
  }

  /** The warning filter `{'reqId': notiId}` of `$pull`. */
  predicate WarningMatches(w: WarningEntry, notiId: string) {
    w.WarningDoc? && Matches(w.doc, [("reqId", notiId)])
  }

  /** `$pull: {'warning': {'reqId': notiId}}`: removes the embedded
      documents whose `reqId` is `notiId`; a plain id never matches a
      condition document. */
  function PullWarnings(ws: seq<WarningEntry>, notiId: string): (r: seq<WarningEntry>)
    ensures forall k :: 0 <= k < |r| ==> r[k] in ws && !WarningMatches(r[k], notiId)
    ensures forall k :: 0 <= k < |ws| && !WarningMatches(ws[k], notiId) ==> ws[k] in r
  {
    if ws == [] then []
    else
      var rest := PullWarnings(ws[1..], notiId);
      assert forall k :: 1 <= k < |ws| ==> ws[k] == ws[1..][k - 1];
      if WarningMatches(ws[0], notiId) then rest else [ws[0]] + rest
  }

  function ApplyLockPush(l: LegacyLock, e: LockPush): LegacyLock {
    match e
    case PushRequest(x) => l.(request := l.request + [x])
    case PushHistory(x) => l.(history := l.history + [x])
    case PushGuestUser(x) => l.(guestUsers := l.guestUsers + [x])
    case PushGuest(x) => l.(guest := l.guest + [x])
    case ClearWarningList => l.(warning := [])
    case PullWarning(x) => l.(warning := PullWarnings(l.warning, x))
  }

  /** `update_one({'userId': userId}, ...)`: edits the first user with the
      id, and nothing when there is none. */
  function PushUser(users: seq<LegacyUser>, userId: string, e: UserPush): (r: seq<LegacyUser>)
    ensures |r| == |users| && LegacyUserIds(r) == LegacyUserIds(users)
  {
    match FindLegacyUser(users, userId)
    case None => users
    case Some(j) =>
      var r := users[j := ApplyUserPush(users[j], e)];
      assert forall k :: 0 <= k < |r| ==> LegacyUserIds(r)[k] == LegacyUserIds(users)[k];
      r
  }

  function UpdateLock(locks: seq<LegacyLock>, lockId: string, e: LockPush): (r: seq<LegacyLock>)
    ensures |r| == |locks| && LegacyLockIds(r) == LegacyLockIds(locks)
  {
    match FindLegacyLock(locks, lockId)
    case None => locks
    case Some(i) =>
      var r := locks[i := ApplyLockPush(locks[i], e)];
      assert forall k :: 0 <= k < |r| ==> LegacyLockIds(r)[k] == LegacyLockIds(locks)[k];
      r
  }

  /** Some user document with the id lists the lock among its admin ids:
      the `{'userId': userId, 'admin': {'$in': [lockId]}}` query. */
  predicate AdminListed(users: seq<LegacyUser>, userId: string, lockId: string) {
    exists j :: 0 <= j < |users| && users[j].userId == userId && lockId in users[j].admin
  }

  /** Some user document with the id lists the location. */
  predicate LocationListedBy(users: seq<LegacyUser>, userId: string, location: string) {
    exists j :: 0 <= j < |users| && users[j].userId == userId && location in users[j].lockLocationList
  }

  /** Some stored request pairs the lock with the user, whatever its status. */
  predicate RequestPairListed(rs: seq<LegacyRequest>, lockId: string, userId: string) {
    exists k :: 0 <= k < |rs| && rs[k].lockId == lockId && rs[k].userId == userId
  }

  /** The lock `post_new_lock` inserts. */
  function NewLegacyLock(lockId: string, lockName: string, lockLocation: string, lockImage: string, userId: string)
    : (l: LegacyLock)
    ensures l.lockId == lockId && l.lockStatus == "secure" && l.securityStatus == "secure" && l.admin == [userId]
    ensures l.member == [] && l.guest == [] && l.invitation == [] && l.request == [] && l.history == [] && l.warning == []
  {
    LegacyLock(lockId, lockName, lockLocation, lockImage, "secure", "secure", [userId], [], [], [], [], [], [], [])
  }

  class LegacyStore {
    var users: seq<LegacyUser>
    var locks: seq<LegacyLock>
    var requests: seq<LegacyRequest>
    var others: seq<Other>
    var histories: seq<History>

    constructor ()
      ensures users == [] && locks == [] && requests == [] && others == [] && histories == []
    {
      users, locks, requests, others, histories := [], [], [], [], [];
    }

    // Id helpers (api/main.py:113-244) used by post_new_request.

    /** `generate_request_id` probes `requestId`, which legacy requests do
        not store, so it returns the first candidate. */
    method GenerateRequestId() returns (id: string)
      ensures id == MakeId("req", |requests| + 1)
    {
      id := GenerateId("req", |requests|, ValuesUnder(LegacyRequestDocs(requests), "requestId"));
      LegacyRequestIdIsFirstCandidate(requests);
    }

    method GenerateOtherId() returns (id: string)
      ensures id !in OtherIds(others) && HasPrefix(id, "other")
    {
      id := GenerateId("other", |others|, ValuesUnder(OtherDocs(others), "otherId"));
      OtherIdFresh(others);
    }

    method GenerateHistoryId() returns (id: string)
      ensures id == MakeId("his", |histories| + 1)
    {
      id := GenerateId("his", |histories|, ValuesUnder(HistoryDocs(histories), "historyId"));
      HistoryIdIsFirstCandidate(histories);
    }

    /** post_new_lock (api/main.py:786-836). */
    method PostNewLock(userId: string, lockId: string, lockName: string, lockLocation: string, lockImage: string)
      returns (r: Outcome)
      modifies this`locks, this`users
      ensures AdminListed(old(users), userId, lockId) ==>
                r == Fail(Conflict("Lock ID Already Exists")) && locks == old(locks) && users == old(users)
      ensures !AdminListed(old(users), userId, lockId) ==>
                && r == Done
                && locks == old(locks) + [NewLegacyLock(lockId, lockName, lockLocation, lockImage, userId)]
                && users == PushUser(PushUser(old(users), userId, PushLocation(lockLocation)), userId, PushAdmin(lockId))
    {
      if AdminListed(users, userId, lockId) {
        r := Fail(Conflict("Lock ID Already Exists"));
        return;
      }
      locks := locks + [NewLegacyLock(lockId, lockName, lockLocation, lockImage, userId)];
      var us := PushUser(users, userId, PushLocation(lockLocation));
      users := PushUser(us, userId, PushAdmin(lockId));
      r := Done;
    }

    /** post_new_request (api/main.py:839-921). */
    method PostNewRequest(lockId: string, userId: string, now: int) returns (r: Outcome)
      modifies this`requests, this`locks, this`others, this`histories
      ensures RequestPairListed(old(requests), lockId, userId) ==>
                && r == Fail(Conflict("Request already exists"))
                && requests == old(requests) && locks == old(locks) && others == old(others) && histories == old(histories)
      ensures !RequestPairListed(old(requests), lockId, userId) ==>
                var reqId := MakeId("req", |old(requests)| + 1);
                var hisId := MakeId("his", |old(histories)| + 1);
                && r == Done
                && requests == old(requests) + [LegacyRequest(reqId, lockId, userId, Sent, now, None)]
                && locks == UpdateLock(UpdateLock(old(locks), lockId, PushRequest(reqId)), lockId, PushHistory(hisId))
                && AppendedMarker(old(others), others, "sent", userId, None, lockId, now)
                && histories == old(histories) + [History(hisId, userId, lockId, "req", now)]
    {
      if RequestPairListed(requests, lockId, userId) {
        r := Fail(Conflict("Request already exists"));
        return;
      }
      var reqId := GenerateRequestId();
      var otherId := GenerateOtherId();
      var hisId := GenerateHistoryId();
      var o := Other(otherId, "sent", userId, None, lockId, now);
      MarkerAppend(others, o);
      var ls := UpdateLock(locks, lockId, PushRequest(reqId));
      ls := UpdateLock(ls, lockId, PushHistory(hisId));
      requests := requests + [LegacyRequest(reqId, lockId, userId, Sent, now, None)];
      others := others + [o];
      histories := histories + [History(hisId, userId, lockId, "req", now)];
      locks := ls;
      r := Done;
    }

    /** post_lock_location (api/main.py:990-1014). */
    method PostLockLocation(userId: string, location: string) returns (r: Outcome)
      modifies this`users
      ensures LocationListedBy(old(users), userId, location) ==>
                r == Fail(Conflict("Lock location already exists")) && users == old(users)
      ensures !LocationListedBy(old(users), userId, location) ==>
                r == Done && users == PushUser(old(users), userId, PushLocation(location))
    {
      if LocationListedBy(users, userId, location) {
        r := Fail(Conflict("Lock location already exists"));
        return;
      }
      users := PushUser(users, userId, PushLocation(location));
      r := Done;
    }

    /** delete_warning_notification (api/main.py:1589-1623). A missing or
        empty notification id clears the lock's warning list. */
    method DeleteWarningNotification(lockId: string, notiId: Option<string>) returns (r: Outcome)
      modifies this`locks
      ensures r == Done
      ensures notiId.None? || notiId.value == "" ==> locks == UpdateLock(old(locks), lockId, ClearWarningList)
      ensures notiId.Some? && notiId.value != "" ==> locks == UpdateLock(old(locks), lockId, PullWarning(notiId.value))
    {
      if notiId.None? || notiId.value == "" {
        locks := UpdateLock(locks, lockId, ClearWarningList);
      } else {
        locks := UpdateLock(locks, lockId, PullWarning(notiId.value));
      }
      r := Done;
    }

    /** accept_request (api/main.py:1652-1689). The grant goes to the
        lock's `roleToUserIdListDict.guest` and the user's
        `userRoleToLockIdListDict.guest`; a request without a location
        raises after both pushes. */
    method AcceptRequest(reqId: string) returns (r: Outcome)
      modifies this`requests, this`locks, this`users
      ensures FindLegacyRequest(old(requests), reqId).None? ==>
                && r == Fail(NotFound("Request not found"))
                && requests == old(requests) && locks == old(locks) && users == old(users)
      ensures FindLegacyRequest(old(requests), reqId).Some? ==>
                var i := FindLegacyRequest(old(requests), reqId).value;
                var q := old(requests)[i];
                var us := PushUser(old(users), q.userId, PushGuestLock(q.lockId));
                && requests == old(requests)[i := q.(requestStatus := Accepted)]
                && locks == UpdateLock(old(locks), q.lockId, PushGuestUser(q.userId))
                && (q.lockLocation.None? ==> r == Fail(Internal("'lockLocation'")) && users == us)
                && (q.lockLocation.Some? ==> r == Done && users == PushUser(us, q.userId, PushLocation(q.lockLocation.value)))
    {
      var found := FindLegacyRequest(requests, reqId);
      if found.None? {
        r := Fail(NotFound("Request not found"));
        return;
      }
      var i := found.value;
      var q := requests[i];
      requests := requests[i := q.(requestStatus := Accepted)];
      locks := UpdateLock(locks, q.lockId, PushGuestUser(q.userId));
      users := PushUser(users, q.userId, PushGuestLock(q.lockId));
      if q.lockLocation.None? {
        r := Fail(Internal("'lockLocation'"));
        return;
      }
      users := PushUser(users, q.userId, PushLocation(q.lockLocation.value));
      r := Done;
    }

    /** `accept_request` as its comment describes it: the grantee becomes a
        guest of the lock in the lists `get_lock_detail` and `get_user_lock`
        read. Everything else is as in `AcceptRequest`. */
    method AcceptRequestAsGuest(reqId: string) returns (r: Outcome)
      modifies this`requests, this`locks, this`users
      ensures FindLegacyRequest(old(requests), reqId).None? ==>
                && r == Fail(NotFound("Request not found"))
                && requests == old(requests) && locks == old(locks) && users == old(users)
      ensures FindLegacyRequest(old(requests), reqId).Some? ==>
                var i := FindLegacyRequest(old(requests), reqId).value;
                var q := old(requests)[i];
                var us := PushUser(old(users), q.userId, PushGuestEntry(q.lockId));
                && requests == old(requests)[i := q.(requestStatus := Accepted)]
                && locks == UpdateLock(old(locks), q.lockId, PushGuest(q.userId))
                && (q.lockLocation.None? ==> r == Fail(Internal("'lockLocation'")) && users == us)
                && (q.lockLocation.Some? ==> r == Done && users == PushUser(us, q.userId, PushLocation(q.lockLocation.value)))
    {
      var found := FindLegacyRequest(requests, reqId);
      if found.None? {
        r := Fail(NotFound("Request not found"));
        return;
      }
      var i := found.value;
      var q := requests[i];
      requests := requests[i := q.(requestStatus := Accepted)];
      locks := UpdateLock(locks, q.lockId, PushGuest(q.userId));
      users := PushUser(users, q.userId, PushGuestEntry(q.lockId));
      if q.lockLocation.None? {
        r := Fail(Internal("'lockLocation'"));
        return;
      }
      users := PushUser(users, q.userId, PushLocation(q.lockLocation.value));
      r := Done;
    }
  }

  // ---------------------------------------------------------------------
  // What the write endpoints keep.

  /** The edit lands on the first user with the id, when there is one. */
  lemma PushUserEdits(users: seq<LegacyUser>, userId: string, e: UserPush)
    requires FindLegacyUser(users, userId).Some?
    ensures var j := FindLegacyUser(users, userId).value;
            && users[j].userId == userId
            && PushUser(users, userId, e) == users[j := ApplyUserPush(users[j], e)]
  {
    assert LegacyUserIds(users)[FindLegacyUser(users, userId).value] == users[FindLegacyUser(users, userId).value].userId;
  }

  /** After a successful `post_new_lock` for a stored user, the duplicate
      check fires for the same user and lock, and the new lock lists the
      user as its only admin. */
  lemma PostNewLockListsAdmin(users: seq<LegacyUser>, userId: string, lockId: string, lockLocation: string)
    requires FindLegacyUser(users, userId).Some?
    ensures AdminListed(PushUser(PushUser(users, userId, PushLocation(lockLocation)), userId, PushAdmin(lockId)), userId, lockId)
  {
    var us := PushUser(users, userId, PushLocation(lockLocation));
    PushUserEdits(users, userId, PushLocation(lockLocation));
    PushUserEdits(us, userId, PushAdmin(lockId));
    var j := FindLegacyUser(us, userId).value;
    assert LegacyUserIds(us)[j] == us[j].userId;
    var us' := PushUser(us, userId, PushAdmin(lockId));
    assert us'[j].admin == us[j].admin + [lockId];
  }

  /** Each user lists each of its locations once. */
  predicate LocationsDistinct(users: seq<LegacyUser>) {
    forall j :: 0 <= j < |users| ==> Distinct(users[j].lockLocationList)
  }

  /** `post_lock_location` never introduces a duplicate location. */
  lemma PostLockLocationKeepsDistinct(users: seq<LegacyUser>, userId: string, location: string)
    requires LocationsDistinct(users)
    requires !LocationListedBy(users, userId, location)
    ensures LocationsDistinct(PushUser(users, userId, PushLocation(location)))
  {
    match FindLegacyUser(users, userId)
    case None =>
    case Some(j) =>
      assert LegacyUserIds(users)[j] == users[j].userId;
      DistinctAppend(users[j].lockLocationList, location);
  }

  /** No two stored requests pair the same lock and user. */
  predicate RequestPairsUnique(rs: seq<LegacyRequest>) {
    forall a, b :: 0 <= a < b < |rs| ==> !(rs[a].lockId == rs[b].lockId && rs[a].userId == rs[b].userId)
  }

  /** `post_new_request` keeps request pairs unique. */
  lemma PostNewRequestKeepsPairsUnique(rs: seq<LegacyRequest>, q: LegacyRequest)
    requires RequestPairsUnique(rs)
    requires !RequestPairListed(rs, q.lockId, q.userId)
    ensures RequestPairsUnique(rs + [q])
  {
    var rs' := rs + [q];
    forall a, b | 0 <= a < b < |rs'| ensures !(rs'[a].lockId == rs'[b].lockId && rs'[a].userId == rs'[b].userId) {
      assert rs'[a] == rs[a];
      if b < |rs| { assert rs'[b] == rs[b]; }
    }
  }

  /** Request ids numbered from the count, as `post_new_request` assigns
      them, stay so. */
  lemma PostNewRequestKeepsNumbering(rs: seq<LegacyRequest>, lockId: string, userId: string, now: int)
    requires Sequential("req", LegacyRequestIds(rs))
    ensures Sequential("req", LegacyRequestIds(rs + [LegacyRequest(MakeId("req", |rs| + 1), lockId, userId, Sent, now, None)]))
  {
    var q := LegacyRequest(MakeId("req", |rs| + 1), lockId, userId, Sent, now, None);
    assert LegacyRequestIds(rs + [q]) == LegacyRequestIds(rs) + [MakeId("req", |LegacyRequestIds(rs)| + 1)];
  }

  /** Clearing warnings empties the list of the lock with the id. */
  lemma ClearWarningsEmpties(locks: seq<LegacyLock>, lockId: string)
    requires lockId in LegacyLockIds(locks)
    ensures LockOf(UpdateLock(locks, lockId, ClearWarningList), lockId).Some?
    ensures LockOf(UpdateLock(locks, lockId, ClearWarningList), lockId).value.warning == []
  {
    IndexOfFirst(LegacyLockIds(locks), lockId);
    var i := FindLegacyLock(locks, lockId).value;
    assert LegacyLockIds(locks)[i] == locks[i].lockId;
  }

  /** Pulling by notification id leaves no matching document and keeps
      every other entry, plain warning ids included. */
  lemma PullWarningRemovesMatches(locks: seq<LegacyLock>, lockId: string, notiId: string)
    requires FindLegacyLock(locks, lockId).Some?
    ensures var i := FindLegacyLock(locks, lockId).value;
            var ws := locks[i].warning;
            var ws' := UpdateLock(locks, lockId, PullWarning(notiId))[i].warning;
            && (forall k :: 0 <= k < |ws'| ==> !WarningMatches(ws'[k], notiId))
            && (forall k :: 0 <= k < |ws| && !WarningMatches(ws[k], notiId) ==> ws[k] in ws')
            && (forall k :: 0 <= k < |ws| && ws[k].WarningRef? ==> ws[k] in ws')
  {
  }

  /** Accepting a request does not change what `get_lock_detail` checks:
      the grantee lands in the lock's `roleToUserIdListDict.guest`, not in
      its guest entries, so a user who was refused before is refused
      after. */
  lemma AcceptRequestKeepsDetailClosed(locks: seq<LegacyLock>, users: seq<LegacyUser>, users': seq<LegacyUser>,
                                       lockId: string, userId: string)
    requires LegacyGetLockDetail(locks, users, lockId, userId) == Err(Forbidden("User is not in lock"))
    ensures LegacyGetLockDetail(UpdateLock(locks, lockId, PushGuestUser(userId)), users', lockId, userId)
         == Err(Forbidden("User is not in lock"))
  {
    IndexOfFirst(LegacyLockIds(locks), lockId);
  }

  /** Nor does it add the lock to the grantee's lock list: the user's
      admin, member and guest entries are what `get_user_lock` reads. */
  lemma AcceptRequestKeepsUserLocks(users: seq<LegacyUser>, userId: string, lockId: string, j: nat)
    requires j < |users|
    ensures var u' := PushUser(users, userId, PushGuestLock(lockId))[j];
            u'.admin == users[j].admin && u'.member == users[j].member && u'.guest == users[j].guest
  {
  }

  /** The corrected accept opens the lock page to the grantee, whoever
      the lock listed before. */
  lemma GuestGrantOpensDetail(locks: seq<LegacyLock>, users: seq<LegacyUser>, lockId: string, userId: string)
    requires FindLegacyLock(locks, lockId).Some?
    ensures var r := LegacyGetLockDetail(UpdateLock(locks, lockId, PushGuest(userId)), users, lockId, userId);
            r.Ok? && (r.value.isAdmin <==> userId in LockOf(locks, lockId).value.admin)
  {
    var i := FindLegacyLock(locks, lockId).value;
    var ls := UpdateLock(locks, lockId, PushGuest(userId));
    assert LegacyLockIds(ls) == LegacyLockIds(locks);
    assert ls[i].guest == locks[i].guest + [userId];
  }

  /** The corrected accept also lists the lock among the grantee's guest
      entries, which `get_user_lock` reads. */
  lemma GuestEntryListsLock(users: seq<LegacyUser>, userId: string, lockId: string)
    requires FindLegacyUser(users, userId).Some?
    ensures var u := PushUser(users, userId, PushGuestEntry(lockId))[FindLegacyUser(users, userId).value];
            u.userId == userId && lockId in u.guest
  {
    PushUserEdits(users, userId, PushGuestEntry(lockId));
  }

  // ---------------------------------------------------------------------
  // get_user_lock (api/main.py:403-481)

  datatype LegacyUserLocks = LegacyUserLocks(userId: string, lockLocation: string, dataList: seq<LockCard>)

  function LockCardOf(l: LegacyLock): LockCard {
    LockCard(l.lockId, l.lockImage, l.lockName)
  }

  /** The listed lock ids are at `location`. */
  predicate LockedAt(locks: seq<LegacyLock>, lockId: string, location: string) {
    LockOf(locks, lockId).Some? && LockOf(locks, lockId).value.lockLocation == location
  }

  /** A card for every listed lock id whose lock is stored at `location`,
      in list order; ids without a lock document are skipped. */
  function LockCardsAt(locks: seq<LegacyLock>, ids: seq<string>, location: string): (r: seq<LockCard>)
    ensures forall c :: c in r ==> exists k :: 0 <= k < |ids| && LockedAt(locks, ids[k], location) && c == LockCardOf(LockOf(locks, ids[k]).value)
    ensures forall k :: 0 <= k < |ids| && LockedAt(locks, ids[k], location) ==> LockCardOf(LockOf(locks, ids[k]).value) in r
  {
    if ids == [] then []
    else
      var rest := LockCardsAt(locks, ids[1..], location);
      assert forall k :: 1 <= k < |ids| ==> ids[k] == ids[1..][k - 1];
      assert forall k :: 0 <= k < |ids[1..]| ==> ids[1..][k] == ids[k + 1];
      if LockedAt(locks, ids[0], location) then [LockCardOf(LockOf(locks, ids[0]).value)] + rest else rest
  }

  lemma {:induction false} LockCardsAtAppend(locks: seq<LegacyLock>, a: seq<string>, b: seq<string>, location: string)
    ensures LockCardsAt(locks, a + b, location) == LockCardsAt(locks, a, location) + LockCardsAt(locks, b, location)
  {
    if a != [] {
      var ab := a + b;
      assert ab[0] == a[0] && ab[1..] == a[1..] + b;
      LockCardsAtAppend(locks, a[1..], b, location);
    } else {
      assert a + b == b;
    }
  }

  function LegacyGetUserLock(users: seq<LegacyUser>, locks: seq<LegacyLock>, userId: string, active: Option<string>)
    : (r: Result<LegacyUserLocks>)
    ensures FindLegacyUser(users, userId).None? ==> r == Err(NotFound("User not found"))
    ensures r.Ok? ==> r.value.userId == userId
  {
    match FindLegacyUser(users, userId)
    case None => Err(NotFound("User not found"))
    case Some(j) =>
      var u := users[j];
      if (active.None? || active.value == "") && u.lockLocationList == [] then
        Err(Internal("list index out of range"))
      else
        var location := if active.None? || active.value == "" then u.lockLocationList[0] else active.value;
        Ok(LegacyUserLocks(u.userId, location, LockCardsAt(locks, u.admin + u.member + u.guest, location)))
  }

  /** Every card is a lock of the user stored at the active location, and
      every such lock has a card; admin and member locks come before guest
      locks. */
  lemma LegacyGetUserLockCards(users: seq<LegacyUser>, locks: seq<LegacyLock>, userId: string, active: Option<string>, c: LockCard)
    requires LegacyGetUserLock(users, locks, userId, active).Ok?
    ensures var v := LegacyGetUserLock(users, locks, userId, active).value;
            var u := users[FindLegacyUser(users, userId).value];
            var ids := u.admin + u.member + u.guest;
            && (c in v.dataList <==>
                  exists k :: 0 <= k < |ids| && LockedAt(locks, ids[k], v.lockLocation) && c == LockCardOf(LockOf(locks, ids[k]).value))
            && v.dataList == LockCardsAt(locks, u.admin + u.member, v.lockLocation) + LockCardsAt(locks, u.guest, v.lockLocation)
            && (active.Some? && active.value != "" ==> v.lockLocation == active.value)
            && (active.None? || active.value == "" ==> v.lockLocation == u.lockLocationList[0])
  {
    var v := LegacyGetUserLock(users, locks, userId, active).value;
    var u := users[FindLegacyUser(users, userId).value];
    LockCardsAtAppend(locks, u.admin + u.member, u.guest, v.lockLocation);
  }

  // ---------------------------------------------------------------------
  // get_lock_detail (api/main.py:484-580)

  /** The lock lists the user as admin, as member, or in a guest entry. */
  predicate InLock(l: LegacyLock, userId: string) {
    userId in l.admin || userId in l.member || userId in l.guest
  }

  function LegacyGetLockDetail(locks: seq<LegacyLock>, users: seq<LegacyUser>, lockId: string, userId: string)
    : (r: Result<LockView>)
    ensures r.Ok? ==> r.value.lockId == lockId
  {
    match LockOf(locks, lockId)
    case None => Err(NotFound("Lock not found"))
    case Some(l) =>
      if !InLock(l, userId) then Err(Forbidden("User is not in lock"))
      else
        var known := LegacyUserIds(users);
        var rows := Holders(known, l.admin, "admin") + Holders(known, l.member, "member") + Holders(known, l.guest, "guest");
        Ok(LockView(l.lockId, l.lockName, l.lockLocation, l.lockImage, l.securityStatus, userId in l.admin, rows))
  }

  /** The page is missing for an unknown lock, refused to anyone the lock
      does not list, and otherwise shows the lock's own fields, with
      `isAdmin` exactly when the caller is one of its admins. */
  lemma LegacyGetLockDetailAccess(locks: seq<LegacyLock>, users: seq<LegacyUser>, lockId: string, userId: string)
    ensures var r := LegacyGetLockDetail(locks, users, lockId, userId);
            && (lockId !in LegacyLockIds(locks) <==> r == Err(NotFound("Lock not found")))
            && (lockId in LegacyLockIds(locks) ==>
                  var l := LockOf(locks, lockId).value;
                  && (r.Err? <==> !InLock(l, userId))
                  && (r.Err? ==> r.error == Forbidden("User is not in lock"))
                  && (r.Ok? ==> r.value.lockName == l.lockName && r.value.lockLocation == l.lockLocation
                                && r.value.lockImage == l.lockImage && r.value.securityStatus == l.securityStatus
                                && (r.value.isAdmin <==> userId in l.admin)))
  {
    IndexOfFirst(LegacyLockIds(locks), lockId);
  }

  /** The user list: admins, then members, then guests, each that names a
      stored user, and nobody else. */
  lemma LegacyGetLockDetailRows(locks: seq<LegacyLock>, users: seq<LegacyUser>, lockId: string, userId: string, h: Holder)
    requires LegacyGetLockDetail(locks, users, lockId, userId).Ok?
    ensures var v := LegacyGetLockDetail(locks, users, lockId, userId).value;
            var l := LockOf(locks, lockId).value;
            (h in v.dataList <==>
               && h.userId in LegacyUserIds(users)
               && ((h.role == "admin" && h.userId in l.admin)
                   || (h.role == "member" && h.userId in l.member)
                   || (h.role == "guest" && h.userId in l.guest)))
    ensures var v := LegacyGetLockDetail(locks, users, lockId, userId).value;
            forall a, b :: 0 <= a < b < |v.dataList| ==> RoleRank(v.dataList[a].role) <= RoleRank(v.dataList[b].role)
  {
    var l := LockOf(locks, lockId).value;
    var known := LegacyUserIds(users);
    HoldersRole(known, l.admin, "admin");
    HoldersRole(known, l.member, "member");
    HoldersRole(known, l.guest, "guest");
    RankedRows(Holders(known, l.admin, "admin"), Holders(known, l.member, "member"), Holders(known, l.guest, "guest"));
  }

  // ---------------------------------------------------------------------
  // get_request_notification_list (api/main.py:1017-1131)

  /** `find({'lockId': lockId})`: every request on the lock, whatever its
      status, in collection order. */
  function RequestsOn(rs: seq<LegacyRequest>, lockId: string): (r: seq<LegacyRequest>)
    ensures forall q :: q in r <==> q in rs && q.lockId == lockId
  {
    if rs == [] then []
    else
      var rest := RequestsOn(rs[1..], lockId);
      assert rs == [rs[0]] + rs[1..];
      if rs[0].lockId == lockId then [rs[0]] + rest else rest
  }

  /** The row of request `q` on lock `l`. The name columns come from the
      caller's own document, so `userRef` is the caller. */
  function LegacyRequestRow(q: LegacyRequest, l: LegacyLock, callerId: string): Row {
    Row(q.reqId, q.datetime, |l.request|, l.lockId, l.lockLocation, l.lockName, callerId)
  }

  function LegacyRowsForLock(locks: seq<LegacyLock>, rs: seq<LegacyRequest>, lockId: string, callerId: string)
    : Result<seq<Row>>
  {
    var qs := RequestsOn(rs, lockId);
    if qs == [] then Ok([])
    else match LockOf(locks, lockId)
      case None => Err(Internal(NoneSubscript))
      case Some(l) => Ok(seq(|qs|, k requires 0 <= k < |qs| => LegacyRequestRow(qs[k], l, callerId)))
  }

  function LegacyRowsForLocks(locks: seq<LegacyLock>, rs: seq<LegacyRequest>, ids: seq<string>, callerId: string)
    : Result<seq<Row>>
  {
    if ids == [] then Ok([])
    else match LegacyRowsForLock(locks, rs, ids[0], callerId)
      case Err(e) => Err(e)
      case Ok(a) =>
        match LegacyRowsForLocks(locks, rs, ids[1..], callerId)
        case Err(e) => Err(e)
        case Ok(b) => Ok(a + b)
  }

  function LegacyGetRequestNotificationList(users: seq<LegacyUser>, locks: seq<LegacyLock>, rs: seq<LegacyRequest>, userId: string)
    : (r: Result<NotificationList>)
    ensures userId !in LegacyUserIds(users) ==> r.Err?
    ensures r.Ok? ==> SortedByDateDesc(r.value.dataList) && r.value.userId == userId && r.value.mode == "req"
  {
    IndexOfFirst(LegacyUserIds(users), userId);
    match FindLegacyUser(users, userId)
    case None => Err(Internal(NoneSubscript))
    case Some(j) =>
      match LegacyRowsForLocks(locks, rs, users[j].admin, userId)
      case Err(e) => Err(e)
      case Ok(rows) => Ok(NotificationList(userId, "req", SortByDateDesc(rows)))
  }

  /** `row` shows request `q` on the lock of admin id `ids[k]`. */
  predicate ShowsLegacyRequest(locks: seq<LegacyLock>, ids: seq<string>, k: int, q: LegacyRequest, row: Row, callerId: string) {
    && 0 <= k < |ids|
    && q.lockId == ids[k]
    && LockOf(locks, q.lockId).Some?
    && row == LegacyRequestRow(q, LockOf(locks, q.lockId).value, callerId)
  }

  lemma LegacyRowsForLockFails(locks: seq<LegacyLock>, rs: seq<LegacyRequest>, lockId: string, callerId: string)
    ensures LegacyRowsForLock(locks, rs, lockId, callerId).Err?
        <==> (lockId !in LegacyLockIds(locks) && exists q :: q in rs && q.lockId == lockId)
  {
    var qs := RequestsOn(rs, lockId);
    IndexOfFirst(LegacyLockIds(locks), lockId);
    if qs != [] {
      assert qs[0] in qs;
    }
    if exists q :: q in rs && q.lockId == lockId {
      var q :| q in rs && q.lockId == lockId;
      assert q in qs;
    }
  }

  lemma LegacyRowsForLockRows(locks: seq<LegacyLock>, rs: seq<LegacyRequest>, lockId: string, callerId: string, row: Row)
    requires LegacyRowsForLock(locks, rs, lockId, callerId).Ok?
    ensures row in LegacyRowsForLock(locks, rs, lockId, callerId).value <==>
              exists q :: q in rs && ShowsLegacyRequest(locks, [lockId], 0, q, row, callerId)
  {
    var qs := RequestsOn(rs, lockId);
    if qs != [] {
      var rows := LegacyRowsForLock(locks, rs, lockId, callerId).value;
      if row in rows {
        var k :| 0 <= k < |rows| && rows[k] == row;
        assert qs[k] in qs;
        assert ShowsLegacyRequest(locks, [lockId], 0, qs[k], row, callerId);
      }
      if exists q :: q in rs && ShowsLegacyRequest(locks, [lockId], 0, q, row, callerId) {
        var q :| q in rs && ShowsLegacyRequest(locks, [lockId], 0, q, row, callerId);
        assert q in qs;
        var k :| 0 <= k < |qs| && qs[k] == q;
        assert rows[k] == row;
      }
    }
  }

  lemma {:induction false} LegacyRowsForLocksFails(locks: seq<LegacyLock>, rs: seq<LegacyRequest>, ids: seq<string>, callerId: string)
    ensures LegacyRowsForLocks(locks, rs, ids, callerId).Err?
        <==> exists k, q :: 0 <= k < |ids| && q in rs && q.lockId == ids[k] && ids[k] !in LegacyLockIds(locks)
  {
    if ids != [] {
      LegacyRowsForLockFails(locks, rs, ids[0], callerId);
      LegacyRowsForLocksFails(locks, rs, ids[1..], callerId);
      if exists k, q :: 0 <= k < |ids| && q in rs && q.lockId == ids[k] && ids[k] !in LegacyLockIds(locks) {
        var k, q :| 0 <= k < |ids| && q in rs && q.lockId == ids[k] && ids[k] !in LegacyLockIds(locks);
        if k > 0 { assert ids[1..][k - 1] == ids[k]; }
      }
      if exists k, q :: 0 <= k < |ids[1..]| && q in rs && q.lockId == ids[1..][k] && ids[1..][k] !in LegacyLockIds(locks) {
        var k, q :| 0 <= k < |ids[1..]| && q in rs && q.lockId == ids[1..][k] && ids[1..][k] !in LegacyLockIds(locks);
        assert ids[k + 1] == ids[1..][k];
      }
    }
  }

  lemma {:induction false} LegacyRowsForLocksRows(locks: seq<LegacyLock>, rs: seq<LegacyRequest>, ids: seq<string>, callerId: string, row: Row)
    requires LegacyRowsForLocks(locks, rs, ids, callerId).Ok?
    ensures row in LegacyRowsForLocks(locks, rs, ids, callerId).value <==>
              exists k, q :: q in rs && ShowsLegacyRequest(locks, ids, k, q, row, callerId)
  {
    if ids != [] {
      LegacyRowsForLockRows(locks, rs, ids[0], callerId, row);
      LegacyRowsForLocksRows(locks, rs, ids[1..], callerId, row);
      if exists q :: q in rs && ShowsLegacyRequest(locks, [ids[0]], 0, q, row, callerId) {
        var q :| q in rs && ShowsLegacyRequest(locks, [ids[0]], 0, q, row, callerId);
        assert ShowsLegacyRequest(locks, ids, 0, q, row, callerId);
      }
      if exists k, q :: q in rs && ShowsLegacyRequest(locks, ids[1..], k, q, row, callerId) {
        var k, q :| q in rs && ShowsLegacyRequest(locks, ids[1..], k, q, row, callerId);
        assert ids[1..][k] == ids[k + 1];
        assert ShowsLegacyRequest(locks, ids, k + 1, q, row, callerId);
      }
      if exists k, q :: q in rs && ShowsLegacyRequest(locks, ids, k, q, row, callerId) {
        var k, q :| q in rs && ShowsLegacyRequest(locks, ids, k, q, row, callerId);
        if k == 0 {
          assert ShowsLegacyRequest(locks, [ids[0]], 0, q, row, callerId);
        } else {
          assert ids[1..][k - 1] == ids[k];
          assert ShowsLegacyRequest(locks, ids[1..], k - 1, q, row, callerId);
        }
      }
    }
  }

  /** The feed fails exactly when the user is unknown or has a request on
      an administered lock id that names no lock. */
  lemma LegacyGetRequestNotificationListFails(users: seq<LegacyUser>, locks: seq<LegacyLock>, rs: seq<LegacyRequest>, userId: string)
    ensures LegacyGetRequestNotificationList(users, locks, rs, userId).Err? <==>
              (|| userId !in LegacyUserIds(users)
               || exists k, q :: FindLegacyUser(users, userId).Some? && 0 <= k < |users[FindLegacyUser(users, userId).value].admin|
                    && q in rs && q.lockId == users[FindLegacyUser(users, userId).value].admin[k]
                    && q.lockId !in LegacyLockIds(locks))
  {
    IndexOfFirst(LegacyUserIds(users), userId);
    if userId in LegacyUserIds(users) {
      LegacyRowsForLocksFails(locks, rs, users[FindLegacyUser(users, userId).value].admin, userId);
    }
  }

  /** The number of requests, of any status, over a list of lock ids,
      counted id by id. */
  function LegacyRequestTotal(rs: seq<LegacyRequest>, ids: seq<string>): nat {
    if ids == [] then 0 else |RequestsOn(rs, ids[0])| + LegacyRequestTotal(rs, ids[1..])
  }

  /** One row per request per administered lock id. */
  lemma {:induction false} LegacyRowsForLocksCount(locks: seq<LegacyLock>, rs: seq<LegacyRequest>, ids: seq<string>, callerId: string)
    requires LegacyRowsForLocks(locks, rs, ids, callerId).Ok?
    ensures |LegacyRowsForLocks(locks, rs, ids, callerId).value| == LegacyRequestTotal(rs, ids)
  {
    if ids != [] {
      LegacyRowsForLocksCount(locks, rs, ids[1..], callerId);
    }
  }

  /** The feed shows every request on the locks the user administers,
      whatever its status, newest first: the rows built lock by lock, each
      exactly once, reordered. */
  lemma LegacyGetRequestNotificationListRows(users: seq<LegacyUser>, locks: seq<LegacyLock>, rs: seq<LegacyRequest>, userId: string, row: Row)
    requires LegacyGetRequestNotificationList(users, locks, rs, userId).Ok?
    ensures var u := users[FindLegacyUser(users, userId).value];
            (row in LegacyGetRequestNotificationList(users, locks, rs, userId).value.dataList <==>
               exists k, q :: q in rs && ShowsLegacyRequest(locks, u.admin, k, q, row, userId))
    ensures var u := users[FindLegacyUser(users, userId).value];
            && multiset(LegacyGetRequestNotificationList(users, locks, rs, userId).value.dataList)
               == multiset(LegacyRowsForLocks(locks, rs, u.admin, userId).value)
            && |LegacyGetRequestNotificationList(users, locks, rs, userId).value.dataList| == LegacyRequestTotal(rs, u.admin)
  {
    var u := users[FindLegacyUser(users, userId).value];
    LegacyRowsForLocksRows(locks, rs, u.admin, userId, row);
    SortKeepsRows(LegacyRowsForLocks(locks, rs, u.admin, userId).value, row);
    LegacyRowsForLocksCount(locks, rs, u.admin, userId);
  }
}
