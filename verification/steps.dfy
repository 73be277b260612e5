/** Value-level pieces of the write endpoints of main.py: the lookups their
    guards perform, the records they build, and the facts that keep the
    store's id and mirror invariants across one endpoint. */
module Steps {
  import opened Common
  import opened Ids
  import opened Records
  import opened Probes
  import opened Mirror

  /** The guest entry accept_request writes to the lock and to the user. */
  function RequestGuest(q: Request, expire: int): Guest {
    Guest(q.userId, q.lockId, q.lockName, q.lockLocation, q.lockImage, Some(expire))
  }

  /** A request after accept_request's two `$set`s. */
  function AcceptedRequest(q: Request, expire: int): Request {
    q.(requestStatus := Accepted, datetime := expire)
  }

  // ---------------------------------------------------------------------
  // Guards: each `find_one` is a first-match search, and each has a
  // lemma saying it finds something exactly when a match exists.

  predicate RequestPairExists(rs: seq<Request>, lockId: string, userId: string) {
    exists i :: 0 <= i < |rs| && rs[i].lockId == lockId && rs[i].userId == userId
  }

  /** `find_one({'lockId': lockId, 'userId': userId})` on the requests. */
  function FindRequestPair(rs: seq<Request>, lockId: string, userId: string): (r: Option<nat>)
    ensures r.Some? ==> r.value < |rs| && rs[r.value].lockId == lockId && rs[r.value].userId == userId
  {
    if rs == [] then None
    else if rs[0].lockId == lockId && rs[0].userId == userId then Some(0)
    else match FindRequestPair(rs[1..], lockId, userId)
      case None => None
      case Some(k) => Some(k + 1)
  }

  lemma {:induction false} FindRequestPairFinds(rs: seq<Request>, lockId: string, userId: string)
    ensures FindRequestPair(rs, lockId, userId).Some? <==> RequestPairExists(rs, lockId, userId)
  {
    if rs != [] && !(rs[0].lockId == lockId && rs[0].userId == userId) {
      FindRequestPairFinds(rs[1..], lockId, userId);
      if RequestPairExists(rs, lockId, userId) {
        var i :| 0 <= i < |rs| && rs[i].lockId == lockId && rs[i].userId == userId;
        assert rs[1..][i - 1] == rs[i];
      }
      if RequestPairExists(rs[1..], lockId, userId) {
        var i :| 0 <= i < |rs[1..]| && rs[1..][i].lockId == lockId && rs[1..][i].userId == userId;
        assert rs[i + 1] == rs[1..][i];
      }
    }
  }

  predicate InvitationExists(vs: seq<Invitation>, srcUserId: string, desUserId: string, lockId: string) {
    exists i :: 0 <= i < |vs| && vs[i].srcUserId == srcUserId && vs[i].desUserId == desUserId && vs[i].lockId == lockId
  }

  /** `find_one({'srcUserId': .., 'desUserId': .., 'lockId': ..})` on the
      invitations. */
  function FindInvitationTriple(vs: seq<Invitation>, srcUserId: string, desUserId: string, lockId: string): (r: Option<nat>)
    ensures r.Some? ==> r.value < |vs| && vs[r.value].srcUserId == srcUserId
                        && vs[r.value].desUserId == desUserId && vs[r.value].lockId == lockId
  {
    if vs == [] then None
    else if vs[0].srcUserId == srcUserId && vs[0].desUserId == desUserId && vs[0].lockId == lockId then Some(0)
    else match FindInvitationTriple(vs[1..], srcUserId, desUserId, lockId)
      case None => None
      case Some(k) => Some(k + 1)
  }

  lemma {:induction false} FindInvitationTripleFinds(vs: seq<Invitation>, srcUserId: string, desUserId: string, lockId: string)
    ensures FindInvitationTriple(vs, srcUserId, desUserId, lockId).Some? <==> InvitationExists(vs, srcUserId, desUserId, lockId)
  {
    if vs != [] && !(vs[0].srcUserId == srcUserId && vs[0].desUserId == desUserId && vs[0].lockId == lockId) {
      FindInvitationTripleFinds(vs[1..], srcUserId, desUserId, lockId);
      if InvitationExists(vs, srcUserId, desUserId, lockId) {
        var i :| 0 <= i < |vs| && vs[i].srcUserId == srcUserId && vs[i].desUserId == desUserId && vs[i].lockId == lockId;
        assert vs[1..][i - 1] == vs[i];
      }
      if InvitationExists(vs[1..], srcUserId, desUserId, lockId) {
        var i :| 0 <= i < |vs[1..]| && vs[1..][i].srcUserId == srcUserId && vs[1..][i].desUserId == desUserId
                 && vs[1..][i].lockId == lockId;
        assert vs[i + 1] == vs[1..][i];
      }
    }
  }

  predicate LocationListed(us: seq<User>, userId: string, location: string) {
    exists j :: 0 <= j < |us| && us[j].userId == userId && location in us[j].lockLocationList
  }

  /** `find_one({'userId': userId, 'lockLocationList': location})`: an
      equality on an array field matches when the array holds the value. */
  function FindUserLocation(us: seq<User>, userId: string, location: string): (r: Option<nat>)
    ensures r.Some? ==> r.value < |us| && us[r.value].userId == userId && location in us[r.value].lockLocationList
  {
    if us == [] then None
    else if us[0].userId == userId && location in us[0].lockLocationList then Some(0)
    else match FindUserLocation(us[1..], userId, location)
      case None => None
      case Some(k) => Some(k + 1)
  }

  lemma {:induction false} FindUserLocationFinds(us: seq<User>, userId: string, location: string)
    ensures FindUserLocation(us, userId, location).Some? <==> LocationListed(us, userId, location)
  {
    if us != [] && !(us[0].userId == userId && location in us[0].lockLocationList) {
      FindUserLocationFinds(us[1..], userId, location);
      if LocationListed(us, userId, location) {
        var j :| 0 <= j < |us| && us[j].userId == userId && location in us[j].lockLocationList;
        assert us[1..][j - 1] == us[j];
      }
      if LocationListed(us[1..], userId, location) {
        var j :| 0 <= j < |us[1..]| && us[1..][j].userId == userId && location in us[1..][j].lockLocationList;
        assert us[j + 1] == us[1..][j];
      }
    }
  }

  /** An element of an array field as a query compares it with a value.
      `Text` is the lock id string the query at main.py:833 looks for;
      `Embedded` is the `LockDetail` dict that main.py:866 pushes onto the
      creator's admin list. MongoDB never finds a string equal to a
      document, which is what the two distinct constructors say. */
  datatype Element = Text(text: string) | Embedded(detail: LockDetail)

  /** `{'userId': userId, 'admin': {'$in': [lockId]}}` on a user whose admin
      array holds embedded lock details. */
  predicate AdminQueryMatches(u: User, userId: string, lockId: string) {
    u.userId == userId && exists k :: 0 <= k < |u.admin| && Embedded(u.admin[k]) == Text(lockId)
  }

  /** post_new_lock's duplicate check as a first-match search. */
  function FindAdminQuery(us: seq<User>, userId: string, lockId: string): (r: Option<int>)
    ensures r.Some? ==> 0 <= r.value < |us| && AdminQueryMatches(us[r.value], userId, lockId)
  {
    if us == [] then None
    else if AdminQueryMatches(us[0], userId, lockId) then Some(0)
    else match FindAdminQuery(us[1..], userId, lockId)
      case None => None
      case Some(k) => Some(k + 1)
  }

  /** The duplicate check of post_new_lock never fires: a string is never
      equal to an embedded document, so even a user who already administers
      the lock passes it. */
  lemma {:induction false} AdminQueryNeverMatches(us: seq<User>, userId: string, lockId: string)
    ensures FindAdminQuery(us, userId, lockId) == None
  {
    if us != [] {
      AdminQueryNeverMatches(us[1..], userId, lockId);
    }
  }

  /** Ids of every request on `lockId`, whatever its status, in collection
      order: what accept_all_request iterates over. */
  function LockRequestIds(rs: seq<Request>, lockId: string): (r: seq<string>)
    ensures forall i :: 0 <= i < |rs| && rs[i].lockId == lockId ==> rs[i].reqId in r
    ensures forall x :: x in r ==> exists i :: 0 <= i < |rs| && rs[i].lockId == lockId && rs[i].reqId == x
    ensures |r| <= |rs|
  {
    if rs == [] then []
    else
      var rest := LockRequestIds(rs[1..], lockId);
      assert forall i :: 1 <= i < |rs| ==> rs[i] == rs[1..][i - 1];
      (if rs[0].lockId == lockId then [rs[0].reqId] else []) + rest
  }

  /** Extending the scanned prefix by one request adds its id when it is
      on the lock. */
  lemma {:induction false} LockRequestIdsSnoc(rs: seq<Request>, n: nat, lockId: string)
    requires n < |rs|
    ensures LockRequestIds(rs[..n + 1], lockId)
            == LockRequestIds(rs[..n], lockId) + (if rs[n].lockId == lockId then [rs[n].reqId] else [])
  {
    if n > 0 {
      assert rs[..n + 1][1..] == rs[1..][..n];
      assert rs[..n][1..] == rs[1..][..n - 1];
      LockRequestIdsSnoc(rs[1..], n - 1, lockId);
    }
  }

  /** The requests after accept_all_request has handled the first `n`
      records of the collection. */
  function AcceptedPrefix(rs: seq<Request>, lockId: string, expire: int, n: nat): seq<Request> {
    seq(|rs|, i requires 0 <= i < |rs| =>
      if i < n && rs[i].lockId == lockId then AcceptedRequest(rs[i], expire) else rs[i])
  }

  /** Handling record `n` accepts it when it is on the lock; no request id
      changes on the way. */
  lemma AcceptedPrefixStep(rs: seq<Request>, lockId: string, expire: int, n: nat)
    requires n < |rs|
    ensures RequestIds(AcceptedPrefix(rs, lockId, expire, n)) == RequestIds(rs)
    ensures AcceptedPrefix(rs, lockId, expire, n)[n] == rs[n]
    ensures AcceptedPrefix(rs, lockId, expire, n + 1)
            == if rs[n].lockId == lockId
               then AcceptedPrefix(rs, lockId, expire, n)[n := AcceptedRequest(rs[n], expire)]
               else AcceptedPrefix(rs, lockId, expire, n)
  {
  }

  /** The guest entries accept_all_request pushes onto the lock: one per
      request on it, in collection order. */
  function LockGrants(rs: seq<Request>, lockId: string, expire: int): (r: seq<Guest>)
    ensures forall g :: g in r ==> g.lockId == lockId && g.expireDatetime == Some(expire)
    ensures forall k :: 0 <= k < |rs| && rs[k].lockId == lockId ==> RequestGuest(rs[k], expire) in r
  {
    if rs == [] then []
    else
      var init := rs[..|rs| - 1];
      var last := rs[|rs| - 1];
      assert forall k :: 0 <= k < |rs| - 1 ==> rs[k] == init[k];
      LockGrants(init, lockId, expire) + (if last.lockId == lockId then [RequestGuest(last, expire)] else [])
  }

  /** Extending the scanned prefix by one request adds its grant when it
      is on the lock. */
  lemma LockGrantsStep(rs: seq<Request>, n: nat, lockId: string, expire: int)
    requires n < |rs|
    ensures LockGrants(rs[..n + 1], lockId, expire)
            == LockGrants(rs[..n], lockId, expire) + (if rs[n].lockId == lockId then [RequestGuest(rs[n], expire)] else [])
  {
    assert rs[..n + 1][..n] == rs[..n];
  }

  /** accept_request's four `update_one`s on the lock: the first lock with
      the id gains the guest, the connection and the history and loses
      every copy of the request id; no other lock changes. */
  lemma AcceptLockEdits(locks: seq<Lock>, lockId: string, g: Guest, conId: string, hisId: string, reqId: string)
    ensures
      var r := EditLock(EditLock(EditLock(EditLock(locks, lockId, AddGuest(g)),
                 lockId, AddConnect(conId)), lockId, AddHistory(hisId)), lockId, DropRequest(reqId));
      match FindLock(locks, lockId)
      case None => r == locks
      case Some(i) =>
        r == locks[i := locks[i].(guest := locks[i].guest + [g], connect := locks[i].connect + [conId],
                                  history := locks[i].history + [hisId], request := Pull(locks[i].request, reqId))]
  {
  }

  /** accept_request's two `update_one`s on the user: the first user with
      the id gains the guest and the location; no other user changes. */
  lemma AcceptUserEdits(users: seq<User>, userId: string, g: Guest, location: string)
    ensures
      var r := EditUser(EditUser(users, userId, AddGuestGrant(g)), userId, AddLocation(location));
      match FindUser(users, userId)
      case None => r == users
      case Some(j) =>
        r == users[j := users[j].(guest := users[j].guest + [g], lockLocationList := users[j].lockLocationList + [location])]
  {
  }

  /** The edits of accept_request on the lock, as one function. */
  function AcceptedLocks(locks: seq<Lock>, q: Request, expire: int, conId: string, hisId: string): seq<Lock> {
    EditLock(EditLock(EditLock(EditLock(locks, q.lockId, AddGuest(RequestGuest(q, expire))),
      q.lockId, AddConnect(conId)), q.lockId, AddHistory(hisId)), q.lockId, DropRequest(q.reqId))
  }

  /** The edits of accept_request on the user, as one function. */
  function AcceptedUsers(users: seq<User>, q: Request, expire: int): seq<User> {
    EditUser(EditUser(users, q.userId, AddGuestGrant(RequestGuest(q, expire))), q.userId, AddLocation(q.lockLocation))
  }

  /** One round of accept_all_request on the lock: the `n`-th request's
      grant joins the lock's guest list after those of the earlier
      requests, and its id leaves the request list for good. */
  lemma AcceptAllLockStep(rs: seq<Request>, n: nat, lockId: string, expire: int,
                          ls0: seq<Lock>, ls: seq<Lock>, conId: string, hisId: string)
    requires n < |rs| && rs[n].lockId == lockId
    requires LockIds(ls) == LockIds(ls0)
    requires FindLock(ls0, lockId).None? ==> ls == ls0
    requires FindLock(ls0, lockId).Some? ==>
      var li := FindLock(ls0, lockId).value;
      && ls[li].guest == ls0[li].guest + LockGrants(rs[..n], lockId, expire)
      && forall k :: 0 <= k < n && rs[k].lockId == lockId ==> rs[k].reqId !in ls[li].request
    ensures LockIds(AcceptedLocks(ls, rs[n], expire, conId, hisId)) == LockIds(ls0)
    ensures FindLock(ls0, lockId).None? ==> AcceptedLocks(ls, rs[n], expire, conId, hisId) == ls0
    ensures FindLock(ls0, lockId).Some? ==>
      var li := FindLock(ls0, lockId).value;
      var ls' := AcceptedLocks(ls, rs[n], expire, conId, hisId);
      && ls'[li].guest == ls0[li].guest + LockGrants(rs[..n + 1], lockId, expire)
      && forall k :: 0 <= k < n + 1 && rs[k].lockId == lockId ==> rs[k].reqId !in ls'[li].request
  {
    var q := rs[n];
    assert FindLock(ls, lockId) == FindLock(ls0, lockId);
    if FindLock(ls0, lockId).None? {
      AcceptLockEdits(ls, lockId, RequestGuest(q, expire), conId, hisId, q.reqId);
    } else {
      var li := FindLock(ls0, lockId).value;
      AcceptedLockAt(ls, q, expire, conId, hisId, li);
      LockGrantsStep(rs, n, lockId, expire);
      PullKeepsOut(ls[li].request, q.reqId);
    }
  }

  /** The lock accept_request edits, at its position `li`. */
  lemma AcceptedLockAt(ls: seq<Lock>, q: Request, expire: int, conId: string, hisId: string, li: nat)
    requires FindLock(ls, q.lockId) == Some(li)
    ensures li < |AcceptedLocks(ls, q, expire, conId, hisId)|
    ensures AcceptedLocks(ls, q, expire, conId, hisId)[li].guest == ls[li].guest + [RequestGuest(q, expire)]
    ensures AcceptedLocks(ls, q, expire, conId, hisId)[li].request == Pull(ls[li].request, q.reqId)
  {
    AcceptLockEdits(ls, q.lockId, RequestGuest(q, expire), conId, hisId, q.reqId);
  }

  /** A round of accept_all_request on a request of another lock changes
      nothing, and the facts about the scanned prefix carry over. */
  lemma AcceptAllSkip(rs: seq<Request>, n: nat, lockId: string, expire: int,
                      ls0: seq<Lock>, ls: seq<Lock>, us0: seq<User>, us: seq<User>)
    requires n < |rs| && rs[n].lockId != lockId
    requires |ls| == |ls0| && |us| == |us0|
    requires FindLock(ls0, lockId).Some? ==>
      var li := FindLock(ls0, lockId).value;
      && ls[li].guest == ls0[li].guest + LockGrants(rs[..n], lockId, expire)
      && forall k :: 0 <= k < n && rs[k].lockId == lockId ==> rs[k].reqId !in ls[li].request
    requires forall k :: 0 <= k < n && rs[k].lockId == lockId && FindUser(us0, rs[k].userId).Some? ==>
      RequestGuest(rs[k], expire) in us[FindUser(us0, rs[k].userId).value].guest
    ensures FindLock(ls0, lockId).Some? ==>
      var li := FindLock(ls0, lockId).value;
      && ls[li].guest == ls0[li].guest + LockGrants(rs[..n + 1], lockId, expire)
      && forall k :: 0 <= k < n + 1 && rs[k].lockId == lockId ==> rs[k].reqId !in ls[li].request
    ensures forall k :: 0 <= k < n + 1 && rs[k].lockId == lockId && FindUser(us0, rs[k].userId).Some? ==>
      RequestGuest(rs[k], expire) in us[FindUser(us0, rs[k].userId).value].guest
  {
    LockGrantsStep(rs, n, lockId, expire);
  }

  /** One round of accept_all_request on the users: every grant held
      before is still held, and the `n`-th requester, when stored, holds
      the new one. */
  lemma AcceptAllUserStep(rs: seq<Request>, n: nat, lockId: string, expire: int, us0: seq<User>, us: seq<User>)
    requires n < |rs| && rs[n].lockId == lockId
    requires UserIds(us) == UserIds(us0)
    requires forall k :: 0 <= k < n && rs[k].lockId == lockId && FindUser(us0, rs[k].userId).Some? ==>
      RequestGuest(rs[k], expire) in us[FindUser(us0, rs[k].userId).value].guest
    ensures UserIds(AcceptedUsers(us, rs[n], expire)) == UserIds(us0)
    ensures forall k :: 0 <= k < n + 1 && rs[k].lockId == lockId && FindUser(us0, rs[k].userId).Some? ==>
      RequestGuest(rs[k], expire) in AcceptedUsers(us, rs[n], expire)[FindUser(us0, rs[k].userId).value].guest
  {
    AcceptUserEdits(us, rs[n].userId, RequestGuest(rs[n], expire), rs[n].lockLocation);
    assert FindUser(us, rs[n].userId) == FindUser(us0, rs[n].userId);
  }

  // ---------------------------------------------------------------------
  // The grant an accepted invitation writes.

  /** The lock side: the role list named by the invitation for `admin` and
      `member`, the guest list for any other role. */
  function InviteLockEdit(v: Invitation, g: Guest): LockEdit {
    if v.role == "admin" then AddAdmin(v.desUserId)
    else if v.role == "member" then AddMember(v.desUserId)
    else AddGuest(g)
  }

  /** The user side of the same grant. */
  function InviteUserEdit(v: Invitation, d: LockDetail, g: Guest): UserEdit {
    if v.role == "admin" then AddAdminDetail(d)
    else if v.role == "member" then AddMemberDetail(d)
    else AddGuestGrant(g)
  }

  /** The two sides of an invitation grant belong together and name the
      invitation's lock and invitee. */
  lemma InviteEditsPaired(v: Invitation, d: LockDetail, g: Guest)
    requires d.lockId == v.lockId && g.lockId == v.lockId && g.userId == v.desUserId
    ensures Paired(InviteLockEdit(v, g), InviteUserEdit(v, d, g))
    ensures EditedLockId(InviteUserEdit(v, d, g)) == v.lockId
    ensures EditedUserId(InviteLockEdit(v, g)) == v.desUserId
  {
  }

  // ---------------------------------------------------------------------
  // Markers.

  /** Marker ids are distinct ids of the `other` form. */
  predicate MarkersOk(os: seq<Other>) {
    && Distinct(OtherIds(os))
    && (forall k :: 0 <= k < |os| ==> HasPrefix(os[k].otherId, "other"))
  }

  /** `after` is `before` with one more marker, under an id of the `other`
      form that `before` does not use. */
  predicate AppendedMarker(before: seq<Other>, after: seq<Other>, subMode: string, userId: string,
                           userRole: Option<string>, lockId: string, datetime: int)
  {
    && |after| == |before| + 1
    && after[..|before|] == before
    && after[|before|] == Other(after[|before|].otherId, subMode, userId, userRole, lockId, datetime)
    && after[|before|].otherId !in OtherIds(before)
    && HasPrefix(after[|before|].otherId, "other")
  }

  /** Appending a marker under a fresh id of the `other` form. */
  lemma MarkerAppend(os: seq<Other>, o: Other)
    requires o.otherId !in OtherIds(os) && HasPrefix(o.otherId, "other")
    ensures AppendedMarker(os, os + [o], o.subMode, o.userId, o.userRole, o.lockId, o.datetime)
  {
    assert (os + [o])[..|os|] == os;
  }

  /** As written, accept_invitation stops before its delete: the
      invitation's marker is still there, at its place, after the
      `accepted` marker is appended. */
  lemma InviteMarkerLingers(os: seq<Other>, os': seq<Other>, k: nat, otherId: string, v: Invitation, now: int)
    requires k < |os| && os[k] == InviteMarker(otherId, v)
    requires AppendedMarker(os, os', "accepted", v.desUserId, None, v.lockId, now)
    ensures k < |os'| && os'[k] == InviteMarker(otherId, v)
    ensures Matches(OtherDoc(os'[k]), InviteMarkerFilter(v))
  {
    assert os'[k] == os'[..|os|][k];
    InviteMarkerMatches(otherId, v);
  }

  /** An appended marker keeps the marker ids valid. */
  lemma AppendedMarkerKeepsIds(before: seq<Other>, after: seq<Other>, subMode: string, userId: string,
                               userRole: Option<string>, lockId: string, datetime: int)
    requires MarkersOk(before)
    requires AppendedMarker(before, after, subMode, userId, userRole, lockId, datetime)
    ensures MarkersOk(after)
  {
    var o := after[|before|];
    assert after == before + [o];
    assert OtherIds(after) == OtherIds(before) + [o.otherId];
    DistinctAppend(OtherIds(before), o.otherId);
  }

  /** `delete_one` keeps the marker ids valid. */
  lemma MarkerDelete(os: seq<Other>, f: Filter)
    requires MarkersOk(os)
    ensures MarkersOk(DeleteOne(os, f))
  {
    DeleteOneKeepsIds(os, f);
    DeleteOneSubset(os, f);
  }

  /** An id no marker uses is still unused after `delete_one`. */
  lemma DeleteKeepsAbsent(os: seq<Other>, f: Filter, x: string)
    requires x !in OtherIds(os)
    ensures x !in OtherIds(DeleteOne(os, f))
  {
    DeleteOneSubset(os, f);
    var r := DeleteOne(os, f);
    forall k | 0 <= k < |r| ensures OtherIds(r)[k] in OtherIds(os) {
      var m :| 0 <= m < |os| && os[m] == r[k];
      assert OtherIds(os)[m] == OtherIds(r)[k];
    }
  }

  lemma PrefixesDiffer(a: string, b: string)
    requires HasPrefix(a, "invite") && HasPrefix(b, "other")
    ensures a != b
  {
    assert a[0] == a[..6][0] == 'i';
    assert b[0] == b[..5][0] == 'o';
  }

  /** An invitation id numbered from the invitation count is never a marker
      id, so deleting the marker "with" that id deletes nothing. */
  lemma NoMarkerHasInvitationId(vs: seq<Invitation>, os: seq<Other>, i: nat)
    requires Sequential("invite", InvitationIds(vs)) && MarkersOk(os) && i < |vs|
    ensures DeleteOne(os, [("otherId", vs[i].invId)]) == os
  {
    var notiId := vs[i].invId;
    assert notiId == InvitationIds(vs)[i] == MakeId("invite", i + 1);
    MakeIdHasPrefix("invite", i + 1);
    var f := [("otherId", notiId)];
    forall k | 0 <= k < |os| ensures !Matches(OtherDoc(os[k]), f) {
      PrefixesDiffer(notiId, os[k].otherId);
      OtherDocId(os[k]);
      assert OtherDoc(os[k])[f[0].0] != f[0].1;
    }
  }

  // ---------------------------------------------------------------------
  // Numbered collections: appending the next id, or rewriting a record
  // without changing its id, keeps the numbering.

  lemma RequestAppend(rs: seq<Request>, q: Request)
    requires Sequential("req", RequestIds(rs)) && q.reqId == MakeId("req", |rs| + 1)
    ensures Sequential("req", RequestIds(rs + [q]))
  {
    assert RequestIds(rs + [q]) == RequestIds(rs) + [q.reqId];
    SequentialAppend("req", RequestIds(rs));
  }

  lemma RequestUpdate(rs: seq<Request>, i: nat, q: Request)
    requires i < |rs| && q.reqId == rs[i].reqId
    ensures RequestIds(rs[i := q]) == RequestIds(rs)
  {
  }

  lemma InvitationAppend(vs: seq<Invitation>, v: Invitation)
    requires Sequential("invite", InvitationIds(vs)) && v.invId == MakeId("invite", |vs| + 1)
    ensures Sequential("invite", InvitationIds(vs + [v]))
  {
    assert InvitationIds(vs + [v]) == InvitationIds(vs) + [v.invId];
    SequentialAppend("invite", InvitationIds(vs));
  }

  lemma InvitationUpdate(vs: seq<Invitation>, i: nat, v: Invitation)
    requires i < |vs| && v.invId == vs[i].invId
    ensures InvitationIds(vs[i := v]) == InvitationIds(vs)
  {
  }

  lemma HistoryAppend(hs: seq<History>, h: History)
    requires Sequential("his", HistoryIds(hs)) && h.hisId == MakeId("his", |hs| + 1)
    ensures Sequential("his", HistoryIds(hs + [h]))
  {
    assert HistoryIds(hs + [h]) == HistoryIds(hs) + [h.hisId];
    SequentialAppend("his", HistoryIds(hs));
  }

  lemma ConnectAppend(cs: seq<Connection>, c: Connection)
    requires Sequential("con", ConnectionIds(cs)) && c.conId == MakeId("con", |cs| + 1)
    ensures Sequential("con", ConnectionIds(cs + [c]))
  {
    assert ConnectionIds(cs + [c]) == ConnectionIds(cs) + [c.conId];
    SequentialAppend("con", ConnectionIds(cs));
  }

  // ---------------------------------------------------------------------
  // The mirror across whole endpoints.

  /** Two edits of bookkeeping lists keep the mirror. */
  lemma TwoLockEditsKeepMirror(locks: seq<Lock>, users: seq<User>, lockId: string, e1: LockEdit, e2: LockEdit)
    requires Mirrored(locks, users) && !e1.ChangesRoles() && !e2.ChangesRoles()
    ensures Mirrored(EditLock(EditLock(locks, lockId, e1), lockId, e2), users)
  {
    LockEditKeepsMirror(locks, users, lockId, e1);
    LockEditKeepsMirror(EditLock(locks, lockId, e1), users, lockId, e2);
  }

  /** A grant written to both sides, then the user's new location and
      three bookkeeping edits of the lock: the shape of both accept
      endpoints. */
  lemma GrantChainKeepsMirror(locks: seq<Lock>, users: seq<User>, le: LockEdit, ue: UserEdit,
                              location: string, e1: LockEdit, e2: LockEdit, e3: LockEdit)
    requires Mirrored(locks, users) && Paired(le, ue)
    requires EditedLockId(ue) in LockIds(locks) && EditedUserId(le) in UserIds(users)
    requires !e1.ChangesRoles() && !e2.ChangesRoles() && !e3.ChangesRoles()
    ensures
      var lockId, userId := EditedLockId(ue), EditedUserId(le);
      Mirrored(
        EditLock(EditLock(EditLock(EditLock(locks, lockId, le), lockId, e1), lockId, e2), lockId, e3),
        EditUser(EditUser(users, userId, ue), userId, AddLocation(location)))
  {
    var lockId, userId := EditedLockId(ue), EditedUserId(le);
    PairedGrantKeepsMirror(locks, users, le, ue);
    var l1, u1 := EditLock(locks, lockId, le), EditUser(users, userId, ue);
    UserEditKeepsMirror(l1, u1, userId, AddLocation(location));
    var u2 := EditUser(u1, userId, AddLocation(location));
    LockEditKeepsMirror(l1, u2, lockId, e1);
    TwoLockEditsKeepMirror(EditLock(l1, lockId, e1), u2, lockId, e2, e3);
  }

  /** post_new_lock's writes: a new lock under an unused id, then the
      creator's new location and admin detail. */
  lemma NewLockChainKeepsMirror(locks: seq<Lock>, users: seq<User>, userId: string, d: LockDetail, location: string)
    requires Mirrored(locks, users)
    requires d.lockId !in LockIds(locks) && userId in UserIds(users)
    ensures Mirrored(locks + [FreshLock(d.lockId, userId)],
                     EditUser(EditUser(users, userId, AddLocation(location)), userId, AddAdminDetail(d)))
  {
    UserEditKeepsMirror(locks, users, userId, AddLocation(location));
    NewLockKeepsMirror(locks, EditUser(users, userId, AddLocation(location)), userId, d);
  }
}
