/** The read endpoints of main.py: the lock list of a user, the detail page
    of a lock, and the feed of pending access requests. Each one reads the
    collections and builds a reply without changing anything, so each is a
    function of the collections and the path parameters. Display joins
    (first names, surnames, images of users) are not modelled. */
module Views {
  import opened Common
  import opened Records
  import opened Mirror
  import opened Feed

  /** The message of the exception raised by indexing a missing document
      (`None['admin']`, `None['request']`). */
  const NoneSubscript: string := "'NoneType' object is not subscriptable"

  // ---------------------------------------------------------------------
  // get_user_lock

  /** One lock card of the lock list. */
  datatype LockCard = LockCard(lockId: string, lockImage: string, lockName: string)

  datatype UserLocks = UserLocks(
    userId: string, lockLocationList: seq<string>, lockLocationActive: string,
    dataList: seq<LockCard>)

  function CardOf(d: LockDetail): LockCard {
    LockCard(d.lockId, d.lockImage, d.lockName)
  }

  /** The lock fields of a user's guest grants. */
  function GuestDetails(gs: seq<Guest>): seq<LockDetail> {
    seq(|gs|, k requires 0 <= k < |gs| => gs[k].Detail())
  }

  /** Every role entry of a user, admins first, then members, then guests. */
  function Entries(u: User): seq<LockDetail> {
    u.admin + u.member + GuestDetails(u.guest)
  }

  /** The cards of the entries at `location`, in entry order. */
  function CardsAt(ds: seq<LockDetail>, location: string): (r: seq<LockCard>)
    ensures |r| <= |ds|
    ensures forall c :: c in r ==> exists k :: 0 <= k < |ds| && ds[k].lockLocation == location && c == CardOf(ds[k])
    ensures forall k :: 0 <= k < |ds| && ds[k].lockLocation == location ==> CardOf(ds[k]) in r
  {
    if ds == [] then []
    else
      var rest := CardsAt(ds[1..], location);
      assert forall k :: 1 <= k < |ds| ==> ds[k] == ds[1..][k - 1];
      assert forall k :: 0 <= k < |ds[1..]| ==> ds[1..][k] == ds[k + 1];
      if ds[0].lockLocation == location then [CardOf(ds[0])] + rest else rest
  }

  /** Cards keep the order of the lists they come from. */
  lemma {:induction false} CardsAtAppend(a: seq<LockDetail>, b: seq<LockDetail>, location: string)
    ensures CardsAt(a + b, location) == CardsAt(a, location) + CardsAt(b, location)
  {
    if a != [] {
      var ab := a + b;
      assert ab[0] == a[0] && ab[1..] == a[1..] + b;
      CardsAtAppend(a[1..], b, location);
    } else {
      assert a + b == b;
    }
  }

  /** `get_user_lock(userId, lockLocationActiveStr)`. A missing or empty
      location selects the first of the user's locations. */
  function GetUserLock(users: seq<User>, userId: string, active: Option<string>): (r: Result<UserLocks>)
    ensures FindUser(users, userId).None? ==> r == Err(NotFound("User not found"))
    ensures r.Ok? ==> r.value.userId == userId
  {
    match FindUser(users, userId)
    case None => Err(NotFound("User not found"))
    case Some(j) =>
      var u := users[j];
      if (active.None? || active.value == "") && u.lockLocationList == [] then
        Err(Internal("list index out of range"))
      else
        var location := if active.None? || active.value == "" then u.lockLocationList[0] else active.value;
        Ok(UserLocks(u.userId, u.lockLocationList, location, CardsAt(Entries(u), location)))
  }

  /** The lock list fails only for an unknown user, or for a user without
      locations when no location is given. */
  lemma GetUserLockFails(users: seq<User>, userId: string, active: Option<string>)
    ensures GetUserLock(users, userId, active).Err? <==>
              (|| userId !in UserIds(users)
               || (FindUser(users, userId).Some? && (active.None? || active.value == "")
                   && users[FindUser(users, userId).value].lockLocationList == []))
  {
    IndexOfFirst(UserIds(users), userId);
  }

  /** The active location is the one asked for, else the user's first. */
  lemma GetUserLockLocation(users: seq<User>, userId: string, active: Option<string>)
    requires GetUserLock(users, userId, active).Ok?
    ensures active.Some? && active.value != "" ==> GetUserLock(users, userId, active).value.lockLocationActive == active.value
    ensures active.None? || active.value == "" ==>
      var locations := GetUserLock(users, userId, active).value.lockLocationList;
      locations != [] && GetUserLock(users, userId, active).value.lockLocationActive == locations[0]
  {
  }

  /** The lock list shows a card for exactly the user's role entries at the
      active location, admin locks before member locks before guest locks. */
  lemma GetUserLockCards(users: seq<User>, userId: string, active: Option<string>, c: LockCard)
    requires GetUserLock(users, userId, active).Ok?
    ensures var v := GetUserLock(users, userId, active).value;
            var u := users[FindUser(users, userId).value];
            && (c in v.dataList <==> exists k :: 0 <= k < |Entries(u)| && Entries(u)[k].lockLocation == v.lockLocationActive && c == CardOf(Entries(u)[k]))
            && v.dataList == CardsAt(u.admin, v.lockLocationActive) + CardsAt(u.member, v.lockLocationActive)
                             + CardsAt(GuestDetails(u.guest), v.lockLocationActive)
  {
    var v := GetUserLock(users, userId, active).value;
    var u := users[FindUser(users, userId).value];
    CardsAtAppend(u.admin + u.member, GuestDetails(u.guest), v.lockLocationActive);
    CardsAtAppend(u.admin, u.member, v.lockLocationActive);
  }

  // ---------------------------------------------------------------------
  // get_lock_detail

  /** One row of the lock's user list. */
  datatype Holder = Holder(userId: string, role: string)

  datatype LockView = LockView(
    lockId: string, lockName: string, lockLocation: string, lockImage: string,
    securityStatus: string, isAdmin: bool, dataList: seq<Holder>)

  /** A row for every id in `ids` that names a stored user (one of
      `known`), in order; ids without a user document are skipped. */
  function Holders(known: seq<string>, ids: seq<string>, role: string): (r: seq<Holder>)
    ensures |r| <= |ids|
    ensures forall h :: h in r <==> h.role == role && h.userId in ids && h.userId in known
    ensures (forall k :: 0 <= k < |ids| ==> ids[k] in known) ==> |r| == |ids|
  {
    if ids == [] then []
    else
      var rest := Holders(known, ids[1..], role);
      assert ids == [ids[0]] + ids[1..];
      if ids[0] in known then [Holder(ids[0], role)] + rest else rest
  }

  /** Position of a role in the user list of a lock page: admins, then
      members, then guests. */
  function RoleRank(role: string): nat {
    if role == "admin" then 0 else if role == "member" then 1 else 2
  }

  /** Rows of the three roles, concatenated in that order, are ranked. */
  lemma RankedRows(a: seq<Holder>, b: seq<Holder>, c: seq<Holder>)
    requires forall k :: 0 <= k < |a| ==> a[k].role == "admin"
    requires forall k :: 0 <= k < |b| ==> b[k].role == "member"
    requires forall k :: 0 <= k < |c| ==> c[k].role == "guest"
    ensures forall x, y :: 0 <= x < y < |a + b + c| ==> RoleRank((a + b + c)[x].role) <= RoleRank((a + b + c)[y].role)
  {
    var s := a + b + c;
    forall x | 0 <= x < |s|
      ensures RoleRank(s[x].role) == if x < |a| then 0 else if x < |a| + |b| then 1 else 2
    {
      if x < |a| { assert s[x] == a[x]; }
      else if x < |a| + |b| { assert s[x] == b[x - |a|]; }
      else { assert s[x] == c[x - |a| - |b|]; }
    }
  }

  /** Every row `Holders` builds carries the role it was asked for. */
  lemma HoldersRole(known: seq<string>, ids: seq<string>, role: string)
    ensures forall k :: 0 <= k < |Holders(known, ids, role)| ==> Holders(known, ids, role)[k].role == role
  {
    var r := Holders(known, ids, role);
    forall k | 0 <= k < |r| ensures r[k].role == role {
      assert r[k] in r;
    }
  }

  /** The user ids of a lock's guest entries. */
  function GuestUserIds(gs: seq<Guest>): seq<string> {
    seq(|gs|, k requires 0 <= k < |gs| => gs[k].userId)
  }

  /** The three roles a user document can hold a lock in. */
  datatype Role = AdminRole | MemberRole | GuestRole

  /** The user's entries for one role, as lock details. */
  function RoleEntries(u: User, role: Role): seq<LockDetail> {
    match role
    case AdminRole => u.admin
    case MemberRole => u.member
    case GuestRole => GuestDetails(u.guest)
  }

  /** Some user document with `userId` holds an entry for `lockId` in `role`. */
  predicate HoldsRole(users: seq<User>, userId: string, lockId: string, role: Role) {
    exists j :: 0 <= j < |users| && users[j].userId == userId && lockId in DetailLockIds(RoleEntries(users[j], role))
  }

  /** `find_one({'userId': userId, role: {'$elemMatch': {'lockId': lockId}}},
      {role + '.$': 1})`: the first matching entry of the first matching
      user document. */
  function RoleEntry(users: seq<User>, userId: string, lockId: string, role: Role): (r: Option<LockDetail>)
    ensures r.Some? ==> r.value.lockId == lockId
  {
    if users == [] then None
    else
      var ds := RoleEntries(users[0], role);
      if users[0].userId == userId && lockId in DetailLockIds(ds) then
        IndexOfFirst(DetailLockIds(ds), lockId);
        Some(ds[IndexOf(DetailLockIds(ds), lockId).value])
      else RoleEntry(users[1..], userId, lockId, role)
  }

  lemma {:induction false} RoleEntryFinds(users: seq<User>, userId: string, lockId: string, role: Role)
    ensures RoleEntry(users, userId, lockId, role).Some? <==> HoldsRole(users, userId, lockId, role)
  {
    if users != [] && !(users[0].userId == userId && lockId in DetailLockIds(RoleEntries(users[0], role))) {
      RoleEntryFinds(users[1..], userId, lockId, role);
      if HoldsRole(users, userId, lockId, role) {
        var j :| 0 <= j < |users| && users[j].userId == userId && lockId in DetailLockIds(RoleEntries(users[j], role));
        assert users[1..][j - 1] == users[j];
      }
      if HoldsRole(users[1..], userId, lockId, role) {
        var j :| 0 <= j < |users[1..]| && users[1..][j].userId == userId && lockId in DetailLockIds(RoleEntries(users[1..][j], role));
        assert users[j + 1] == users[1..][j];
      }
    }
  }

  /** With one document per user id, the entry found is the first entry for
      the lock in that user's own list. */
  lemma {:induction false} RoleEntryOfUser(users: seq<User>, j: nat, lockId: string, role: Role, m: nat)
    requires j < |users| && Distinct(UserIds(users))
    requires IndexOf(DetailLockIds(RoleEntries(users[j], role)), lockId) == Some(m)
    ensures RoleEntry(users, users[j].userId, lockId, role) == Some(RoleEntries(users[j], role)[m])
  {
    if j > 0 {
      assert UserIds(users)[0] == users[0].userId && UserIds(users)[j] == users[j].userId;
      assert UserIds(users[1..]) == UserIds(users)[1..];
      assert users[1..][j - 1] == users[j];
      RoleEntryOfUser(users[1..], j - 1, lockId, role, m);
    }
  }

  /** The lock detail the page shows: the user's admin entry, else the
      member entry, else the guest grant. */
  function ResolveEntry(users: seq<User>, userId: string, lockId: string): Option<LockDetail> {
    match RoleEntry(users, userId, lockId, AdminRole)
    case Some(d) => Some(d)
    case None =>
      match RoleEntry(users, userId, lockId, MemberRole)
      case Some(d) => Some(d)
      case None => RoleEntry(users, userId, lockId, GuestRole)
  }

  /** `get_lock_detail(lockId, userId)`. */
  function GetLockDetail(locks: seq<Lock>, users: seq<User>, lockId: string, userId: string): (r: Result<LockView>)
    ensures FindLock(locks, lockId).None? ==> r == Err(NotFound("Lock not found"))
    ensures r.Ok? ==> r.value.lockId == lockId
  {
    match FindLock(locks, lockId)
    case None => Err(NotFound("Lock not found"))
    case Some(i) =>
      var l := locks[i];
      var known := UserIds(users);
      var rows := Holders(known, l.admin, "admin") + Holders(known, l.member, "member")
                  + Holders(known, GuestUserIds(l.guest), "guest");
      match ResolveEntry(users, userId, lockId)
      case None => Err(Forbidden("User is not in lock"))
      case Some(d) =>
        Ok(LockView(lockId, d.lockName, d.lockLocation, d.lockImage, l.securityStatus, userId in l.admin, rows))
  }

  /** The page of an existing lock is refused exactly when no document of
      the user holds the lock in any role. */
  lemma GetLockDetailForbidden(locks: seq<Lock>, users: seq<User>, lockId: string, userId: string)
    requires lockId in LockIds(locks)
    ensures GetLockDetail(locks, users, lockId, userId).Err? <==>
              (&& !HoldsRole(users, userId, lockId, AdminRole) && !HoldsRole(users, userId, lockId, MemberRole)
               && !HoldsRole(users, userId, lockId, GuestRole))
    ensures GetLockDetail(locks, users, lockId, userId).Err? ==> GetLockDetail(locks, users, lockId, userId).error == Forbidden("User is not in lock")
  {
    IndexOfFirst(LockIds(locks), lockId);
    RoleEntryFinds(users, userId, lockId, AdminRole);
    RoleEntryFinds(users, userId, lockId, MemberRole);
    RoleEntryFinds(users, userId, lockId, GuestRole);
  }

  /** The admin entry wins over a member entry, which wins over a guest
      grant; the page reports the lock's own security status and whether
      the caller is listed as one of its admins. */
  lemma GetLockDetailResolution(locks: seq<Lock>, users: seq<User>, lockId: string, userId: string)
    requires GetLockDetail(locks, users, lockId, userId).Ok?
    ensures var v := GetLockDetail(locks, users, lockId, userId).value;
            var l := locks[FindLock(locks, lockId).value];
            && v.securityStatus == l.securityStatus
            && (v.isAdmin <==> userId in l.admin)
            && (HoldsRole(users, userId, lockId, AdminRole) ==>
                  RoleEntry(users, userId, lockId, AdminRole) == Some(LockDetail(lockId, v.lockName, v.lockLocation, v.lockImage)))
            && (!HoldsRole(users, userId, lockId, AdminRole) && HoldsRole(users, userId, lockId, MemberRole) ==>
                  RoleEntry(users, userId, lockId, MemberRole) == Some(LockDetail(lockId, v.lockName, v.lockLocation, v.lockImage)))
            && (!HoldsRole(users, userId, lockId, AdminRole) && !HoldsRole(users, userId, lockId, MemberRole) ==>
                  RoleEntry(users, userId, lockId, GuestRole) == Some(LockDetail(lockId, v.lockName, v.lockLocation, v.lockImage)))
  {
    RoleEntryFinds(users, userId, lockId, AdminRole);
    RoleEntryFinds(users, userId, lockId, MemberRole);
  }

  /** The user list of the page: a row for every admin, member and guest of
      the lock that names a stored user, and nobody else; admins first,
      then members, then guests. */
  lemma GetLockDetailRows(locks: seq<Lock>, users: seq<User>, lockId: string, userId: string, h: Holder)
    requires GetLockDetail(locks, users, lockId, userId).Ok?
    ensures var v := GetLockDetail(locks, users, lockId, userId).value;
            var l := locks[FindLock(locks, lockId).value];
            h in v.dataList <==>
              && h.userId in UserIds(users)
              && ((h.role == "admin" && h.userId in l.admin)
                  || (h.role == "member" && h.userId in l.member)
                  || (h.role == "guest" && h.userId in GuestUserIds(l.guest)))
    ensures var v := GetLockDetail(locks, users, lockId, userId).value;
            forall a, b :: 0 <= a < b < |v.dataList| ==> RoleRank(v.dataList[a].role) <= RoleRank(v.dataList[b].role)
  {
    var l := locks[FindLock(locks, lockId).value];
    var known := UserIds(users);
    HoldersRole(known, l.admin, "admin");
    HoldersRole(known, l.member, "member");
    HoldersRole(known, GuestUserIds(l.guest), "guest");
    RankedRows(Holders(known, l.admin, "admin"), Holders(known, l.member, "member"),
               Holders(known, GuestUserIds(l.guest), "guest"));
  }

  /** A user that agrees with a lock holds the lock in every role the lock
      records for the user. */
  lemma AgreeGrantHeld(l: Lock, u: User)
    requires Agree(l, u)
    ensures u.userId in l.admin ==> l.lockId in DetailLockIds(u.admin)
    ensures u.userId in l.member ==> l.lockId in DetailLockIds(u.member)
    ensures GrantsFor(l.guest, l.lockId, u.userId) != [] ==> l.lockId in DetailLockIds(GuestDetails(u.guest))
  {
    if GrantsFor(l.guest, l.lockId, u.userId) != [] {
      var g := GrantsFor(u.guest, l.lockId, u.userId)[0];
      assert g in u.guest && g.lockId == l.lockId;
      var k :| 0 <= k < |u.guest| && u.guest[k] == g;
      assert DetailLockIds(GuestDetails(u.guest))[k] == l.lockId;
    }
  }

  /** A user with one document that holds the lock in some role sees the
      page of an existing lock. */
  lemma GetLockDetailHeld(locks: seq<Lock>, users: seq<User>, lockId: string, j: nat)
    requires lockId in LockIds(locks) && Distinct(UserIds(users)) && j < |users|
    requires || lockId in DetailLockIds(users[j].admin) || lockId in DetailLockIds(users[j].member)
             || lockId in DetailLockIds(GuestDetails(users[j].guest))
    ensures GetLockDetail(locks, users, lockId, users[j].userId).Ok?
  {
    var u := users[j];
    GetLockDetailForbidden(locks, users, lockId, u.userId);
    if lockId in DetailLockIds(u.admin) {
      assert RoleEntries(users[j], AdminRole) == u.admin;
      assert HoldsRole(users, u.userId, lockId, AdminRole);
    } else if lockId in DetailLockIds(u.member) {
      assert RoleEntries(users[j], MemberRole) == u.member;
      assert HoldsRole(users, u.userId, lockId, MemberRole);
    } else {
      assert RoleEntries(users[j], GuestRole) == GuestDetails(u.guest);
      assert HoldsRole(users, u.userId, lockId, GuestRole);
    }
  }

  /** A user with one document that lists the lock among its admin entries
      sees the lock fields of the first such entry. */
  lemma GetLockDetailOwnAdminEntry(locks: seq<Lock>, users: seq<User>, lockId: string, j: nat, m: nat)
    requires lockId in LockIds(locks) && Distinct(UserIds(users)) && j < |users|
    requires IndexOf(DetailLockIds(users[j].admin), lockId) == Some(m)
    ensures var r := GetLockDetail(locks, users, lockId, users[j].userId);
            && r.Ok? && m < |users[j].admin|
            && r.value.lockName == users[j].admin[m].lockName
            && r.value.lockLocation == users[j].admin[m].lockLocation
            && r.value.lockImage == users[j].admin[m].lockImage
  {
    var u := users[j];
    assert RoleEntries(users[j], AdminRole) == u.admin;
    assert HoldsRole(users, u.userId, lockId, AdminRole);
    GetLockDetailForbidden(locks, users, lockId, u.userId);
    RoleEntryOfUser(users, j, lockId, AdminRole, m);
    GetLockDetailResolution(locks, users, lockId, u.userId);
  }

  /** On a mirrored store every grant the lock records opens its page to
      the grantee, and an admin of the lock sees it as admin, with the lock
      fields of the first entry for the lock in the admin's own list. */
  lemma GetLockDetailMirrored(locks: seq<Lock>, users: seq<User>, lockId: string, userId: string)
    requires Mirrored(locks, users)
    requires FindLock(locks, lockId).Some? && FindUser(users, userId).Some?
    ensures var l := locks[FindLock(locks, lockId).value];
            var u := users[FindUser(users, userId).value];
            var r := GetLockDetail(locks, users, lockId, userId);
            && ((userId in l.admin || userId in l.member || GrantsFor(l.guest, lockId, userId) != []) ==> r.Ok?)
            && (userId in l.admin ==>
                  && r.Ok? && r.value.isAdmin
                  && exists m :: 0 <= m < |u.admin| && u.admin[m].lockId == lockId
                       && lockId !in DetailLockIds(u.admin)[..m]
                       && r.value.lockName == u.admin[m].lockName && r.value.lockLocation == u.admin[m].lockLocation
                       && r.value.lockImage == u.admin[m].lockImage)
  {
    IndexOfFirst(LockIds(locks), lockId);
    IndexOfFirst(UserIds(users), userId);
    var i := FindLock(locks, lockId).value;
    var j := FindUser(users, userId).value;
    assert LockIds(locks)[i] == locks[i].lockId && UserIds(users)[j] == users[j].userId;
    assert Agree(locks[i], users[j]);
    AgreeGrantHeld(locks[i], users[j]);
    var l := locks[i];
    if userId in l.admin || userId in l.member || GrantsFor(l.guest, lockId, userId) != [] {
      GetLockDetailHeld(locks, users, lockId, j);
    }
    if userId in l.admin {
      var ids := DetailLockIds(users[j].admin);
      IndexOfFirst(ids, lockId);
      var m := IndexOf(ids, lockId).value;
      GetLockDetailOwnAdminEntry(locks, users, lockId, j, m);
      assert ids[m] == users[j].admin[m].lockId;
    }
  }

  /** A lock whose role lists name only stored users gets one row per
      role entry. */
  lemma ClosedLockRows(l: Lock, known: seq<string>)
    requires LockClosed(l, known)
    ensures |Holders(known, l.admin, "admin") + Holders(known, l.member, "member")
             + Holders(known, GuestUserIds(l.guest), "guest")| == |l.admin| + |l.member| + |l.guest|
  {
    assert forall k :: 0 <= k < |GuestUserIds(l.guest)| ==> GuestUserIds(l.guest)[k] == l.guest[k].userId;
  }

  /** On a mirrored store the user list of a lock page has a row for every
      role entry of the lock. */
  lemma GetLockDetailMirroredRows(locks: seq<Lock>, users: seq<User>, lockId: string, userId: string)
    requires Mirrored(locks, users)
    requires GetLockDetail(locks, users, lockId, userId).Ok?
    ensures var l := locks[FindLock(locks, lockId).value];
            |GetLockDetail(locks, users, lockId, userId).value.dataList| == |l.admin| + |l.member| + |l.guest|
  {
    var i := FindLock(locks, lockId).value;
    assert LockClosed(locks[i], UserIds(users));
    ClosedLockRows(locks[i], UserIds(users));
  }

  // ---------------------------------------------------------------------
  // get_request_notification_list

  datatype NotificationList = NotificationList(userId: string, mode: string, dataList: seq<Row>)

  /** A request still waiting for an answer on `lockId`. */
  predicate Pending(q: Request, lockId: string) {
    q.lockId == lockId && q.requestStatus == Sent
  }

  /** `find({'lockId': lockId, 'requestStatus': 'sent'})`, in collection order. */
  function PendingOn(rs: seq<Request>, lockId: string): (r: seq<Request>)
    ensures forall q :: q in r <==> q in rs && Pending(q, lockId)
  {
    if rs == [] then []
    else
      var rest := PendingOn(rs[1..], lockId);
      assert rs == [rs[0]] + rs[1..];
      if Pending(rs[0], lockId) then [rs[0]] + rest else rest
  }

  /** The feed row of request `q`, shown under the admin's entry `d` of the
      lock; `amount` is the length of the lock's request list. */
  function RequestRow(q: Request, d: LockDetail, amount: nat): Row {
    Row(q.reqId, q.datetime, amount, d.lockId, d.lockLocation, d.lockName, q.userId)
  }

  /** A pending request the feed cannot render: its lock or its requester
      has no document, and reading a field of `None` raises. */
  predicate Unrenderable(users: seq<User>, locks: seq<Lock>, q: Request) {
    q.lockId !in LockIds(locks) || q.userId !in UserIds(users)
  }

  /** The rows for one admin entry. The lock is looked up once; a missing
      lock only fails once a request has to be rendered. */
  function RowsForEntry(users: seq<User>, locks: seq<Lock>, rs: seq<Request>, d: LockDetail): (r: Result<seq<Row>>)
  {
    var qs := PendingOn(rs, d.lockId);
    if qs == [] then Ok([])
    else match FindLock(locks, d.lockId)
      case None => Err(Internal(NoneSubscript))
      case Some(i) =>
        if forall k :: 0 <= k < |qs| ==> qs[k].userId in UserIds(users) then
          Ok(seq(|qs|, k requires 0 <= k < |qs| => RequestRow(qs[k], d, |locks[i].request|)))
        else Err(Internal(NoneSubscript))
  }

  /** The rows of all admin entries, entry by entry. */
  function RowsForEntries(users: seq<User>, locks: seq<Lock>, rs: seq<Request>, ds: seq<LockDetail>): Result<seq<Row>> {
    if ds == [] then Ok([])
    else match RowsForEntry(users, locks, rs, ds[0])
      case Err(e) => Err(e)
      case Ok(a) =>
        match RowsForEntries(users, locks, rs, ds[1..])
        case Err(e) => Err(e)
        case Ok(b) => Ok(a + b)
  }

  /** `get_request_notification_list(userId)`: the pending requests on the
      locks the user administers, newest first. */
  function GetRequestNotificationList(users: seq<User>, locks: seq<Lock>, rs: seq<Request>, userId: string): (r: Result<NotificationList>)
    ensures userId !in UserIds(users) ==> r.Err?
    ensures r.Ok? ==> SortedByDateDesc(r.value.dataList) && r.value.userId == userId && r.value.mode == "req"
  {
    IndexOfFirst(UserIds(users), userId);
    match FindUser(users, userId)
    case None => Err(Internal(NoneSubscript))
    case Some(j) =>
      match RowsForEntries(users, locks, rs, users[j].admin)
      case Err(e) => Err(e)
      case Ok(rows) => Ok(NotificationList(userId, "req", SortByDateDesc(rows)))
  }

  /** `row` shows pending request `q` under admin entry `ds[k]`, with the
      length of the lock's request list as amount. */
  predicate ShowsRequest(locks: seq<Lock>, ds: seq<LockDetail>, k: int, q: Request, row: Row) {
    && 0 <= k < |ds|
    && Pending(q, ds[k].lockId)
    && q.lockId in LockIds(locks)
    && FindLock(locks, q.lockId).Some?
    && row == RequestRow(q, ds[k], |locks[FindLock(locks, q.lockId).value].request|)
  }

  lemma RowsForEntryFails(users: seq<User>, locks: seq<Lock>, rs: seq<Request>, d: LockDetail)
    ensures RowsForEntry(users, locks, rs, d).Err?
        <==> exists q :: q in rs && Pending(q, d.lockId) && Unrenderable(users, locks, q)
  {
    var qs := PendingOn(rs, d.lockId);
    IndexOfFirst(LockIds(locks), d.lockId);
    if qs != [] {
      assert qs[0] in qs;
      if !(forall k :: 0 <= k < |qs| ==> qs[k].userId in UserIds(users)) {
        var k :| 0 <= k < |qs| && qs[k].userId !in UserIds(users);
        assert qs[k] in qs;
      }
    }
    if exists q :: q in rs && Pending(q, d.lockId) && Unrenderable(users, locks, q) {
      var q :| q in rs && Pending(q, d.lockId) && Unrenderable(users, locks, q);
      assert q in qs;
      var k :| 0 <= k < |qs| && qs[k] == q;
    }
  }

  lemma RowsForEntryRows(users: seq<User>, locks: seq<Lock>, rs: seq<Request>, d: LockDetail, row: Row)
    requires RowsForEntry(users, locks, rs, d).Ok?
    ensures row in RowsForEntry(users, locks, rs, d).value <==>
              exists q :: q in rs && ShowsRequest(locks, [d], 0, q, row)
  {
    var qs := PendingOn(rs, d.lockId);
    IndexOfFirst(LockIds(locks), d.lockId);
    if qs != [] {
      var i := FindLock(locks, d.lockId).value;
      var rows := RowsForEntry(users, locks, rs, d).value;
      if row in rows {
        var k :| 0 <= k < |rows| && rows[k] == row;
        assert qs[k] in qs;
        assert ShowsRequest(locks, [d], 0, qs[k], row);
      }
      if exists q :: q in rs && ShowsRequest(locks, [d], 0, q, row) {
        var q :| q in rs && ShowsRequest(locks, [d], 0, q, row);
        assert q in qs;
        var k :| 0 <= k < |qs| && qs[k] == q;
        assert rows[k] == row;
      }
    }
  }

  lemma {:induction false} RowsForEntriesFails(users: seq<User>, locks: seq<Lock>, rs: seq<Request>, ds: seq<LockDetail>)
    ensures RowsForEntries(users, locks, rs, ds).Err?
        <==> exists k, q :: 0 <= k < |ds| && q in rs && Pending(q, ds[k].lockId) && Unrenderable(users, locks, q)
  {
    if ds != [] {
      RowsForEntryFails(users, locks, rs, ds[0]);
      RowsForEntriesFails(users, locks, rs, ds[1..]);
      if exists k, q :: 0 <= k < |ds| && q in rs && Pending(q, ds[k].lockId) && Unrenderable(users, locks, q) {
        var k, q :| 0 <= k < |ds| && q in rs && Pending(q, ds[k].lockId) && Unrenderable(users, locks, q);
        if k > 0 { assert ds[1..][k - 1] == ds[k]; }
      }
      if exists k, q :: 0 <= k < |ds[1..]| && q in rs && Pending(q, ds[1..][k].lockId) && Unrenderable(users, locks, q) {
        var k, q :| 0 <= k < |ds[1..]| && q in rs && Pending(q, ds[1..][k].lockId) && Unrenderable(users, locks, q);
        assert ds[k + 1] == ds[1..][k];
      }
    }
  }

  lemma {:induction false} RowsForEntriesRows(users: seq<User>, locks: seq<Lock>, rs: seq<Request>, ds: seq<LockDetail>, row: Row)
    requires RowsForEntries(users, locks, rs, ds).Ok?
    ensures row in RowsForEntries(users, locks, rs, ds).value <==>
              exists k, q :: q in rs && ShowsRequest(locks, ds, k, q, row)
  {
    if ds != [] {
      RowsForEntryRows(users, locks, rs, ds[0], row);
      RowsForEntriesRows(users, locks, rs, ds[1..], row);
      if exists q :: q in rs && ShowsRequest(locks, [ds[0]], 0, q, row) {
        var q :| q in rs && ShowsRequest(locks, [ds[0]], 0, q, row);
        assert ShowsRequest(locks, ds, 0, q, row);
      }
      if exists k, q :: q in rs && ShowsRequest(locks, ds[1..], k, q, row) {
        var k, q :| q in rs && ShowsRequest(locks, ds[1..], k, q, row);
        assert ds[1..][k] == ds[k + 1];
        assert ShowsRequest(locks, ds, k + 1, q, row);
      }
      if exists k, q :: q in rs && ShowsRequest(locks, ds, k, q, row) {
        var k, q :| q in rs && ShowsRequest(locks, ds, k, q, row);
        if k == 0 {
          assert ShowsRequest(locks, [ds[0]], 0, q, row);
        } else {
          assert ds[1..][k - 1] == ds[k];
          assert ShowsRequest(locks, ds[1..], k - 1, q, row);
        }
      }
    }
  }

  /** The feed fails exactly when the user is unknown or one of the pending
      requests on an administered lock cannot be rendered. */
  lemma GetRequestNotificationListFails(users: seq<User>, locks: seq<Lock>, rs: seq<Request>, userId: string)
    ensures GetRequestNotificationList(users, locks, rs, userId).Err? <==>
              (|| userId !in UserIds(users)
               || exists k, q :: FindUser(users, userId).Some? && 0 <= k < |users[FindUser(users, userId).value].admin| && q in rs
                    && Pending(q, users[FindUser(users, userId).value].admin[k].lockId) && Unrenderable(users, locks, q))
  {
    IndexOfFirst(UserIds(users), userId);
    if userId in UserIds(users) {
      RowsForEntriesFails(users, locks, rs, users[FindUser(users, userId).value].admin);
    }
  }

  /** The number of pending requests over a list of admin entries, counted
      entry by entry (a lock the user administers twice counts twice). */
  function PendingTotal(rs: seq<Request>, ds: seq<LockDetail>): nat {
    if ds == [] then 0 else |PendingOn(rs, ds[0].lockId)| + PendingTotal(rs, ds[1..])
  }

  /** One row per pending request per admin entry. */
  lemma {:induction false} RowsForEntriesCount(users: seq<User>, locks: seq<Lock>, rs: seq<Request>, ds: seq<LockDetail>)
    requires RowsForEntries(users, locks, rs, ds).Ok?
    ensures |RowsForEntries(users, locks, rs, ds).value| == PendingTotal(rs, ds)
  {
    if ds != [] {
      RowsForEntriesCount(users, locks, rs, ds[1..]);
    }
  }

  /** The feed shows exactly the pending requests on the locks the user
      administers, one row per admin entry of the lock, newest first: the
      rows built entry by entry, each exactly once, reordered. */
  lemma GetRequestNotificationListRows(users: seq<User>, locks: seq<Lock>, rs: seq<Request>, userId: string, row: Row)
    requires GetRequestNotificationList(users, locks, rs, userId).Ok?
    ensures var u := users[FindUser(users, userId).value];
            (row in GetRequestNotificationList(users, locks, rs, userId).value.dataList <==>
               exists k, q :: q in rs && ShowsRequest(locks, u.admin, k, q, row))
    ensures var u := users[FindUser(users, userId).value];
            && multiset(GetRequestNotificationList(users, locks, rs, userId).value.dataList)
               == multiset(RowsForEntries(users, locks, rs, u.admin).value)
            && |GetRequestNotificationList(users, locks, rs, userId).value.dataList| == PendingTotal(rs, u.admin)
  {
    var u := users[FindUser(users, userId).value];
    RowsForEntriesRows(users, locks, rs, u.admin, row);
    SortKeepsRows(RowsForEntries(users, locks, rs, u.admin).value, row);
    RowsForEntriesCount(users, locks, rs, u.admin);
  }
}
