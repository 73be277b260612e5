/** Records of the current schema (main.py) and the in-place list edits the
    endpoints apply to them.

    Shapes follow the constructor calls in main.py: `LockDetail` and
    `Guest` are embedded in user documents, a lock lists its admins and
    members by user id and embeds its guests, and every other collection
    holds flat records. Display-only profile fields (names, images, e-mail,
    password hash) are not modelled. */
module Records {
  import opened Common
  import opened Ids

  /** Status strings of requests (`sent`, `accepted`, `declined`) and
      invitations (`invite`, `accepted`, `declined`). */
  datatype Status = Sent | Invite | Accepted | Declined

  function StatusName(s: Status): string {
    match s
    case Sent => "sent"
    case Invite => "invite"
    case Accepted => "accepted"
    case Declined => "declined"
  }

  datatype LockDetail = LockDetail(lockId: string, lockName: string, lockLocation: string, lockImage: string)

  /** A time-boxed grant, embedded in both the lock and the user document.
      `expireDatetime` is absent when the constructor call does not set it. */
  datatype Guest = Guest(
    userId: string, lockId: string, lockName: string, lockLocation: string,
    lockImage: string, expireDatetime: Option<int>)
  {
    /** The lock fields a guest entry shares with a `LockDetail`. */
    function Detail(): LockDetail {
      LockDetail(lockId, lockName, lockLocation, lockImage)
    }
  }

  datatype User = User(
    userId: string, userCode: int, lockLocationList: seq<string>,
    admin: seq<LockDetail>, member: seq<LockDetail>, guest: seq<Guest>)

  datatype Lock = Lock(
    lockId: string, securityStatus: string,
    admin: seq<string>, member: seq<string>, guest: seq<Guest>,
    invitation: seq<string>, request: seq<string>, history: seq<string>,
    connect: seq<string>, warning: seq<string>)

  datatype Request = Request(
    reqId: string, lockId: string, lockName: string, lockLocation: string,
    lockImage: string, userId: string, requestStatus: Status, datetime: int)

  datatype Invitation = Invitation(
    invId: string, srcUserId: string, desUserId: string, role: string,
    lockId: string, invStatus: Status, datetime: int)

  /** A pending-notification marker. */
  datatype Other = Other(
    otherId: string, subMode: string, userId: string, userRole: Option<string>,
    lockId: string, datetime: int)

  datatype History = History(hisId: string, userId: string, lockId: string, status: string, datetime: int)

  datatype Connection = Connection(conId: string, lockId: string, userId: string, userRole: string, datetime: int)

  datatype Warning = Warning(warningId: string, userId: string, lockId: string, message: string, datetime: int)

  // ---------------------------------------------------------------------
  // Documents: the string-valued keys each record is stored under. Queries
  // and the id probes match on these keys, so a key a record does not
  // store never matches.

  type Doc = map<string, string>

  function RequestDoc(r: Request): Doc {
    map["reqId" := r.reqId, "lockId" := r.lockId, "lockName" := r.lockName,
        "lockLocation" := r.lockLocation, "lockImage" := r.lockImage,
        "userId" := r.userId, "requestStatus" := StatusName(r.requestStatus)]
  }

  function InvitationDoc(v: Invitation): Doc {
    map["invId" := v.invId, "srcUserId" := v.srcUserId, "desUserId" := v.desUserId,
        "role" := v.role, "lockId" := v.lockId, "invStatus" := StatusName(v.invStatus)]
  }

  function OtherDoc(o: Other): Doc {
    var base := map["otherId" := o.otherId, "subMode" := o.subMode,
                    "userId" := o.userId, "lockId" := o.lockId];
    if o.userRole.Some? then base["userRole" := o.userRole.value] else base
  }

  function HistoryDoc(h: History): Doc {
    map["hisId" := h.hisId, "userId" := h.userId, "lockId" := h.lockId, "status" := h.status]
  }

  function ConnectionDoc(c: Connection): Doc {
    map["conId" := c.conId, "lockId" := c.lockId, "userId" := c.userId, "userRole" := c.userRole]
  }

  function WarningDoc(w: Warning): Doc {
    map["warningId" := w.warningId, "userId" := w.userId, "lockId" := w.lockId, "message" := w.message]
  }

  /** A MongoDB equality filter `{k1: v1, k2: v2, ...}`. */
  type Filter = seq<(string, string)>

  predicate Matches(d: Doc, f: Filter) {
    forall k :: 0 <= k < |f| ==> f[k].0 in d && d[f[k].0] == f[k].1
  }

  /** The values stored under `key`, in collection order: what an id probe
      can find. */
  function ValuesUnder(docs: seq<Doc>, key: string): (r: seq<string>)
    ensures (forall i :: 0 <= i < |docs| ==> key !in docs[i]) ==> r == []
    ensures forall i :: 0 <= i < |docs| && key in docs[i] ==> docs[i][key] in r
  {
    if docs == [] then []
    else
      var rest := ValuesUnder(docs[1..], key);
      assert forall i :: 1 <= i < |docs| ==> docs[i] == docs[1..][i - 1];
      if key in docs[0] then [docs[0][key]] + rest else rest
  }

  function RequestDocs(rs: seq<Request>): seq<Doc> { seq(|rs|, i requires 0 <= i < |rs| => RequestDoc(rs[i])) }
  function InvitationDocs(vs: seq<Invitation>): seq<Doc> { seq(|vs|, i requires 0 <= i < |vs| => InvitationDoc(vs[i])) }
  function OtherDocs(os: seq<Other>): seq<Doc> { seq(|os|, i requires 0 <= i < |os| => OtherDoc(os[i])) }
  function HistoryDocs(hs: seq<History>): seq<Doc> { seq(|hs|, i requires 0 <= i < |hs| => HistoryDoc(hs[i])) }
  function ConnectionDocs(cs: seq<Connection>): seq<Doc> { seq(|cs|, i requires 0 <= i < |cs| => ConnectionDoc(cs[i])) }
  function WarningDocs(ws: seq<Warning>): seq<Doc> { seq(|ws|, i requires 0 <= i < |ws| => WarningDoc(ws[i])) }

  /** Position of the first marker matching `f`: what `delete_one` removes. */
  function FirstMatching(os: seq<Other>, f: Filter): (r: Option<nat>)
    ensures r.Some? ==> r.value < |os| && Matches(OtherDoc(os[r.value]), f)
  {
    if os == [] then None
    else if Matches(OtherDoc(os[0]), f) then Some(0)
    else match FirstMatching(os[1..], f)
      case None => None
      case Some(k) => Some(k + 1)
  }

  /** No marker before the one found matches, and none at all when nothing
      is found. */
  lemma {:induction false} FirstMatchingFirst(os: seq<Other>, f: Filter)
    ensures FirstMatching(os, f).Some? ==> forall j :: 0 <= j < FirstMatching(os, f).value ==> !Matches(OtherDoc(os[j]), f)
    ensures FirstMatching(os, f).None? ==> forall j :: 0 <= j < |os| ==> !Matches(OtherDoc(os[j]), f)
  {
    if os != [] && !Matches(OtherDoc(os[0]), f) {
      FirstMatchingFirst(os[1..], f);
      forall j | 1 <= j < |os| ensures os[j] == os[1..][j - 1] { }
    }
  }

  /** `delete_one(f)` on the Other collection. */
  function DeleteOne(os: seq<Other>, f: Filter): seq<Other> {
    match FirstMatching(os, f)
    case None => os
    case Some(i) => RemoveAt(os, i)
  }

  // ---------------------------------------------------------------------
  // Lookups by id (first match, as `find_one` and `update_one` select).

  function LockIds(locks: seq<Lock>): seq<string> { seq(|locks|, i requires 0 <= i < |locks| => locks[i].lockId) }
  function UserIds(users: seq<User>): seq<string> { seq(|users|, i requires 0 <= i < |users| => users[i].userId) }
  function RequestIds(rs: seq<Request>): seq<string> { seq(|rs|, i requires 0 <= i < |rs| => rs[i].reqId) }
  function InvitationIds(vs: seq<Invitation>): seq<string> { seq(|vs|, i requires 0 <= i < |vs| => vs[i].invId) }
  function OtherIds(os: seq<Other>): seq<string> { seq(|os|, i requires 0 <= i < |os| => os[i].otherId) }
  function HistoryIds(hs: seq<History>): seq<string> { seq(|hs|, i requires 0 <= i < |hs| => hs[i].hisId) }
  function ConnectionIds(cs: seq<Connection>): seq<string> { seq(|cs|, i requires 0 <= i < |cs| => cs[i].conId) }
  function WarningIds(ws: seq<Warning>): seq<string> { seq(|ws|, i requires 0 <= i < |ws| => ws[i].warningId) }

  /** A marker document stores the marker id under `otherId`. */
  lemma OtherDocId(o: Other)
    ensures "otherId" in OtherDoc(o) && OtherDoc(o)["otherId"] == o.otherId
  {
  }

  function FindLock(locks: seq<Lock>, lockId: string): Option<nat> { IndexOf(LockIds(locks), lockId) }
  function FindUser(users: seq<User>, userId: string): Option<nat> { IndexOf(UserIds(users), userId) }
  function FindRequest(rs: seq<Request>, reqId: string): Option<nat> { IndexOf(RequestIds(rs), reqId) }
  function FindInvitation(vs: seq<Invitation>, invId: string): Option<nat> { IndexOf(InvitationIds(vs), invId) }

  /** The lockIds of a list of embedded lock details. */
  function DetailLockIds(ds: seq<LockDetail>): seq<string> { seq(|ds|, i requires 0 <= i < |ds| => ds[i].lockId) }

  // ---------------------------------------------------------------------
  // In-place edits (`$push`, `$pull`, `$set`) applied by `update_one`.

  datatype LockEdit =
    | AddAdmin(userId: string)
    | AddMember(userId: string)
    | AddGuest(guest: Guest)
    | AddInvitation(invId: string)
    | DropInvitation(invId: string)
    | AddRequest(reqId: string)
    | DropRequest(reqId: string)
    | AddHistory(hisId: string)
    | AddConnect(conId: string)
    | ClearWarnings
  {
    /** Whether the edit touches the admin, member or guest list. */
    predicate ChangesRoles() {
      AddAdmin? || AddMember? || AddGuest?
    }
  }

  function ApplyLockEdit(l: Lock, e: LockEdit): (r: Lock)
    ensures r.lockId == l.lockId
    ensures !e.ChangesRoles() ==> r.admin == l.admin && r.member == l.member && r.guest == l.guest
  {
    match e
    case AddAdmin(u) => l.(admin := l.admin + [u])
    case AddMember(u) => l.(member := l.member + [u])
    case AddGuest(g) => l.(guest := l.guest + [g])
    case AddInvitation(id) => l.(invitation := l.invitation + [id])
    case DropInvitation(id) => l.(invitation := Pull(l.invitation, id))
    case AddRequest(id) => l.(request := l.request + [id])
    case DropRequest(id) => l.(request := Pull(l.request, id))
    case AddHistory(id) => l.(history := l.history + [id])
    case AddConnect(id) => l.(connect := l.connect + [id])
    case ClearWarnings => l.(warning := [])
  }

  /** `update_one({'lockId': lockId}, e)`: edits the first lock with that id,
      or nothing when there is none. */
  function EditLock(locks: seq<Lock>, lockId: string, e: LockEdit): (r: seq<Lock>)
    ensures |r| == |locks|
    ensures LockIds(r) == LockIds(locks)
  {
    match FindLock(locks, lockId)
    case None => locks
    case Some(i) => locks[i := ApplyLockEdit(locks[i], e)]
  }

  datatype UserEdit =
    | AddLocation(location: string)
    | AddAdminDetail(detail: LockDetail)
    | AddMemberDetail(detail: LockDetail)
    | AddGuestGrant(guest: Guest)
  {
    predicate ChangesRoles() {
      !AddLocation?
    }
  }

  function ApplyUserEdit(u: User, e: UserEdit): (r: User)
    ensures r.userId == u.userId
    ensures !e.ChangesRoles() ==> r.admin == u.admin && r.member == u.member && r.guest == u.guest
  {
    match e
    case AddLocation(loc) => u.(lockLocationList := u.lockLocationList + [loc])
    case AddAdminDetail(d) => u.(admin := u.admin + [d])
    case AddMemberDetail(d) => u.(member := u.member + [d])
    case AddGuestGrant(g) => u.(guest := u.guest + [g])
  }

  /** `update_one({'userId': userId}, e)` on the Users collection. */
  function EditUser(users: seq<User>, userId: string, e: UserEdit): (r: seq<User>)
    ensures |r| == |users|
    ensures UserIds(r) == UserIds(users)
  {
    match FindUser(users, userId)
    case None => users
    case Some(i) => users[i := ApplyUserEdit(users[i], e)]
  }
}
