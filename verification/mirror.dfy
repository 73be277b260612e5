/** The two-sided role bookkeeping of the current schema.

    A grant is written twice: the lock lists the user (by id for admins and
    members, as an embedded `Guest` for guests) and the user lists the lock
    (as a `LockDetail`, or the same `Guest`). `Mirrored` says the two sides
    agree for every lock and user pair. The service never checks it; the
    lemmas below say which list edits keep it. */
module Mirror {
  import opened Common
  import opened Records

  /** The guest entries of `gs` that bind `userId` to `lockId`, in order. */
  function GrantsFor(gs: seq<Guest>, lockId: string, userId: string): (r: seq<Guest>)
    ensures forall g :: g in r ==> g in gs && g.lockId == lockId && g.userId == userId
    ensures forall k :: 0 <= k < |gs| && gs[k].lockId == lockId && gs[k].userId == userId ==> gs[k] in r
  {
    if gs == [] then []
    else
      var init := gs[..|gs| - 1];
      var last := gs[|gs| - 1];
      assert forall k :: 0 <= k < |gs| - 1 ==> gs[k] == init[k];
      GrantsFor(init, lockId, userId) + (if last.lockId == lockId && last.userId == userId then [last] else [])
  }

  lemma GrantsForAppend(gs: seq<Guest>, g: Guest, lockId: string, userId: string)
    ensures GrantsFor(gs + [g], lockId, userId)
         == GrantsFor(gs, lockId, userId) + (if g.lockId == lockId && g.userId == userId then [g] else [])
  {
    assert (gs + [g])[..|gs|] == gs;
  }

  /** A lock and a user agree on every role that links them. */
  predicate Agree(l: Lock, u: User) {
    && (u.userId in l.admin <==> l.lockId in DetailLockIds(u.admin))
    && (u.userId in l.member <==> l.lockId in DetailLockIds(u.member))
    && GrantsFor(l.guest, l.lockId, u.userId) == GrantsFor(u.guest, l.lockId, u.userId)
  }

  /** Every role entry of a lock names one of `userIds`. */
  predicate LockClosed(l: Lock, userIds: seq<string>) {
    && (forall k :: 0 <= k < |l.admin| ==> l.admin[k] in userIds)
    && (forall k :: 0 <= k < |l.member| ==> l.member[k] in userIds)
    && (forall k :: 0 <= k < |l.guest| ==> l.guest[k].userId in userIds)
  }

  /** Every role entry of a user names one of `lockIds`. */
  predicate UserClosed(u: User, lockIds: seq<string>) {
    && (forall k :: 0 <= k < |u.admin| ==> u.admin[k].lockId in lockIds)
    && (forall k :: 0 <= k < |u.member| ==> u.member[k].lockId in lockIds)
    && (forall k :: 0 <= k < |u.guest| ==> u.guest[k].lockId in lockIds)
  }

  /** Every role entry on one side names a record on the other side. */
  predicate Closed(locks: seq<Lock>, users: seq<User>) {
    && (forall i :: 0 <= i < |locks| ==> LockClosed(locks[i], UserIds(users)))
    && (forall j :: 0 <= j < |users| ==> UserClosed(users[j], LockIds(locks)))
  }

  /** The user a role edit of a lock adds. */
  function EditedUserId(e: LockEdit): string
    requires e.ChangesRoles()
  {
    match e
    case AddAdmin(u) => u
    case AddMember(u) => u
    case AddGuest(g) => g.userId
  }

  /** The lock a role edit of a user adds. */
  function EditedLockId(e: UserEdit): string
    requires e.ChangesRoles()
  {
    match e
    case AddAdminDetail(d) => d.lockId
    case AddMemberDetail(d) => d.lockId
    case AddGuestGrant(g) => g.lockId
  }

  lemma LockEditClosed(l: Lock, e: LockEdit, userIds: seq<string>)
    requires LockClosed(l, userIds)
    requires e.ChangesRoles() ==> EditedUserId(e) in userIds
    ensures LockClosed(ApplyLockEdit(l, e), userIds)
  {
    var l' := ApplyLockEdit(l, e);
    forall k | 0 <= k < |l'.admin| ensures l'.admin[k] in userIds {
      if k < |l.admin| { assert l'.admin[k] == l.admin[k]; }
    }
    forall k | 0 <= k < |l'.member| ensures l'.member[k] in userIds {
      if k < |l.member| { assert l'.member[k] == l.member[k]; }
    }
    forall k | 0 <= k < |l'.guest| ensures l'.guest[k].userId in userIds {
      if k < |l.guest| { assert l'.guest[k] == l.guest[k]; }
    }
  }

  lemma UserEditClosed(u: User, e: UserEdit, lockIds: seq<string>)
    requires UserClosed(u, lockIds)
    requires e.ChangesRoles() ==> EditedLockId(e) in lockIds
    ensures UserClosed(ApplyUserEdit(u, e), lockIds)
  {
    var u' := ApplyUserEdit(u, e);
    forall k | 0 <= k < |u'.admin| ensures u'.admin[k].lockId in lockIds {
      if k < |u.admin| { assert u'.admin[k] == u.admin[k]; }
    }
    forall k | 0 <= k < |u'.member| ensures u'.member[k].lockId in lockIds {
      if k < |u.member| { assert u'.member[k] == u.member[k]; }
    }
    forall k | 0 <= k < |u'.guest| ensures u'.guest[k].lockId in lockIds {
      if k < |u.guest| { assert u'.guest[k] == u.guest[k]; }
    }
  }

  /** A role edit applied to the one lock with its id and the matching edit
      applied to the one user with its id keep every role entry closed. */
  lemma {:induction false} PairedEditsKeepClosed(locks: seq<Lock>, users: seq<User>, lockId: string, le: LockEdit, userId: string, ue: UserEdit)
    requires Closed(locks, users)
    requires le.ChangesRoles() && EditedUserId(le) == userId && ue.ChangesRoles() && EditedLockId(ue) == lockId
    requires lockId in LockIds(locks) && userId in UserIds(users)
    ensures Closed(EditLock(locks, lockId, le), EditUser(users, userId, ue))
  {
    var i := EditedLock(locks, lockId, le);
    var j := EditedUser(users, userId, ue);
    LockEditClosed(locks[i], le, UserIds(users));
    UserEditClosed(users[j], ue, LockIds(locks));
  }

  /** Lock ids and user ids are unique, role entries are closed, and every
      lock agrees with every user. */
  predicate Mirrored(locks: seq<Lock>, users: seq<User>) {
    && Distinct(LockIds(locks))
    && Distinct(UserIds(users))
    && Closed(locks, users)
    && forall i, j :: 0 <= i < |locks| && 0 <= j < |users| ==> Agree(locks[i], users[j])
  }

  predicate SameLockRoles(a: Lock, b: Lock) {
    a.lockId == b.lockId && a.admin == b.admin && a.member == b.member && a.guest == b.guest
  }

  predicate SameUserRoles(a: User, b: User) {
    a.userId == b.userId && a.admin == b.admin && a.member == b.member && a.guest == b.guest
  }

  /** Edits that leave every role list alone keep the mirror. */
  lemma {:induction false} RoleCopiesKeepMirror(locks: seq<Lock>, users: seq<User>, locks': seq<Lock>, users': seq<User>)
    requires Mirrored(locks, users)
    requires |locks'| == |locks| && forall i :: 0 <= i < |locks| ==> SameLockRoles(locks[i], locks'[i])
    requires |users'| == |users| && forall j :: 0 <= j < |users| ==> SameUserRoles(users[j], users'[j])
    ensures Mirrored(locks', users')
  {
    RoleCopiesKeepClosed(locks, users, locks', users');
    forall i, j | 0 <= i < |locks'| && 0 <= j < |users'|
      ensures Agree(locks'[i], users'[j])
    {
      assert Agree(locks[i], users[j]);
    }
  }

  lemma RoleCopiesKeepClosed(locks: seq<Lock>, users: seq<User>, locks': seq<Lock>, users': seq<User>)
    requires Mirrored(locks, users)
    requires |locks'| == |locks| && forall i :: 0 <= i < |locks| ==> SameLockRoles(locks[i], locks'[i])
    requires |users'| == |users| && forall j :: 0 <= j < |users| ==> SameUserRoles(users[j], users'[j])
    ensures LockIds(locks') == LockIds(locks) && UserIds(users') == UserIds(users)
    ensures Closed(locks', users')
  {
    assert LockIds(locks') == LockIds(locks);
    assert UserIds(users') == UserIds(users);
    forall i | 0 <= i < |locks'| ensures LockClosed(locks'[i], UserIds(users')) {
      assert LockClosed(locks[i], UserIds(users));
    }
    forall j | 0 <= j < |users'| ensures UserClosed(users'[j], LockIds(locks')) {
      assert UserClosed(users[j], LockIds(locks));
    }
  }

  /** Index of the lock an `EditLock` on an existing id changes. */
  lemma EditedLock(locks: seq<Lock>, lockId: string, e: LockEdit) returns (i: nat)
    requires lockId in LockIds(locks)
    ensures i < |locks| && locks[i].lockId == lockId
    ensures EditLock(locks, lockId, e) == locks[i := ApplyLockEdit(locks[i], e)]
  {
    IndexOfFirst(LockIds(locks), lockId);
    i := FindLock(locks, lockId).value;
  }

  lemma EditedUser(users: seq<User>, userId: string, e: UserEdit) returns (j: nat)
    requires userId in UserIds(users)
    ensures j < |users| && users[j].userId == userId
    ensures EditUser(users, userId, e) == users[j := ApplyUserEdit(users[j], e)]
  {
    IndexOfFirst(UserIds(users), userId);
    j := FindUser(users, userId).value;
  }

  /** A lock edit that touches no role list keeps the mirror. */
  lemma LockEditKeepsMirror(locks: seq<Lock>, users: seq<User>, lockId: string, e: LockEdit)
    requires Mirrored(locks, users) && !e.ChangesRoles()
    ensures Mirrored(EditLock(locks, lockId, e), users)
  {
    RoleCopiesKeepMirror(locks, users, EditLock(locks, lockId, e), users);
  }

  /** Adding a location keeps the mirror. */
  lemma UserEditKeepsMirror(locks: seq<Lock>, users: seq<User>, userId: string, e: UserEdit)
    requires Mirrored(locks, users) && !e.ChangesRoles()
    ensures Mirrored(locks, EditUser(users, userId, e))
  {
    RoleCopiesKeepMirror(locks, users, locks, EditUser(users, userId, e));
  }

  lemma DetailLockIdsAppend(ds: seq<LockDetail>, d: LockDetail)
    ensures DetailLockIds(ds + [d]) == DetailLockIds(ds) + [d.lockId]
  {
  }

  /** Lock edit and user edit that write the two sides of one grant. */
  predicate Paired(le: LockEdit, ue: UserEdit) {
    || (le.AddAdmin? && ue.AddAdminDetail?)
    || (le.AddMember? && ue.AddMemberDetail?)
    || (le.AddGuest? && ue.AddGuestGrant? && le.guest == ue.guest)
  }

  /** `l` after the lock edit when it is the lock being edited. */
  function LockSide(l: Lock, lockId: string, e: LockEdit): Lock {
    if l.lockId == lockId then ApplyLockEdit(l, e) else l
  }

  /** `u` after the user edit when it is the user being edited. */
  function UserSide(u: User, userId: string, e: UserEdit): User {
    if u.userId == userId then ApplyUserEdit(u, e) else u
  }

  /** One lock and one user still agree after the two halves of a grant. */
  lemma PairAgree(l: Lock, u: User, le: LockEdit, ue: UserEdit)
    requires Agree(l, u) && Paired(le, ue)
    ensures Agree(LockSide(l, EditedLockId(ue), le), UserSide(u, EditedUserId(le), ue))
  {
    var l' := LockSide(l, EditedLockId(ue), le);
    var u' := UserSide(u, EditedUserId(le), ue);
    if ue.AddAdminDetail? || ue.AddMemberDetail? {
      DetailLockIdsAppend(u.admin, ue.detail);
      DetailLockIdsAppend(u.member, ue.detail);
    } else {
      if l.lockId == EditedLockId(ue) {
        GrantsForAppend(l.guest, le.guest, l.lockId, u.userId);
      }
      if u.userId == EditedUserId(le) {
        GrantsForAppend(u.guest, le.guest, l.lockId, u.userId);
      }
    }
  }

  /** The lock and user lists after a grant, position by position. */
  lemma {:induction false} PairedGrantSides(locks: seq<Lock>, users: seq<User>, le: LockEdit, ue: UserEdit)
    requires Distinct(LockIds(locks)) && Distinct(UserIds(users)) && Paired(le, ue)
    requires EditedLockId(ue) in LockIds(locks) && EditedUserId(le) in UserIds(users)
    ensures |EditLock(locks, EditedLockId(ue), le)| == |locks|
    ensures forall a :: 0 <= a < |locks| ==> EditLock(locks, EditedLockId(ue), le)[a] == LockSide(locks[a], EditedLockId(ue), le)
    ensures |EditUser(users, EditedUserId(le), ue)| == |users|
    ensures forall b :: 0 <= b < |users| ==> EditUser(users, EditedUserId(le), ue)[b] == UserSide(users[b], EditedUserId(le), ue)
  {
    var lockId, userId := EditedLockId(ue), EditedUserId(le);
    var i := EditedLock(locks, lockId, le);
    var j := EditedUser(users, userId, ue);
    forall a | 0 <= a < |locks| && a != i ensures locks[a].lockId != lockId {
      assert LockIds(locks)[a] != LockIds(locks)[i];
    }
    forall b | 0 <= b < |users| && b != j ensures users[b].userId != userId {
      assert UserIds(users)[b] != UserIds(users)[j];
    }
  }

  /** Writing both halves of a grant, to the existing lock and the existing
      user it names, keeps the mirror. */
  lemma {:induction false} PairedGrantKeepsMirror(locks: seq<Lock>, users: seq<User>, le: LockEdit, ue: UserEdit)
    requires Mirrored(locks, users) && Paired(le, ue)
    requires EditedLockId(ue) in LockIds(locks) && EditedUserId(le) in UserIds(users)
    ensures Mirrored(EditLock(locks, EditedLockId(ue), le), EditUser(users, EditedUserId(le), ue))
  {
    PairedGrantAgree(locks, users, le, ue);
    PairedEditsKeepClosed(locks, users, EditedLockId(ue), le, EditedUserId(le), ue);
  }

  /** Every lock agrees with every user after the two halves of a grant. */
  lemma PairedGrantAgree(locks: seq<Lock>, users: seq<User>, le: LockEdit, ue: UserEdit)
    requires Mirrored(locks, users) && Paired(le, ue)
    requires EditedLockId(ue) in LockIds(locks) && EditedUserId(le) in UserIds(users)
    ensures forall a, b :: 0 <= a < |EditLock(locks, EditedLockId(ue), le)| && 0 <= b < |EditUser(users, EditedUserId(le), ue)|
              ==> Agree(EditLock(locks, EditedLockId(ue), le)[a], EditUser(users, EditedUserId(le), ue)[b])
  {
    var locks' := EditLock(locks, EditedLockId(ue), le);
    var users' := EditUser(users, EditedUserId(le), ue);
    PairedGrantSides(locks, users, le, ue);
    forall a, b | 0 <= a < |locks'| && 0 <= b < |users'|
      ensures Agree(locks'[a], users'[b])
    {
      PairAgree(locks[a], users[b], le, ue);
    }
  }

  /** The lock `post_new_lock` inserts. */
  function FreshLock(lockId: string, userId: string): (l: Lock)
    ensures l.lockId == lockId && l.admin == [userId]
    ensures l.member == [] && l.guest == [] && l.request == [] && l.invitation == []
  {
    Lock(lockId, "secure", [userId], [], [], [], [], [], [], [])
  }

  lemma GrantsForNone(gs: seq<Guest>, lockId: string, userId: string)
    requires forall k :: 0 <= k < |gs| ==> gs[k].lockId != lockId
    ensures GrantsFor(gs, lockId, userId) == []
  {
  }

  lemma UserClosedGrows(u: User, lockIds: seq<string>, x: string)
    requires UserClosed(u, lockIds)
    ensures UserClosed(u, lockIds + [x])
  {
  }

  /** The new lock agrees with every user whose entries name only older
      locks, once its creator holds its detail. */
  lemma FreshLockAgree(u: User, lockIds: seq<string>, userId: string, d: LockDetail)
    requires UserClosed(u, lockIds) && d.lockId !in lockIds
    ensures Agree(FreshLock(d.lockId, userId), UserSide(u, userId, AddAdminDetail(d)))
  {
    GrantsForNone(u.guest, d.lockId, u.userId);
    DetailLockIdsAppend(u.admin, d);
  }

  /** An older lock agrees with the creator after the new detail is added. */
  lemma OlderLockAgree(l: Lock, u: User, userId: string, d: LockDetail)
    requires Agree(l, u) && l.lockId != d.lockId
    ensures Agree(l, UserSide(u, userId, AddAdminDetail(d)))
  {
    DetailLockIdsAppend(u.admin, d);
  }

  /** Inserting a lock under a new id with `userId` as its only admin, and
      adding its detail to that existing user's admin list, keeps the
      mirror. */
  lemma {:induction false} NewLockKeepsMirror(locks: seq<Lock>, users: seq<User>, userId: string, d: LockDetail)
    requires Mirrored(locks, users)
    requires d.lockId !in LockIds(locks) && userId in UserIds(users)
    ensures Mirrored(locks + [FreshLock(d.lockId, userId)], EditUser(users, userId, AddAdminDetail(d)))
  {
    var j := EditedUser(users, userId, AddAdminDetail(d));
    var locks' := locks + [FreshLock(d.lockId, userId)];
    var users' := EditUser(users, userId, AddAdminDetail(d));
    assert LockIds(locks') == LockIds(locks) + [d.lockId];
    DistinctAppend(LockIds(locks), d.lockId);
    forall b | 0 <= b < |users| ensures users'[b] == UserSide(users[b], userId, AddAdminDetail(d)) {
      if b != j { assert UserIds(users)[b] != UserIds(users)[j]; }
    }
    forall a, b | 0 <= a < |locks'| && 0 <= b < |users'|
      ensures Agree(locks'[a], users'[b])
    {
      if a < |locks| {
        assert locks'[a] == locks[a] && LockIds(locks)[a] != d.lockId;
        OlderLockAgree(locks[a], users[b], userId, d);
      } else {
        FreshLockAgree(users[b], LockIds(locks), userId, d);
      }
    }
    forall b | 0 <= b < |users'| ensures UserClosed(users'[b], LockIds(locks')) {
      UserClosedGrows(users[b], LockIds(locks), d.lockId);
      UserEditClosed(users[b], AddAdminDetail(d), LockIds(locks'));
    }
    assert UserIds(users') == UserIds(users);
    forall a | 0 <= a < |locks'| ensures LockClosed(locks'[a], UserIds(users')) {
      if a < |locks| { assert locks'[a] == locks[a]; }
    }
  }
}
