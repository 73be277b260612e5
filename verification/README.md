# FSL-BackEnd access-grant core in Dafny

This project models the access-grant bookkeeping of the FSL-BackEnd smart-lock
service. The service keeps eight document collections:

- Users and Locks;
- Request and Invitation;
- Other, the pending-notification markers;
- History, Connect and Warning.

It grants access in two ways. A user can request access to a lock, and the
lock's admin accepts or declines. An admin can also invite a user as admin,
member or guest, and the invitee accepts or declines. Every grant is recorded
twice: once in the lock's role lists and once in the user's role lists.

The project has these modules:

- `Common`: MongoDB's list semantics on sequences.
  - `find_one` and `update_one` act on the first match.
  - `$push` appends.
  - `$pull` removes every equal element.
- `Ids`: the id generators.
  - An id is a prefix plus `str(count + k).zfill(5)`, probed upwards.
  - The random user code and user id are a choice, constrained by the store.
- `Records`: the collections as records, plus the document view that queries
  filter on. Under that view, a key a record does not store never matches.
- `Probes`: what each id probe and each marker delete actually matches.
- `Mirror`: the invariant that the lock side and the user side of every grant
  agree, and its preservation by paired edits.
- `Steps`: the lookups and single edits the endpoints are built from.
- `Feed`: the request feed's sort by `dateTime`, newest first.
- `Service`: class `Store`, with one sequence field per collection, and one
  method per write endpoint of `main.py`.
- `Invariants`: lemmas that each endpoint's new state keeps the store
  invariant `StoreOk`. `StoreOk` is the mirror, plus sequential numbering of
  request, invitation, history and connection ids, plus distinct `other`
  markers.
- `Views`: the read endpoints of `main.py`, as pure functions of a snapshot.
- `Legacy`: the earlier revision in `api/main.py`, with its own schema. There,
  user role lists hold lock ids and locks carry their own name and location.
  It has its own class `LegacyStore` and its own views.

Other modelling choices:

- Datetimes are integers. `datetime.now()` is read once per call, as the
  `now` parameter. The source reads the clock anew for each record it
  writes (main.py:911, 933 and 950; 1774, 1793 and 1815), so its records of
  one call can carry slightly different times; in the model they share one.
- A Python exception becomes `Err(Internal(...))`, or `Fail(Internal(...))`
  on a write endpoint. The state is what the source had written before the
  exception was raised.

Several quirks of the source are modelled as written, not corrected:

- The request, invitation, connect and history probes query a key their
  records do not store (`requestId` against `reqId`, and so on). Each of them
  therefore returns the first candidate. The other and warning probes see
  the stored ids.
- The marker deletes in `accept_request` and `decline_request` filter on
  `submode`, but markers store `subMode`. They delete nothing.
- The `delete_invitation_notification` marker delete matches an `otherId`
  against an invitation id. These ids have different prefixes, so it deletes
  nothing either.
- The duplicate-lock check in `post_new_lock` of `main.py` compares a string
  with embedded documents and never fires.
- `accept_request` does not check the request's status. `accept_all_request`
  accepts every request of the lock, whatever its status.
- The marker deletes of `accept_invitation` and `decline_invitation` pass
  `{'_id': 0}` as a second positional argument. pymongo takes it as the
  collation, and the server refuses it. Both endpoints therefore answer 500
  after all their earlier writes, and the invitation's marker stays.
- `post_new_lock` does not check that the lock id is unused or that the
  creator exists. `post_new_request` does not check that the lock exists, and
  `accept_request` grants on whatever lock the request names.
- In `api/main.py`, the request feed lists requests of every status. Its name
  columns come from the caller's own document.

## Model

| member | source | states |
|---|---|---|
| Ids.IdNumberOfMakeId | main.py:120-140 | the number of `prefix + zfill(n, 5)` reads back as `n`, so the id format is a round trip |
| Ids.MakeIdInjective | main.py:120-140 | two ids built from the same prefix are equal only if their numbers are |
| Ids.ProbeOffset | main.py:132-136 | the probe stops at the first offset, counting up from the start, whose candidate is not taken; every candidate it skipped is taken |
| Ids.GenerateId | main.py:120-249 | the count-then-probe loop returns the specified next id, and that id is not among the probed values |
| Ids.NextIdUnprobed | main.py:130-136 | when the probe sees no ids, the result is the first candidate, `count + 1` |
| Ids.FirstCandidateFresh | main.py:130 | in a sequentially numbered collection, the first candidate is fresh |
| Ids.SequentialIdsDistinct | main.py:130 | sequentially numbered ids are pairwise distinct |
| Ids.GenerateUserCode | main.py:63-90 | fails with "User code limit reached" exactly when 9999 codes exist; otherwise returns a code in 1000..9999 that is not taken |
| Ids.UserCodeLimitUnreachable | main.py:80-87 | 9000 codes fill the whole draw range while the 9999 limit still lets the redraw loop start |
| Ids.GenerateUserCodeBounded | main.py:63-90 | fails exactly when every code in 1000..9999 is taken; otherwise returns a free code in the range |
| Ids.UserIdShape | main.py:110-112 | a drawn user id is two letters plus the four digits of the draw, and the digits read back as the draw |
| Ids.GenerateUserId | main.py:93-117 | fails exactly when a name is empty, since `name[0]` raises; otherwise returns an untaken id with the two lowered initials and a number in 1000..9999 |
| Records.ValuesUnder | main.py:135 | the probe sees a record's value exactly when the record stores the queried key, and sees nothing when no record stores it |
| Records.FirstMatching | main.py:1826 | the matched document is in the collection and matches the filter |
| Records.FirstMatchingFirst | main.py:1826 | no earlier document matches, and on a miss no document matches at all |
| Records.OtherDocId | main.py:922-937 | a marker document stores its own `otherId` |
| Records.ApplyLockEdit | main.py:1758-1823 | a lock edit keeps the lock id, and any edit other than a grant keeps the three role lists |
| Records.EditLock | main.py:1758 | an update by lock id keeps the length and the id of every lock |
| Records.ApplyUserEdit | main.py:1759-1763 | a user edit keeps the user id, and any edit other than a grant keeps the three role lists |
| Records.EditUser | main.py:1759 | an update by user id keeps the length and the id of every user |
| Probes.SequentialAppend | main.py:130 | appending the first candidate keeps a collection sequentially numbered |
| Probes.MakeIdHasPrefix | main.py:130 | a generated id starts with its prefix |
| Probes.BlindProbe | main.py:132-136 | a probe on a key no record stores returns `count + 1` |
| Probes.RequestIdIsFirstCandidate | main.py:120-140 | the request probe queries `requestId`, which requests do not store, so it yields `req` + `count + 1` |
| Probes.InvitationIdIsFirstCandidate | main.py:142-162 | the invitation probe queries `invitationId`, which invitations do not store, so it yields `invite` + `count + 1` |
| Probes.ConnectIdIsFirstCandidate | main.py:164-184 | the connect probe queries `connectId`, which connections do not store, so it yields `con` + `count + 1` |
| Probes.HistoryIdIsFirstCandidate | main.py:230-249 | the history probe queries `historyId`, which histories do not store, so it yields `his` + `count + 1` |
| Probes.OtherProbeSeesIds | main.py:186-206 | the other probe sees exactly the stored marker ids |
| Probes.WarningProbeSeesIds | main.py:208-228 | the warning probe sees exactly the stored warning ids |
| Probes.OtherIdFresh | main.py:186-206 | the generated marker id is not taken and starts with `other` |
| Probes.WarningIdFresh | main.py:208-228 | the generated warning id is not taken |
| Probes.SentMarkerDeleteIsNoOp | main.py:1826 | the delete filtered on `submode` leaves the markers unchanged |
| Probes.SentMarkerSurvives | main.py:928 | a `sent` marker never matches that filter |
| Probes.InviteMarkerMatches | main.py:2032 | an invitation's own marker matches the filter that `accept_invitation` and `decline_invitation` delete with |
| Probes.AcceptedMarkerUnmatched | main.py:2010-2032 | the new `accepted` marker does not match that filter |
| Probes.InviteMarkerDeleted | main.py:2032 | the delete the invitation endpoints intend: when the invitation's marker is the only match, it is removed and every other marker stays, in order |
| Probes.DeleteOneAppend | main.py:2025-2032 | deleting one match commutes with appending a document that does not match |
| Probes.FirstMatchingPrefix | main.py:2025-2032 | appending a document does not change the first match |
| Probes.DeleteOneKeepsIds | main.py:1700 | `delete_one` keeps the marker ids distinct |
| Probes.DeleteOneSubset | main.py:1700 | `delete_one` only removes documents |
| Probes.DeleteByIdRemovesId | main.py:1684-1702 | deleting by `otherId` leaves no marker with that id |
| Mirror.GrantsFor | main.py:1746-1759 | the guest grants for one lock and user are exactly the matching entries of the list |
| Mirror.GrantsForAppend | main.py:1758-1759 | appending a grant adds it to its own lock and user pair, and to no other |
| Mirror.LockEditClosed | main.py:1758 | a lock edit that names an existing user keeps the lock's references to existing users |
| Mirror.UserEditClosed | main.py:1759 | a user edit that names an existing lock keeps the user's references to existing locks |
| Mirror.PairedEditsKeepClosed | main.py:1758-1759 | a paired grant keeps the store closed: every reference names an existing lock or user |
| Mirror.RoleCopiesKeepMirror | main.py:1763-1823 | edits that keep every role list keep the mirror |
| Mirror.RoleCopiesKeepClosed | main.py:1763-1823 | edits that keep every role list keep both id lists and closure |
| Mirror.EditedLock | main.py:1758 | an update by id edits exactly the first lock with that id |
| Mirror.EditedUser | main.py:1759 | an update by id edits exactly the first user with that id |
| Mirror.LockEditKeepsMirror | main.py:1782 | a lock edit other than a grant keeps the mirror |
| Mirror.UserEditKeepsMirror | main.py:1763 | a user edit other than a grant keeps the mirror |
| Mirror.DetailLockIdsAppend | main.py:866 | appending a lock detail appends its lock id |
| Mirror.PairAgree | main.py:1947-1948 | a paired grant keeps one lock and one user in agreement |
| Mirror.PairedGrantSides | main.py:1947-1965 | a paired grant edits the named lock and the named user and nothing else |
| Mirror.PairedGrantKeepsMirror | main.py:1947-1965 | a grant written on both sides keeps the mirror |
| Mirror.PairedGrantAgree | main.py:1947-1965 | after a paired grant, every lock agrees with every user |
| Mirror.FreshLock | main.py:837-851 | a new lock lists its creator as its only admin, and its other role, request and invitation lists are empty |
| Mirror.GrantsForNone | main.py:837-851 | a lock with no entries has no guest grants |
| Mirror.UserClosedGrows | main.py:855-866 | adding a lock id keeps a user's references valid |
| Mirror.FreshLockAgree | main.py:837-866 | the new lock agrees with its creator, who got the admin entry |
| Mirror.OlderLockAgree | main.py:866 | the admin entry for the new lock leaves older locks in agreement |
| Mirror.NewLockKeepsMirror | main.py:814-868 | creating a lock with a new id, by an existing user, keeps the mirror |
| Feed.Insert | main.py:1174 | insertion keeps the rows sorted newest first, and adds exactly the one row |
| Feed.SortByDateDesc | main.py:1174 | the rows come out sorted by `dateTime` non-increasing, and are a permutation of the input |
| Feed.SortKeepsRows | main.py:1174 | the sort keeps the same rows and their count |
| Steps.FindRequestPair | main.py:896-897 | a hit is a request with the given lock and user |
| Steps.FindRequestPairFinds | main.py:896-897 | the duplicate check fires exactly when such a request exists, whatever its status |
| Steps.FindInvitationTriple | main.py:987-988 | a hit is an invitation with the given source, destination and lock |
| Steps.FindInvitationTripleFinds | main.py:987-988 | the duplicate check fires exactly when such an invitation exists |
| Steps.FindUserLocation | main.py:1050-1051 | a hit is the user, and that user lists the location |
| Steps.FindUserLocationFinds | main.py:1050-1051 | the location check fires exactly when the user lists the location |
| Steps.FindAdminQuery | main.py:833-834 | a hit is a user whose admin list holds the lock id as a string |
| Steps.AdminQueryNeverMatches | main.py:833-834 | admin lists hold lock details, not strings, so the duplicate-lock query never matches |
| Steps.LockRequestIds | main.py:1848-1856 | exactly the ids of the lock's requests are listed, in collection order |
| Steps.LockRequestIdsSnoc | main.py:1848-1856 | the lock's request ids grow with the collection one request at a time |
| Steps.AcceptedPrefixStep | main.py:1848-1856 | accepting the next request of the lock extends the accepted prefix by one and keeps all request ids |
| Steps.LockGrants | main.py:1744-1856 | the grants pushed onto the lock are guest entries for that lock with the given expiry, and every request on the lock contributes its own |
| Steps.LockGrantsStep | main.py:1848-1856 | scanning one more request adds its grant exactly when it is on the lock |
| Steps.AcceptLockEdits | main.py:1758-1823 | accept_request's four lock updates change only the first lock with the id: it gains the guest, the connection and the history, and the request id is pulled; with no such lock nothing changes |
| Steps.AcceptUserEdits | main.py:1759-1763 | accept_request's two user updates change only the first user with the id: it gains the guest and the location; with no such user nothing changes |
| Steps.AcceptedLockAt | main.py:1758-1823 | at the lock's position, the guest list grows by the new grant and the request list is pulled |
| Steps.AcceptAllLockStep | main.py:1848-1856 | one accept on the lock appends its grant after those of the earlier requests and removes its id for good, without bringing back an earlier one |
| Steps.AcceptAllUserStep | main.py:1848-1856 | one accept keeps every grant users held and gives the stored requester the new one |
| Steps.AcceptAllSkip | main.py:1848-1856 | a request of another lock leaves the lock's grants, its pulled ids and the users' grants as they were |
| Steps.InviteEditsPaired | main.py:1947-1965 | the lock-side and user-side edits of an invitation grant form a matching pair, on the invitation's lock and invitee |
| Steps.MarkerAppend | main.py:922-937 | inserting a fresh `other` marker is exactly one appended marker with the given fields |
| Steps.InviteMarkerLingers | main.py:2010-2032 | after `accept_invitation` as written, the invitation's marker is still at its place and still matches the delete filter |
| Steps.AppendedMarkerKeepsIds | main.py:922-937 | an appended marker keeps marker ids distinct and prefixed |
| Steps.MarkerDelete | main.py:1700 | `delete_one` keeps marker ids distinct and prefixed |
| Steps.DeleteKeepsAbsent | main.py:1700 | `delete_one` brings back no id that was absent |
| Steps.PrefixesDiffer | main.py:1677 | an `invite` id never equals an `other` id |
| Steps.NoMarkerHasInvitationId | main.py:1665-1677 | `delete_invitation_notification` deletes the marker with `otherId` equal to the invitation id, which never exists, so no marker is removed |
| Steps.RequestAppend | main.py:900-915 | a request with the first candidate id keeps the requests sequentially numbered |
| Steps.RequestUpdate | main.py:1740-1743 | a status update keeps the request ids |
| Steps.InvitationAppend | main.py:991-1005 | an invitation with the first candidate id keeps the numbering |
| Steps.InvitationUpdate | main.py:1933 | a status update keeps the invitation ids |
| Steps.HistoryAppend | main.py:940-954 | a history with the first candidate id keeps the numbering |
| Steps.ConnectAppend | main.py:1766-1778 | a connection with the first candidate id keeps the numbering |
| Steps.TwoLockEditsKeepMirror | main.py:1782-1801 | two successive lock edits that grant nothing keep the mirror |
| Steps.GrantChainKeepsMirror | main.py:1740-1823 | the full edit chain of `accept_request` and `accept_invitation` keeps the mirror |
| Steps.NewLockChainKeepsMirror | main.py:837-866 | the full edit chain of `post_new_lock` keeps the mirror |
| Invariants.EmptyStoreOk | main.py:13-41 | an empty store satisfies the store invariant |
| Invariants.StoreRequestIdsDistinct | main.py:1848-1856 | in a store that keeps the invariant, request ids are distinct |
| Invariants.PostNewLockKeepsStore | main.py:814-868 | `post_new_lock` with a new lock id, by an existing user, keeps the invariant |
| Invariants.PostLockLocationKeepsStore | main.py:1033-1058 | adding a location keeps the invariant |
| Invariants.PostNewRequestKeepsStore | main.py:872-960 | the new state of a successful `post_new_request` keeps the invariant |
| Invariants.AcceptRequestKeepsStore | main.py:1706-1828 | accepting an existing request, between an existing lock and user, keeps the invariant |
| Invariants.DeclineRequestKeepsStore | main.py:1862-1896 | declining a request keeps the invariant |
| Invariants.PostNewInvitationKeepsStore | main.py:964-1029 | the new state of a successful `post_new_invitation` keeps the invariant |
| Invariants.AcceptInvitationKeepsStore | main.py:1900-2034 | the state `accept_invitation` leaves when its marker delete raises keeps the invariant, for an existing lock and invitee. In that state the invitation's marker is kept and an `accepted` marker is appended |
| Invariants.AcceptInvitationAsIntendedKeepsStore | main.py:1900-2034 | the same for the state after the intended marker delete |
| Invariants.DeclineInvitationKeepsStore | main.py:2038-2072 | the state `decline_invitation` leaves when its marker delete raises keeps the invariant. In that state the markers are untouched |
| Invariants.DeclineInvitationAsIntendedKeepsStore | main.py:2038-2072 | the same for the state after the intended marker delete |
| Invariants.DeleteInvitationNotificationKeepsStore | main.py:1645-1680 | the invitation notification delete removes no marker and keeps the invariant |
| Invariants.DeleteOtherNotificationKeepsStore | main.py:1684-1702 | deleting a marker by id keeps the invariant and removes that id |
| Invariants.ClearWarningsKeepsStore | main.py:1609-1641 | clearing a lock's warnings keeps the invariant |
| Invariants.ReusedLockIdBreaksStore | main.py:833-846 | `post_new_lock` with a lock id some lock already has leaves two locks with that id, so the invariant fails whatever the user side is |
| Invariants.UnknownCreatorBreaksStore | main.py:846-866 | `post_new_lock` by a user id with no user document leaves a lock whose admin names no user, so the invariant fails |
| Invariants.MissingLockGrantBreaksStore | main.py:1740-1760 | `accept_request` on a request whose lock has no document gives the requester a guest grant on a lock id no lock has, so the invariant fails |
| Service.Store.constructor | main.py:13-41 | a fresh store has every collection empty |
| Service.Store.GenerateRequestId | main.py:120-140 | returns `req` + `zfill(count + 1)` |
| Service.Store.GenerateInvitationId | main.py:142-162 | returns `invite` + `zfill(count + 1)` |
| Service.Store.GenerateConnectId | main.py:164-184 | returns `con` + `zfill(count + 1)` |
| Service.Store.GenerateHistoryId | main.py:230-249 | returns `his` + `zfill(count + 1)` |
| Service.Store.GenerateOtherId | main.py:186-206 | returns an `other` id not used by any marker |
| Service.Store.GenerateWarningId | main.py:208-228 | returns the probed warning id, which is not taken |
| Service.Store.PostNewLock | main.py:814-868 | always succeeds; appends the fresh lock with its creator as admin, and adds the location and the admin lock detail to the creator |
| Service.Store.PostNewLockChecked | main.py:814-868 | refuses a lock id already in use ("Lock ID Already Exists") and a creator with no document, with no changes. Otherwise it does what `post_new_lock` does. On a store that keeps the invariant, it keeps it on every input |
| Service.Store.PostLockLocation | main.py:1033-1058 | fails "Lock location already exists" exactly when the user lists the location; otherwise appends it to that user and changes nothing else |
| Service.Store.PostNewRequest | main.py:872-960 | fails "Request already exists" for an existing (lock, user) pair of any status; otherwise appends a `sent` request with the next id, pushes its id and a `req` history id onto the lock, and adds one `sent` marker and one history |
| Service.Store.AcceptRequestChecked | main.py:1706-1828 | refuses an unknown request, a request whose lock has no document and one whose requester has no document, with no changes. Otherwise it does what `accept_request` does. On a store that keeps the invariant, it keeps it on every input |
| Service.Store.AcceptRequest | main.py:1706-1828 | fails NotFound for an unknown id without changes; otherwise sets `accepted` with the expiry as datetime, appends the same guest grant to the lock and to the user, pulls the id from the lock, adds the location, one guest connection, one `connect` history and one `accepted` marker, and deletes no marker |
| Service.Store.AcceptAllRequest | main.py:1832-1858 | accepts every request of the lock whatever its status and leaves the others unchanged. It adds one connection, one history and one marker per accepted request. The lock's guest list becomes the old one followed by one grant per request, in collection order, and none of their ids stays in its request list; with no such lock, no lock changes. Every stored requester holds the grant of each of its requests. `StoreOk` is kept when every request on the lock names a stored lock and a stored user |
| Service.Store.AcceptOne | main.py:1848-1856 | one round of the loop: accept_request on a request of the lock, carrying the grant, pull and `StoreOk` facts to the next round |
| Service.Store.DeclineRequest | main.py:1862-1896 | fails NotFound for an unknown id; otherwise sets `declined` and pulls the id from the lock; role lists and markers are unchanged |
| Service.Store.PostNewInvitation | main.py:964-1029 | fails "Invitation already exists" for an existing (source, destination, lock) triple; otherwise appends an `invite` invitation, pushes its id onto the lock, and adds an `invite` marker for the invitee with the role |
| Service.Store.AcceptInvitation | main.py:1900-2034 | fails NotFound for an unknown id, with no changes. Otherwise it sets `accepted`, grants the role on both sides (admin or member entries, or the same guest record), pulls the id, and adds a connection, a history and an `accepted` marker. It then fails Internal at the marker delete, so the invitation's marker is kept |
| Service.Store.AcceptInvitationAsIntended | main.py:1900-2034 | the same writes, then the delete on the filter alone: succeeds, and the invitation's marker is replaced by the `accepted` one |
| Service.Store.DeclineInvitation | main.py:2038-2072 | fails NotFound for an unknown id, with no changes. Otherwise it sets `declined` and pulls the id from the lock, then fails Internal at the marker delete with the markers unchanged |
| Service.Store.DeclineInvitationAsIntended | main.py:2038-2072 | the same writes, then the delete on the filter alone: succeeds, and the invitation's marker is deleted |
| Service.Store.DeleteWarningNotification | main.py:1609-1641 | without an id, empties the lock's warning list; with an id, pulls `{reqId: id}` from a list of strings, which changes nothing |
| Service.Store.DeleteInvitationNotification | main.py:1645-1680 | for an unknown invitation, fails Internal with "'NoneType' object is not subscriptable" and changes nothing. Otherwise it declines the invitation, pulls it from the lock, and runs a marker delete that removes nothing |
| Service.Store.DeleteOtherNotification | main.py:1684-1702 | deletes the first marker with the given `otherId` |
| Views.CardsAt | main.py:479-485 | the cards are exactly those of the lock details at the location, in order |
| Views.CardsAtAppend | main.py:479-485 | filtering distributes over concatenation, so admin and member cards precede guest cards |
| Views.GetUserLock | main.py:433-506 | NotFound "User not found" for an unknown user; the view belongs to the caller |
| Views.GetUserLockFails | main.py:433-506 | fails exactly for an unknown user, or when no active location is given and the location list is empty |
| Views.GetUserLockLocation | main.py:467-473 | the active location is the one given, else the first listed |
| Views.GetUserLockCards | main.py:471-485 | a card is shown exactly for a lock of the user at the active location, with admin, then member, then guest locks |
| Views.Holders | main.py:557-589 | a holder row exists exactly for a listed id that names an existing user; with all ids known there is one row per id |
| Views.RoleEntry | main.py:590-598 | a found entry is for the requested lock |
| Views.RoleEntryFinds | main.py:590-598 | an entry is found exactly when some user with the id holds the role on the lock |
| Views.RoleEntryOfUser | main.py:590-598 | with distinct user ids, the entry is the user's first entry for the lock |
| Views.GetLockDetail | main.py:510-612 | NotFound "Lock not found" for an unknown lock; the view is of the requested lock |
| Views.GetLockDetailForbidden | main.py:590-596 | 403 exactly when the caller holds the lock in none of its admin, member and guest entries |
| Views.GetLockDetailResolution | main.py:551-598 | the fields come from the admin entry, else the member entry, else the guest entry; `isAdmin` holds exactly when the lock lists the caller as admin |
| Views.HoldersRole | main.py:557-589 | every row built for a role carries that role |
| Views.RankedRows | main.py:557-589 | rows of admins, then members, then guests, concatenated, are in role order |
| Views.GetLockDetailRows | main.py:557-589 | a row exists exactly for each admin, member and guest of the lock that names a stored user. The rows are ordered admins, then members, then guests |
| Views.AgreeGrantHeld | main.py:1758-1759 | in an agreeing pair, a grant listed on the lock appears among the user's entries |
| Views.GetLockDetailHeld | main.py:590-596 | a user holding any entry for an existing lock is let in |
| Views.GetLockDetailOwnAdminEntry | main.py:590-598 | an admin sees the name, location and image of their own first admin entry |
| Views.GetLockDetailMirrored | main.py:510-612 | in a mirrored store, every user the lock lists is let in, and an admin sees `isAdmin` |
| Views.ClosedLockRows | main.py:557-589 | a lock whose role lists name only stored users gets exactly one row per admin, member and guest entry |
| Views.GetLockDetailMirroredRows | main.py:557-589 | in a mirrored store, the rows are one per admin, member and guest of the lock |
| Views.PendingOn | main.py:1152-1154 | exactly the lock's `sent` requests are selected |
| Views.RowsForEntryFails | main.py:1152-1171 | a lock's rows fail exactly when a pending request names a missing lock or requester |
| Views.RowsForEntryRows | main.py:1152-1171 | a lock's rows are exactly its pending requests, with amount equal to the lock's request count |
| Views.RowsForEntriesFails | main.py:1144-1171 | the feed fails exactly when some admin lock's rows fail |
| Views.RowsForEntriesRows | main.py:1144-1171 | the feed has exactly the rows of the pending requests of the admin locks |
| Views.GetRequestNotificationList | main.py:1064-1183 | on success the rows are sorted newest first, for the caller, in mode `req` |
| Views.GetRequestNotificationListFails | main.py:1064-1183 | the feed fails exactly for an unknown caller, or when some row cannot be rendered |
| Views.RowsForEntriesCount | main.py:1144-1171 | one row is built per pending request per admin entry |
| Views.GetRequestNotificationListRows | main.py:1144-1174 | a row is shown exactly for a `sent` request on one of the caller's admin locks. The list is the built rows reordered, each exactly once: one row per pending request per admin entry |
| Legacy.LockOf | api/main.py:520-522 | a found lock has the requested id |
| Legacy.LegacyRequestIdIsFirstCandidate | api/main.py:113-133 | the legacy request probe also yields `req` + `count + 1` |
| Legacy.PullWarnings | api/main.py:1620 | `$pull` keeps exactly the warnings that do not match `{reqId: id}` |
| Legacy.PushUser | api/main.py:831-834 | a push by user id keeps every user id |
| Legacy.UpdateLock | api/main.py:1682 | an update by lock id keeps every lock id |
| Legacy.LegacyStore.constructor | api/main.py:13-34 | a fresh legacy store is empty |
| Legacy.NewLegacyLock | api/main.py:810-824 | the new lock has status and security status `secure`, the creator as its only admin, and empty member, guest, invitation, request, history and warning lists |
| Legacy.LegacyStore.PostNewLock | api/main.py:786-836 | fails "Lock ID Already Exists" exactly when the user's admin list holds the id; otherwise appends a new secure lock with the creator as admin, and pushes the location and the lock id onto the user |
| Legacy.LegacyStore.GenerateRequestId | api/main.py:113-132 | the request probe queries `requestId`, which legacy requests do not store, so it yields `req` + `count + 1` |
| Legacy.LegacyStore.GenerateOtherId | api/main.py:179-198 | the generated marker id is not taken and starts with `other` |
| Legacy.LegacyStore.GenerateHistoryId | api/main.py:223-242 | the history probe yields `his` + `count + 1` |
| Legacy.LegacyStore.PostNewRequest | api/main.py:839-921 | fails "Request already exists" for an existing pair; otherwise appends a `sent` request, pushes its id and a history id onto the lock, and adds one marker and one history |
| Legacy.LegacyStore.PostLockLocation | api/main.py:990-1014 | fails "Lock location already exists" exactly when listed; otherwise appends the location |
| Legacy.LegacyStore.DeleteWarningNotification | api/main.py:1589-1623 | without an id, empties the lock's warnings; with one, pulls the matching entries |
| Legacy.LegacyStore.AcceptRequest | api/main.py:1652-1689 | fails NotFound for an unknown id; otherwise sets `accepted`, pushes the user onto the lock's dotted guest list and the lock onto the user's; a request without a location then raises, otherwise the location is added |
| Legacy.LegacyStore.AcceptRequestAsGuest | api/main.py:1652-1689 | as above, but the grant goes to the lock's `guest` list and the user's guest entries |
| Legacy.PushUserEdits | api/main.py:831-834 | a push edits exactly the first user with the id |
| Legacy.PostNewLockListsAdmin | api/main.py:806-834 | after creation, the creator's admin list holds the lock |
| Legacy.PostLockLocationKeepsDistinct | api/main.py:1008-1012 | adding an unlisted location keeps every user's locations duplicate-free |
| Legacy.PostNewRequestKeepsPairsUnique | api/main.py:864-880 | adding a request for an unlisted pair keeps (lock, user) pairs unique |
| Legacy.PostNewRequestKeepsNumbering | api/main.py:864-884 | the new request keeps request ids sequentially numbered |
| Legacy.ClearWarningsEmpties | api/main.py:1611-1613 | clearing leaves the lock's warning list empty |
| Legacy.PullWarningRemovesMatches | api/main.py:1616-1620 | pulling by id removes exactly the matching warnings from that lock |
| Legacy.AcceptRequestKeepsDetailClosed | api/main.py:1682-1683 | a user refused the lock page before accept is still refused after it |
| Legacy.AcceptRequestKeepsUserLocks | api/main.py:1682-1683 | accept leaves the user's admin, member and guest lists unchanged |
| Legacy.GuestGrantOpensDetail | api/main.py:525-566 | the corrected grant lets the grantee see the lock page, with `isAdmin` as before |
| Legacy.GuestEntryListsLock | api/main.py:451-471 | the corrected grant lists the lock among the grantee's guest locks |
| Legacy.LockCardsAt | api/main.py:451-471 | the cards are exactly those of listed locks stored at the location |
| Legacy.LockCardsAtAppend | api/main.py:451-471 | filtering distributes over concatenation |
| Legacy.LegacyGetUserLock | api/main.py:403-481 | NotFound for an unknown user; the view belongs to the caller |
| Legacy.LegacyGetUserLockCards | api/main.py:443-471 | cards are exactly the user's locks at the active location, admin and member before guest; the location defaults to the first listed |
| Legacy.LegacyGetLockDetail | api/main.py:484-580 | the view is of the requested lock |
| Legacy.LegacyGetLockDetailAccess | api/main.py:525-566 | NotFound exactly for an unknown lock; 403 exactly when the lock lists the caller nowhere; `isAdmin` exactly for its admins |
| Legacy.LegacyGetLockDetailRows | api/main.py:536-566 | a row exists exactly for each admin, member and guest of the lock that names a stored user. The rows are ordered admins, then members, then guests |
| Legacy.RequestsOn | api/main.py:1106 | exactly the lock's requests are selected, of any status |
| Legacy.LegacyRowsForLockFails | api/main.py:1106-1122 | a lock's rows fail exactly when it has requests but is missing |
| Legacy.LegacyRowsForLockRows | api/main.py:1106-1122 | the rows are exactly the lock's requests |
| Legacy.LegacyRowsForLocksFails | api/main.py:1098-1122 | the feed fails exactly when some admin lock's rows fail |
| Legacy.LegacyRowsForLocksRows | api/main.py:1098-1122 | the feed has exactly the rows of the requests on the admin locks |
| Legacy.LegacyGetRequestNotificationList | api/main.py:1017-1131 | on success the rows are sorted newest first, for the caller, in mode `req` |
| Legacy.LegacyGetRequestNotificationListFails | api/main.py:1017-1131 | fails exactly for an unknown caller, or when a listed admin lock with requests is missing |
| Legacy.LegacyRowsForLocksCount | api/main.py:1098-1122 | one row is built per request, of any status, per admin lock id |
| Legacy.LegacyGetRequestNotificationListRows | api/main.py:1098-1126 | a row is shown exactly for a request of any status on one of the caller's admin locks. The list is the built rows reordered, each exactly once: one row per request per admin lock id |

## Left out

- MongoDB connection, environment loading, FastAPI routing and CORS are transport and I/O. The model is a single sequential store, so two concurrent count-then-probe id allocations are not modelled.
- `random.randint` is a nondeterministic choice, constrained by the store. A loop that redraws until it finds a free value is modelled by its result; its `requires` says that such a value exists.
- Password hashing and signup, login and password change rest on SHA-512 and uuid, which are foreign calls. They are left out.
- The display joins of the feeds (user names, images) are left out. A feed row keeps the id of the user whose name it would show.
- Endpoints not in the access-grant core are left out: the connect, other and warning feeds; history; profile reads and edits.
- The legacy invitation endpoints are left out, and so are `api/main.py`'s dead or broken handlers.
- Legacy guest entries, on locks and on users, are represented by the id they carry (`userId` on a lock, `lockId` on a user); their other fields are display data.
- api/database.py is not part of this model. The legacy request's `lockLocation` is optional: the source reads it with `[...]`, and a missing one raises `KeyError`.
- Service.Store.AcceptAllRequest: states the connections, histories and markers by their number only, and the users' guest lists by the grants they hold, not as exact lists: each round's exact writes are those of `Service.Store.AcceptRequest`. Its `requires` of distinct request ids holds in every store that keeps `Invariants.StoreOk`.
- Service.Store.GenerateOtherId: states freshness and the prefix, not the exact probed number.
- The store invariant is carried by the `Invariants` lemmas; of the methods, only `Service.Store.AcceptAllRequest` and the corrected `Checked` endpoints state it in their contracts. Each lemma takes the new state that the endpoint's `ensures` describes. The lemmas for `post_new_lock`, `accept_request` and `accept_invitation` assume the lock and the user exist, which the source does not check. For `post_new_lock` and `accept_request`, lemmas show the invariant is lost otherwise. For `accept_invitation` on a missing lock or invitee, no such lemma is given.
- Service.Store.AcceptInvitation: writes the guest record with no expiry. The `Guest` call at main.py:1953-1960 passes the invitation's datetime as `datetime=`, where accept_request passes `expireDatetime=` (main.py:1752). The `Guest` model main.py imports is not part of this model, so the field is taken as unset.
- Ids.Lower: lowers the ASCII letters `A`-`Z` only. Python's `str.lower()` also folds non-ASCII letters, and some of them lower to two characters (`'İ'.lower()` has length 2). The model is restricted to names whose initials are ASCII or have no lower-case form.
- Ids.UserIdShape: its length of six holds only for such initials. An initial that lowers to two characters gives a seven-character id in Python.
- Ids.GenerateUserId: the initials it returns are those of `Ids.Lower`, so it is exact only for such initials.
- Feed.SortByDateDesc: does not state that rows with equal `dateTime` keep their build order, as Python's stable sort does.

## Findings

| source | as written | input that shows it | evidently intended | confidence | as-written member | corrected member |
|---|---|---|---|---|---|---|
| main.py:80-87 | the limit check fires at 9999 codes, but `randint(1000, 9999)` has only 9000 values | 9000 users holding codes 1000..9999: the check passes and the redraw loop never ends | fail exactly when the draw range is exhausted | not executed; high | Ids.GenerateUserCode, Ids.UserCodeLimitUnreachable | Ids.GenerateUserCodeBounded |
| main.py:2032, main.py:2070 | `delete_one(filter, {'_id': 0})`: the projection lands in the `collation` parameter, and the server refuses it | any existing invitation: `accept_invitation` or `decline_invitation` does all earlier writes, then answers 500, and the invitation's `invite` marker stays | delete the invitation's marker and report success | not executed; high | Service.Store.AcceptInvitation, Service.Store.DeclineInvitation, Steps.InviteMarkerLingers | Service.Store.AcceptInvitationAsIntended, Service.Store.DeclineInvitationAsIntended, Probes.InviteMarkerDeleted |
| main.py:833-846 | the duplicate check never fires, and the creator's existence is not checked | a store with lock L, then `post_new_lock(L, u)`: two locks have id L. Or `post_new_lock(L', x)` for an unknown user x: the lock's admin names no user | refuse a lock id already in use, with "Lock ID Already Exists" | not executed; medium | Service.Store.PostNewLock, Invariants.ReusedLockIdBreaksStore, Invariants.UnknownCreatorBreaksStore | Service.Store.PostNewLockChecked |
| main.py:872-960, main.py:1740-1760 | `post_new_request` stores a request for any lock id, and `accept_request` grants on the request's lock without looking it up | a user u and no lock L: `post_new_request(L, u)` keeps the invariant, then accepting that request gives u a guest grant on L, which no lock has | grant only on an existing lock to an existing user | not executed; medium | Service.Store.AcceptRequest, Invariants.MissingLockGrantBreaksStore | Service.Store.AcceptRequestChecked |
| api/main.py:1673-1683 | `accept_request` writes the grant into `roleToUserIdListDict.guest` and `userRoleToLockIdListDict.guest`, lists no reader uses | a lock whose lists do not name user U, and a request of U on it: after accept, `get_lock_detail(lock, U)` is still 403 and `get_user_lock` shows no card | the grantee becomes a guest in the `guest` lists that `get_lock_detail` and `get_user_lock` read | not executed; medium | Legacy.LegacyStore.AcceptRequest, Legacy.AcceptRequestKeepsDetailClosed | Legacy.LegacyStore.AcceptRequestAsGuest, Legacy.GuestGrantOpensDetail |

