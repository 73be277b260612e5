/** What the id probes and the marker filters of main.py find in the
    stored documents.

    Each `generate_*_id` helper counts its collection and probes upward
    with `find_one({key: candidate})`; the marker deletes of the request and
    invitation endpoints are `delete_one` calls with an equality filter.
    Whether they find anything depends on the key names, which the document
    layer of `Records` keeps. */
module Probes {
  import opened Common
  import opened Ids
  import opened Records

  /** Ids numbered 1, 2, 3, ... in insertion order: the ids a collection
      holds when every record was numbered from its count and nothing was
      deleted since. */
  predicate Sequential(prefix: string, ids: seq<string>) {
    forall i :: 0 <= i < |ids| ==> ids[i] == MakeId(prefix, i + 1)
  }

  lemma SequentialAppend(prefix: string, ids: seq<string>)
    requires Sequential(prefix, ids)
    ensures Sequential(prefix, ids + [MakeId(prefix, |ids| + 1)])
  {
  }

  predicate HasPrefix(s: string, p: string) {
    |p| <= |s| && s[..|p|] == p
  }

  lemma MakeIdHasPrefix(prefix: string, n: nat)
    ensures HasPrefix(MakeId(prefix, n), prefix)
  {
  }

  /** A probe on a key no document stores finds nothing, so the first
      candidate is taken. */
  lemma BlindProbe(prefix: string, docs: seq<Doc>, key: string)
    requires forall i :: 0 <= i < |docs| ==> key !in docs[i]
    ensures NextId(prefix, |docs|, ValuesUnder(docs, key)) == MakeId(prefix, |docs| + 1)
  {
    NextIdUnprobed(prefix, |docs|);
  }

  // The four id helpers whose probe key differs from the stored key.

  function NextRequestId(rs: seq<Request>): string {
    NextId("req", |rs|, ValuesUnder(RequestDocs(rs), "requestId"))
  }

  function NextInvitationId(vs: seq<Invitation>): string {
    NextId("invite", |vs|, ValuesUnder(InvitationDocs(vs), "invitationId"))
  }

  function NextConnectId(cs: seq<Connection>): string {
    NextId("con", |cs|, ValuesUnder(ConnectionDocs(cs), "connectId"))
  }

  function NextHistoryId(hs: seq<History>): string {
    NextId("his", |hs|, ValuesUnder(HistoryDocs(hs), "historyId"))
  }

  // The two helpers that probe the key they store.

  function NextOtherId(os: seq<Other>): string {
    NextId("other", |os|, ValuesUnder(OtherDocs(os), "otherId"))
  }

  function NextWarningId(ws: seq<Warning>): string {
    NextId("warning", |ws|, ValuesUnder(WarningDocs(ws), "warningId"))
  }

  /** `generate_request_id` always returns `req` + (count + 1): it probes
      `requestId`, which request records do not store. */
  lemma RequestIdIsFirstCandidate(rs: seq<Request>)
    ensures NextRequestId(rs) == MakeId("req", |rs| + 1)
  {
    BlindProbe("req", RequestDocs(rs), "requestId");
  }

  lemma InvitationIdIsFirstCandidate(vs: seq<Invitation>)
    ensures NextInvitationId(vs) == MakeId("invite", |vs| + 1)
  {
    BlindProbe("invite", InvitationDocs(vs), "invitationId");
  }

  lemma ConnectIdIsFirstCandidate(cs: seq<Connection>)
    ensures NextConnectId(cs) == MakeId("con", |cs| + 1)
  {
    BlindProbe("con", ConnectionDocs(cs), "connectId");
  }

  lemma HistoryIdIsFirstCandidate(hs: seq<History>)
    ensures NextHistoryId(hs) == MakeId("his", |hs| + 1)
  {
    BlindProbe("his", HistoryDocs(hs), "historyId");
  }

  /** The probe of `generate_other_id` sees exactly the stored marker ids. */
  lemma {:induction false} OtherProbeSeesIds(os: seq<Other>)
    ensures ValuesUnder(OtherDocs(os), "otherId") == OtherIds(os)
  {
    if os != [] {
      assert OtherDocs(os)[1..] == OtherDocs(os[1..]);
      OtherProbeSeesIds(os[1..]);
      assert OtherIds(os) == [os[0].otherId] + OtherIds(os[1..]);
    }
  }

  lemma {:induction false} WarningProbeSeesIds(ws: seq<Warning>)
    ensures ValuesUnder(WarningDocs(ws), "warningId") == WarningIds(ws)
  {
    if ws != [] {
      assert WarningDocs(ws)[1..] == WarningDocs(ws[1..]);
      WarningProbeSeesIds(ws[1..]);
      assert WarningIds(ws) == [ws[0].warningId] + WarningIds(ws[1..]);
    }
  }

  /** A fresh marker id: unused, and of the form `other` + number. */
  lemma OtherIdFresh(os: seq<Other>)
    ensures NextOtherId(os) !in OtherIds(os)
    ensures HasPrefix(NextOtherId(os), "other")
  {
    OtherProbeSeesIds(os);
  }

  lemma WarningIdFresh(ws: seq<Warning>)
    ensures NextWarningId(ws) !in WarningIds(ws)
  {
    WarningProbeSeesIds(ws);
  }

  // ---------------------------------------------------------------------
  // Marker filters.

  /** The filter accept_request and decline_request delete with: it names
      `submode`, a key markers do not store. */
  function SentMarkerFilter(userId: string, lockId: string): Filter {
    [("userId", userId), ("lockId", lockId), ("submode", "sent")]
  }

  /** The filter accept_invitation and decline_invitation delete with. */
  function InviteMarkerFilter(v: Invitation): Filter {
    [("userId", v.desUserId), ("userRole", v.role), ("lockId", v.lockId), ("subMode", "invite")]
  }

  /** The marker post_new_request inserts. */
  function SentMarker(otherId: string, userId: string, lockId: string, now: int): Other {
    Other(otherId, "sent", userId, None, lockId, now)
  }

  /** The marker post_new_invitation inserts. */
  function InviteMarker(otherId: string, v: Invitation): Other {
    Other(otherId, "invite", v.desUserId, Some(v.role), v.lockId, v.datetime)
  }

  /** The accept and decline of a request delete no marker at all. */
  lemma SentMarkerDeleteIsNoOp(os: seq<Other>, userId: string, lockId: string)
    ensures DeleteOne(os, SentMarkerFilter(userId, lockId)) == os
  {
    var f := SentMarkerFilter(userId, lockId);
    forall j | 0 <= j < |os| ensures !Matches(OtherDoc(os[j]), f) {
      assert f[2].0 !in OtherDoc(os[j]);
    }
  }

  /** In particular the `sent` marker of the request survives. */
  lemma SentMarkerSurvives(otherId: string, userId: string, lockId: string, now: int)
    ensures !Matches(OtherDoc(SentMarker(otherId, userId, lockId, now)), SentMarkerFilter(userId, lockId))
  {
    assert SentMarkerFilter(userId, lockId)[2].0 !in OtherDoc(SentMarker(otherId, userId, lockId, now));
  }

  /** The invitation filter does match the invitation's own marker. */
  lemma InviteMarkerMatches(otherId: string, v: Invitation)
    ensures Matches(OtherDoc(InviteMarker(otherId, v)), InviteMarkerFilter(v))
  {
  }

  /** The `accepted` marker appended just before the delete never matches
      the invitation filter. */
  lemma AcceptedMarkerUnmatched(otherId: string, v: Invitation, now: int)
    ensures !Matches(OtherDoc(Other(otherId, "accepted", v.desUserId, None, v.lockId, now)), InviteMarkerFilter(v))
  {
    assert InviteMarkerFilter(v)[1].0 !in OtherDoc(Other(otherId, "accepted", v.desUserId, None, v.lockId, now));
  }

  /** The delete the invitation endpoints intend: when the invitation's
      marker is the only one the filter matches, it is removed and every
      other marker stays, in order. */
  lemma InviteMarkerDeleted(os: seq<Other>, k: nat, otherId: string, v: Invitation)
    requires k < |os| && os[k] == InviteMarker(otherId, v)
    requires forall j :: 0 <= j < |os| && j != k ==> !Matches(OtherDoc(os[j]), InviteMarkerFilter(v))
    ensures DeleteOne(os, InviteMarkerFilter(v)) == os[..k] + os[k + 1..]
    ensures InviteMarker(otherId, v) !in DeleteOne(os, InviteMarkerFilter(v))
  {
    var f := InviteMarkerFilter(v);
    InviteMarkerMatches(otherId, v);
    FirstMatchingFirst(os, f);
    assert FirstMatching(os, f) == Some(k);
    var r := RemoveAt(os, k);
    RemoveAtSpec(os, k);
    forall m | 0 <= m < |r| ensures r[m] != InviteMarker(otherId, v) {
      var j := if m < k then m else m + 1;
      assert r[m] == os[j] && !Matches(OtherDoc(os[j]), f);
    }
  }

  /** Deleting before or after appending an unmatched marker is the same. */
  lemma {:induction false} DeleteOneAppend(os: seq<Other>, o: Other, f: Filter)
    requires !Matches(OtherDoc(o), f)
    ensures DeleteOne(os + [o], f) == DeleteOne(os, f) + [o]
  {
    var s := os + [o];
    FirstMatchingFirst(os, f);
    FirstMatchingFirst(s, f);
    match FirstMatching(os, f)
    case None =>
      assert FirstMatching(s, f) == None by {
        forall j | 0 <= j < |s| ensures !Matches(OtherDoc(s[j]), f) {
          if j < |os| { assert s[j] == os[j]; }
        }
      }
    case Some(i) =>
      FirstMatchingPrefix(os, o, f);
      assert s[..i] + s[i + 1..] == (os[..i] + os[i + 1..]) + [o];
  }

  lemma {:induction false} FirstMatchingPrefix(os: seq<Other>, o: Other, f: Filter)
    requires FirstMatching(os, f).Some?
    ensures FirstMatching(os + [o], f) == FirstMatching(os, f)
  {
    var i := FirstMatching(os, f).value;
    var s := os + [o];
    FirstMatchingFirst(os, f);
    assert s[i] == os[i];
    forall j | 0 <= j < i ensures !Matches(OtherDoc(s[j]), f) {
      assert s[j] == os[j];
    }
    if i == 0 {
    } else {
      assert s[1..] == os[1..] + [o];
      FirstMatchingPrefix(os[1..], o, f);
    }
  }

  /** `delete_one` keeps marker ids distinct. */
  lemma DeleteOneKeepsIds(os: seq<Other>, f: Filter)
    requires Distinct(OtherIds(os))
    ensures Distinct(OtherIds(DeleteOne(os, f)))
  {
    match FirstMatching(os, f)
    case None =>
    case Some(i) =>
      assert OtherIds(RemoveAt(os, i)) == RemoveAt(OtherIds(os), i);
      DistinctRemoveAt(OtherIds(os), i);
  }

  /** `delete_one` only removes: every marker left was there before. */
  lemma DeleteOneSubset(os: seq<Other>, f: Filter)
    ensures forall k :: 0 <= k < |DeleteOne(os, f)| ==> DeleteOne(os, f)[k] in os
  {
    match FirstMatching(os, f)
    case None =>
    case Some(i) =>
      forall k | 0 <= k < |RemoveAt(os, i)| ensures RemoveAt(os, i)[k] in os {
        if k < i { assert RemoveAt(os, i)[k] == os[k]; } else { assert RemoveAt(os, i)[k] == os[k + 1]; }
      }
  }

  /** Deleting by marker id leaves no marker with that id when ids are
      distinct. */
  lemma DeleteByIdRemovesId(os: seq<Other>, x: string)
    requires Distinct(OtherIds(os))
    ensures x !in OtherIds(DeleteOne(os, [("otherId", x)]))
  {
    var f := [("otherId", x)];
    FirstMatchingFirst(os, f);
    match FirstMatching(os, f)
    case None =>
      forall k | 0 <= k < |os| ensures OtherIds(os)[k] != x {
        OtherDocId(os[k]);
        assert !Matches(OtherDoc(os[k]), f);
      }
    case Some(i) =>
      assert Matches(OtherDoc(os[i]), f);
      OtherDocId(os[i]);
      assert OtherDoc(os[i])[f[0].0] == f[0].1;
      var r := RemoveAt(os, i);
      forall k | 0 <= k < |r| ensures OtherIds(r)[k] != x {
        if k < i {
          assert r[k] == os[k] && OtherIds(os)[k] != OtherIds(os)[i];
        } else {
          assert r[k] == os[k + 1] && OtherIds(os)[k + 1] != OtherIds(os)[i];
        }
      }
  }
}
