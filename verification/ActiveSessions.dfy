/** The list of a user's active sessions: token records grouped into families, newest use first. */
module ActiveSessions {
  import opened Common
  import opened Sessions
  import opened SessionRuns

  datatype DeviceSession = DeviceSession(
    id: FamilyId, device: string, createdAt: Time, lastUsedAt: Time, expiresAt: Time)

  predicate Member(r: Record, userId: UserId, f: FamilyId) {
    r.userId == userId && r.familyId == f
  }

  predicate Usable(r: Record, now: Time) {
    !r.revoked && r.expiresAt > now
  }

  /** The answer of the query: the user's records, newest first. */
  ghost predicate IsListing(records: seq<Record>, userId: UserId, listed: seq<Record>) {
    && (forall r :: r in listed <==> r in records && r.userId == userId)
    && (forall i, j :: 0 <= i < j < |listed| ==> listed[i].createdAt >= listed[j].createdAt)
  }

  /** `s` reports family `s.id`: extremes over the whole family, expiry and device of its usable token. */
  ghost predicate Describes(records: seq<Record>, userId: UserId, now: Time, s: DeviceSession) {
    && (exists r :: r in records && Member(r, userId, s.id) && r.createdAt == s.createdAt)
    && (exists r :: r in records && Member(r, userId, s.id) && r.lastUsedAt == s.lastUsedAt)
    && (forall r :: r in records && Member(r, userId, s.id) ==> s.createdAt <= r.createdAt && r.lastUsedAt <= s.lastUsedAt)
    && (exists r :: r in records && Member(r, userId, s.id) && !r.revoked && r.expiresAt > now)
    && (forall r :: r in records && Member(r, userId, s.id) && !r.revoked ==>
          r.device == s.device && r.expiresAt == s.expiresAt)
  }

  ghost predicate HasUsable(records: seq<Record>, userId: UserId, f: FamilyId, now: Time) {
    exists r :: r in records && r.userId == userId && r.familyId == f && !r.revoked && r.expiresAt > now
  }

  function Active(family: seq<Record>, now: Time): (active: seq<Record>)
    ensures forall r :: r in active <==> r in family && Usable(r, now)
  {
    if family == [] then []
    else (if Usable(family[0], now) then [family[0]] else []) + Active(family[1..], now)
  }

  function Earliest(family: seq<Record>): (t: Time)
    requires family != []
    ensures exists r :: r in family && r.createdAt == t
    ensures forall r :: r in family ==> t <= r.createdAt
  {
    if |family| == 1 then assert family[0] in family; family[0].createdAt
    else
      var t := Earliest(family[1..]);
      assert family[0] in family;
      if family[0].createdAt < t then family[0].createdAt else t
  }

  function LatestUse(family: seq<Record>): (r: Record)
    requires family != []
    ensures r in family
    ensures forall q :: q in family ==> q.lastUsedAt <= r.lastUsedAt
  {
    if |family| == 1 then family[0]
    else
      var r := LatestUse(family[1..]);
      if family[0].lastUsedAt >= r.lastUsedAt then family[0] else r
  }

  function LatestExpiry(family: seq<Record>): (t: Time)
    requires family != []
    ensures exists r :: r in family && r.expiresAt == t
    ensures forall r :: r in family ==> r.expiresAt <= t
  {
    if |family| == 1 then assert family[0] in family; family[0].expiresAt
    else
      var t := LatestExpiry(family[1..]);
      assert family[0] in family;
      if family[0].expiresAt > t then family[0].expiresAt else t
  }

  predicate NewestFirst(sessions: seq<DeviceSession>) {
    forall i, j :: 0 <= i < j < |sessions| ==> sessions[i].lastUsedAt >= sessions[j].lastUsedAt
  }

  /** Where a stable sort by latest use, newest first, puts `s`. */
  function Position(sessions: seq<DeviceSession>, s: DeviceSession): (k: nat)
    ensures k <= |sessions|
    ensures forall i :: 0 <= i < k ==> sessions[i].lastUsedAt >= s.lastUsedAt
    ensures k < |sessions| ==> sessions[k].lastUsedAt < s.lastUsedAt
  {
    if sessions == [] || sessions[0].lastUsedAt < s.lastUsedAt then 0
    else 1 + Position(sessions[1..], s)
  }

  function Insert(sessions: seq<DeviceSession>, s: DeviceSession): seq<DeviceSession> {
    var k := Position(sessions, s);
    sessions[..k] + [s] + sessions[k..]
  }

  predicate DifferentFamilies(sessions: seq<DeviceSession>) {
    forall i, j :: 0 <= i < j < |sessions| ==> sessions[i].id != sessions[j].id
  }

  lemma InsertedAt(sessions: seq<DeviceSession>, s: DeviceSession, i: nat)
    requires i <= |sessions|
    ensures var k := Position(sessions, s);
            |Insert(sessions, s)| == |sessions| + 1
            && Insert(sessions, s)[i] == if i < k then sessions[i] else if i == k then s else sessions[i - 1]
  {
  }

  lemma InsertKeepsPair(sessions: seq<DeviceSession>, s: DeviceSession, i: nat, j: nat)
    requires NewestFirst(sessions) && DifferentFamilies(sessions) && i < j <= |sessions|
    requires forall x :: x in sessions ==> x.id != s.id
    ensures |Insert(sessions, s)| == |sessions| + 1
    ensures Insert(sessions, s)[i].lastUsedAt >= Insert(sessions, s)[j].lastUsedAt
    ensures Insert(sessions, s)[i].id != Insert(sessions, s)[j].id
  {
    var k := Position(sessions, s);
    InsertedAt(sessions, s, i);
    InsertedAt(sessions, s, j);
    if i == k {
      assert sessions[j - 1] in sessions;
      assert sessions[j - 1].lastUsedAt <= sessions[k].lastUsedAt;
    } else if j == k {
      assert sessions[i] in sessions;
    }
  }

  lemma InsertKeepsOrder(sessions: seq<DeviceSession>, s: DeviceSession)
    requires NewestFirst(sessions) && DifferentFamilies(sessions)
    requires forall x :: x in sessions ==> x.id != s.id
    ensures NewestFirst(Insert(sessions, s)) && DifferentFamilies(Insert(sessions, s))
  {
    InsertedAt(sessions, s, 0);
    forall i: nat, j: nat | i < j < |Insert(sessions, s)|
      ensures Insert(sessions, s)[i].lastUsedAt >= Insert(sessions, s)[j].lastUsedAt
      ensures Insert(sessions, s)[i].id != Insert(sessions, s)[j].id
    {
      InsertKeepsPair(sessions, s, i, j);
    }
  }

  lemma InsertKeepsElements(sessions: seq<DeviceSession>, s: DeviceSession)
    ensures forall x :: x in Insert(sessions, s) <==> x in sessions || x == s
  {
    assert sessions == sessions[..Position(sessions, s)] + sessions[Position(sessions, s)..];
  }

  /** In a chain the live record of a family is unique. */
  lemma OneLiveRecord(records: seq<Record>, a: Record, b: Record)
    requires Chains(records) && a in records && b in records
    requires a.familyId == b.familyId && !a.revoked && !b.revoked
    ensures a == b
  {
    var i :| 0 <= i < |records| && records[i] == a;
    var j :| 0 <= j < |records| && records[j] == b;
  }

  ghost predicate Listed(records: seq<Record>, userId: UserId, now: Time, sessions: seq<DeviceSession>, families: seq<FamilyId>)
  {
    && NewestFirst(sessions) && DifferentFamilies(sessions)
    && (forall s :: s in sessions ==> s.id in families && Describes(records, userId, now, s))
    && (forall f :: f in families && HasUsable(records, userId, f, now) ==> exists s :: s in sessions && s.id == f)
  }

  lemma AddFamily(records: seq<Record>, userId: UserId, now: Time, sessions: seq<DeviceSession>,
                  families: seq<FamilyId>, s: DeviceSession)
    requires Listed(records, userId, now, sessions, families)
    requires s.id !in families && Describes(records, userId, now, s)
    ensures Listed(records, userId, now, Insert(sessions, s), families + [s.id])
  {
    var r := Insert(sessions, s);
    InsertKeepsOrder(sessions, s);
    InsertKeepsElements(sessions, s);
    forall f | f in families + [s.id] && HasUsable(records, userId, f, now) ensures exists x :: x in r && x.id == f {
      if f in families {
        var x :| x in sessions && x.id == f;
        assert x in r;
      } else {
        assert s in r;
      }
    }
  }

  lemma Described(records: seq<Record>, userId: UserId, now: Time, family: seq<Record>, f: FamilyId)
    requires Chains(records) && family != []
    requires forall r :: r in family <==> r in records && Member(r, userId, f)
    requires Active(family, now) != []
    ensures Describes(records, userId, now,
              DeviceSession(f, LatestUse(Active(family, now)).device, Earliest(family), LatestUse(family).lastUsedAt,
                            LatestExpiry(Active(family, now))))
  {
    var active := Active(family, now);
    var current := LatestUse(active);
    assert current in active;
    forall r | r in records && Member(r, userId, f) && !r.revoked ensures r == current {
      OneLiveRecord(records, r, current);
    }
    var e :| e in active && e.expiresAt == LatestExpiry(active);
    OneLiveRecord(records, e, current);
  }

  /** The records seen so far, by family, and the families in the order they were met. */
  ghost predicate Grouped(families: map<FamilyId, seq<Record>>, order: seq<FamilyId>, seen: seq<Record>) {
    && Distinct(order) && (forall f :: f in order <==> f in families)
    && (forall f :: f in families ==> families[f] != [])
    && (forall f, r :: f in families ==> (r in families[f] <==> r in seen && r.familyId == f))
    && (forall r :: r in seen ==> r.familyId in families)
  }

  lemma AddRecord(families: map<FamilyId, seq<Record>>, order: seq<FamilyId>, seen: seq<Record>, record: Record)
    requires Grouped(families, order, seen)
    ensures var f := record.familyId;
            if f in families then Grouped(families[f := families[f] + [record]], order, seen + [record])
            else Grouped(families[f := [record]], order + [f], seen + [record])
  {
    if record.familyId !in families {
      DistinctAppend(order, record.familyId);
    }
  }

  lemma NoneUsable(records: seq<Record>, userId: UserId, now: Time, family: seq<Record>, f: FamilyId)
    requires forall r :: r in family <==> r in records && Member(r, userId, f)
    requires Active(family, now) == []
    ensures !HasUsable(records, userId, f, now)
  {
    forall r | r in records && Member(r, userId, f) ensures !Usable(r, now) {
      assert r in family && r !in Active(family, now);
    }
  }

  /**
    Exactly one entry for every family of the user that has a live unexpired token; each entry gives
    the family's first creation and last use, and the expiry and device of its only live token.
   */
  method ListActiveSessions(records: seq<Record>, userId: UserId, now: Time, listed: seq<Record>)
    returns (sessions: seq<DeviceSession>)
    requires Chains(records) && IsListing(records, userId, listed)
    ensures NewestFirst(sessions)
    ensures forall s :: s in sessions ==> Describes(records, userId, now, s)
    ensures DifferentFamilies(sessions)
    ensures forall f :: HasUsable(records, userId, f, now) <==> exists s :: s in sessions && s.id == f
  {
    var families: map<FamilyId, seq<Record>> := map[];
    var order: seq<FamilyId> := [];
    for i := 0 to |listed|
      invariant Grouped(families, order, listed[..i])
    {
      var record := listed[i];
      assert listed[..i + 1] == listed[..i] + [record];
      AddRecord(families, order, listed[..i], record);
      if record.familyId !in families {
        order := order + [record.familyId];
        families := families[record.familyId := []];
      }
      families := families[record.familyId := families[record.familyId] + [record]];
    }
    assert listed[..|listed|] == listed;

    sessions := [];
    for i := 0 to |order|
      invariant Listed(records, userId, now, sessions, order[..i])
    {
      var f := order[i];
      assert f !in order[..i] && f in order;
      assert order[..i + 1] == order[..i] + [f];
      var family := families[f];
      var active := Active(family, now);
      if active != [] {
        Described(records, userId, now, family, f);
        var session := DeviceSession(f, LatestUse(active).device, Earliest(family), LatestUse(family).lastUsedAt,
                                     LatestExpiry(active));
        AddFamily(records, userId, now, sessions, order[..i], session);
        sessions := Insert(sessions, session);
      } else {
        NoneUsable(records, userId, now, family, f);
      }
    }
    assert order[..|order|] == order;
    forall f | HasUsable(records, userId, f, now) ensures f in order {
      var r :| r in records && Member(r, userId, f) && Usable(r, now);
      assert r in listed;
    }
  }
}
