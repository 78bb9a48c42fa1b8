/**
 * GET /api/achievements: every achievement joined with the user's earned
 * record, plus the points and level derived from the number of records;
 * and the achievements panel that splits the list into earned and available
 * achievements and draws the progress bar towards the next level.
 */
module AchievementsRoute {
  import opened JsBase

  datatype Achievement = Achievement(id: string, title: string, description: string, icon: Option<string>)

  /** A user's earned-achievement record; `earnedAt` is a timestamp. */
  datatype UserAchievement = UserAchievement(achievementId: string, earnedAt: string)

  datatype AchievementWithStatus = AchievementWithStatus(achievement: Achievement, earnedAt: Option<string>)

  /** `userAchievements.find(ua => ua.achievementId === id)`, as the index of the first match. */
  function FindRecord(uas: seq<UserAchievement>, id: string): (r: Option<nat>)
    ensures r.Some? ==> r.value < |uas| && uas[r.value].achievementId == id
    ensures r.Some? ==> forall j :: 0 <= j < r.value ==> uas[j].achievementId != id
    ensures r.None? ==> forall j :: 0 <= j < |uas| ==> uas[j].achievementId != id
  {
    if uas == [] then None
    else if uas[0].achievementId == id then Some(0)
    else match FindRecord(uas[1..], id)
      case None => None
      case Some(k) => Some(k + 1)
  }

  /** `userAchievement?.earnedAt`: the timestamp of the first record naming `id`. */
  function EarnedAt(uas: seq<UserAchievement>, id: string): (r: Option<string>)
    ensures r.Some? <==> exists k :: 0 <= k < |uas| && uas[k].achievementId == id
    ensures r.Some? ==> FindRecord(uas, id).Some? && r.value == uas[FindRecord(uas, id).value].earnedAt
  {
    match FindRecord(uas, id)
    case Some(k) => Some(uas[k].earnedAt)
    case None => None
  }

  /** `allAchievements.map(a => ({ ...a, earnedAt: ... }))` */
  function WithStatus(all: seq<Achievement>, uas: seq<UserAchievement>): (r: seq<AchievementWithStatus>)
    ensures |r| == |all|
    ensures forall i :: 0 <= i < |all| ==> r[i].achievement == all[i]
    ensures forall i :: 0 <= i < |all| ==>
      (r[i].earnedAt.Some? <==> exists k :: 0 <= k < |uas| && uas[k].achievementId == all[i].id)
    ensures forall i :: 0 <= i < |all| ==> r[i].earnedAt == EarnedAt(uas, all[i].id)
  {
    if all == [] then []
    else [AchievementWithStatus(all[0], EarnedAt(uas, all[0].id))] + WithStatus(all[1..], uas)
  }

  /** 50 points per earned record. */
  function TotalPoints(earnedCount: nat): nat
  {
    earnedCount * 50
  }

  /** `Math.floor(totalPoints / 100) + 1` */
  function Level(totalPoints: nat): nat
  {
    totalPoints / 100 + 1
  }

  /** The level is at least 1, rises by one for every two earned achievements,
      and never falls as more are earned. */
  lemma LevelFacts(n: nat, m: nat)
    ensures Level(TotalPoints(n)) >= 1
    ensures Level(TotalPoints(n)) == n / 2 + 1
    ensures Level(TotalPoints(n + 2)) == Level(TotalPoints(n)) + 1
    ensures n <= m ==> Level(TotalPoints(n)) <= Level(TotalPoints(m))
  {
    assert TotalPoints(n) / 100 == n / 2;
    assert TotalPoints(m) / 100 == m / 2;
    assert TotalPoints(n + 2) / 100 == (n + 2) / 2;
  }
}

module AchievementsPanel {
  import opened JsBase
  import opened AchievementsRoute

  /** `achievements.filter(a => a.earnedAt)` */
  function Earned(xs: seq<AchievementWithStatus>): seq<AchievementWithStatus>
  {
    Filter(xs, (a: AchievementWithStatus) => a.earnedAt.Some?)
  }

  /** `achievements.filter(a => !a.earnedAt)` */
  function Available(xs: seq<AchievementWithStatus>): seq<AchievementWithStatus>
  {
    Filter(xs, (a: AchievementWithStatus) => !a.earnedAt.Some?)
  }

  /** Earned and available achievements split the list: each element lands in
      exactly one of the two, and each part keeps the list order. */
  lemma EarnedAvailablePartition(xs: seq<AchievementWithStatus>)
    ensures |Earned(xs)| + |Available(xs)| == |xs|
    ensures multiset(Earned(xs)) + multiset(Available(xs)) == multiset(xs)
    ensures forall a :: a in Earned(xs) <==> a in xs && a.earnedAt.Some?
    ensures forall a :: a in Available(xs) <==> a in xs && a.earnedAt.None?
  {
    FilterPartition(xs, (a: AchievementWithStatus) => a.earnedAt.Some?, (a: AchievementWithStatus) => !a.earnedAt.Some?);
  }

  /** The panel's props with their defaults: points 0 and level 1 when not given. */
  function PanelStats(totalPoints: Option<int>, level: Option<int>): (int, int)
  {
    (GetOr(totalPoints, 0), GetOr(level, 1))
  }

  /** The points needed for the next level, as the panel shows it: `level * 100`. */
  function NextLevelTarget(level: int): int
  {
    level * 100
  }

  /** `Math.min((totalPoints / (level * 100)) * 100, 100)`, the bar width in percent. */
  function ProgressWidth(totalPoints: int, level: int): (w: real)
    requires level >= 1
  {
    var ratio := (totalPoints as real / (level * 100) as real) * 100.0;
    if ratio < 100.0 then ratio else 100.0
  }

  /** The bar never overflows, is empty only without points, and is full exactly
      when the points reach the next-level target. */
  lemma ProgressWidthBounds(totalPoints: int, level: int)
    requires level >= 1
    ensures ProgressWidth(totalPoints, level) <= 100.0
    ensures totalPoints >= 0 ==> ProgressWidth(totalPoints, level) >= 0.0
    ensures ProgressWidth(totalPoints, level) == 100.0 <==> totalPoints >= NextLevelTarget(level)
    ensures ProgressWidth(totalPoints, level) == 0.0 <==> totalPoints == 0
  {
    var t := (level * 100) as real;
    assert t == NextLevelTarget(level) as real;
    RatioPercent(totalPoints as real, t);
  }

  lemma RatioPercent(p: real, t: real)
    requires t > 0.0
    ensures (p / t) * 100.0 < 100.0 <==> p < t
    ensures (p / t) * 100.0 == 0.0 <==> p == 0.0
    ensures p >= 0.0 ==> (p / t) * 100.0 >= 0.0
  {
    if p < t {
      assert p / t < 1.0;
    } else {
      assert p / t >= 1.0;
    }
  }

  /** With the panel fed by the achievements endpoint, the level is the
      integer part of the earned-count ratio, so the bar is never full while
      the level still matches the points: 50 * n < (n / 2 + 1) * 100. */
  lemma ProgressNeverFullFromEndpoint(n: nat)
    ensures ProgressWidth(TotalPoints(n), Level(TotalPoints(n))) < 100.0
  {
    LevelFacts(n, n);
    ProgressWidthBounds(TotalPoints(n), Level(TotalPoints(n)));
  }

  /** The ids of a sequence of achievements. */
  function Ids(xs: seq<Achievement>): set<string>
  {
    set a | a in xs :: a.id
  }

  /** The achievement ids the earned records name. */
  function RecordIds(uas: seq<UserAchievement>): set<string>
  {
    set u | u in uas :: u.achievementId
  }

  predicate DistinctIds(xs: seq<Achievement>)
  {
    forall i, j :: 0 <= i < j < |xs| ==> xs[i].id != xs[j].id
  }

  predicate DistinctRecords(uas: seq<UserAchievement>)
  {
    forall i, j :: 0 <= i < j < |uas| ==> uas[i].achievementId != uas[j].achievementId
  }

  lemma IdsCons(all: seq<Achievement>)
    requires all != [] && DistinctIds(all)
    ensures DistinctIds(all[1..])
    ensures Ids(all) == {all[0].id} + Ids(all[1..])
    ensures all[0].id !in Ids(all[1..])
  {
    var rest := all[1..];
    forall i, j | 0 <= i < j < |rest| ensures rest[i].id != rest[j].id {
      assert rest[i] == all[i + 1] && rest[j] == all[j + 1];
    }
    assert forall x :: x in all <==> x == all[0] || x in rest;
    forall x | x in rest ensures x.id != all[0].id {
      var j :| 0 <= j < |rest| && rest[j] == x;
      assert all[j + 1] == x;
    }
  }

  lemma EarnedAtIffNamed(uas: seq<UserAchievement>, id: string)
    ensures EarnedAt(uas, id).Some? <==> id in RecordIds(uas)
  {
    if EarnedAt(uas, id).Some? {
      var k :| 0 <= k < |uas| && uas[k].achievementId == id;
      assert uas[k] in uas;
    }
  }

  lemma IntersectCons(r: set<string>, rest: set<string>, x: string)
    requires x !in rest
    ensures |r * ({x} + rest)| == (if x in r then 1 else 0) + |r * rest|
  {
    if x in r {
      assert r * ({x} + rest) == (r * rest) + {x};
    } else {
      assert r * ({x} + rest) == r * rest;
    }
  }

  lemma EarnedCons(all: seq<Achievement>, uas: seq<UserAchievement>)
    requires all != []
    ensures |Earned(WithStatus(all, uas))| ==
      (if EarnedAt(uas, all[0].id).Some? then 1 else 0) + |Earned(WithStatus(all[1..], uas))|
  {
    var ws := WithStatus(all, uas);
    assert ws == [ws[0]] + WithStatus(all[1..], uas);
    FilterAppend([ws[0]], WithStatus(all[1..], uas), (x: AchievementWithStatus) => x.earnedAt.Some?);
  }

  /** With distinct achievement ids, the earned count is the number of
      achievement ids that some record names. */
  lemma {:induction false} EarnedCountIsNamedIds(all: seq<Achievement>, uas: seq<UserAchievement>)
    requires DistinctIds(all)
    ensures |Earned(WithStatus(all, uas))| == |RecordIds(uas) * Ids(all)|
  {
    if all == [] {
      assert Ids(all) == {};
    } else {
      IdsCons(all);
      EarnedCountIsNamedIds(all[1..], uas);
      EarnedCons(all, uas);
      EarnedAtIffNamed(uas, all[0].id);
      IntersectCons(RecordIds(uas), Ids(all[1..]), all[0].id);
    }
  }

  lemma {:induction false} RecordIdsCount(uas: seq<UserAchievement>)
    requires DistinctRecords(uas)
    ensures |RecordIds(uas)| == |uas|
  {
    if uas != [] {
      RecordsCons(uas);
      RecordIdsCount(uas[1..]);
    }
  }

  /** The first record's id is new to the rest, whose records stay distinct. */
  lemma RecordsCons(uas: seq<UserAchievement>)
    requires uas != [] && DistinctRecords(uas)
    ensures DistinctRecords(uas[1..])
    ensures RecordIds(uas) == RecordIds(uas[1..]) + {uas[0].achievementId}
    ensures uas[0].achievementId !in RecordIds(uas[1..])
  {
    var rest := uas[1..];
    forall i, j | 0 <= i < j < |rest| ensures rest[i].achievementId != rest[j].achievementId {
      assert rest[i] == uas[i + 1] && rest[j] == uas[j + 1];
    }
    assert forall x :: x in uas <==> x == uas[0] || x in rest;
    forall x | x in rest ensures x.achievementId != uas[0].achievementId {
      var j :| 0 <= j < |rest| && rest[j] == x;
      assert uas[j + 1] == x;
    }
  }

  /** The achievements tile counts the achievements that have an earned record.
      When each record names a distinct existing achievement, it equals the number
      of records, so the points shown are 50 times the tile. */
  lemma EarnedCountMatchesPoints(all: seq<Achievement>, uas: seq<UserAchievement>)
    requires DistinctIds(all) && DistinctRecords(uas)
    requires RecordIds(uas) <= Ids(all)
    ensures |Earned(WithStatus(all, uas))| == |uas|
    ensures TotalPoints(|uas|) == 50 * |Earned(WithStatus(all, uas))|
  {
    EarnedCountIsNamedIds(all, uas);
    assert RecordIds(uas) * Ids(all) == RecordIds(uas);
    RecordIdsCount(uas);
  }
}
