/**
 * Attendance arithmetic of the meeting controller: the per-participant analytics of one
 * meeting, and a user's engagement summary over every meeting they belong to.
 */
module Attendance {
  import opened Common
  import opened MeetingControl
  import Durations

  // ---------------------------------------------------------------------------
  // Per-participant analytics of one meeting

  /** One element of the `participantData` answer. The name and email, which need the
      populated user document, are not part of this model. */
  datatype AnalyticsRow = AnalyticsRow(
    userId: Option<UserId>,
    joinedAt: Option<Time>,
    leftAt: Option<Time>,
    duration: int,
    isMuted: bool,
    isVideoOn: bool,
    role: Role)

  /** Seconds in the meeting: 0 before joining, up to `leftAt` after leaving, up to `now` while present. */
  function PresenceSeconds(p: Member, now: Time): (d: int)
    ensures p.joinedAt.None? ==> d == 0
    ensures p.joinedAt.Some? && p.leftAt.Some? ==>
      d * 1000 <= p.leftAt.value - p.joinedAt.value < d * 1000 + 1000
    ensures p.joinedAt.Some? && p.leftAt.None? ==>
      d * 1000 <= now - p.joinedAt.value < d * 1000 + 1000
  {
    if p.joinedAt.None? then 0
    else if p.leftAt.Some? then Durations.ElapsedSeconds(p.joinedAt.value, p.leftAt.value)
    else Durations.ElapsedSeconds(p.joinedAt.value, now)
  }

  function AnalyticsOf(p: Member, now: Time): AnalyticsRow
  {
    AnalyticsRow(
      p.user, p.joinedAt, p.leftAt, PresenceSeconds(p, now),
      if p.isMuted.Some? then p.isMuted.value else false,
      if p.isVideoOn.Some? then p.isVideoOn.value else true,
      if p.role.Some? then p.role.value else Participant)
  }

  /** `getParticipantAnalytics`: one row per participant entry, in list order, with the
      defaults not muted, video on and role 'participant' for absent fields. */
  function ParticipantAnalytics(found: Option<Meeting>, now: Time): (r: Result<seq<AnalyticsRow>, Error>)
    ensures found.None? <==> r == Failure(MeetingNotFound)
    ensures found.Some? ==> r.Success? && |r.value| == |found.value.participants|
    ensures found.Some? ==> forall j :: 0 <= j < |r.value| ==>
      var p, row := found.value.participants[j], r.value[j];
      && row.userId == p.user && row.joinedAt == p.joinedAt && row.leftAt == p.leftAt
      && row.duration == PresenceSeconds(p, now)
      && ((p.joinedAt.Some? && (p.leftAt.None? ==> p.joinedAt.value <= now)
          && (p.leftAt.Some? ==> p.joinedAt.value <= p.leftAt.value)) ==> row.duration >= 0)
      && (row.isMuted <==> p.isMuted == Some(true))
      && (!row.isVideoOn <==> p.isVideoOn == Some(false))
      && (p.role.None? ==> row.role == Participant)
      && (p.role.Some? ==> row.role == p.role.value)
  {
    match found
    case None => Failure(MeetingNotFound)
    case Some(m) => Success(seq(|m.participants|, j requires 0 <= j < |m.participants| => AnalyticsOf(m.participants[j], now)))
  }

  // ---------------------------------------------------------------------------
  // Engagement summary of one user

  /** Index into the weekly pattern: 0 = monday, ..., 6 = sunday, the key order of `weeklyPattern`. */
  type Day = d: int | 0 <= d < 7

  /** An hour of the day, as `getHours` returns it. */
  type Hour = h: int | 0 <= h < 24

  /** One counted participation: the seconds it contributes and the moment it started. */
  datatype Visit = Visit(seconds: int, joinedAt: Time)

  /** The query `{'participants.user': userId}`: the meetings with an entry for the user, in store order. */
  function MeetingsOf(store: seq<Meeting>, u: UserId): (r: seq<Meeting>)
    ensures |r| <= |store|
    ensures forall m :: m in r <==> m in store && FirstEntryOf(m.participants, u).Some?
    decreases |store|
  {
    if |store| == 0 then []
    else
      var rest := MeetingsOf(store[..|store| - 1], u);
      var m := store[|store| - 1];
      assert store == store[..|store| - 1] + [m];
      assert forall x :: x in store <==> x in store[..|store| - 1] || x == m;
      if FirstEntryOf(m.participants, u).Some? then rest + [m] else rest
  }

  /** The query keeps multiplicity: a meeting with an entry for the user is listed as often as it
      is stored, so `totalMeetings` counts the matching stored meetings; any other meeting is not listed. */
  lemma {:induction false} MeetingsOfCounts(store: seq<Meeting>, u: UserId)
    ensures forall m ::
              multiset(MeetingsOf(store, u))[m] == if FirstEntryOf(m.participants, u).Some? then multiset(store)[m] else 0
    decreases |store|
  {
    if |store| > 0 {
      var init, m := store[..|store| - 1], store[|store| - 1];
      MeetingsOfCounts(init, u);
      assert store == init + [m];
    }
  }

  /** The position of the user's first entry in a participant list. */
  function FirstEntryOf(ps: seq<Member>, u: UserId): (r: Option<nat>)
    ensures r.None? <==> forall j :: 0 <= j < |ps| ==> ps[j].user != Some(u)
    ensures r.Some? ==> (r.value < |ps| && ps[r.value].user == Some(u)
      && forall j :: 0 <= j < r.value ==> ps[j].user != Some(u))
  {
    if |ps| == 0 then None
    else if ps[0].user == Some(u) then Some(0)
    else match FirstEntryOf(ps[1..], u)
      case None => None
      case Some(k) => Some(k + 1)
  }

  /** What one meeting contributes to the user's summary, if it is counted: a participation with a
      join time counts with its measured length once left, with the scheduled length once the
      meeting is completed, and is skipped while it is still going on. */
  function VisitOf(m: Meeting, u: UserId): (v: Option<Visit>)
    ensures FirstEntryOf(m.participants, u).None? ==> v.None?
  {
    match FirstEntryOf(m.participants, u)
    case None => None
    case Some(i) =>
      var p := m.participants[i];
      if p.joinedAt.None? then None
      else if p.leftAt.Some? then Some(Visit(Durations.ElapsedSeconds(p.joinedAt.value, p.leftAt.value), p.joinedAt.value))
      else if m.status == Completed then Some(Visit(Durations.ScheduledSeconds(m.duration), p.joinedAt.value))
      else None
  }

  /** The contribution rule: a participation counts exactly when it has a join time and either a
      leave time or a completed meeting; it then starts at the join time and lasts the floored
      seconds to the leave time, or else the scheduled minutes. */
  lemma VisitRule(m: Meeting, u: UserId)
    ensures FirstEntryOf(m.participants, u).Some? ==>
      var p, v := m.participants[FirstEntryOf(m.participants, u).value], VisitOf(m, u);
      && (v.Some? <==> p.joinedAt.Some? && (p.leftAt.Some? || m.status == Completed))
      && (v.Some? ==> v.value.joinedAt == p.joinedAt.value)
      && (v.Some? && p.leftAt.Some? ==>
            v.value.seconds * 1000 <= p.leftAt.value - p.joinedAt.value < v.value.seconds * 1000 + 1000)
      && (v.Some? && p.leftAt.None? ==> v.value.seconds == m.duration * 60)
  {
  }

  /** The counted participations of a sequence of meetings, in order. */
  function Visits(ms: seq<Meeting>, u: UserId): (vs: seq<Visit>)
    ensures |vs| <= |ms|
    decreases |ms|
  {
    if |ms| == 0 then []
    else
      var rest := Visits(ms[..|ms| - 1], u);
      match VisitOf(ms[|ms| - 1], u)
      case None => rest
      case Some(v) => rest + [v]
  }

  function TotalSeconds(vs: seq<Visit>): int
    decreases |vs|
  {
    if |vs| == 0 then 0 else TotalSeconds(vs[..|vs| - 1]) + vs[|vs| - 1].seconds
  }

  /** How many visits started on day `d`. */
  function DayCount(vs: seq<Visit>, dayOf: Time -> Day, d: Day): nat
    decreases |vs|
  {
    if |vs| == 0 then 0
    else DayCount(vs[..|vs| - 1], dayOf, d) + (if dayOf(vs[|vs| - 1].joinedAt) == d then 1 else 0)
  }

  /** How many visits started in hour `h`. */
  function HourCount(vs: seq<Visit>, hourOf: Time -> Hour, h: Hour): nat
    decreases |vs|
  {
    if |vs| == 0 then 0
    else HourCount(vs[..|vs| - 1], hourOf, h) + (if hourOf(vs[|vs| - 1].joinedAt) == h then 1 else 0)
  }

  function Sum(xs: seq<nat>): nat
    decreases |xs|
  {
    if |xs| == 0 then 0 else Sum(xs[..|xs| - 1]) + xs[|xs| - 1]
  }

  // ---------------------------------------------------------------------------
  // Peak hours

  /** `a` sorts before `b`: more joins, or as many and an earlier hour. `getUserEngagementStats`
      sorts the hour entries, which come in ascending hour order, with a stable descending-count
      sort. */
  predicate Ahead(counts: seq<nat>, a: Hour, b: Hour)
    requires |counts| == 24
  {
    counts[a] > counts[b] || (counts[a] == counts[b] && a < b)
  }

  /** `r` is the first `k` entries of that sort over the hours that occur at all. */
  predicate IsPeakHours(counts: seq<nat>, r: seq<Hour>, k: nat)
    requires |counts| == 24
  {
    && |r| <= k
    && (forall i :: 0 <= i < |r| ==> counts[r[i]] > 0)
    && (forall i, j :: 0 <= i < j < |r| ==> Ahead(counts, r[i], r[j]))
    && (forall h :: 0 <= h < 24 && counts[h] > 0 && h !in r ==>
          |r| == k && forall i :: 0 <= i < |r| ==> Ahead(counts, r[i], h))
  }

  /** One round of the selection: the first hour, in ascending order, with the largest positive
      count among those not yet chosen, or -1 when every positive hour is chosen. */
  method BestRemaining(counts: seq<nat>, chosen: seq<Hour>) returns (best: int)
    requires |counts| == 24
    ensures best == -1 ==> forall g :: 0 <= g < 24 && counts[g] > 0 ==> g in chosen
    ensures best != -1 ==> 0 <= best < 24 && counts[best] > 0 && best !in chosen
    ensures best != -1 ==> forall g :: 0 <= g < 24 && counts[g] > 0 && g !in chosen && g != best ==>
              Ahead(counts, best, g)
  {
    best := -1;
    var h := 0;
    while h < 24
      invariant 0 <= h <= 24
      invariant best == -1 || (0 <= best < h && counts[best] > 0 && best !in chosen)
      invariant best == -1 ==> forall g :: 0 <= g < h && counts[g] > 0 ==> g in chosen
      invariant best != -1 ==> forall g :: 0 <= g < h && counts[g] > 0 && g !in chosen && g != best ==>
                  Ahead(counts, best, g)
    {
      if counts[h] > 0 && h !in chosen && (best == -1 || counts[h] > counts[best]) {
        best := h;
      }
      h := h + 1;
    }
  }

  /** Selects the peak hours one at a time, each round taking the best hour not yet chosen. */
  method PeakHours(counts: seq<nat>, k: nat) returns (r: seq<Hour>)
    requires |counts| == 24
    ensures IsPeakHours(counts, r, k)
  {
    r := [];
    var done := false;
    while |r| < k && !done
      invariant |r| <= k
      invariant forall i :: 0 <= i < |r| ==> counts[r[i]] > 0
      invariant forall i, j :: 0 <= i < j < |r| ==> Ahead(counts, r[i], r[j])
      invariant forall h :: 0 <= h < 24 && counts[h] > 0 && h !in r ==>
                  forall i :: 0 <= i < |r| ==> Ahead(counts, r[i], h)
      invariant done ==> forall h :: 0 <= h < 24 && counts[h] > 0 ==> h in r
      decreases k - |r| + (if done then 0 else 1)
    {
      var best := BestRemaining(counts, r);
      if best == -1 {
        done := true;
      } else {
        r := r + [best];
      }
    }
  }

  /** Two selections that both satisfy `IsPeakHours` are the same list: the predicate pins the
      answer down completely, so it says everything the stable sort and the slice decide. */
  lemma PeakHoursUnique(counts: seq<nat>, r1: seq<Hour>, r2: seq<Hour>, k: nat)
    requires |counts| == 24
    requires IsPeakHours(counts, r1, k) && IsPeakHours(counts, r2, k)
    ensures r1 == r2
  {
    if |r1| <= |r2| {
      PeakHoursCommonPrefix(counts, r1, r2, k, |r1|);
      assert r1 == r2[..|r1|];
      ProperPrefixMisses(counts, r2, k, |r1|);
    } else {
      PeakHoursCommonPrefix(counts, r1, r2, k, |r2|);
      assert r2 == r1[..|r2|];
      ProperPrefixMisses(counts, r1, k, |r2|);
    }
  }

  /** Two valid selections agree on their first `i` hours, for any `i` both reach. */
  lemma {:induction false} PeakHoursCommonPrefix(counts: seq<nat>, r1: seq<Hour>, r2: seq<Hour>, k: nat, i: nat)
    requires |counts| == 24
    requires IsPeakHours(counts, r1, k) && IsPeakHours(counts, r2, k)
    requires i <= |r1| && i <= |r2|
    ensures r1[..i] == r2[..i]
    decreases i
  {
    if i > 0 {
      PeakHoursCommonPrefix(counts, r1, r2, k, i - 1);
      PeakHoursAgreeAt(counts, r1, r2, k, i - 1);
      assert r1[..i] == r1[..i - 1] + [r1[i - 1]];
      assert r2[..i] == r2[..i - 1] + [r2[i - 1]];
    }
  }

  /** The hour at position `i` of a valid selection beats every positive hour not chosen before it. */
  lemma PositionIsBest(counts: seq<nat>, r: seq<Hour>, k: nat, i: nat)
    requires |counts| == 24
    requires IsPeakHours(counts, r, k) && i < |r|
    ensures forall h :: 0 <= h < 24 && counts[h] > 0 && h !in r[..i] && h != r[i] ==> Ahead(counts, r[i], h)
  {
    forall h | 0 <= h < 24 && counts[h] > 0 && h !in r[..i] && h != r[i]
      ensures Ahead(counts, r[i], h)
    {
      if h in r {
        var j :| 0 <= j < |r| && r[j] == h;
        assert forall t :: 0 <= t < i ==> r[..i][t] == r[t];
      }
    }
  }

  lemma PeakHoursAgreeAt(counts: seq<nat>, r1: seq<Hour>, r2: seq<Hour>, k: nat, i: nat)
    requires |counts| == 24
    requires IsPeakHours(counts, r1, k) && IsPeakHours(counts, r2, k)
    requires i < |r1| && i < |r2| && r1[..i] == r2[..i]
    ensures r1[i] == r2[i]
  {
    PositionIsBest(counts, r1, k, i);
    PositionIsBest(counts, r2, k, i);
    assert r2[i] !in r1[..i] by {
      forall j | 0 <= j < i ensures r2[..i][j] != r2[i] {
        assert Ahead(counts, r2[j], r2[i]);
      }
    }
    assert r1[i] !in r2[..i] by {
      forall j | 0 <= j < i ensures r1[..i][j] != r1[i] {
        assert Ahead(counts, r1[j], r1[i]);
      }
    }
  }

  /** Cutting a valid selection before position `n` leaves out a positive hour while using fewer than `k` slots. */
  lemma ProperPrefixMisses(counts: seq<nat>, r: seq<Hour>, k: nat, n: nat)
    requires |counts| == 24
    requires IsPeakHours(counts, r, k) && n <= |r|
    ensures n < |r| ==> counts[r[n]] > 0 && r[n] !in r[..n] && n < k
  {
    if n < |r| {
      forall t | 0 <= t < n ensures r[..n][t] != r[n] {
        assert Ahead(counts, r[t], r[n]);
      }
    }
  }

  // ---------------------------------------------------------------------------
  // The summary

  datatype Stats = Stats(
    totalMeetings: nat,
    totalTime: int,
    avgMeetingTime: int,
    weeklyPattern: seq<nat>,
    peakHours: seq<Hour>,
    formattedTotalTime: string,
    formattedAvgMeetingTime: string)

  /** The hour histogram of a list of visits. */
  function HourCounts(vs: seq<Visit>, hourOf: Time -> Hour): (c: seq<nat>)
    ensures |c| == 24
  {
    seq(24, h requires 0 <= h < 24 => HourCount(vs, hourOf, h))
  }

  /** Visits of a longer prefix: the previous ones, then this meeting's, if it is counted. */
  lemma VisitsStep(ms: seq<Meeting>, i: nat, u: UserId)
    requires i < |ms|
    ensures VisitOf(ms[i], u).None? ==> Visits(ms[..i + 1], u) == Visits(ms[..i], u)
    ensures VisitOf(ms[i], u).Some? ==> Visits(ms[..i + 1], u) == Visits(ms[..i], u) + [VisitOf(ms[i], u).value]
  {
    assert ms[..i + 1][..i] == ms[..i];
  }

  /** Appending one visit adds its seconds, one to its weekday and one to its hour. */
  lemma CountsSnoc(vs: seq<Visit>, v: Visit, dayOf: Time -> Day, hourOf: Time -> Hour)
    ensures TotalSeconds(vs + [v]) == TotalSeconds(vs) + v.seconds
    ensures forall d :: 0 <= d < 7 ==>
      DayCount(vs + [v], dayOf, d) == DayCount(vs, dayOf, d) + (if dayOf(v.joinedAt) == d then 1 else 0)
    ensures forall h :: 0 <= h < 24 ==>
      HourCount(vs + [v], hourOf, h) == HourCount(vs, hourOf, h) + (if hourOf(v.joinedAt) == h then 1 else 0)
  {
    assert (vs + [v])[..|vs|] == vs;
  }

  /** The seven weekday buckets of a list of visits. */
  function WeekCounts(vs: seq<Visit>, dayOf: Time -> Day): (w: seq<nat>)
    ensures |w| == 7
  {
    seq(7, d requires 0 <= d < 7 => DayCount(vs, dayOf, d))
  }

  lemma {:induction false} SumIncrement(xs: seq<nat>, k: nat)
    requires k < |xs|
    ensures Sum(xs[k := xs[k] + 1]) == Sum(xs) + 1
    decreases |xs|
  {
    var ys := xs[k := xs[k] + 1];
    if k < |xs| - 1 {
      assert ys[..|ys| - 1] == xs[..|xs| - 1][k := xs[k] + 1];
      SumIncrement(xs[..|xs| - 1], k);
    } else {
      assert ys[..|ys| - 1] == xs[..|xs| - 1];
    }
  }

  lemma {:induction false} SumAllZero(xs: seq<nat>)
    requires forall i :: 0 <= i < |xs| ==> xs[i] == 0
    ensures Sum(xs) == 0
    decreases |xs|
  {
    if |xs| > 0 {
      SumAllZero(xs[..|xs| - 1]);
    }
  }

  /** Every counted participation lands in exactly one weekday bucket. */
  lemma {:induction false} WeekCountsSum(vs: seq<Visit>, dayOf: Time -> Day)
    ensures Sum(WeekCounts(vs, dayOf)) == |vs|
    decreases |vs|
  {
    if |vs| == 0 {
      SumAllZero(WeekCounts(vs, dayOf));
    } else {
      var init, v := vs[..|vs| - 1], vs[|vs| - 1];
      assert vs == init + [v];
      CountsSnoc(init, v, dayOf, x => 0);
      WeekCountsSum(init, dayOf);
      var d := dayOf(v.joinedAt);
      assert WeekCounts(vs, dayOf) == WeekCounts(init, dayOf)[d := WeekCounts(init, dayOf)[d] + 1];
      SumIncrement(WeekCounts(init, dayOf), d);
    }
  }

  /** The loop of `getUserEngagementStats` over the user's meetings: counts every meeting, and
      adds the time, weekday and hour of every counted participation. */
  method Tally(ms: seq<Meeting>, u: UserId, dayOf: Time -> Day, hourOf: Time -> Hour)
    returns (totalMeetings: nat, totalTime: int, weekly: seq<nat>, hours: seq<nat>)
    ensures totalMeetings == |ms|
    ensures totalTime == TotalSeconds(Visits(ms, u))
    ensures |weekly| == 7 && forall d :: 0 <= d < 7 ==> weekly[d] == DayCount(Visits(ms, u), dayOf, d)
    ensures |hours| == 24 && forall h :: 0 <= h < 24 ==> hours[h] == HourCount(Visits(ms, u), hourOf, h)
  {
    totalMeetings := 0;
    totalTime := 0;
    weekly := [0, 0, 0, 0, 0, 0, 0];
    hours := seq(24, h => 0);
    ghost var vs: seq<Visit> := [];
    var i := 0;
    while i < |ms|
      invariant 0 <= i <= |ms|
      invariant vs == Visits(ms[..i], u)
      invariant totalMeetings == i
      invariant totalTime == TotalSeconds(vs)
      invariant |weekly| == 7 && forall d :: 0 <= d < 7 ==> weekly[d] == DayCount(vs, dayOf, d)
      invariant |hours| == 24 && forall h :: 0 <= h < 24 ==> hours[h] == HourCount(vs, hourOf, h)
    {
      VisitsStep(ms, i, u);
      totalMeetings := totalMeetings + 1;
      match VisitOf(ms[i], u) {
        case None =>
        case Some(v) =>
          CountsSnoc(vs, v, dayOf, hourOf);
          totalTime := totalTime + v.seconds;
          var d := dayOf(v.joinedAt);
          weekly := weekly[d := weekly[d] + 1];
          var h := hourOf(v.joinedAt);
          hours := hours[h := hours[h] + 1];
          vs := vs + [v];
      }
      i := i + 1;
    }
    assert ms[..i] == ms;
  }

  /** `getUserEngagementStats`: every meeting of the user counts towards `totalMeetings`, but only
      counted participations add time, a weekday and an hour. `dayOf` and `hourOf` stand for the
      host-locale `toLocaleDateString(weekday)` and `getHours` of the join time. */
  method EngagementStats(store: seq<Meeting>, u: UserId, dayOf: Time -> Day, hourOf: Time -> Hour)
    returns (stats: Stats)
    ensures var ms := MeetingsOf(store, u); var vs := Visits(ms, u);
      && stats.totalMeetings == |ms|
      && stats.totalTime == TotalSeconds(vs)
      && (stats.totalMeetings == 0 ==> stats.avgMeetingTime == 0)
      && (stats.totalMeetings > 0 ==>
            stats.avgMeetingTime * stats.totalMeetings <= stats.totalTime
              < stats.avgMeetingTime * stats.totalMeetings + stats.totalMeetings)
      && |stats.weeklyPattern| == 7
      && (forall d :: 0 <= d < 7 ==> stats.weeklyPattern[d] == DayCount(vs, dayOf, d))
      && Sum(stats.weeklyPattern) == |vs| <= stats.totalMeetings
      && IsPeakHours(HourCounts(vs, hourOf), stats.peakHours, 3)
      && stats.formattedTotalTime == Durations.FormatDuration(stats.totalTime)
      && stats.formattedAvgMeetingTime == Durations.FormatDuration(stats.avgMeetingTime)
  {
    var ms := MeetingsOf(store, u);
    var totalMeetings, totalTime, weekly, hours := Tally(ms, u, dayOf, hourOf);
    ghost var vs := Visits(ms, u);
    assert hours == HourCounts(vs, hourOf) by {
      forall h | 0 <= h < 24 ensures hours[h] == HourCounts(vs, hourOf)[h] { }
    }
    assert weekly == WeekCounts(vs, dayOf);
    WeekCountsSum(vs, dayOf);
    var avg := if totalMeetings > 0 then FloorDiv(totalTime, totalMeetings) else 0;
    var peak := PeakHours(hours, 3);
    stats := Stats(totalMeetings, totalTime, avg, weekly, peak,
                   Durations.FormatDuration(totalTime), Durations.FormatDuration(avg));
  }
}
