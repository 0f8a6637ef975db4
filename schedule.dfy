/** The greedy schedule generator: every unordered pair of teams, shuffled,
    is placed in the first week where neither team plays yet, provided the
    two have not met and neither has reached `weeks - 1` matches; pairs that
    fit nowhere are dropped.  Each week then lists its byes. */
module Schedule {
  import opened Base
  import opened Shuffle

  /** A pairing `[t1, t2]`. */
  datatype Match = Match(a: Id, b: Id)

  /** One week of the schedule, numbered from 1. */
  datatype Week = Week(week: nat, matches: seq<Match>, byes: seq<Id>)

  /** `w.matches.some(m => m.includes(t))`. */
  predicate PlaysIn(ms: seq<Match>, t: Id) {
    exists k :: 0 <= k < |ms| && (ms[k].a == t || ms[k].b == t)
  }

  // ---------------------------------------------------------------------------
  // The pool of pairings

  /** Pairs of position `i` with positions `i + 1 .. j - 1`, in that order. */
  function Row(ids: seq<Id>, i: nat, j: nat): (r: seq<Match>)
    requires i < j <= |ids|
    ensures |r| == j - i - 1
    ensures forall k :: 0 <= k < |r| ==> r[k] == Match(ids[i], ids[i + 1 + k])
    decreases j
  {
    if j == i + 1 then [] else Row(ids, i, j - 1) + [Match(ids[i], ids[j - 1])]
  }

  /** The pairs the nested loops have pushed once rows `0 .. i - 1` are done. */
  function PairsBelow(ids: seq<Id>, i: nat): seq<Match>
    requires i <= |ids|
  {
    if i == 0 then [] else PairsBelow(ids, i - 1) + Row(ids, i - 1, |ids|)
  }

  /** Every unordered pair of positions, as the nested loops list them. */
  function AllPairs(ids: seq<Id>): seq<Match> {
    PairsBelow(ids, |ids|)
  }

  /** A pairing of two distinct positions, the lower one first. */
  predicate IsPairing(ids: seq<Id>, m: Match) {
    exists i, j :: 0 <= i < j < |ids| && m == Match(ids[i], ids[j])
  }

  lemma {:induction false} PairsBelowArePairings(ids: seq<Id>, i: nat)
    requires i <= |ids|
    ensures forall m :: m in PairsBelow(ids, i) ==> IsPairing(ids, m)
  {
    if i > 0 {
      PairsBelowArePairings(ids, i - 1);
      var row := Row(ids, i - 1, |ids|);
      forall m | m in row ensures IsPairing(ids, m) {
        var k :| 0 <= k < |row| && row[k] == m;
        assert m == Match(ids[i - 1], ids[i + k]);
      }
    }
  }

  lemma {:induction false} PairsBelowComplete(ids: seq<Id>, i: nat)
    requires i <= |ids|
    ensures forall r, j :: 0 <= r < i && r < j < |ids| ==> Match(ids[r], ids[j]) in PairsBelow(ids, i)
  {
    if i > 0 {
      PairsBelowComplete(ids, i - 1);
      var prev := PairsBelow(ids, i - 1);
      var row := Row(ids, i - 1, |ids|);
      assert PairsBelow(ids, i) == prev + row;
      forall r, j | 0 <= r < i && r < j < |ids| ensures Match(ids[r], ids[j]) in prev + row {
        if r < i - 1 {
          assert Match(ids[r], ids[j]) in prev;
        } else {
          assert row[j - i] == Match(ids[r], ids[j]);
        }
      }
    }
  }

  lemma {:induction false} PairsBelowCount(ids: seq<Id>, i: nat)
    requires i <= |ids|
    ensures 2 * |PairsBelow(ids, i)| == i * (2 * |ids| - i - 1)
  {
    if i > 0 {
      PairsBelowCount(ids, i - 1);
      assert |PairsBelow(ids, i)| == |PairsBelow(ids, i - 1)| + (|ids| - i);
      TriangleStep(|ids|, i);
    }
  }

  /** Adding row `i - 1`, of `n - i` pairs, to the rows before it. */
  lemma TriangleStep(n: int, i: int)
    ensures i * (2 * n - i - 1) == (i - 1) * (2 * n - (i - 1) - 1) + 2 * (n - i)
  {
  }

  /** The pool holds every pair of distinct positions once, the lower position
      first: `n * (n - 1) / 2` pairings for `n` teams. */
  lemma AllPairsMembers(ids: seq<Id>)
    ensures forall m :: m in AllPairs(ids) <==> IsPairing(ids, m)
    ensures 2 * |AllPairs(ids)| == |ids| * (|ids| - 1)
  {
    PairsBelowArePairings(ids, |ids|);
    PairsBelowComplete(ids, |ids|);
    PairsBelowCount(ids, |ids|);
  }

  // ---------------------------------------------------------------------------
  // The greedy placement

  /** The weeks' matches and, per team, the set of opponents it already meets. */
  datatype Plan = Plan(matches: seq<seq<Match>>, played: map<Id, set<Id>>)

  /** `played[t]`; every team id is a key of the map the generator builds. */
  function Opp(played: map<Id, set<Id>>, t: Id): set<Id> {
    if t in played then played[t] else {}
  }

  /** The tests of the week loop: neither team plays in week `w`, they have not
      met, and both have fewer than `cap` opponents. */
  predicate Fits(plan: Plan, cap: int, m: Match, w: nat)
    requires w < |plan.matches|
  {
    && !(PlaysIn(plan.matches[w], m.a) || PlaysIn(plan.matches[w], m.b))
    && !(m.b in Opp(plan.played, m.a) || m.a in Opp(plan.played, m.b))
    && !(|Opp(plan.played, m.a)| >= cap || |Opp(plan.played, m.b)| >= cap)
  }

  /** The first week from `w` on that the pair fits in. */
  function FirstFit(plan: Plan, cap: int, m: Match, w: nat): (r: Option<nat>)
    requires w <= |plan.matches|
    ensures r.Some? ==> w <= r.value < |plan.matches| && Fits(plan, cap, m, r.value)
    ensures r.Some? ==> forall v :: w <= v < r.value ==> !Fits(plan, cap, m, v)
    ensures r.None? ==> forall v :: w <= v < |plan.matches| ==> !Fits(plan, cap, m, v)
    decreases |plan.matches| - w
  {
    if w == |plan.matches| then None
    else if Fits(plan, cap, m, w) then Some(w)
    else FirstFit(plan, cap, m, w + 1)
  }

  /** Push the pair into week `w` and record the two teams as having met. */
  function PlaceAt(plan: Plan, m: Match, w: nat): Plan
    requires w < |plan.matches|
  {
    var played1 := plan.played[m.a := Opp(plan.played, m.a) + {m.b}];
    var played2 := played1[m.b := Opp(played1, m.b) + {m.a}];
    Plan(plan.matches[w := plan.matches[w] + [m]], played2)
  }

  /** One pass of the outer loop: the pair goes to its first fitting week, or is dropped. */
  function Place(plan: Plan, cap: int, m: Match): (r: Plan)
    ensures |r.matches| == |plan.matches|
  {
    match FirstFit(plan, cap, m, 0)
    case None => plan
    case Some(w) => PlaceAt(plan, m, w)
  }

  /** The outer loop over `pairs`, from the left. */
  function PlaceAll(plan: Plan, cap: int, pairs: seq<Match>): (r: Plan)
    ensures |r.matches| == |plan.matches|
  {
    if pairs == [] then plan else Place(PlaceAll(plan, cap, pairs[..|pairs| - 1]), cap, pairs[|pairs| - 1])
  }

  /** `weeks` empty weeks and an empty opponent set per team. */
  function InitialPlan(ids: seq<Id>, n: nat): Plan {
    Plan(seq(n, _ => []), map t | t in ids :: {})
  }

  /** `Array.from({ length: weeks })`: a negative length gives no weeks. */
  function WeekCount(weeks: int): nat {
    if weeks > 0 then weeks else 0
  }

  /** The teams absent from the week's matches, in team order. */
  function Byes(ids: seq<Id>, ms: seq<Match>): (byes: seq<Id>)
    ensures forall t :: t in byes <==> t in ids && !PlaysIn(ms, t)
    ensures |byes| <= |ids|
  {
    if ids == [] then []
    else (if PlaysIn(ms, ids[0]) then [] else [ids[0]]) + Byes(ids[1..], ms)
  }

  /** The positions in the team list of the teams that do not play, from the left. */
  function ByePositions(ids: seq<Id>, ms: seq<Match>): seq<nat>
  {
    if ids == [] then []
    else
      var rest := ByePositions(ids[1..], ms);
      (if PlaysIn(ms, ids[0]) then [] else [0]) + seq(|rest|, a requires 0 <= a < |rest| => rest[a] + 1)
  }

  /** Bye `a` is the team at position `ByePositions(ids, ms)[a]`. */
  lemma {:induction false} ByePositionsName(ids: seq<Id>, ms: seq<Match>)
    ensures var pos := ByePositions(ids, ms);
      && |pos| == |Byes(ids, ms)|
      && (forall a :: 0 <= a < |pos| ==> pos[a] < |ids| && ids[pos[a]] == Byes(ids, ms)[a])
  {
    if ids != [] {
      var tail := ids[1..];
      ByePositionsName(tail, ms);
      var rest := ByePositions(tail, ms);
      var head: seq<nat> := if PlaysIn(ms, ids[0]) then [] else [0];
      var pos := ByePositions(ids, ms);
      assert pos == head + seq(|rest|, a requires 0 <= a < |rest| => rest[a] + 1);
      var byes := Byes(ids, ms);
      var front: seq<Id> := if PlaysIn(ms, ids[0]) then [] else [ids[0]];
      assert byes == front + Byes(tail, ms);
      forall a | 0 <= a < |pos| ensures pos[a] < |ids| && ids[pos[a]] == byes[a] {
        if a >= |head| {
          var b := a - |head|;
          assert pos[a] == rest[b] + 1 && byes[a] == Byes(tail, ms)[b];
          assert ids[rest[b] + 1] == tail[rest[b]];
        }
      }
    }
  }

  /** The bye positions increase, so the byes keep team order. */
  lemma {:induction false} ByePositionsIncrease(ids: seq<Id>, ms: seq<Match>)
    ensures forall a, b :: 0 <= a < b < |ByePositions(ids, ms)| ==> ByePositions(ids, ms)[a] < ByePositions(ids, ms)[b]
  {
    if ids != [] {
      var tail := ids[1..];
      ByePositionsIncrease(tail, ms);
      var rest := ByePositions(tail, ms);
      var head: seq<nat> := if PlaysIn(ms, ids[0]) then [] else [0];
      var pos := ByePositions(ids, ms);
      assert pos == head + seq(|rest|, a requires 0 <= a < |rest| => rest[a] + 1);
      forall a, b | 0 <= a < b < |pos| ensures pos[a] < pos[b] {
        assert pos[b] == rest[b - |head|] + 1;
        if a >= |head| {
          assert pos[a] == rest[a - |head|] + 1;
          assert rest[a - |head|] < rest[b - |head|];
        } else {
          assert pos[a] == 0;
        }
      }
    }
  }

  /** The bye positions are exactly those of the teams that do not play. */
  lemma {:induction false} ByePositionsExact(ids: seq<Id>, ms: seq<Match>)
    ensures forall i :: 0 <= i < |ids| ==> (i in ByePositions(ids, ms) <==> !PlaysIn(ms, ids[i]))
  {
    if ids != [] {
      var tail := ids[1..];
      ByePositionsExact(tail, ms);
      var rest := ByePositions(tail, ms);
      var shifted := seq(|rest|, a requires 0 <= a < |rest| => rest[a] + 1);
      var head: seq<nat> := if PlaysIn(ms, ids[0]) then [] else [0];
      var pos := ByePositions(ids, ms);
      assert pos == head + shifted;
      forall i | 0 <= i < |ids| ensures i in pos <==> !PlaysIn(ms, ids[i]) {
        if i == 0 {
          assert 0 !in shifted;
        } else {
          assert ids[i] == tail[i - 1];
          if i - 1 in rest {
            var b :| 0 <= b < |rest| && rest[b] == i - 1;
            assert shifted[b] == i;
          }
          if i in shifted {
            var b :| 0 <= b < |shifted| && shifted[b] == i;
            assert rest[b] == i - 1;
          }
        }
      }
    }
  }

  /** The byes are the teams that do not play, in team order: bye `a` is the
      team at position `pos[a]`, the positions increase, and they are exactly
      the positions of the teams that do not play. */
  lemma ByesInTeamOrder(ids: seq<Id>, ms: seq<Match>)
    ensures var pos := ByePositions(ids, ms);
      && |pos| == |Byes(ids, ms)|
      && (forall a :: 0 <= a < |pos| ==> pos[a] < |ids| && ids[pos[a]] == Byes(ids, ms)[a])
      && (forall a, b :: 0 <= a < b < |pos| ==> pos[a] < pos[b])
      && (forall i :: 0 <= i < |ids| ==> (i in pos <==> !PlaysIn(ms, ids[i])))
  {
    ByePositionsName(ids, ms);
    ByePositionsIncrease(ids, ms);
    ByePositionsExact(ids, ms);
  }

  /** `generateSchedule(teams, weeks)` with the shuffle's draws as a parameter. */
  function ScheduleOf(teams: seq<Team>, weeks: int, draws: nat -> Unit): (r: seq<Week>)
    ensures |r| == WeekCount(weeks)
    ensures forall w :: 0 <= w < |r| ==> r[w].week == w + 1
  {
    var ids := TeamIds(teams);
    var n := WeekCount(weeks);
    var plan := PlaceAll(InitialPlan(ids, n), weeks - 1, Shuffled(AllPairs(ids), draws));
    seq(n, w requires 0 <= w < n => Week(w + 1, plan.matches[w], Byes(ids, plan.matches[w])))
  }

  // ---------------------------------------------------------------------------
  // What the placement keeps

  /** No team appears in two matches of one week. */
  predicate OncePerWeek(weeks: seq<seq<Match>>) {
    forall w, k1, k2 :: 0 <= w < |weeks| && 0 <= k1 < k2 < |weeks[w]| ==>
      weeks[w][k2].a != weeks[w][k1].a && weeks[w][k2].a != weeks[w][k1].b &&
      weeks[w][k2].b != weeks[w][k1].a && weeks[w][k2].b != weeks[w][k1].b
  }

  /** The two matches are between the same two teams, in either order. */
  predicate SamePair(m1: Match, m2: Match) {
    (m1.a == m2.a && m1.b == m2.b) || (m1.a == m2.b && m1.b == m2.a)
  }

  /** No unordered pair is scheduled twice. */
  predicate NoRematch(weeks: seq<seq<Match>>) {
    forall w1, k1, w2, k2 ::
      (0 <= w1 < |weeks| && 0 <= k1 < |weeks[w1]| && 0 <= w2 < |weeks| && 0 <= k2 < |weeks[w2]| && (w1, k1) != (w2, k2))
      ==> !SamePair(weeks[w1][k1], weeks[w2][k2])
  }

  /** The weeks in which team `t` plays. */
  function PlayedWeeks(weeks: seq<seq<Match>>, t: Id): set<nat> {
    set w: nat | w < |weeks| && PlaysIn(weeks[w], t)
  }

  /** Every scheduled match is recorded in both teams' opponent sets. */
  predicate MetRecorded(plan: Plan) {
    forall w, k :: 0 <= w < |plan.matches| && 0 <= k < |plan.matches[w]| ==>
      plan.matches[w][k].b in Opp(plan.played, plan.matches[w][k].a) &&
      plan.matches[w][k].a in Opp(plan.played, plan.matches[w][k].b)
  }

  /** A team has met as many opponents as it has weeks with a match, and no more than the cap. */
  ghost predicate Capped(plan: Plan, cap: int) {
    forall t :: |PlayedWeeks(plan.matches, t)| == |Opp(plan.played, t)| <= (if cap > 0 then cap else 0)
  }

  /** Every scheduled match is a pairing of the pool. */
  predicate FromPool(weeks: seq<seq<Match>>, ids: seq<Id>) {
    forall w, k :: 0 <= w < |weeks| && 0 <= k < |weeks[w]| ==> IsPairing(ids, weeks[w][k])
  }

  ghost predicate Good(plan: Plan, cap: int, ids: seq<Id>) {
    OncePerWeek(plan.matches) && NoRematch(plan.matches) && MetRecorded(plan) && Capped(plan, cap) && FromPool(plan.matches, ids)
  }

  lemma PlaysInAppend(ms: seq<Match>, m: Match, t: Id)
    ensures PlaysIn(ms + [m], t) <==> PlaysIn(ms, t) || m.a == t || m.b == t
  {
    var ms' := ms + [m];
    if PlaysIn(ms, t) {
      var k :| 0 <= k < |ms| && (ms[k].a == t || ms[k].b == t);
      assert ms'[k] == ms[k];
    }
    if PlaysIn(ms', t) && !(m.a == t || m.b == t) {
      var k :| 0 <= k < |ms'| && (ms'[k].a == t || ms'[k].b == t);
      assert k < |ms| && ms[k] == ms'[k];
    }
    if m.a == t || m.b == t {
      assert ms'[|ms|] == m;
    }
  }

  lemma PlaceAtOncePerWeek(plan: Plan, cap: int, m: Match, w: nat)
    requires w < |plan.matches| && Fits(plan, cap, m, w) && OncePerWeek(plan.matches)
    ensures OncePerWeek(PlaceAt(plan, m, w).matches)
  {
    var weeks: seq<seq<Match>> := PlaceAt(plan, m, w).matches;
    forall v, k1, k2 | 0 <= v < |weeks| && 0 <= k1 < k2 < |weeks[v]|
      ensures weeks[v][k2].a != weeks[v][k1].a && weeks[v][k2].a != weeks[v][k1].b
      ensures weeks[v][k2].b != weeks[v][k1].a && weeks[v][k2].b != weeks[v][k1].b
    {
      if v == w && k2 == |plan.matches[w]| {
        var old1 := plan.matches[w][k1];
        assert weeks[v][k1] == old1;
        assert !PlaysIn(plan.matches[w], m.a) && !PlaysIn(plan.matches[w], m.b);
        assert old1.a != m.a && old1.b != m.a;
      } else if v == w {
        assert weeks[v][k1] == plan.matches[w][k1] && weeks[v][k2] == plan.matches[w][k2];
      }
    }
  }

  /** Placing a pair adds each team to the other's opponent set and changes no other set. */
  lemma PlaceAtOpp(plan: Plan, m: Match, w: nat)
    requires w < |plan.matches|
    ensures forall t :: Opp(PlaceAt(plan, m, w).played, t) ==
                        Opp(plan.played, t) + (if t == m.a then {m.b} else {}) + (if t == m.b then {m.a} else {})
  {
  }

  lemma PlaceAtRecords(plan: Plan, cap: int, m: Match, w: nat)
    requires w < |plan.matches| && MetRecorded(plan)
    ensures MetRecorded(PlaceAt(plan, m, w))
  {
    var r := PlaceAt(plan, m, w);
    PlaceAtOpp(plan, m, w);
    forall v, k | 0 <= v < |r.matches| && 0 <= k < |r.matches[v]|
      ensures r.matches[v][k].b in Opp(r.played, r.matches[v][k].a)
      ensures r.matches[v][k].a in Opp(r.played, r.matches[v][k].b)
    {
      if v != w || k < |plan.matches[w]| {
        assert r.matches[v][k] == plan.matches[v][k];
      }
    }
  }

  lemma PlaceAtNoRematch(plan: Plan, cap: int, m: Match, w: nat)
    requires w < |plan.matches| && Fits(plan, cap, m, w) && NoRematch(plan.matches) && MetRecorded(plan)
    ensures NoRematch(PlaceAt(plan, m, w).matches)
  {
    var weeks: seq<seq<Match>> := PlaceAt(plan, m, w).matches;
    var n := |plan.matches[w]|;
    forall w1, k1, w2, k2 | 0 <= w1 < |weeks| && 0 <= k1 < |weeks[w1]| && 0 <= w2 < |weeks| && 0 <= k2 < |weeks[w2]| &&
      (w1, k1) != (w2, k2)
      ensures !SamePair(weeks[w1][k1], weeks[w2][k2])
    {
      var new1 := w1 == w && k1 == n;
      var new2 := w2 == w && k2 == n;
      if !new1 {
        assert weeks[w1][k1] == plan.matches[w1][k1];
      }
      if !new2 {
        assert weeks[w2][k2] == plan.matches[w2][k2];
      }
    }
  }

  lemma PlayedWeeksAppend(weeks: seq<seq<Match>>, w: nat, m: Match, t: Id)
    requires w < |weeks|
    ensures PlayedWeeks(weeks[w := weeks[w] + [m]], t) ==
            PlayedWeeks(weeks, t) + (if t == m.a || t == m.b then {w} else {})
  {
    PlaysInAppend(weeks[w], m, t);
  }

  lemma PlaceAtCapped(plan: Plan, cap: int, m: Match, w: nat)
    requires w < |plan.matches| && Fits(plan, cap, m, w) && Capped(plan, cap)
    ensures Capped(PlaceAt(plan, m, w), cap)
  {
    var r := PlaceAt(plan, m, w);
    PlaceAtOpp(plan, m, w);
    forall t ensures |PlayedWeeks(r.matches, t)| == |Opp(r.played, t)| <= (if cap > 0 then cap else 0) {
      PlayedWeeksAppend(plan.matches, w, m, t);
      var before := PlayedWeeks(plan.matches, t);
      var o := Opp(plan.played, t);
      assert |before| == |o|;
      if t == m.a || t == m.b {
        assert w !in before;
        assert |PlayedWeeks(r.matches, t)| == |before| + 1;
        if t == m.a {
          assert Opp(r.played, t) == o + {m.b} && m.b !in o;
        } else {
          assert Opp(r.played, t) == o + {m.a} && m.a !in o;
        }
        assert |Opp(r.played, t)| == |o| + 1;
      }
    }
  }

  lemma PlaceAtFromPool(plan: Plan, m: Match, w: nat, ids: seq<Id>)
    requires w < |plan.matches| && FromPool(plan.matches, ids) && IsPairing(ids, m)
    ensures FromPool(PlaceAt(plan, m, w).matches, ids)
  {
    var weeks: seq<seq<Match>> := PlaceAt(plan, m, w).matches;
    forall v, k | 0 <= v < |weeks| && 0 <= k < |weeks[v]| ensures IsPairing(ids, weeks[v][k]) {
      if v != w || k < |plan.matches[w]| {
        assert weeks[v][k] == plan.matches[v][k];
      }
    }
  }

  lemma PlaceKeepsGood(plan: Plan, cap: int, m: Match, ids: seq<Id>)
    requires Good(plan, cap, ids) && IsPairing(ids, m)
    ensures Good(Place(plan, cap, m), cap, ids)
  {
    match FirstFit(plan, cap, m, 0)
    case None =>
    case Some(w) =>
      PlaceAtOncePerWeek(plan, cap, m, w);
      PlaceAtRecords(plan, cap, m, w);
      PlaceAtNoRematch(plan, cap, m, w);
      PlaceAtCapped(plan, cap, m, w);
      PlaceAtFromPool(plan, m, w, ids);
  }

  lemma {:induction false} PlaceAllKeepsGood(plan: Plan, cap: int, pairs: seq<Match>, ids: seq<Id>)
    requires Good(plan, cap, ids)
    requires forall k :: 0 <= k < |pairs| ==> IsPairing(ids, pairs[k])
    ensures Good(PlaceAll(plan, cap, pairs), cap, ids)
  {
    if pairs != [] {
      PlaceAllKeepsGood(plan, cap, pairs[..|pairs| - 1], ids);
      PlaceKeepsGood(PlaceAll(plan, cap, pairs[..|pairs| - 1]), cap, pairs[|pairs| - 1], ids);
    }
  }

  lemma InitialGood(ids: seq<Id>, n: nat, cap: int)
    ensures Good(InitialPlan(ids, n), cap, ids)
  {
    var p := InitialPlan(ids, n);
    forall t ensures |PlayedWeeks(p.matches, t)| == |Opp(p.played, t)| == 0 {
      assert PlayedWeeks(p.matches, t) == {};
    }
  }

  /** The plan behind a generated schedule keeps every invariant. */
  lemma ScheduleGood(teams: seq<Team>, weeks: int, draws: nat -> Unit)
    ensures var ids := TeamIds(teams);
      Good(PlaceAll(InitialPlan(ids, WeekCount(weeks)), weeks - 1, Shuffled(AllPairs(ids), draws)), weeks - 1, ids)
  {
    var ids := TeamIds(teams);
    var pairs := Shuffled(AllPairs(ids), draws);
    AllPairsMembers(ids);
    ShuffledMembers(AllPairs(ids), draws);
    InitialGood(ids, WeekCount(weeks), weeks - 1);
    PlaceAllKeepsGood(InitialPlan(ids, WeekCount(weeks)), weeks - 1, pairs, ids);
  }

  // ---------------------------------------------------------------------------
  // The schedule's properties

  /** The matches of a generated schedule, week by week. */
  function MatchWeeks(s: seq<Week>): (weeks: seq<seq<Match>>)
    ensures |weeks| == |s|
    ensures forall w :: 0 <= w < |s| ==> weeks[w] == s[w].matches
  {
    seq(|s|, w requires 0 <= w < |s| => s[w].matches)
  }

  lemma ScheduleMatchWeeks(teams: seq<Team>, weeks: int, draws: nat -> Unit)
    ensures var ids := TeamIds(teams);
      MatchWeeks(ScheduleOf(teams, weeks, draws)) ==
      PlaceAll(InitialPlan(ids, WeekCount(weeks)), weeks - 1, Shuffled(AllPairs(ids), draws)).matches
  {
  }

  /** No team plays twice in a week, no pair of teams meets twice, and every
      match pairs two teams of the league, the earlier-listed team first. */
  lemma ScheduleIsRoundRobinFragment(teams: seq<Team>, weeks: int, draws: nat -> Unit)
    ensures OncePerWeek(MatchWeeks(ScheduleOf(teams, weeks, draws)))
    ensures NoRematch(MatchWeeks(ScheduleOf(teams, weeks, draws)))
    ensures FromPool(MatchWeeks(ScheduleOf(teams, weeks, draws)), TeamIds(teams))
  {
    ScheduleGood(teams, weeks, draws);
    ScheduleMatchWeeks(teams, weeks, draws);
  }

  /** The week positions below `n`. */
  function Below(n: nat): (r: set<nat>)
    ensures forall w: nat :: w in r <==> w < n
    ensures |r| == n
  {
    if n == 0 then {} else Below(n - 1) + {n - 1}
  }

  /** No team plays in more than `weeks - 1` weeks; as it plays once per week
      at most, it has no more than `weeks - 1` matches. */
  lemma ScheduleCap(teams: seq<Team>, weeks: int, draws: nat -> Unit, t: Id)
    ensures |PlayedWeeks(MatchWeeks(ScheduleOf(teams, weeks, draws)), t)| <= if weeks > 1 then weeks - 1 else 0
  {
    var ids := TeamIds(teams);
    var plan := PlaceAll(InitialPlan(ids, WeekCount(weeks)), weeks - 1, Shuffled(AllPairs(ids), draws));
    ScheduleGood(teams, weeks, draws);
    assert Capped(plan, weeks - 1);
    assert |PlayedWeeks(plan.matches, t)| <= if weeks > 1 then weeks - 1 else 0;
    ScheduleMatchWeeks(teams, weeks, draws);
  }

  lemma MissingElement(a: set<nat>, b: set<nat>)
    requires b <= a && |b| < |a|
    ensures a - b != {}
  {
    assert a == (a - b) + b;
    assert (a - b) * b == {};
    assert |a| == |a - b| + |b|;
  }

  /** With at least one week, every team has a bye in some week. */
  lemma ScheduleHasBye(teams: seq<Team>, weeks: int, draws: nat -> Unit, t: Id)
    requires weeks >= 1 && t in TeamIds(teams)
    ensures exists w :: 0 <= w < |ScheduleOf(teams, weeks, draws)| && t in ScheduleOf(teams, weeks, draws)[w].byes
  {
    var s := ScheduleOf(teams, weeks, draws);
    ScheduleCap(teams, weeks, draws, t);
    var played := PlayedWeeks(MatchWeeks(s), t);
    var all := Below(|s|);
    assert played <= all;
    MissingElement(all, played);
    var w :| w in all - played;
    assert !PlaysIn(MatchWeeks(s)[w], t);
    ScheduleOfWeek(teams, weeks, draws, w);
  }

  /** Each week's byes are exactly the teams that do not play that week. */
  lemma ScheduleByes(teams: seq<Team>, weeks: int, draws: nat -> Unit, w: nat, t: Id)
    requires w < |ScheduleOf(teams, weeks, draws)|
    ensures t in ScheduleOf(teams, weeks, draws)[w].byes <==>
      t in TeamIds(teams) && !PlaysIn(ScheduleOf(teams, weeks, draws)[w].matches, t)
  {
  }

  /** The number of weeks `generateSchedule` plans when none is given. */
  const DefaultWeeks: int := 5

  /** With the default five weeks: five numbered weeks, every team plays in at
      most four of them and sits out at least one. */
  lemma DefaultSchedule(teams: seq<Team>, draws: nat -> Unit, t: Id)
    requires t in TeamIds(teams)
    ensures |ScheduleOf(teams, DefaultWeeks, draws)| == 5
    ensures |PlayedWeeks(MatchWeeks(ScheduleOf(teams, DefaultWeeks, draws)), t)| <= 4
    ensures exists w :: 0 <= w < 5 && t in ScheduleOf(teams, DefaultWeeks, draws)[w].byes
  {
    ScheduleCap(teams, DefaultWeeks, draws, t);
    ScheduleHasBye(teams, DefaultWeeks, draws, t);
  }

  // ---------------------------------------------------------------------------
  // The generator as the source writes it

  /** The nested loops of `generateSchedule` that list every pair of positions. */
  method BuildPairs(ids: seq<Id>) returns (pairs: seq<Match>)
    ensures pairs == AllPairs(ids)
  {
    pairs := [];
    for i := 0 to |ids|
      invariant pairs == PairsBelow(ids, i)
    {
      for j := i + 1 to |ids|
        invariant pairs == PairsBelow(ids, i) + Row(ids, i, j)
      {
        pairs := pairs + [Match(ids[i], ids[j])];
      }
    }
  }

  /** One pass of the greedy loop: scan the weeks in order, push the pair into
      the first one that passes all three tests and record the two teams as met. */
  method PlacePair(matches: seq<seq<Match>>, played: map<Id, set<Id>>, cap: int, pair: Match)
    returns (matches': seq<seq<Match>>, played': map<Id, set<Id>>)
    ensures Plan(matches', played') == Place(Plan(matches, played), cap, pair)
  {
    matches', played' := matches, played;
    var w := 0;
    while w < |matches| && !Fits(Plan(matches, played), cap, pair, w)
      invariant 0 <= w <= |matches|
      invariant FirstFit(Plan(matches, played), cap, pair, w) == FirstFit(Plan(matches, played), cap, pair, 0)
    {
      w := w + 1;
    }
    if w < |matches| {
      matches' := matches[w := matches[w] + [pair]];
      played' := played[pair.a := Opp(played, pair.a) + {pair.b}];
      played' := played'[pair.b := Opp(played', pair.b) + {pair.a}];
    }
  }

  /** `generateSchedule`: the pool is built, shuffled in place, placed pair by
      pair, and each week's byes are listed. */
  method GenerateSchedule(teams: seq<Team>, weeks: int, draws: nat -> Unit) returns (schedule: seq<Week>)
    ensures schedule == ScheduleOf(teams, weeks, draws)
  {
    var ids := TeamIds(teams);
    var pairs := BuildPairs(ids);
    var arr := new Match[|pairs|](k requires 0 <= k < |pairs| => pairs[k]);
    assert arr[..] == pairs;
    arr := ShuffleArray(arr, draws);
    var pool := arr[..];
    assert pool == Shuffled(AllPairs(ids), draws);
    ghost var plan0 := InitialPlan(ids, WeekCount(weeks));

    var n := WeekCount(weeks);
    var matches: seq<seq<Match>> := seq(n, _ => []);
    var played: map<Id, set<Id>> := map t | t in ids :: {};
    for p := 0 to |pool|
      invariant Plan(matches, played) == PlaceAll(plan0, weeks - 1, pool[..p])
    {
      assert pool[..p + 1][..p] == pool[..p];
      matches, played := PlacePair(matches, played, weeks - 1, pool[p]);
    }
    assert pool[..|pool|] == pool;
    schedule := ListWeeks(ids, matches);
    ScheduleOfWeeks(teams, weeks, draws, schedule);
  }

  /** The last loop: number the weeks from 1 and list each week's byes. */
  method ListWeeks(ids: seq<Id>, matches: seq<seq<Match>>) returns (schedule: seq<Week>)
    ensures |schedule| == |matches|
    ensures forall w :: 0 <= w < |matches| ==> schedule[w] == Week(w + 1, matches[w], Byes(ids, matches[w]))
  {
    schedule := [];
    for w := 0 to |matches|
      invariant |schedule| == w
      invariant forall v :: 0 <= v < w ==> schedule[v] == Week(v + 1, matches[v], Byes(ids, matches[v]))
    {
      schedule := schedule + [Week(w + 1, matches[w], Byes(ids, matches[w]))];
    }
  }

  lemma ScheduleOfWeeks(teams: seq<Team>, weeks: int, draws: nat -> Unit, s: seq<Week>)
    requires var ids := TeamIds(teams);
      var plan := PlaceAll(InitialPlan(ids, WeekCount(weeks)), weeks - 1, Shuffled(AllPairs(ids), draws));
      |s| == WeekCount(weeks) &&
      forall w :: 0 <= w < |s| ==> s[w] == Week(w + 1, plan.matches[w], Byes(ids, plan.matches[w]))
    ensures s == ScheduleOf(teams, weeks, draws)
  {
  }

  lemma ScheduleOfWeek(teams: seq<Team>, weeks: int, draws: nat -> Unit, w: nat)
    requires w < WeekCount(weeks)
    ensures var ids := TeamIds(teams);
      var plan := PlaceAll(InitialPlan(ids, WeekCount(weeks)), weeks - 1, Shuffled(AllPairs(ids), draws));
      ScheduleOf(teams, weeks, draws)[w] == Week(w + 1, plan.matches[w], Byes(ids, plan.matches[w]))
  {
  }
}
