/** The draft allocator: three rounds in which every team, in the round's
    order, takes one unassigned player of an allowed tier that it does not
    hold yet, or logs a null pick. */
module Draft {
  import opened Base
  import opened Sorting
  import opened Skill
  import opened Shuffle

  /** A round: its number and the tiers it may pick from. */
  datatype Round = Round(num: nat, allowedTiers: seq<int>)

  const RoundOne: Round := Round(1, [1, 2, 3])
  const RoundTwo: Round := Round(2, [2, 3])
  const RoundThree: Round := Round(3, [3])

  const NoCandidateReason: string := "no-available-candidate"

  /** The chance, per pick, that the best-ranked candidate is taken. */
  const TopPickChance: real := 0.75

  /** One entry of the pick log; `pick` is None, with a reason, when no candidate existed. */
  datatype Pick = Pick(teamId: Id, pick: Option<Id>, reason: Option<string>, round: nat)

  /** The league's persistent draft record: the order of rounds 1 and 2 and every pick so far. */
  datatype DraftState = DraftState(order: seq<Id>, picks: seq<Pick>)

  /** The two draws a pick may use: `top` is compared with the top-pick chance,
      `among` selects within the best three when that comparison fails. */
  datatype PickDraw = PickDraw(top: Unit, among: Unit)

  /** The tier of the player an id resolves to, if any. */
  function TierOf(players: seq<Player>, id: Id): (t: Option<int>)
    ensures t.Some? <==> id in PlayerIds(players)
  {
    match PlayerIndex(players, id)
    case None => None
    case Some(k) => Some(players[k].tier)
  }

  /** Some id on the roster resolves to a player of tier `t`. */
  predicate HoldsTier(players: seq<Player>, roster: seq<Id>, t: int) {
    exists k :: 0 <= k < |roster| && TierOf(players, roster[k]) == Some(t)
  }

  /** `existingTiers`: the tiers of the roster's resolvable players, with the
      falsy tier 0 filtered out. */
  function ExistingTiers(players: seq<Player>, roster: seq<Id>): (tiers: seq<int>)
    ensures forall t :: t in tiers <==> t != 0 && HoldsTier(players, roster, t)
  {
    if roster == [] then []
    else
      var rest := ExistingTiers(players, roster[1..]);
      assert forall t :: HoldsTier(players, roster, t) <==>
          TierOf(players, roster[0]) == Some(t) || HoldsTier(players, roster[1..], t) by {
        forall t | HoldsTier(players, roster, t) && TierOf(players, roster[0]) != Some(t)
          ensures HoldsTier(players, roster[1..], t)
        {
          var k :| 0 <= k < |roster| && TierOf(players, roster[k]) == Some(t);
          assert roster[1..][k - 1] == roster[k];
        }
        forall t | HoldsTier(players, roster[1..], t) ensures HoldsTier(players, roster, t) {
          var k :| 0 <= k < |roster[1..]| && TierOf(players, roster[1..][k]) == Some(t);
          assert roster[k + 1] == roster[1..][k];
        }
      }
      match TierOf(players, roster[0])
      case Some(t) => if t != 0 then [t] + rest else rest
      case None => rest
  }

  /** The candidate filter: unassigned, of an allowed tier, of a tier the team lacks. */
  predicate Eligible(p: Player, existing: seq<int>, allowed: seq<int>) {
    Unassigned(p) && p.tier in allowed && p.tier !in existing
  }

  /** The positions below `n` of eligible players, in player order. */
  function CandidatesBelow(players: seq<Player>, existing: seq<int>, allowed: seq<int>, n: nat): (c: seq<nat>)
    requires n <= |players|
    ensures forall k :: 0 <= k < |c| ==> c[k] < n && Eligible(players[c[k]], existing, allowed)
    ensures forall i :: 0 <= i < n && Eligible(players[i], existing, allowed) ==> i in c
    ensures forall a, b :: 0 <= a < b < |c| ==> c[a] < c[b]
  {
    if n == 0 then []
    else
      var c := CandidatesBelow(players, existing, allowed, n - 1);
      if Eligible(players[n - 1], existing, allowed) then c + [n - 1] else c
  }

  /** How candidates are ranked: by base skill, best first. */
  function SkillRank(players: seq<Player>): nat -> Rank {
    (i: nat) => if i < |players| then Rank(PlayerSkill(players[i]), 0) else Rank(0, 0)
  }

  /** What the sort puts first is an eligible player of greatest base skill, and
      the first such in player order. */
  lemma RankedHead(players: seq<Player>, existing: seq<int>, allowed: seq<int>)
    requires CandidatesBelow(players, existing, allowed, |players|) != []
    ensures var c := CandidatesBelow(players, existing, allowed, |players|);
      var top := SortByRank(c, SkillRank(players))[0];
      && top < |players| && Eligible(players[top], existing, allowed)
      && (forall i :: 0 <= i < |players| && Eligible(players[i], existing, allowed) ==>
            PlayerSkill(players[i]) <= PlayerSkill(players[top]))
      && (forall i :: 0 <= i < top && Eligible(players[i], existing, allowed) ==>
            PlayerSkill(players[i]) < PlayerSkill(players[top]))
  {
    var c := CandidatesBelow(players, existing, allowed, |players|);
    var rank := SkillRank(players);
    SortHeadIsFirstBest(c, rank);
    var f := FirstBest(c, rank);
    forall i | 0 <= i < |players| && Eligible(players[i], existing, allowed)
      ensures PlayerSkill(players[i]) <= PlayerSkill(players[c[f]])
      ensures i < c[f] ==> PlayerSkill(players[i]) < PlayerSkill(players[c[f]])
    {
      var k :| 0 <= k < |c| && c[k] == i;
      SkillRankCompare(players, c, k, f);
    }
  }

  /** Reads the comparison of two ranked candidates back as a comparison of base skills. */
  lemma SkillRankCompare(players: seq<Player>, c: seq<nat>, k: nat, f: nat)
    requires k < |c| && f < |c| && c[k] < |players| && c[f] < |players|
    requires forall a, b :: 0 <= a < b < |c| ==> c[a] < c[b]
    requires !Outranks(SkillRank(players)(c[k]), SkillRank(players)(c[f]))
    requires forall j :: 0 <= j < f ==> Outranks(SkillRank(players)(c[f]), SkillRank(players)(c[j]))
    ensures PlayerSkill(players[c[k]]) <= PlayerSkill(players[c[f]])
    ensures c[k] < c[f] ==> PlayerSkill(players[c[k]]) < PlayerSkill(players[c[f]])
  {
    if c[k] < c[f] {
      assert k < f;
      assert Outranks(SkillRank(players)(c[f]), SkillRank(players)(c[k]));
    }
  }

  /** The eligible players of strictly greater base skill than `players[k]`. */
  function Better(players: seq<Player>, existing: seq<int>, allowed: seq<int>, k: nat): set<nat>
    requires k < |players|
  {
    set i | 0 <= i < |players| && Eligible(players[i], existing, allowed) && PlayerSkill(players[i]) > PlayerSkill(players[k])
  }

  /** A set of positions all found in a sequence is no larger than the sequence. */
  lemma {:induction false} SubsetOfSeq(a: set<nat>, s: seq<nat>)
    requires forall x :: x in a ==> x in s
    ensures |a| <= |s|
  {
    if s != [] {
      var front := s[..|s| - 1];
      var last := s[|s| - 1];
      var rest := a - {last};
      forall x | x in rest ensures x in front {
        var j :| 0 <= j < |s| && s[j] == x;
        assert j < |s| - 1 && front[j] == x;
      }
      SubsetOfSeq(rest, front);
      assert a <= rest + {last};
    } else {
      assert a == {};
    }
  }

  /** The candidate sorted to position `j` is beaten in base skill by at most
      `j` eligible players: all of them are sorted in front of it. */
  lemma FewBetter(players: seq<Player>, existing: seq<int>, allowed: seq<int>, ranked: seq<nat>, j: nat)
    requires ranked == SortByRank(CandidatesBelow(players, existing, allowed, |players|), SkillRank(players))
    requires j < |ranked|
    ensures ranked[j] < |players| && |Better(players, existing, allowed, ranked[j])| <= j
  {
    var c := CandidatesBelow(players, existing, allowed, |players|);
    var rank := SkillRank(players);
    SortPermutes(c, rank);
    SortSorts(c, rank);
    SortedMember(c, rank, j);
    var b := Better(players, existing, allowed, ranked[j]);
    forall i | i in b ensures i in ranked[..j] {
      assert i in c;
      assert i in multiset(ranked);
      var m :| 0 <= m < |ranked| && ranked[m] == i;
      assert Outranks(rank(ranked[m]), rank(ranked[j]));
      SortedBefore(ranked, rank, m, j);
      assert ranked[..j][m] == i;
    }
    SubsetOfSeq(b, ranked[..j]);
  }

  /** In a sorted sequence an element that outranks another comes before it. */
  lemma SortedBefore(s: seq<nat>, rank: nat -> Rank, m: nat, j: nat)
    requires SortedByRank(s, rank) && m < |s| && j < |s|
    requires Outranks(rank(s[m]), rank(s[j]))
    ensures m < j
  {
  }

  /** `aiOrUserPick`: the position of the chosen player, or None when the team
      has no candidate.  A human-controlled team is picked for exactly like an
      AI team in the automated draft. */
  function AiOrUserPick(players: seq<Player>, team: Team, allowed: seq<int>, isUser: bool, draw: PickDraw): (r: Option<nat>)
    ensures r.None? <==>
      forall i :: 0 <= i < |players| ==> !Eligible(players[i], ExistingTiers(players, team.roster), allowed)
    ensures r.Some? ==>
      r.value < |players| && Eligible(players[r.value], ExistingTiers(players, team.roster), allowed)
    ensures r.Some? ==> |Better(players, ExistingTiers(players, team.roster), allowed, r.value)| < 3
    ensures r.Some? && draw.top < TopPickChance ==>
      forall i :: 0 <= i < |players| && Eligible(players[i], ExistingTiers(players, team.roster), allowed) ==>
        PlayerSkill(players[i]) <= PlayerSkill(players[r.value])
    ensures r.Some? && draw.top < TopPickChance ==>
      forall i :: 0 <= i < r.value && Eligible(players[i], ExistingTiers(players, team.roster), allowed) ==>
        PlayerSkill(players[i]) < PlayerSkill(players[r.value])
  {
    var existing := ExistingTiers(players, team.roster);
    var candidates := CandidatesBelow(players, existing, allowed, |players|);
    if |candidates| == 0 then None
    else
      var ranked := SortByRank(candidates, SkillRank(players));
      SortPermutes(candidates, SkillRank(players));
      if draw.top < TopPickChance then
        RankedHead(players, existing, allowed);
        FewBetter(players, existing, allowed, ranked, 0);
        Some(ranked[0])
      else
        var k := DrawIndex(draw.among, Min(3, |ranked|));
        SortedMember(candidates, SkillRank(players), k);
        FewBetter(players, existing, allowed, ranked, k);
        Some(ranked[k])
  }

  /** Two rolls of players that agree on every id and tier. */
  predicate SameRoll(a: seq<Player>, b: seq<Player>) {
    |a| == |b| && forall k :: 0 <= k < |a| ==> a[k].id == b[k].id && a[k].tier == b[k].tier
  }

  /** Every id of `order` names a team. */
  predicate Resolves(teams: seq<Team>, order: seq<Id>) {
    forall k :: 0 <= k < |order| ==> order[k] in TeamIds(teams)
  }

  /** The draft's working state: the copied players and teams and this run's picks. */
  datatype Progress = Progress(players: seq<Player>, teams: seq<Team>, picks: seq<Pick>)

  /** The state after team `teams[ti]` takes the unassigned player `players[k]`. */
  function TakePlayer(players: seq<Player>, teams: seq<Team>, picks: seq<Pick>, k: nat, ti: nat, num: nat): Progress
    requires k < |players| && ti < |teams|
  {
    var p := players[k];
    var team := teams[ti];
    Progress(players[k := p.(teamId := Some(team.id))], teams[ti := team.(roster := team.roster + [p.id])],
             picks + [Pick(team.id, Some(p.id), None, num)])
  }

  /** One turn: team `tid` picks in `round` with the draw numbered by the picks made so far. */
  function DraftStep(s: Progress, tid: Id, round: Round, userTeamId: Option<Id>, draws: nat -> PickDraw): (r: Progress)
    requires tid in TeamIds(s.teams)
    ensures TeamIds(r.teams) == TeamIds(s.teams)
    ensures SameRoll(s.players, r.players)
    ensures |r.picks| == |s.picks| + 1 && r.picks[..|s.picks|] == s.picks
    ensures r.picks[|s.picks|].teamId == tid && r.picks[|s.picks|].round == round.num
    ensures WellFormedPick(r.picks[|s.picks|])
    ensures var team := s.teams[TeamIndex(s.teams, tid).value];
      r.picks[|s.picks|].pick.None? <==>
        forall i :: 0 <= i < |s.players| ==> !Eligible(s.players[i], ExistingTiers(s.players, team.roster), round.allowedTiers)
    ensures var team := s.teams[TeamIndex(s.teams, tid).value];
      r.picks[|s.picks|].pick.Some? ==>
        exists k :: 0 <= k < |s.players| && Eligible(s.players[k], ExistingTiers(s.players, team.roster), round.allowedTiers)
          && s.players[k].id == r.picks[|s.picks|].pick.value && r.players[k].teamId == Some(tid)
    ensures var ti := TeamIndex(s.teams, tid).value;
      var c := AiOrUserPick(s.players, s.teams[ti], round.allowedTiers, userTeamId == Some(tid), draws(|s.picks|));
      && (c.None? ==> r.players == s.players && r.teams == s.teams)
      && (c.Some? ==> r == TakePlayer(s.players, s.teams, s.picks, c.value, ti, round.num))
  {
    var ti := TeamIndex(s.teams, tid).value;
    var team := s.teams[ti];
    match AiOrUserPick(s.players, team, round.allowedTiers, userTeamId == Some(tid), draws(|s.picks|))
    case None =>
      Progress(s.players, s.teams, s.picks + [Pick(tid, None, Some(NoCandidateReason), round.num)])
    case Some(k) =>
      assert TeamIds(s.teams)[ti] == tid;
      TakePlayerFrame(s.players, s.teams, s.picks, k, ti, round.num);
      assert TeamIds(s.teams[ti := team.(roster := team.roster + [s.players[k].id])]) == TeamIds(s.teams);
      TakePlayer(s.players, s.teams, s.picks, k, ti, round.num)
  }

  /** The frame of a turn: a null pick changes no player and no team; a real
      pick sets that one player's team and appends its id to exactly the
      picking team's roster, and changes nothing else. */
  lemma DraftStepFrame(s: Progress, tid: Id, round: Round, userTeamId: Option<Id>, draws: nat -> PickDraw)
    requires tid in TeamIds(s.teams)
    ensures var r := DraftStep(s, tid, round, userTeamId, draws);
      r.picks[|s.picks|].pick.None? ==> r.players == s.players && r.teams == s.teams
    ensures var r := DraftStep(s, tid, round, userTeamId, draws);
      var ti := TeamIndex(s.teams, tid).value;
      r.picks[|s.picks|].pick.Some? ==>
        exists k :: 0 <= k < |s.players| && s.players[k].id == r.picks[|s.picks|].pick.value
          && r.players == s.players[k := s.players[k].(teamId := Some(tid))]
          && r.teams == s.teams[ti := s.teams[ti].(roster := s.teams[ti].roster + [s.players[k].id])]
  {
    var r := DraftStep(s, tid, round, userTeamId, draws);
    var ti := TeamIndex(s.teams, tid).value;
    var c := AiOrUserPick(s.players, s.teams[ti], round.allowedTiers, userTeamId == Some(tid), draws(|s.picks|));
    if c.Some? {
      var k := c.value;
      assert TeamIds(s.teams)[ti] == tid;
      assert s.players[k].id == r.picks[|s.picks|].pick.value;
    }
  }

  /** A round run over `order`, turn by turn from the left. */
  function RunOrder(s: Progress, order: seq<Id>, round: Round, userTeamId: Option<Id>, draws: nat -> PickDraw): (r: Progress)
    requires Resolves(s.teams, order)
    ensures TeamIds(r.teams) == TeamIds(s.teams)
    ensures SameRoll(s.players, r.players)
    decreases |order|
  {
    if order == [] then s
    else
      var prior := RunOrder(s, order[..|order| - 1], round, userTeamId, draws);
      DraftStep(prior, order[|order| - 1], round, userTeamId, draws)
  }

  /** A round over `order + [tid]` is the round over `order` followed by `tid`'s turn. */
  lemma RunOrderSnoc(s: Progress, order: seq<Id>, tid: Id, round: Round, userTeamId: Option<Id>, draws: nat -> PickDraw)
    requires Resolves(s.teams, order) && tid in TeamIds(s.teams)
    ensures Resolves(s.teams, order + [tid])
    ensures RunOrder(s, order + [tid], round, userTeamId, draws) ==
      DraftStep(RunOrder(s, order, round, userTeamId, draws), tid, round, userTeamId, draws)
  {
    assert (order + [tid])[..|order|] == order;
  }

  /** The ids of the teams with the leader join date the round-three sort uses. */
  datatype JoinEntry = JoinEntry(id: Id, joinDate: DateKey)

  /** The join date of a team's leader, or 9999-01-01 when the leader cannot be found. */
  function LeaderJoinDate(players: seq<Player>, team: Team): DateKey {
    match PlayerIndex(players, team.leaderId)
    case Some(k) => players[k].joinDate
    case None => MissingLeaderJoinDate
  }

  function JoinEntries(players: seq<Player>, teams: seq<Team>): (e: seq<JoinEntry>)
    ensures |e| == |teams|
    ensures forall k :: 0 <= k < |teams| ==> e[k] == JoinEntry(teams[k].id, LeaderJoinDate(players, teams[k]))
  {
    seq(|teams|, k requires 0 <= k < |teams| => JoinEntry(teams[k].id, LeaderJoinDate(players, teams[k])))
  }

  /** Ascending join date is descending on the negated date. */
  function EarlierFirst(e: JoinEntry): Rank {
    Rank(-e.joinDate, 0)
  }

  function EntryIds(e: seq<JoinEntry>): (ids: seq<Id>)
    ensures |ids| == |e|
    ensures forall k :: 0 <= k < |e| ==> ids[k] == e[k].id
  {
    seq(|e|, k requires 0 <= k < |e| => e[k].id)
  }

  /** The round-three entries: teams stably sorted by their leader's join date. */
  function RoundThreeEntries(players: seq<Player>, teams: seq<Team>): seq<JoinEntry> {
    SortByRank(JoinEntries(players, teams), EarlierFirst)
  }

  /** The round-1-and-2 order: the stored order when there is one, else a shuffle of the team ids. */
  function OrderOneTwo(teams: seq<Team>, draft: DraftState, shuffleDraws: nat -> Unit): seq<Id> {
    if |draft.order| > 0 then draft.order else Shuffled(TeamIds(teams), shuffleDraws)
  }

  /** The outcome of a full draft run. */
  datatype DraftResult = DraftResult(players: seq<Player>, teams: seq<Team>, draft: DraftState, picks: seq<Pick>)

  lemma OrdersResolve(players: seq<Player>, teams: seq<Team>, draft: DraftState, shuffleDraws: nat -> Unit)
    requires Resolves(teams, draft.order)
    ensures Resolves(teams, OrderOneTwo(teams, draft, shuffleDraws))
    ensures Resolves(teams, EntryIds(RoundThreeEntries(players, teams)))
  {
    ShuffledMembers(TeamIds(teams), shuffleDraws);
    var e := JoinEntries(players, teams);
    SortPermutes(e, EarlierFirst);
    var ids := EntryIds(RoundThreeEntries(players, teams));
    forall k | 0 <= k < |ids| ensures ids[k] in TeamIds(teams) {
      SortedMember(e, EarlierFirst, k);
      var j :| 0 <= j < |e| && e[j] == RoundThreeEntries(players, teams)[k];
      assert TeamIds(teams)[j] == ids[k];
    }
  }

  /** `runFullDraft` on a copy of the league: rounds one and two over the shared
      order, round three over the join-date order, picks appended to the log. */
  function Draft(players: seq<Player>, teams: seq<Team>, draft: DraftState, userTeamId: Option<Id>,
                 shuffleDraws: nat -> Unit, pickDraws: nat -> PickDraw): DraftResult
    requires Resolves(teams, draft.order)
  {
    OrdersResolve(players, teams, draft, shuffleDraws);
    var order12 := OrderOneTwo(teams, draft, shuffleDraws);
    var order3 := EntryIds(RoundThreeEntries(players, teams));
    var s0 := Progress(players, teams, []);
    var s1 := RunOrder(s0, order12, RoundOne, userTeamId, pickDraws);
    var s2 := RunOrder(s1, order12, RoundTwo, userTeamId, pickDraws);
    var s3 := RunOrder(s2, order3, RoundThree, userTeamId, pickDraws);
    DraftResult(s3.players, s3.teams, DraftState(order12, draft.picks + s3.picks), s3.picks)
  }

  // ---------------------------------------------------------------------------
  // Lookups are unchanged by a draft step

  lemma {:induction false} ExistingTiersSameRoll(a: seq<Player>, b: seq<Player>, roster: seq<Id>)
    requires SameRoll(a, b)
    ensures ExistingTiers(a, roster) == ExistingTiers(b, roster)
  {
    assert PlayerIds(a) == PlayerIds(b);
    if roster != [] {
      ExistingTiersSameRoll(a, b, roster[1..]);
    }
  }

  lemma SameRollLookups(a: seq<Player>, b: seq<Player>)
    requires SameRoll(a, b)
    ensures PlayerIds(a) == PlayerIds(b)
    ensures forall id :: TierOf(a, id) == TierOf(b, id)
    ensures UniquePlayerIds(a) ==> UniquePlayerIds(b)
  {
    assert PlayerIds(a) == PlayerIds(b);
  }

  /** With unique ids, a player's own id resolves to that player. */
  lemma OwnIdResolves(players: seq<Player>, k: nat)
    requires UniquePlayerIds(players) && k < |players|
    ensures PlayerIndex(players, players[k].id) == Some(k)
  {
    var ids := PlayerIds(players);
    assert ids[k] == players[k].id;
    var m := IndexOf(ids, players[k].id);
    assert m.Some?;
    assert players[m.value].id == players[k].id;
  }

  // ---------------------------------------------------------------------------
  // The tier rule

  /** No two resolvable roster players share a non-zero tier. */
  predicate DistinctTiers(players: seq<Player>, roster: seq<Id>) {
    forall i, j :: 0 <= i < j < |roster| && TierOf(players, roster[i]).Some? && TierOf(players, roster[i]).value != 0 ==>
      TierOf(players, roster[i]) != TierOf(players, roster[j])
  }

  /** Every team's roster keeps the one-player-per-tier rule. */
  predicate TierRule(players: seq<Player>, teams: seq<Team>) {
    forall ti :: 0 <= ti < |teams| ==> DistinctTiers(players, teams[ti].roster)
  }

  /** A turn never gives a team a second player of a non-zero tier. */
  lemma DraftStepKeepsTierRule(s: Progress, tid: Id, round: Round, userTeamId: Option<Id>, draws: nat -> PickDraw)
    requires tid in TeamIds(s.teams)
    requires UniquePlayerIds(s.players) && TierRule(s.players, s.teams)
    ensures TierRule(DraftStep(s, tid, round, userTeamId, draws).players, DraftStep(s, tid, round, userTeamId, draws).teams)
  {
    var r := DraftStep(s, tid, round, userTeamId, draws);
    var ti := TeamIndex(s.teams, tid).value;
    var team := s.teams[ti];
    var choice := AiOrUserPick(s.players, team, round.allowedTiers, userTeamId == Some(tid), draws(|s.picks|));
    if choice.Some? {
      var k := choice.value;
      var p := s.players[k];
      SameRollLookups(s.players, r.players);
      OwnIdResolves(s.players, k);
      assert TierOf(s.players, p.id) == Some(p.tier);
      var existing := ExistingTiers(s.players, team.roster);
      assert p.tier !in existing;
      forall t | 0 <= t < |r.teams| ensures DistinctTiers(r.players, r.teams[t].roster) {
        if t != ti {
          assert r.teams[t] == s.teams[t];
        } else {
          var roster := team.roster + [p.id];
          assert r.teams[t].roster == roster;
          forall i, j | 0 <= i < j < |roster| && TierOf(r.players, roster[i]).Some? && TierOf(r.players, roster[i]).value != 0
            ensures TierOf(r.players, roster[i]) != TierOf(r.players, roster[j])
          {
            assert roster[i] == team.roster[i];
            if j == |team.roster| {
              assert HoldsTier(s.players, team.roster, TierOf(s.players, roster[i]).value);
            } else {
              assert roster[j] == team.roster[j];
            }
          }
        }
      }
    }
  }

  lemma {:induction false} RunOrderKeepsTierRule(s: Progress, order: seq<Id>, round: Round, userTeamId: Option<Id>, draws: nat -> PickDraw)
    requires Resolves(s.teams, order)
    requires UniquePlayerIds(s.players) && TierRule(s.players, s.teams)
    ensures TierRule(RunOrder(s, order, round, userTeamId, draws).players, RunOrder(s, order, round, userTeamId, draws).teams)
    ensures UniquePlayerIds(RunOrder(s, order, round, userTeamId, draws).players)
    decreases |order|
  {
    if order != [] {
      var front := order[..|order| - 1];
      RunOrderKeepsTierRule(s, front, round, userTeamId, draws);
      var prior := RunOrder(s, front, round, userTeamId, draws);
      DraftStepKeepsTierRule(prior, order[|order| - 1], round, userTeamId, draws);
      SameRollLookups(prior.players, RunOrder(s, order, round, userTeamId, draws).players);
    }
  }

  /** If no roster starts with two players of one non-zero tier, none ends the
      draft with two. */
  lemma DraftKeepsTierRule(players: seq<Player>, teams: seq<Team>, draft: DraftState, userTeamId: Option<Id>,
                           shuffleDraws: nat -> Unit, pickDraws: nat -> PickDraw)
    requires Resolves(teams, draft.order)
    requires UniquePlayerIds(players) && TierRule(players, teams)
    ensures TierRule(Draft(players, teams, draft, userTeamId, shuffleDraws, pickDraws).players,
                     Draft(players, teams, draft, userTeamId, shuffleDraws, pickDraws).teams)
  {
    OrdersResolve(players, teams, draft, shuffleDraws);
    var order12 := OrderOneTwo(teams, draft, shuffleDraws);
    var order3 := EntryIds(RoundThreeEntries(players, teams));
    var s0 := Progress(players, teams, []);
    RunOrderKeepsTierRule(s0, order12, RoundOne, userTeamId, pickDraws);
    var s1 := RunOrder(s0, order12, RoundOne, userTeamId, pickDraws);
    RunOrderKeepsTierRule(s1, order12, RoundTwo, userTeamId, pickDraws);
    var s2 := RunOrder(s1, order12, RoundTwo, userTeamId, pickDraws);
    RunOrderKeepsTierRule(s2, order3, RoundThree, userTeamId, pickDraws);
  }

  // ---------------------------------------------------------------------------
  // The pick log

  /** A null pick carries the no-candidate reason, a real pick no reason. */
  predicate WellFormedPick(p: Pick) {
    p.reason == if p.pick.None? then Some(NoCandidateReason) else None
  }

  /** The entries one round logs: one per team of its order, in that order,
      each with the round's number and a reason exactly when the pick is null. */
  predicate RoundLog(log: seq<Pick>, order: seq<Id>, num: nat) {
    |log| == |order| &&
    forall i :: 0 <= i < |log| ==> log[i].teamId == order[i] && log[i].round == num && WellFormedPick(log[i])
  }

  /** A round appends its round log to the picks made before it. */
  lemma {:induction false} RunOrderLog(s: Progress, order: seq<Id>, round: Round, userTeamId: Option<Id>, draws: nat -> PickDraw)
    requires Resolves(s.teams, order)
    ensures |RunOrder(s, order, round, userTeamId, draws).picks| == |s.picks| + |order|
    ensures RunOrder(s, order, round, userTeamId, draws).picks ==
      s.picks + RunOrder(s, order, round, userTeamId, draws).picks[|s.picks|..]
    ensures RoundLog(RunOrder(s, order, round, userTeamId, draws).picks[|s.picks|..], order, round.num)
    decreases |order|
  {
    if order != [] {
      var front := order[..|order| - 1];
      RunOrderLog(s, front, round, userTeamId, draws);
      var prior := RunOrder(s, front, round, userTeamId, draws);
      var r := RunOrder(s, order, round, userTeamId, draws);
      StepAppends(s.picks, prior.picks, r.picks, front, order, round.num);
    }
  }

  lemma StepAppends(before: seq<Pick>, prior: seq<Pick>, after: seq<Pick>, front: seq<Id>, order: seq<Id>, num: nat)
    requires |prior| >= |before| && prior == before + prior[|before|..] && RoundLog(prior[|before|..], front, num)
    requires order != [] && front == order[..|order| - 1]
    requires |after| == |prior| + 1 && after[..|prior|] == prior
    requires after[|prior|].teamId == order[|order| - 1] && after[|prior|].round == num && WellFormedPick(after[|prior|])
    ensures after == before + after[|before|..]
    ensures RoundLog(after[|before|..], order, num)
  {
    var last := after[|prior|];
    assert after == prior + [last];
    assert after[|before|..] == prior[|before|..] + [last];
  }

  /** The log of a draft run: round one and round two over the shared order,
      then round three over the join-date order, appended to the stored log;
      the shared order is stored back. */
  lemma DraftLog(players: seq<Player>, teams: seq<Team>, draft: DraftState, userTeamId: Option<Id>,
                 shuffleDraws: nat -> Unit, pickDraws: nat -> PickDraw)
    requires Resolves(teams, draft.order)
    ensures var d := Draft(players, teams, draft, userTeamId, shuffleDraws, pickDraws);
      var o := OrderOneTwo(teams, draft, shuffleDraws);
      var o3 := EntryIds(RoundThreeEntries(players, teams));
      && |d.picks| == 2 * |o| + |o3|
      && d.draft.order == o
      && d.draft.picks == draft.picks + d.picks
      && RoundLog(d.picks[..|o|], o, 1)
      && RoundLog(d.picks[|o|..2 * |o|], o, 2)
      && RoundLog(d.picks[2 * |o|..], o3, 3)
  {
    OrdersResolve(players, teams, draft, shuffleDraws);
    var o := OrderOneTwo(teams, draft, shuffleDraws);
    var o3 := EntryIds(RoundThreeEntries(players, teams));
    var s0 := Progress(players, teams, []);
    RunOrderLog(s0, o, RoundOne, userTeamId, pickDraws);
    var s1 := RunOrder(s0, o, RoundOne, userTeamId, pickDraws);
    RunOrderLog(s1, o, RoundTwo, userTeamId, pickDraws);
    var s2 := RunOrder(s1, o, RoundTwo, userTeamId, pickDraws);
    RunOrderLog(s2, o3, RoundThree, userTeamId, pickDraws);
    var s3 := RunOrder(s2, o3, RoundThree, userTeamId, pickDraws);
    assert s1.picks[|s0.picks|..] == s1.picks;
    ConcatRounds(s1.picks, s2.picks, s3.picks, o, o3);
  }

  lemma ConcatRounds(p1: seq<Pick>, p2: seq<Pick>, p3: seq<Pick>, o: seq<Id>, o3: seq<Id>)
    requires RoundLog(p1, o, 1)
    requires |p2| == |p1| + |o| && p2 == p1 + p2[|p1|..] && RoundLog(p2[|p1|..], o, 2)
    requires |p3| == |p2| + |o3| && p3 == p2 + p3[|p2|..] && RoundLog(p3[|p2|..], o3, 3)
    ensures |p3| == 2 * |o| + |o3|
    ensures RoundLog(p3[..|o|], o, 1) && RoundLog(p3[|o|..2 * |o|], o, 2) && RoundLog(p3[2 * |o|..], o3, 3)
  {
    assert p3[..|o|] == p1;
    assert p3[|o|..2 * |o|] == p2[|p1|..];
  }

  /** The stored order is reused as it is; without one, the order is a
      rearrangement of all team ids.  Round three's order is the teams
      rearranged by ascending leader join date. */
  lemma RoundOrders(players: seq<Player>, teams: seq<Team>, draft: DraftState, shuffleDraws: nat -> Unit)
    ensures |draft.order| > 0 ==> OrderOneTwo(teams, draft, shuffleDraws) == draft.order
    ensures |draft.order| == 0 ==> multiset(OrderOneTwo(teams, draft, shuffleDraws)) == multiset(TeamIds(teams))
    ensures var e := RoundThreeEntries(players, teams);
      && multiset(e) == multiset(JoinEntries(players, teams))
      && forall i, j :: 0 <= i < j < |e| ==> e[i].joinDate <= e[j].joinDate
  {
    ShufflePermutes(TeamIds(teams), shuffleDraws);
    SortPermutes(JoinEntries(players, teams), EarlierFirst);
    SortSorts(JoinEntries(players, teams), EarlierFirst);
    var e := RoundThreeEntries(players, teams);
    forall i, j | 0 <= i < j < |e| ensures e[i].joinDate <= e[j].joinDate {
      assert !Outranks(EarlierFirst(e[j]), EarlierFirst(e[i]));
    }
  }

  // ---------------------------------------------------------------------------
  // Picks are recorded on both sides

  /** Every team id is a truthy string (ids are generated, never empty). */
  predicate TruthyTeamIds(teams: seq<Team>) {
    forall id :: id in TeamIds(teams) ==> Truthy(id)
  }

  /** The positions of players that belong to a team. */
  function AssignedSet(players: seq<Player>): set<nat> {
    set i: nat | i < |players| && !Unassigned(players[i])
  }

  /** The number of real (non-null) picks in a log. */
  function PickCount(log: seq<Pick>): (n: nat)
    ensures n <= |log|
  {
    if log == [] then 0
    else PickCount(log[..|log| - 1]) + (if log[|log| - 1].pick.Some? then 1 else 0)
  }

  /** A real pick shows in the picked player's team reference and in the team's roster. */
  predicate PickRecorded(players: seq<Player>, teams: seq<Team>, p: Pick)
    requires p.pick.Some?
  {
    var id := p.pick.value;
    && PlayerIndex(players, id).Some? && players[PlayerIndex(players, id).value].teamId == Some(p.teamId)
    && TeamIndex(teams, p.teamId).Some? && id in teams[TeamIndex(teams, p.teamId).value].roster
  }

  /** Every real pick of the log is recorded, and no player is picked twice. */
  predicate PicksRecorded(s: Progress) {
    && (forall q :: 0 <= q < |s.picks| && s.picks[q].pick.Some? ==> PickRecorded(s.players, s.teams, s.picks[q]))
    && (forall q1, q2 :: 0 <= q1 < q2 < |s.picks| && s.picks[q1].pick.Some? ==> s.picks[q1].pick != s.picks[q2].pick)
  }

  lemma TakeKeepsOldRecords(players: seq<Player>, teams: seq<Team>, picks: seq<Pick>, k: nat, ti: nat, num: nat)
    requires k < |players| && ti < |teams| && Unassigned(players[k])
    requires TruthyTeamIds(teams) && PicksRecorded(Progress(players, teams, picks))
    ensures var r := TakePlayer(players, teams, picks, k, ti, num);
      forall q :: 0 <= q < |picks| && picks[q].pick.Some? ==> PickRecorded(r.players, r.teams, picks[q])
  {
    var r := TakePlayer(players, teams, picks, k, ti, num);
    assert PlayerIds(r.players) == PlayerIds(players);
    assert TeamIds(r.teams) == TeamIds(teams);
    forall q | 0 <= q < |picks| && picks[q].pick.Some? ensures PickRecorded(r.players, r.teams, picks[q]) {
      var e := picks[q];
      assert PickRecorded(players, teams, e);
      var idx := PlayerIndex(players, e.pick.value).value;
      var tq := TeamIndex(teams, e.teamId).value;
      assert Truthy(TeamIds(teams)[tq]);
      assert idx != k;
      assert r.players[idx] == players[idx];
      if tq == ti {
        assert r.teams[tq].roster == teams[ti].roster + [players[k].id];
      } else {
        assert r.teams[tq] == teams[tq];
      }
    }
  }

  lemma TakeRecordsNew(players: seq<Player>, teams: seq<Team>, picks: seq<Pick>, k: nat, ti: nat, num: nat)
    requires k < |players| && ti < |teams| && UniquePlayerIds(players)
    requires TeamIndex(teams, teams[ti].id) == Some(ti)
    ensures var r := TakePlayer(players, teams, picks, k, ti, num);
      PickRecorded(r.players, r.teams, r.picks[|picks|])
  {
    var r := TakePlayer(players, teams, picks, k, ti, num);
    assert PlayerIds(r.players) == PlayerIds(players);
    assert TeamIds(r.teams) == TeamIds(teams);
    OwnIdResolves(players, k);
    assert r.teams[ti].roster == teams[ti].roster + [players[k].id];
  }

  /** The frame of a pick: only the picked player and the picking team change. */
  lemma TakePlayerFrame(players: seq<Player>, teams: seq<Team>, picks: seq<Pick>, k: nat, ti: nat, num: nat)
    requires k < |players| && ti < |teams|
    ensures var r := TakePlayer(players, teams, picks, k, ti, num);
      && |r.players| == |players| && |r.teams| == |teams|
      && r.players[k] == players[k].(teamId := Some(teams[ti].id))
      && r.teams[ti].roster == teams[ti].roster + [players[k].id]
      && (forall j :: 0 <= j < |players| && j != k ==> r.players[j] == players[j])
      && (forall j :: 0 <= j < |teams| && j != ti ==> r.teams[j] == teams[j])
      && r.picks == picks + [Pick(teams[ti].id, Some(players[k].id), None, num)]
  {
  }

  lemma TakeKeepsDistinct(players: seq<Player>, teams: seq<Team>, picks: seq<Pick>, k: nat, ti: nat, num: nat)
    requires k < |players| && ti < |teams| && Unassigned(players[k]) && UniquePlayerIds(players)
    requires TruthyTeamIds(teams) && PicksRecorded(Progress(players, teams, picks))
    ensures var r := TakePlayer(players, teams, picks, k, ti, num);
      forall q1, q2 :: 0 <= q1 < q2 < |r.picks| && r.picks[q1].pick.Some? ==> r.picks[q1].pick != r.picks[q2].pick
  {
    var r := TakePlayer(players, teams, picks, k, ti, num);
    OwnIdResolves(players, k);
    forall q1, q2 | 0 <= q1 < q2 < |r.picks| && r.picks[q1].pick.Some? ensures r.picks[q1].pick != r.picks[q2].pick {
      assert r.picks[q1] == picks[q1];
      if q2 < |picks| {
        assert r.picks[q2] == picks[q2];
      } else {
        assert PickRecorded(players, teams, picks[q1]);
        var tq := TeamIndex(teams, picks[q1].teamId).value;
        assert Truthy(TeamIds(teams)[tq]);
      }
    }
  }

  lemma TakeCounts(players: seq<Player>, teams: seq<Team>, picks: seq<Pick>, k: nat, ti: nat, num: nat)
    requires k < |players| && ti < |teams| && Unassigned(players[k]) && TruthyTeamIds(teams)
    ensures var r := TakePlayer(players, teams, picks, k, ti, num);
      |AssignedSet(r.players)| == |AssignedSet(players)| + 1 && PickCount(r.picks) == PickCount(picks) + 1
  {
    var r := TakePlayer(players, teams, picks, k, ti, num);
    assert Truthy(TeamIds(teams)[ti]);
    assert AssignedSet(r.players) == AssignedSet(players) + {k};
    assert r.picks[..|picks|] == picks;
  }

  /** One turn keeps every real pick recorded, and the number of assigned
      players grows exactly with the number of real picks. */
  lemma DraftStepRecords(s: Progress, tid: Id, round: Round, userTeamId: Option<Id>, draws: nat -> PickDraw)
    requires tid in TeamIds(s.teams)
    requires UniquePlayerIds(s.players) && TruthyTeamIds(s.teams) && PicksRecorded(s)
    ensures PicksRecorded(DraftStep(s, tid, round, userTeamId, draws))
    ensures |AssignedSet(DraftStep(s, tid, round, userTeamId, draws).players)| + PickCount(s.picks) ==
            |AssignedSet(s.players)| + PickCount(DraftStep(s, tid, round, userTeamId, draws).picks)
  {
    var r := DraftStep(s, tid, round, userTeamId, draws);
    var ti := TeamIndex(s.teams, tid).value;
    var choice := AiOrUserPick(s.players, s.teams[ti], round.allowedTiers, userTeamId == Some(tid), draws(|s.picks|));
    if choice.None? {
      assert r.picks[..|s.picks|] == s.picks;
      assert r.players == s.players && r.teams == s.teams;
    } else {
      var k := choice.value;
      TakeKeepsRecords(s.players, s.teams, s.picks, k, ti, round.num);
    }
  }

  /** Taking an unassigned player keeps every pick recorded and adds one assignment and one pick. */
  lemma TakeKeepsRecords(players: seq<Player>, teams: seq<Team>, picks: seq<Pick>, k: nat, ti: nat, num: nat)
    requires k < |players| && ti < |teams| && Unassigned(players[k]) && UniquePlayerIds(players)
    requires TruthyTeamIds(teams) && TeamIndex(teams, teams[ti].id) == Some(ti)
    requires PicksRecorded(Progress(players, teams, picks))
    ensures var r := TakePlayer(players, teams, picks, k, ti, num);
      && PicksRecorded(r)
      && |AssignedSet(r.players)| + PickCount(picks) == |AssignedSet(players)| + PickCount(r.picks)
  {
    var r := TakePlayer(players, teams, picks, k, ti, num);
    TakeKeepsOldRecords(players, teams, picks, k, ti, num);
    TakeRecordsNew(players, teams, picks, k, ti, num);
    TakeKeepsDistinct(players, teams, picks, k, ti, num);
    TakeCounts(players, teams, picks, k, ti, num);
    assert forall q :: 0 <= q < |picks| ==> r.picks[q] == picks[q];
  }

  lemma {:induction false} RunOrderRecords(s: Progress, order: seq<Id>, round: Round, userTeamId: Option<Id>, draws: nat -> PickDraw)
    requires Resolves(s.teams, order)
    requires UniquePlayerIds(s.players) && TruthyTeamIds(s.teams) && PicksRecorded(s)
    ensures PicksRecorded(RunOrder(s, order, round, userTeamId, draws))
    ensures UniquePlayerIds(RunOrder(s, order, round, userTeamId, draws).players)
    ensures |AssignedSet(RunOrder(s, order, round, userTeamId, draws).players)| + PickCount(s.picks) ==
            |AssignedSet(s.players)| + PickCount(RunOrder(s, order, round, userTeamId, draws).picks)
    decreases |order|
  {
    if order != [] {
      var front := order[..|order| - 1];
      RunOrderRecords(s, front, round, userTeamId, draws);
      var prior := RunOrder(s, front, round, userTeamId, draws);
      DraftStepRecords(prior, order[|order| - 1], round, userTeamId, draws);
      SameRollLookups(prior.players, RunOrder(s, order, round, userTeamId, draws).players);
    }
  }

  /** After a draft, every real pick of this run shows in the picked player's
      team reference and in the picking team's roster, no player was picked
      twice, and exactly as many players became assigned as real picks were made. */
  lemma DraftRecordsPicks(players: seq<Player>, teams: seq<Team>, draft: DraftState, userTeamId: Option<Id>,
                          shuffleDraws: nat -> Unit, pickDraws: nat -> PickDraw)
    requires Resolves(teams, draft.order)
    requires UniquePlayerIds(players) && TruthyTeamIds(teams)
    ensures var d := Draft(players, teams, draft, userTeamId, shuffleDraws, pickDraws);
      && PicksRecorded(Progress(d.players, d.teams, d.picks))
      && |AssignedSet(d.players)| == |AssignedSet(players)| + PickCount(d.picks)
  {
    OrdersResolve(players, teams, draft, shuffleDraws);
    var o := OrderOneTwo(teams, draft, shuffleDraws);
    var o3 := EntryIds(RoundThreeEntries(players, teams));
    var s0 := Progress(players, teams, []);
    RunOrderRecords(s0, o, RoundOne, userTeamId, pickDraws);
    var s1 := RunOrder(s0, o, RoundOne, userTeamId, pickDraws);
    RunOrderRecords(s1, o, RoundTwo, userTeamId, pickDraws);
    var s2 := RunOrder(s1, o, RoundTwo, userTeamId, pickDraws);
    RunOrderRecords(s2, o3, RoundThree, userTeamId, pickDraws);
  }
}
