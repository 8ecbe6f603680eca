/**
 * The compact standings used for seeding the knockout phase (`getStandings` and the
 * participant lookup in components/TournamentView.tsx).
 */
module Standings {
  import opened Types
  import opened Ranking

  /** `allUsers.find(u => u.id === id)`: the first user with this id. */
  function FindUser(users: seq<User>, id: Id): (r: Option<User>)
    ensures r.Some? ==> r.value in users && r.value.id == id
    ensures r.None? ==> forall u :: u in users ==> u.id != id
  {
    if users == [] then None
    else if users[0].id == id then Some(users[0])
    else FindUser(users[1..], id)
  }

  /**
   * `participants.map(pid => allUsers.find(...)!).filter(Boolean)`: the user records of the
   * participants, in participant order; ids without a user record are dropped.
   */
  function ResolveParticipants(ids: seq<Id>, users: seq<User>): (r: seq<User>)
    ensures |r| <= |ids|
    ensures forall u :: u in r ==> u in users && u.id in ids
    ensures forall id :: id in ids && FindUser(users, id).Some? ==> FindUser(users, id).value in r
  {
    if ids == [] then []
    else
      var rest := ResolveParticipants(ids[1..], users);
      match FindUser(users, ids[0])
      case None => rest
      case Some(u) => [u] + rest
  }

  /**
   * Resolving one more id appends that id's user, if it has one, after the users already
   * resolved: participant order and one entry per resolved id are kept, as `map` then
   * `filter` keep them.
   */
  lemma {:induction false} ResolveParticipantsAppend(ids: seq<Id>, id: Id, users: seq<User>)
    ensures ResolveParticipants(ids + [id], users)
      == ResolveParticipants(ids, users) + (if FindUser(users, id).Some? then [FindUser(users, id).value] else [])
  {
    if ids == [] {
      assert ids + [id] == [id];
      assert ([id])[1..] == [];
    } else {
      assert (ids + [id])[0] == ids[0];
      assert (ids + [id])[1..] == ids[1..] + [id];
      ResolveParticipantsAppend(ids[1..], id, users);
    }
  }

  /** The three counters a getStandings row reports. */
  datatype Score = Score(points: nat, gf: nat, ga: nat)

  function AddScore(a: Score, b: Score): Score {
    Score(a.points + b.points, a.gf + b.gf, a.ga + b.ga)
  }

  /** Points for one result: 3 for a win, 1 for a draw, 0 for a loss. */
  function ResultPoints(own: nat, other: nat): nat {
    if own > other then 3 else if own == other then 1 else 0
  }

  /** What one match adds to player `uid`'s counters (home is tested before away). */
  function Credit(uid: Id, m: Match): Score {
    if m.status != Confirmed then Score(0, 0, 0)
    else if m.homePlayerId == uid then
      Score(ResultPoints(m.homeStats.goals, m.awayStats.goals), m.homeStats.goals, m.awayStats.goals)
    else if m.awayPlayerId == uid then
      Score(ResultPoints(m.awayStats.goals, m.homeStats.goals), m.awayStats.goals, m.homeStats.goals)
    else Score(0, 0, 0)
  }

  /** The counters after the `forEach` over `ms`, in match order. */
  function Tally(uid: Id, ms: seq<Match>): Score {
    if ms == [] then Score(0, 0, 0)
    else AddScore(Tally(uid, ms[..|ms| - 1]), Credit(uid, ms[|ms| - 1]))
  }

  datatype StandingsRow = StandingsRow(id: Id, points: nat, gd: int, gf: nat)

  function RowOf(uid: Id, ms: seq<Match>): StandingsRow {
    var s := Tally(uid, ms);
    StandingsRow(uid, s.points, s.gf - s.ga, s.gf)
  }

  function RowRank(r: StandingsRow): Rank {
    Rank(r.points, r.gd, r.gf)
  }

  /** The rows in participant order, before sorting. */
  function UnsortedRows(participants: seq<User>, ms: seq<Match>): (r: seq<StandingsRow>)
    ensures |r| == |participants|
    ensures forall i :: 0 <= i < |participants| ==> r[i] == RowOf(participants[i].id, ms)
  {
    Map(participants, (u: User) => RowOf(u.id, ms))
  }

  /** The value `getStandings` returns. */
  function StandingsOf(participants: seq<User>, ms: seq<Match>): seq<StandingsRow> {
    SortRanked(UnsortedRows(participants, ms), RowRank)
  }

  /**
   * `getStandings`: one row per participant, accumulated over the matches, then sorted by
   * points, goal difference and goals for, ties in participant order.
   */
  method GetStandings(participants: seq<User>, matches: seq<Match>) returns (rows: seq<StandingsRow>)
    ensures rows == StandingsOf(participants, matches)
    ensures |rows| == |participants|
    ensures multiset(rows) == multiset(UnsortedRows(participants, matches))
    ensures Sorted(rows, RowRank)
    ensures forall k :: WithRank(rows, RowRank, k) == WithRank(UnsortedRows(participants, matches), RowRank, k)
  {
    var stats: seq<StandingsRow> := [];
    for k := 0 to |participants|
      invariant |stats| == k
      invariant forall i :: 0 <= i < k ==> stats[i] == RowOf(participants[i].id, matches)
    {
      var uid := participants[k].id;
      var points: nat, gf: nat, ga: nat := 0, 0, 0;
      for j := 0 to |matches|
        invariant Score(points, gf, ga) == Tally(uid, matches[..j])
      {
        var m := matches[j];
        assert matches[..j + 1][..j] == matches[..j];
        if m.status == Confirmed {
          if m.homePlayerId == uid {
            gf := gf + m.homeStats.goals;
            ga := ga + m.awayStats.goals;
            if m.homeStats.goals > m.awayStats.goals {
              points := points + 3;
            } else if m.homeStats.goals == m.awayStats.goals {
              points := points + 1;
            }
          } else if m.awayPlayerId == uid {
            gf := gf + m.awayStats.goals;
            ga := ga + m.homeStats.goals;
            if m.awayStats.goals > m.homeStats.goals {
              points := points + 3;
            } else if m.awayStats.goals == m.homeStats.goals {
              points := points + 1;
            }
          }
        }
      }
      assert matches[..|matches|] == matches;
      stats := stats + [StandingsRow(uid, points, gf - ga, gf)];
    }
    assert stats == UnsortedRows(participants, matches);
    rows := SortRanked(stats, RowRank);
    SortRankedCorrect(stats, RowRank);
  }

  /** The player's side of the match is reported first; `uid` is home when it is on both sides. */
  function GoalsFor(uid: Id, m: Match): nat {
    if m.homePlayerId == uid then m.homeStats.goals else m.awayStats.goals
  }

  function GoalsAgainst(uid: Id, m: Match): nat {
    if m.homePlayerId == uid then m.awayStats.goals else m.homeStats.goals
  }

  predicate Counts(uid: Id, m: Match) {
    m.status == Confirmed && (m.homePlayerId == uid || m.awayPlayerId == uid)
  }

  /** Confirmed matches of `uid` that it won. */
  function Wins(uid: Id, ms: seq<Match>): nat {
    if ms == [] then 0
    else Wins(uid, ms[1..]) + (if Counts(uid, ms[0]) && GoalsFor(uid, ms[0]) > GoalsAgainst(uid, ms[0]) then 1 else 0)
  }

  /** Confirmed matches of `uid` that ended level. */
  function Draws(uid: Id, ms: seq<Match>): nat {
    if ms == [] then 0
    else Draws(uid, ms[1..]) + (if Counts(uid, ms[0]) && GoalsFor(uid, ms[0]) == GoalsAgainst(uid, ms[0]) then 1 else 0)
  }

  /** Goals `uid` scored in its confirmed matches. */
  function GoalsScored(uid: Id, ms: seq<Match>): nat {
    if ms == [] then 0
    else GoalsScored(uid, ms[1..]) + (if Counts(uid, ms[0]) then GoalsFor(uid, ms[0]) else 0)
  }

  /** Goals `uid` conceded in its confirmed matches. */
  function GoalsConceded(uid: Id, ms: seq<Match>): nat {
    if ms == [] then 0
    else GoalsConceded(uid, ms[1..]) + (if Counts(uid, ms[0]) then GoalsAgainst(uid, ms[0]) else 0)
  }

  /** The matches whose status is CONFIRMED, in order. */
  function ConfirmedOnly(ms: seq<Match>): (r: seq<Match>)
    ensures forall m :: m in r <==> m in ms && m.status == Confirmed
  {
    if ms == [] then []
    else (if ms[0].status == Confirmed then [ms[0]] else []) + ConfirmedOnly(ms[1..])
  }

  lemma {:induction false} TallyAppend(uid: Id, a: seq<Match>, b: seq<Match>)
    ensures Tally(uid, a + b) == AddScore(Tally(uid, a), Tally(uid, b))
    decreases |b|
  {
    if b == [] {
      assert a + b == a;
    } else {
      assert (a + b)[..|a + b| - 1] == a + b[..|b| - 1];
      TallyAppend(uid, a, b[..|b| - 1]);
    }
  }

  lemma TallyCons(uid: Id, ms: seq<Match>)
    requires ms != []
    ensures Tally(uid, ms) == AddScore(Credit(uid, ms[0]), Tally(uid, ms[1..]))
  {
    assert ms == [ms[0]] + ms[1..];
    TallyAppend(uid, [ms[0]], ms[1..]);
    assert [ms[0]][..0] == [];
  }

  /** One match's credit, restated through the player's own side. */
  lemma CreditIdentities(uid: Id, m: Match)
    ensures Credit(uid, m).points
         == 3 * (if Counts(uid, m) && GoalsFor(uid, m) > GoalsAgainst(uid, m) then 1 else 0)
          + (if Counts(uid, m) && GoalsFor(uid, m) == GoalsAgainst(uid, m) then 1 else 0)
    ensures Credit(uid, m).gf == if Counts(uid, m) then GoalsFor(uid, m) else 0
    ensures Credit(uid, m).ga == if Counts(uid, m) then GoalsAgainst(uid, m) else 0
  {
  }

  /**
   * A row's points are 3 per confirmed win plus 1 per confirmed draw, and its goals for and
   * against are the goals of the player's own side and of the opponent in confirmed matches;
   * the row's goal difference is their difference.
   */
  lemma {:induction false} StandingsIdentities(uid: Id, ms: seq<Match>)
    ensures Tally(uid, ms).points == 3 * Wins(uid, ms) + Draws(uid, ms)
    ensures Tally(uid, ms).gf == GoalsScored(uid, ms)
    ensures Tally(uid, ms).ga == GoalsConceded(uid, ms)
    ensures RowOf(uid, ms).gd == GoalsScored(uid, ms) - GoalsConceded(uid, ms)
  {
    if ms != [] {
      TallyCons(uid, ms);
      StandingsIdentities(uid, ms[1..]);
      CreditIdentities(uid, ms[0]);
    }
  }

  /** Matches that are not CONFIRMED never affect a row. */
  lemma {:induction false} OnlyConfirmedCount(uid: Id, ms: seq<Match>)
    ensures Tally(uid, ms) == Tally(uid, ConfirmedOnly(ms))
  {
    if ms != [] {
      TallyCons(uid, ms);
      OnlyConfirmedCount(uid, ms[1..]);
      if ms[0].status == Confirmed {
        TallyCons(uid, ConfirmedOnly(ms));
        assert ConfirmedOnly(ms)[1..] == ConfirmedOnly(ms[1..]);
      } else {
        assert ConfirmedOnly(ms) == ConfirmedOnly(ms[1..]);
      }
    }
  }
}
