/** The detailed standings table (components/LeagueTable.tsx). */
module LeagueTable {
  import opened Types
  import opened Ranking
  import Standings

  /** Played, won, drawn and lost: the shape of the totals and of the home and away splits. */
  datatype Split = Split(played: nat, won: nat, drawn: nat, lost: nat)

  function NoSplit(): Split { Split(0, 0, 0, 0) }

  function AddSplit(a: Split, b: Split): Split {
    Split(a.played + b.played, a.won + b.won, a.drawn + b.drawn, a.lost + b.lost)
  }

  /** One played match, seen from the side that scored `own` and conceded `other`. */
  function Outcome(own: nat, other: nat): Split {
    Split(1, if own > other then 1 else 0, if own == other then 1 else 0, if own < other then 1 else 0)
  }

  /** The sixteen counters one participant's row accumulates. */
  datatype Counters = Counters(total: Split, home: Split, away: Split, gf: nat, ga: nat, yellow: nat, red: nat)

  function NoCounters(): Counters { Counters(NoSplit(), NoSplit(), NoSplit(), 0, 0, 0, 0) }

  function AddCounters(a: Counters, b: Counters): Counters {
    Counters(AddSplit(a.total, b.total), AddSplit(a.home, b.home), AddSplit(a.away, b.away),
             a.gf + b.gf, a.ga + b.ga, a.yellow + b.yellow, a.red + b.red)
  }

  /**
   * What one match adds to player `uid`'s counters: nothing unless CONFIRMED; as home when
   * `uid` is the home player (even if it is also the away player), else as away.
   */
  function Credit(uid: Id, m: Match): Counters {
    if m.status != Confirmed then NoCounters()
    else if m.homePlayerId == uid then
      var o := Outcome(m.homeStats.goals, m.awayStats.goals);
      Counters(o, o, NoSplit(), m.homeStats.goals, m.awayStats.goals, m.homeStats.yellowCards, m.homeStats.redCards)
    else if m.awayPlayerId == uid then
      var o := Outcome(m.awayStats.goals, m.homeStats.goals);
      Counters(o, NoSplit(), o, m.awayStats.goals, m.homeStats.goals, m.awayStats.yellowCards, m.awayStats.redCards)
    else NoCounters()
  }

  /** The counters after the `forEach` over `ms`, in match order. */
  function Tally(uid: Id, ms: seq<Match>): Counters {
    if ms == [] then NoCounters()
    else AddCounters(Tally(uid, ms[..|ms| - 1]), Credit(uid, ms[|ms| - 1]))
  }

  datatype LeagueRow = LeagueRow(
    userId: Id, nickname: string,
    played: nat, won: nat, drawn: nat, lost: nat,
    gf: nat, ga: nat, gd: int, points: nat,
    yellow: nat, red: nat,
    home: Split, away: Split)

  /** The row object built from the final counters. */
  function RowFrom(u: User, c: Counters): LeagueRow {
    LeagueRow(u.id, u.nickname, c.total.played, c.total.won, c.total.drawn, c.total.lost,
              c.gf, c.ga, c.gf - c.ga, c.total.won * 3 + c.total.drawn, c.yellow, c.red, c.home, c.away)
  }

  function RowOf(u: User, ms: seq<Match>): LeagueRow {
    RowFrom(u, Tally(u.id, ms))
  }

  function RowRank(r: LeagueRow): Rank {
    Rank(r.points, r.gd, r.gf)
  }

  function UnsortedRows(participants: seq<User>, ms: seq<Match>): (r: seq<LeagueRow>)
    ensures |r| == |participants|
    ensures forall i :: 0 <= i < |participants| ==> r[i] == RowOf(participants[i], ms)
  {
    Map(participants, (u: User) => RowOf(u, ms))
  }

  /** The table `LeagueTable` renders. */
  function TableOf(participants: seq<User>, ms: seq<Match>): seq<LeagueRow> {
    SortRanked(UnsortedRows(participants, ms), RowRank)
  }

  /**
   * The `forEach` callback: a match that is not CONFIRMED is skipped; otherwise the player's
   * side (home first) adds one played match, the goals for and against, its own cards and the
   * result, to the totals and to that side's split. The sixteen counters it increments are
   * grouped as one `Counters` value.
   */
  method CountMatch(uid: Id, m: Match, c: Counters) returns (d: Counters)
    ensures d == AddCounters(c, Credit(uid, m))
  {
    d := c;
    if m.status != Confirmed {
      return;
    }
    if m.homePlayerId == uid {
      d := d.(total := d.total.(played := d.total.played + 1), home := d.home.(played := d.home.played + 1));
      d := d.(gf := d.gf + m.homeStats.goals, ga := d.ga + m.awayStats.goals);
      d := d.(yellow := d.yellow + m.homeStats.yellowCards, red := d.red + m.homeStats.redCards);
      if m.homeStats.goals > m.awayStats.goals {
        d := d.(total := d.total.(won := d.total.won + 1), home := d.home.(won := d.home.won + 1));
      } else if m.homeStats.goals == m.awayStats.goals {
        d := d.(total := d.total.(drawn := d.total.drawn + 1), home := d.home.(drawn := d.home.drawn + 1));
      } else {
        d := d.(total := d.total.(lost := d.total.lost + 1), home := d.home.(lost := d.home.lost + 1));
      }
    } else if m.awayPlayerId == uid {
      d := d.(total := d.total.(played := d.total.played + 1), away := d.away.(played := d.away.played + 1));
      d := d.(gf := d.gf + m.awayStats.goals, ga := d.ga + m.homeStats.goals);
      d := d.(yellow := d.yellow + m.awayStats.yellowCards, red := d.red + m.awayStats.redCards);
      if m.awayStats.goals > m.homeStats.goals {
        d := d.(total := d.total.(won := d.total.won + 1), away := d.away.(won := d.away.won + 1));
      } else if m.awayStats.goals == m.homeStats.goals {
        d := d.(total := d.total.(drawn := d.total.drawn + 1), away := d.away.(drawn := d.away.drawn + 1));
      } else {
        d := d.(total := d.total.(lost := d.total.lost + 1), away := d.away.(lost := d.away.lost + 1));
      }
    }
  }

  /** One participant's pass over the matches, then the row object built from the counters. */
  method ParticipantRow(user: User, matches: seq<Match>) returns (row: LeagueRow)
    ensures row == RowOf(user, matches)
  {
    var c := NoCounters();
    for j := 0 to |matches|
      invariant c == Tally(user.id, matches[..j])
    {
      TallyStep(user.id, matches, j);
      c := CountMatch(user.id, matches[j], c);
    }
    assert matches[..|matches|] == matches;
    row := LeagueRow(user.id, user.nickname, c.total.played, c.total.won, c.total.drawn, c.total.lost,
                     c.gf, c.ga, c.gf - c.ga, (c.total.won * 3) + c.total.drawn, c.yellow, c.red,
                     c.home, c.away);
  }

  /**
   * The `stats` computation: per participant, a pass over the matches that increments the
   * sixteen counters, then the sort by points, goal difference and goals for.
   */
  method ComputeTable(participants: seq<User>, matches: seq<Match>) returns (rows: seq<LeagueRow>)
    ensures rows == TableOf(participants, matches)
    ensures |rows| == |participants|
    ensures multiset(rows) == multiset(UnsortedRows(participants, matches))
    ensures Sorted(rows, RowRank)
    ensures forall k :: WithRank(rows, RowRank, k) == WithRank(UnsortedRows(participants, matches), RowRank, k)
  {
    var stats: seq<LeagueRow> := [];
    for k := 0 to |participants|
      invariant |stats| == k
      invariant forall i :: 0 <= i < k ==> stats[i] == RowOf(participants[i], matches)
    {
      var row := ParticipantRow(participants[k], matches);
      stats := stats + [row];
    }
    assert stats == UnsortedRows(participants, matches);
    rows := SortRanked(stats, RowRank);
    SortRankedCorrect(stats, RowRank);
  }

  /** One more iteration adds the next match's credit. */
  lemma TallyStep(uid: Id, ms: seq<Match>, j: nat)
    requires j < |ms|
    ensures Tally(uid, ms[..j + 1]) == AddCounters(Tally(uid, ms[..j]), Credit(uid, ms[j]))
  {
    assert ms[..j + 1][..j] == ms[..j];
  }

  lemma AddCountersAssoc(x: Counters, y: Counters, z: Counters)
    ensures AddCounters(AddCounters(x, y), z) == AddCounters(x, AddCounters(y, z))
  {
  }

  lemma AddNoCounters(x: Counters)
    ensures AddCounters(x, NoCounters()) == x
    ensures AddCounters(NoCounters(), x) == x
  {
  }

  lemma {:induction false} TallyAppend(uid: Id, a: seq<Match>, b: seq<Match>)
    ensures Tally(uid, a + b) == AddCounters(Tally(uid, a), Tally(uid, b))
    decreases |b|
  {
    if b == [] {
      assert a + b == a;
      assert Tally(uid, b) == NoCounters();
      AddNoCounters(Tally(uid, a));
    } else {
      var init, last := b[..|b| - 1], b[|b| - 1];
      assert (a + b)[..|a + b| - 1] == a + init;
      assert (a + b)[|a + b| - 1] == last;
      TallyAppend(uid, a, init);
      AddCountersAssoc(Tally(uid, a), Tally(uid, init), Credit(uid, last));
    }
  }

  lemma TallyCons(uid: Id, ms: seq<Match>)
    requires ms != []
    ensures Tally(uid, ms) == AddCounters(Credit(uid, ms[0]), Tally(uid, ms[1..]))
  {
    assert ms == [ms[0]] + ms[1..];
    TallyAppend(uid, [ms[0]], ms[1..]);
    assert [ms[0]][..0] == [];
    AddNoCounters(Credit(uid, ms[0]));
  }

  /** The counters every row satisfies. */
  ghost predicate Consistent(c: Counters) {
    && c.total.played == c.total.won + c.total.drawn + c.total.lost
    && c.home.played == c.home.won + c.home.drawn + c.home.lost
    && c.away.played == c.away.won + c.away.drawn + c.away.lost
    && c.total.played == c.home.played + c.away.played
    && c.total.won == c.home.won + c.away.won
    && c.total.drawn == c.home.drawn + c.away.drawn
    && c.total.lost == c.home.lost + c.away.lost
  }

  /**
   * Every row is consistent: played is won + drawn + lost and home + away played, and the
   * home and away splits add up to the totals.
   */
  lemma {:induction false} TallyConsistent(uid: Id, ms: seq<Match>)
    ensures Consistent(Tally(uid, ms))
  {
    if ms != [] {
      TallyConsistent(uid, ms[..|ms| - 1]);
      CreditConsistent(uid, ms[|ms| - 1]);
      AddConsistent(Tally(uid, ms[..|ms| - 1]), Credit(uid, ms[|ms| - 1]));
    }
  }

  lemma CreditConsistent(uid: Id, m: Match)
    ensures Consistent(Credit(uid, m))
  {
  }

  lemma AddConsistent(x: Counters, y: Counters)
    requires Consistent(x) && Consistent(y)
    ensures Consistent(AddCounters(x, y))
  {
  }

  /** The same identities, read off the row object. */
  lemma RowConsistent(u: User, ms: seq<Match>)
    ensures var r := RowOf(u, ms);
      && r.played == r.won + r.drawn + r.lost
      && r.played == r.home.played + r.away.played
      && r.won == r.home.won + r.away.won
      && r.drawn == r.home.drawn + r.away.drawn
      && r.lost == r.home.lost + r.away.lost
      && r.points == 3 * r.won + r.drawn
      && r.gd == r.gf - r.ga
  {
    TallyConsistent(u.id, ms);
  }

  /** Cards of the player's own side of a confirmed match it played. */
  function OwnYellow(uid: Id, ms: seq<Match>): nat {
    if ms == [] then 0
    else OwnYellow(uid, ms[1..]) + (if Standings.Counts(uid, ms[0]) then OwnSide(uid, ms[0]).yellowCards else 0)
  }

  function OwnRed(uid: Id, ms: seq<Match>): nat {
    if ms == [] then 0
    else OwnRed(uid, ms[1..]) + (if Standings.Counts(uid, ms[0]) then OwnSide(uid, ms[0]).redCards else 0)
  }

  /** The side of the match that belongs to `uid` (home when it is on both sides). */
  function OwnSide(uid: Id, m: Match): MatchStats {
    if m.homePlayerId == uid then m.homeStats else m.awayStats
  }

  /** Yellow and red cards accumulate only the player's own side's cards. */
  lemma {:induction false} CardsAreOwnSide(uid: Id, ms: seq<Match>)
    ensures Tally(uid, ms).yellow == OwnYellow(uid, ms)
    ensures Tally(uid, ms).red == OwnRed(uid, ms)
  {
    if ms != [] {
      TallyCons(uid, ms);
      CardsAreOwnSide(uid, ms[1..]);
    }
  }

  /** Matches that are not CONFIRMED never affect a counter. */
  lemma {:induction false} OnlyConfirmedCount(uid: Id, ms: seq<Match>)
    ensures Tally(uid, ms) == Tally(uid, Standings.ConfirmedOnly(ms))
  {
    if ms != [] {
      TallyCons(uid, ms);
      OnlyConfirmedCount(uid, ms[1..]);
      AddNoCounters(Tally(uid, ms[1..]));
      if ms[0].status == Confirmed {
        TallyCons(uid, Standings.ConfirmedOnly(ms));
        assert Standings.ConfirmedOnly(ms)[1..] == Standings.ConfirmedOnly(ms[1..]);
      } else {
        assert Standings.ConfirmedOnly(ms) == Standings.ConfirmedOnly(ms[1..]);
      }
    }
  }

  /** A confirmed match with the player on both sides counts once, as a home match. */
  lemma SelfMatchCountsOnceAsHome(uid: Id, m: Match)
    requires m.status == Confirmed && m.homePlayerId == uid && m.awayPlayerId == uid
    ensures Tally(uid, [m]).total.played == 1 && Tally(uid, [m]).home.played == 1
    ensures Tally(uid, [m]).away.played == 0
  {
    assert [m][..0] == [];
  }

  /** Both tables credit a participant with the same points, goal difference and goals for. */
  lemma {:induction false} SameRankAsStandings(uid: Id, ms: seq<Match>)
    ensures var c := Tally(uid, ms);
      var s := Standings.Tally(uid, ms);
      s.points == 3 * c.total.won + c.total.drawn && s.gf == c.gf && s.ga == c.ga
  {
    if ms != [] {
      SameRankAsStandings(uid, ms[..|ms| - 1]);
      SameCredit(uid, ms[|ms| - 1]);
    }
  }

  lemma SameCredit(uid: Id, m: Match)
    ensures var c := Credit(uid, m);
      var s := Standings.Credit(uid, m);
      s.points == 3 * c.total.won + c.total.drawn && s.gf == c.gf && s.ga == c.ga
  {
  }

  function Compact(r: LeagueRow): Standings.StandingsRow {
    Standings.StandingsRow(r.userId, r.points, r.gd, r.gf)
  }

  function RowUserId(r: LeagueRow): Id { r.userId }

  function StandingsRowId(r: Standings.StandingsRow): Id { r.id }

  /**
   * The detailed table lists the participants in the same order as `getStandings`, which
   * seeds the knockout phase.
   */
  lemma SameOrderAsStandings(participants: seq<User>, ms: seq<Match>)
    ensures Map(TableOf(participants, ms), RowUserId)
         == Map(Standings.StandingsOf(participants, ms), StandingsRowId)
  {
    var league := UnsortedRows(participants, ms);
    CompactRows(participants, ms);
    SortRankedMap(league, RowRank, Compact, Standings.RowRank);
    var sorted := SortRanked(league, RowRank);
    var ids, compactIds := Map(sorted, RowUserId), Map(Map(sorted, Compact), StandingsRowId);
    assert |ids| == |compactIds|;
    forall i | 0 <= i < |ids| ensures ids[i] == compactIds[i] {
    }
    assert ids == compactIds;
  }

  /** Compacting the detailed rows gives the rows `getStandings` builds, before sorting. */
  lemma CompactRows(participants: seq<User>, ms: seq<Match>)
    ensures Map(UnsortedRows(participants, ms), Compact) == Standings.UnsortedRows(participants, ms)
  {
    var compact, rows := Map(UnsortedRows(participants, ms), Compact), Standings.UnsortedRows(participants, ms);
    forall i | 0 <= i < |participants| ensures compact[i] == rows[i] {
      SameRankAsStandings(participants[i].id, ms);
    }
  }
}
