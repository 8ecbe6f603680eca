/**
 * `handleStartTournament` of components/TournamentView.tsx: with at least two participants
 * the tournament becomes ACTIVE and its matches are replaced by the initial fixtures of its
 * format; with fewer it is left alone.
 */
module Start {
  import opened Types
  import opened Fixtures
  import opened RoundRobin
  import opened LeagueFacts
  import opened Groups
  import opened Knockout

  /** A CHAMPIONS tournament with more participants than this opens with a group stage. */
  const KnockoutCapacity: nat := 16

  /**
   * The fixtures the handler pushes for participants `p`; `shuffled` is the random order
   * `[...p].sort(() => 0.5 - Math.random())` of the group stage or of `generateKnockoutRound`.
   */
  function InitialSchedule(kind: TournamentType, p: seq<Id>, shuffled: seq<Id>): seq<Fixture>
    requires |p| >= 2
  {
    match kind
    case League => LeagueSchedule(p)
    case Friendly => [Fixture(p[0], p[1], 1, false)]
    case Champions =>
      if |p| > KnockoutCapacity then GroupSchedule(shuffled)
      else KnockoutSchedule(shuffled, InitialRound(|p|))
  }

  /** The tournament `handleStartTournament` hands to `onUpdate`, or `t` itself where it alerts. */
  function Started(t: Tournament, shuffle: seq<Id> -> seq<Id>, uuid: nat -> Id): Tournament {
    if |t.participants| < 2 then t
    else
      var p := t.participants;
      t.(status := Active, matches := Materialize(t.id, uuid, 0, InitialSchedule(t.kind, p, shuffle(p))))
  }

  /** The branch of the handler that fills `matches`. */
  method InitialFixtures(kind: TournamentType, p: seq<Id>, shuffle: seq<Id> -> seq<Id>) returns (fixtures: seq<Fixture>)
    requires |p| >= 2
    ensures fixtures == InitialSchedule(kind, p, shuffle(p))
  {
    if kind == League {
      fixtures := LeagueFixtures(p);
    } else if kind == Friendly {
      fixtures := [Fixture(p[0], p[1], 1, false)];
    } else {
      if |p| > 16 {
        fixtures := GroupFixtures(shuffle(p));
      } else {
        var initialRound := if |p| > 8 then 1 else if |p| > 4 then 2 else if |p| > 2 then 3 else 4;
        fixtures := GenerateKnockoutRound(shuffle(p), initialRound, []);
      }
    }
  }

  /** `handleStartTournament`. */
  method StartTournament(t: Tournament, shuffle: seq<Id> -> seq<Id>, uuid: nat -> Id) returns (updated: Tournament)
    ensures updated == Started(t, shuffle, uuid)
  {
    if |t.participants| < 2 {
      updated := t;
      return;
    }
    var fixtures := InitialFixtures(t.kind, t.participants, shuffle);
    updated := t.(status := Active, matches := Materialize(t.id, uuid, 0, fixtures));
  }

  /** The fixture each match of `ms` was created from. */
  function FixturesOf(ms: seq<Match>): (fs: seq<Fixture>)
    ensures |fs| == |ms| && forall j :: 0 <= j < |ms| ==> fs[j] == FixtureOf(ms[j])
  {
    if ms == [] then [] else [FixtureOf(ms[0])] + FixturesOf(ms[1..])
  }

  /**
   * With fewer than two participants nothing changes. Otherwise the tournament is ACTIVE, every
   * other field but the matches is kept, the old matches are replaced, and every new match is
   * unplayed, owned by the tournament, numbered by `uuid` and created from the format's schedule.
   */
  lemma StartedShape(t: Tournament, shuffle: seq<Id> -> seq<Id>, uuid: nat -> Id)
    ensures |t.participants| < 2 ==> Started(t, shuffle, uuid) == t
    ensures |t.participants| >= 2 ==>
      var u := Started(t, shuffle, uuid);
      u.status == Active && u.(status := t.status, matches := t.matches) == t &&
      FixturesOf(u.matches) == InitialSchedule(t.kind, t.participants, shuffle(t.participants)) &&
      forall j :: 0 <= j < |u.matches| ==> Unplayed(u.matches[j]) && u.matches[j].id == uuid(j) && u.matches[j].tournamentId == t.id
  {
    if |t.participants| >= 2 {
      var fs := InitialSchedule(t.kind, t.participants, shuffle(t.participants));
      MaterializedAreUnplayed(t.id, uuid, 0, fs);
    }
  }

  /**
   * A league of `k` distinct participants is scheduled `k * (k - 1)` matches, in which every
   * two of them meet exactly once in a first leg and once in a second leg.
   */
  lemma StartLeague(p: seq<Id>, shuffled: seq<Id>, a: Id, b: Id)
    requires |p| >= 2 && Distinct(p) && a in p && b in p && a != b
    ensures var fs := InitialSchedule(League, p, shuffled);
      |fs| == |p| * (|p| - 1) && Meetings(fs, a, b, false) == 1 && Meetings(fs, a, b, true) == 1
  {
    LeagueSize(p);
    EveryPairMeetsOnce(p, a, b);
  }

  /** A reordering of a list without repeats has no repeats. */
  lemma {:induction false} DistinctCount(p: seq<Id>, x: Id)
    requires Distinct(p)
    ensures multiset(p)[x] <= 1
  {
    if p != [] {
      var init := p[..|p| - 1];
      LastSplit(p);
      DistinctCount(init, x);
      assert multiset(p) == multiset(init) + multiset{p[|p| - 1]};
      if x == p[|p| - 1] {
        assert x !in init;
      }
    }
  }

  lemma RepeatCount(s: seq<Id>, j: nat, k: nat)
    requires j < k < |s| && s[j] == s[k]
    ensures multiset(s)[s[j]] >= 2
  {
    assert s == s[..k] + [s[k]] + s[k + 1..];
    assert s[j] in s[..k];
  }

  lemma PermutationDistinct(p: seq<Id>, s: seq<Id>)
    requires Distinct(p) && multiset(s) == multiset(p)
    ensures Distinct(s)
  {
    forall j, k | 0 <= j < k < |s| ensures s[j] != s[k] {
      if s[j] == s[k] {
        RepeatCount(s, j, k);
        DistinctCount(p, s[j]);
      }
    }
  }

  /**
   * A CHAMPIONS tournament of more than 16 distinct participants, shuffled without loss, opens
   * with a group stage of exactly four matches per participant, all in round 0, none repeating
   * a pair and none between a participant and themselves.
   */
  lemma StartGroups(t: Tournament, shuffle: seq<Id> -> seq<Id>, uuid: nat -> Id)
    requires t.kind == Champions && |t.participants| > KnockoutCapacity && Distinct(t.participants)
    requires multiset(shuffle(t.participants)) == multiset(t.participants)
    ensures var fs := FixturesOf(Started(t, shuffle, uuid).matches);
      |fs| == MatchesPerPlayer * |t.participants| && Unrepeated(fs) &&
      forall f :: f in fs ==> f.round == 0 && f.home in t.participants && f.away in t.participants && f.home != f.away
  {
    var p := t.participants;
    var s := shuffle(p);
    StartedShape(t, shuffle, uuid);
    PermutationDistinct(p, s);
    assert |s| == |p| by {
      assert |multiset(s)| == |multiset(p)|;
    }
    GroupScheduleSize(s);
    GroupScheduleSound(s);
    forall f | f in GroupSchedule(s) ensures f.home in p && f.away in p {
      assert f.home in multiset(s) && f.away in multiset(s);
    }
  }

  /**
   * A CHAMPIONS tournament of 2 to 16 distinct participants, shuffled without loss, opens with
   * the knockout round whose bracket fits them: `k / 2` ties of the shuffled list in that round,
   * between different participants, each with a reversed second leg unless it is the final.
   */
  lemma StartKnockout(t: Tournament, shuffle: seq<Id> -> seq<Id>, uuid: nat -> Id)
    requires t.kind == Champions && 2 <= |t.participants| <= KnockoutCapacity && Distinct(t.participants)
    requires multiset(shuffle(t.participants)) == multiset(t.participants)
    ensures var fs := FixturesOf(Started(t, shuffle, uuid).matches);
      var r := InitialRound(|t.participants|);
      fs == KnockoutSchedule(shuffle(t.participants), r) &&
      |fs| == (if r < FinalRound then 2 else 1) * (|t.participants| / 2) &&
      forall f :: f in fs ==> f.round == r && f.home in t.participants && f.away in t.participants && f.home != f.away
  {
    var p := t.participants;
    var s := shuffle(p);
    var r := InitialRound(|p|);
    StartedShape(t, shuffle, uuid);
    PermutationDistinct(p, s);
    assert |s| == |p| by {
      assert |multiset(s)| == |multiset(p)|;
    }
    KnockoutSize(s, r);
    KnockoutPlayers(s, r);
    forall f | f in KnockoutSchedule(s, r) ensures f.home in p && f.away in p {
      assert f.home in multiset(s) && f.away in multiset(s);
    }
  }
}
