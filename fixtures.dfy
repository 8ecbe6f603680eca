/**
 * Fixture generation of components/TournamentView.tsx: `createMatch`, the league schedule
 * (circle method with a `'BYE'` slot), the group schedule of large CHAMPIONS tournaments and
 * the knockout round primitive `generateKnockoutRound`.
 *
 * `crypto.randomUUID()` is the parameter `uuid`: the match created `j`-th by one handler call
 * gets `uuid(base + j)`.
 */
module Fixtures {
  import opened Types
  import opened Circle

  /** An entry of the rotated list: a participant or the `'BYE'` padding. */
  datatype Slot = Entrant(id: Id) | Bye

  /** What `createMatch` is told: players, round and leg. */
  datatype Fixture = Fixture(home: Id, away: Id, round: nat, isSecondLeg: bool)

  /** A match nobody has reported yet. */
  ghost predicate Unplayed(m: Match) {
    && m.status == Pending
    && m.homeStats == MatchStats(0, 0, 0) && m.awayStats == MatchStats(0, 0, 0)
    && m.reporterId.None? && m.confirmations == []
    && m.correctionCount == 0 && m.evidenceUrl.None?
  }

  /** The fixture a match was created from. */
  function FixtureOf(m: Match): Fixture {
    Fixture(m.homePlayerId, m.awayPlayerId, RoundOrZero(m), m.isSecondLeg)
  }

  /** `createMatch`: a fresh PENDING match for the fixture. */
  function CreateMatch(id: Id, tournamentId: Id, f: Fixture): (m: Match)
    ensures Unplayed(m) && FixtureOf(m) == f && m.round == Some(f.round)
    ensures m.id == id && m.tournamentId == tournamentId
  {
    Match(id, tournamentId, f.home, f.away, MatchStats(0, 0, 0), MatchStats(0, 0, 0), Pending,
          None, [], Some(f.round), f.isSecondLeg, 0, None)
  }

  /** The matches `createMatch` returns for `fs`, the `j`-th with id `uuid(base + j)`. */
  function Materialize(tournamentId: Id, uuid: nat -> Id, base: nat, fs: seq<Fixture>): (ms: seq<Match>)
    decreases |fs|
    ensures |ms| == |fs|
    ensures forall j :: 0 <= j < |fs| ==> ms[j] == CreateMatch(uuid(base + j), tournamentId, fs[j])
  {
    if fs == [] then []
    else [CreateMatch(uuid(base), tournamentId, fs[0])] + Materialize(tournamentId, uuid, base + 1, fs[1..])
  }

  lemma MaterializeAppend(tournamentId: Id, uuid: nat -> Id, base: nat, fs: seq<Fixture>, gs: seq<Fixture>)
    ensures Materialize(tournamentId, uuid, base, fs + gs)
         == Materialize(tournamentId, uuid, base, fs) + Materialize(tournamentId, uuid, base + |fs|, gs)
  {
    var left := Materialize(tournamentId, uuid, base, fs + gs);
    var right := Materialize(tournamentId, uuid, base, fs) + Materialize(tournamentId, uuid, base + |fs|, gs);
    forall j | 0 <= j < |left| ensures left[j] == right[j] {
      if j >= |fs| {
        assert (fs + gs)[j] == gs[j - |fs|];
      }
    }
  }

  /** Every created match is PENDING, unreported and uncorrected, and mirrors its fixture. */
  lemma MaterializedAreUnplayed(tournamentId: Id, uuid: nat -> Id, base: nat, fs: seq<Fixture>)
    ensures forall j :: 0 <= j < |fs| ==>
      var m := Materialize(tournamentId, uuid, base, fs)[j];
      Unplayed(m) && FixtureOf(m) == fs[j] && m.id == uuid(base + j) && m.tournamentId == tournamentId
  {
  }

  // ---------------------------------------------------------------------------------------
  // League: double round robin by the circle method
  // ---------------------------------------------------------------------------------------

  /** `p.length % 2 !== 0 ? [...p, 'BYE'] : p`. */
  function Rotated(p: seq<Id>): (slots: seq<Slot>)
    ensures |slots| % 2 == 0 && |p| <= |slots| <= |p| + 1
    ensures forall j :: 0 <= j < |p| ==> slots[j] == Entrant(p[j])
    ensures |slots| > |p| ==> slots[|p|] == Bye
  {
    Entrants(p) + (if |p| % 2 != 0 then [Bye] else [])
  }

  function Entrants(p: seq<Id>): (slots: seq<Slot>)
    ensures |slots| == |p| && forall j :: 0 <= j < |p| ==> slots[j] == Entrant(p[j])
  {
    if p == [] then [] else [Entrant(p[0])] + Entrants(p[1..])
  }

  /**
   * Pairing `i` of round `r` over `2q + 2` slots: the first leg in round `r + 1` and its
   * reversal in round `r + n`, or nothing when either slot is the padding.
   */
  function Pairing(slots: seq<Slot>, q: nat, r: nat, i: nat): (fs: seq<Fixture>)
    requires |slots| == 2 * q + 2 && r < 2 * q + 1 && i <= q
  {
    var h, a := slots[HomePos(q, r, i)], slots[AwayPos(q, r, i)];
    if h.Entrant? && a.Entrant? then
      [Fixture(h.id, a.id, r + 1, false), Fixture(a.id, h.id, r + 2 * q + 2, true)]
    else []
  }

  /** The fixtures of pairings `0 .. i - 1` of round `r`. */
  function RoundFixtures(slots: seq<Slot>, q: nat, r: nat, i: nat): seq<Fixture>
    requires |slots| == 2 * q + 2 && r < 2 * q + 1 && i <= q + 1
  {
    if i == 0 then [] else RoundFixtures(slots, q, r, i - 1) + Pairing(slots, q, r, i - 1)
  }

  /** The fixtures of rounds `0 .. r - 1`. */
  function LeagueUpTo(slots: seq<Slot>, q: nat, r: nat): seq<Fixture>
    requires |slots| == 2 * q + 2 && r <= 2 * q + 1
  {
    if r == 0 then [] else LeagueUpTo(slots, q, r - 1) + RoundFixtures(slots, q, r - 1, q + 1)
  }

  /** The whole league schedule for participants `p`, in the order the loops push it. */
  function LeagueSchedule(p: seq<Id>): seq<Fixture> {
    LeagueOf(Rotated(p))
  }

  /** The schedule over an even number of slots: `n - 1` rounds of `n / 2` pairings. */
  function LeagueOf(slots: seq<Slot>): seq<Fixture>
    requires |slots| % 2 == 0
  {
    if |slots| == 0 then [] else LeagueUpTo(slots, |slots| / 2 - 1, |slots| - 1)
  }

  /** The schedule over `2q + 2` slots: `2q + 1` rounds of `q + 1` pairings. */
  lemma LeagueOfRounds(slots: seq<Slot>, q: nat)
    requires |slots| == 2 * q + 2
    ensures LeagueOf(slots) == LeagueUpTo(slots, q, 2 * q + 1)
  {
    assert |slots| / 2 - 1 == q;
  }

  lemma PushNothing<T>(s: seq<T>)
    ensures s + [] == s
  {
  }

  lemma PushBlock<T>(done: seq<T>, sofar: seq<T>, block: seq<T>)
    ensures (done + sofar) + block == done + (sofar + block)
  {
  }

  /**
   * One iteration of the inner loop: reads the home slot and the away slot (the fixed last
   * slot for pairing 0) and pushes both legs unless one of them is the padding.
   */
  method PushPairing(pRotated: seq<Slot>, q: nat, r: nat, i: nat, before: seq<Fixture>) returns (fixtures: seq<Fixture>)
    requires |pRotated| == 2 * q + 2 && r < 2 * q + 1 && i <= q
    ensures fixtures == before + Pairing(pRotated, q, r, i)
  {
    var n := |pRotated|;
    var h := pRotated[HomePos(q, r, i)];
    var a := pRotated[AwayTurn(q, r, i)];
    if i == 0 {
      a := pRotated[n - 1];
    }
    assert h == pRotated[HomePos(q, r, i)] && a == pRotated[AwayPos(q, r, i)];
    fixtures := before;
    if h != Bye && a != Bye {
      var first, second := Fixture(h.id, a.id, r + 1, false), Fixture(a.id, h.id, r + n, true);
      assert Pairing(pRotated, q, r, i) == [first, second];
      fixtures := fixtures + [first];
      fixtures := fixtures + [second];
      assert fixtures == before + [first, second];
    } else {
      assert Pairing(pRotated, q, r, i) == [];
    }
  }

  /**
   * The inner `for i` loop of the LEAGUE branch: round `r`'s pairings pushed after `done`,
   * each real pairing as its first leg followed by its second leg.
   */
  method PushLeagueRound(pRotated: seq<Slot>, q: nat, r: nat, done: seq<Fixture>) returns (fixtures: seq<Fixture>)
    requires |pRotated| == 2 * q + 2 && r < 2 * q + 1
    ensures fixtures == done + RoundFixtures(pRotated, q, r, q + 1)
  {
    var n := |pRotated|;
    var half := n / 2;
    assert half == q + 1;
    fixtures := done;
    PushNothing(done);
    var i := 0;
    while i < half
      invariant 0 <= i <= half
      invariant fixtures == done + RoundFixtures(pRotated, q, r, i)
    {
      PushBlock(done, RoundFixtures(pRotated, q, r, i), Pairing(pRotated, q, r, i));
      fixtures := PushPairing(pRotated, q, r, i, fixtures);
      i := i + 1;
    }
  }

  /** The outer `for r` loop of the LEAGUE branch over the padded list. */
  method PushLeague(pRotated: seq<Slot>) returns (fixtures: seq<Fixture>)
    requires |pRotated| % 2 == 0
    ensures fixtures == LeagueOf(pRotated)
  {
    fixtures := [];
    var n := |pRotated|;
    if n == 0 {
      return;
    }
    var q := n / 2 - 1;
    assert n == 2 * q + 2;
    var r := 0;
    while r < n - 1
      invariant 0 <= r <= n - 1 == 2 * q + 1
      invariant fixtures == LeagueUpTo(pRotated, q, r)
    {
      fixtures := PushLeagueRound(pRotated, q, r, fixtures);
      r := r + 1;
    }
    LeagueOfRounds(pRotated, q);
  }

  /**
   * The LEAGUE branch of `handleStartTournament`: the list padded with `'BYE'` to an even
   * length, then the arguments of the `createMatch` calls in the order the two loops make them.
   */
  method LeagueFixtures(p: seq<Id>) returns (fixtures: seq<Fixture>)
    ensures fixtures == LeagueSchedule(p)
  {
    var pRotated := Rotated(p);
    fixtures := PushLeague(pRotated);
  }
}
