/**
 * Phase advancement of CHAMPIONS tournaments in components/TournamentView.tsx:
 * `handleAdvancePhase`, the `canAdvance` and `canFinish` guards and `handleFinishTournament`.
 *
 * After the group stage (latest round 0) the sixteen best rows of the standings are seeded into
 * the round of sixteen; after a knockout round, the legs of each tie are aggregated in a `Map`
 * keyed by the unordered pair of players and the tie's winner goes through; after the final the
 * tournament is FINISHED.
 */
module Advance {
  import opened Types
  import opened Fixtures
  import opened Knockout
  import opened Ranking
  import opened Standings

  /**
   * `Math.max(...ms.map(m => m.round || 0))`: the latest round, a missing round counting as 0.
   * `None` stands for the `-Infinity` of a tournament without matches.
   */
  function MaxRound(ms: seq<Match>): (r: Option<nat>)
    ensures r.None? <==> ms == []
    ensures r.Some? ==> forall m :: m in ms ==> RoundOrZero(m) <= r.value
    ensures r.Some? ==> exists m :: m in ms && RoundOrZero(m) == r.value
  {
    if ms == [] then None
    else
      var rest := MaxRound(ms[1..]);
      if rest.Some? && rest.value > RoundOrZero(ms[0]) then rest else Some(RoundOrZero(ms[0]))
  }

  /** `ms.filter(m => m.round === r)`: a match without a round never belongs to round `r`. */
  function InRound(ms: seq<Match>, r: nat): (rm: seq<Match>)
    ensures forall m :: m in rm <==> m in ms && m.round == Some(r)
  {
    if ms == [] then []
    else (if ms[0].round == Some(r) then [ms[0]] else []) + InRound(ms[1..], r)
  }

  // ---------------------------------------------------------------------------------------
  // The `pairings` map of a knockout round

  /** A value of the map: the tie's players as first seen (`p1` at home) and their aggregate goals. */
  datatype Aggregate = Aggregate(p1: Id, p2: Id, s1: nat, s2: nat)

  /** One entry of the map; the list of entries keeps the map's insertion order. */
  datatype Entry = Entry(key: set<Id>, val: Aggregate)

  /** The key of a leg: its two players, unordered. */
  function LegKey(m: Match): set<Id> {
    PairKey(m.homePlayerId, m.awayPlayerId)
  }

  /** `pairings.get(key)`: where the entry for `key` sits, if there is one. */
  function Find(es: seq<Entry>, key: set<Id>): (r: Option<nat>)
    ensures r.Some? ==> r.value < |es| && es[r.value].key == key
    ensures r.None? ==> forall i :: 0 <= i < |es| ==> es[i].key != key
  {
    if es == [] then None
    else if es[|es| - 1].key == key then Some(|es| - 1)
    else Find(es[..|es| - 1], key)
  }

  /** One leg credited to its tie: the goals of `p1`'s side go to `s1`, the others to `s2`. */
  function AddLeg(v: Aggregate, m: Match): Aggregate {
    if m.homePlayerId == v.p1 then v.(s1 := v.s1 + m.homeStats.goals, s2 := v.s2 + m.awayStats.goals)
    else v.(s2 := v.s2 + m.homeStats.goals, s1 := v.s1 + m.awayStats.goals)
  }

  /** One iteration of the `forEach`: the leg updates its tie's entry, or opens one at the end. */
  function Record(es: seq<Entry>, m: Match): seq<Entry> {
    var key := LegKey(m);
    match Find(es, key)
    case None => es + [Entry(key, AddLeg(Aggregate(m.homePlayerId, m.awayPlayerId, 0, 0), m))]
    case Some(i) => es[i := Entry(key, AddLeg(es[i].val, m))]
  }

  /** The map after the `forEach` over the round's matches. */
  function Pairings(ms: seq<Match>): seq<Entry> {
    if ms == [] then [] else Record(Pairings(ms[..|ms| - 1]), ms[|ms| - 1])
  }

  /** The body of the `roundMatches.forEach`: get, update and set the leg's entry. */
  method RecordLeg(pairings: seq<Entry>, m: Match) returns (updated: seq<Entry>)
    ensures updated == Record(pairings, m)
  {
    var key := LegKey(m);
    var found := Find(pairings, key);
    var current := if found.Some? then pairings[found.value].val else Aggregate(m.homePlayerId, m.awayPlayerId, 0, 0);
    if m.homePlayerId == current.p1 {
      current := current.(s1 := current.s1 + m.homeStats.goals, s2 := current.s2 + m.awayStats.goals);
    } else {
      current := current.(s2 := current.s2 + m.homeStats.goals, s1 := current.s1 + m.awayStats.goals);
    }
    if found.Some? {
      updated := pairings[found.value := Entry(key, current)];
    } else {
      updated := pairings + [Entry(key, current)];
    }
  }

  /** The `roundMatches.forEach` that fills `pairings`. */
  method TallyPairings(roundMatches: seq<Match>) returns (pairings: seq<Entry>)
    ensures pairings == Pairings(roundMatches)
  {
    pairings := [];
    for j := 0 to |roundMatches|
      invariant pairings == Pairings(roundMatches[..j])
    {
      assert roundMatches[..j + 1][..j] == roundMatches[..j];
      pairings := RecordLeg(pairings, roundMatches[j]);
    }
    assert roundMatches[..|roundMatches|] == roundMatches;
  }

  /** Who goes through a tie: the higher aggregate, `p1` when level. */
  function Winner(v: Aggregate): Id {
    if v.s1 > v.s2 then v.p1 else if v.s2 > v.s1 then v.p2 else v.p1
  }

  /** The qualifiers, one per entry, in the map's order. */
  function Winners(es: seq<Entry>): (w: seq<Id>)
    ensures |w| == |es|
    ensures forall i :: 0 <= i < |es| ==> w[i] == Winner(es[i].val)
  {
    if es == [] then [] else Winners(es[..|es| - 1]) + [Winner(es[|es| - 1].val)]
  }

  /** The `pairings.forEach` that fills `nextPlayers`. */
  method Qualify(pairings: seq<Entry>) returns (nextPlayers: seq<Id>)
    ensures nextPlayers == Winners(pairings)
  {
    nextPlayers := [];
    for j := 0 to |pairings|
      invariant nextPlayers == Winners(pairings[..j])
    {
      var val := pairings[j].val;
      assert pairings[..j + 1][..j] == pairings[..j];
      if val.s1 > val.s2 {
        nextPlayers := nextPlayers + [val.p1];
      } else if val.s2 > val.s1 {
        nextPlayers := nextPlayers + [val.p2];
      } else {
        nextPlayers := nextPlayers + [val.p1];
      }
    }
    assert pairings[..|pairings|] == pairings;
  }

  // ---------------------------------------------------------------------------------------
  // What the map holds, stated independently of it

  /** The goals `x` scored over the legs of `ms` between the pair `key`. */
  function Scored(ms: seq<Match>, key: set<Id>, x: Id): nat {
    if ms == [] then 0
    else Scored(ms[..|ms| - 1], key, x) + if LegKey(ms[|ms| - 1]) == key then GoalsFor(x, ms[|ms| - 1]) else 0
  }

  /** The first leg of `ms` between the pair `key`. */
  function Opener(ms: seq<Match>, key: set<Id>): (r: Option<Match>)
    ensures r.Some? ==> r.value in ms && LegKey(r.value) == key
    ensures r.None? ==> forall m :: m in ms ==> LegKey(m) != key
  {
    if ms == [] then None
    else
      var before := Opener(ms[..|ms| - 1], key);
      if before.Some? then before
      else if LegKey(ms[|ms| - 1]) == key then Some(ms[|ms| - 1])
      else None
  }

  /**
   * Entry `e` describes its tie in `ms`: `p1` and `p2` are the home and away players of the
   * tie's first leg and, for two different players, `s1` and `s2` are their goals over all legs.
   */
  ghost predicate Describes(e: Entry, ms: seq<Match>) {
    && Opener(ms, e.key).Some?
    && Opener(ms, e.key).value.homePlayerId == e.val.p1
    && Opener(ms, e.key).value.awayPlayerId == e.val.p2
    && (e.val.p1 != e.val.p2 ==> e.val.s1 == Scored(ms, e.key, e.val.p1) && e.val.s2 == Scored(ms, e.key, e.val.p2))
  }

  ghost predicate UniqueKeys(es: seq<Entry>) {
    forall i, j :: 0 <= i < j < |es| ==> es[i].key != es[j].key
  }

  /** The map is right about `ms`: one entry per pair, each describing its tie. */
  ghost predicate Consistent(es: seq<Entry>, ms: seq<Match>) {
    && UniqueKeys(es)
    && (forall i :: 0 <= i < |es| ==> Describes(es[i], ms))
    && (forall m :: m in ms ==> Find(es, LegKey(m)).Some?)
  }

  lemma ScoredStep(ms: seq<Match>, m: Match, key: set<Id>, x: Id)
    ensures Scored(ms + [m], key, x) == Scored(ms, key, x) + if LegKey(m) == key then GoalsFor(x, m) else 0
  {
    assert (ms + [m])[..|ms|] == ms;
  }

  lemma OpenerStep(ms: seq<Match>, m: Match, key: set<Id>)
    ensures Opener(ms + [m], key) == if Opener(ms, key).Some? then Opener(ms, key)
                                     else if LegKey(m) == key then Some(m) else None
  {
    assert (ms + [m])[..|ms|] == ms;
  }

  lemma {:induction false} ScoredAbsent(ms: seq<Match>, key: set<Id>, x: Id)
    requires forall m :: m in ms ==> LegKey(m) != key
    ensures Scored(ms, key, x) == 0
  {
    if ms != [] {
      ScoredAbsent(ms[..|ms| - 1], key, x);
    }
  }

  /** An entry for another pair is untouched by a leg and still describes its tie. */
  lemma OtherTie(e: Entry, ms: seq<Match>, m: Match)
    requires Describes(e, ms) && e.key != LegKey(m)
    ensures Describes(e, ms + [m])
  {
    OpenerStep(ms, m, e.key);
    ScoredStep(ms, m, e.key, e.val.p1);
    ScoredStep(ms, m, e.key, e.val.p2);
  }

  /** A leg of a pair already in the map adds each player's goals to that player's aggregate. */
  lemma SameTie(e: Entry, ms: seq<Match>, m: Match)
    requires Describes(e, ms) && e.key == LegKey(m)
    ensures Describes(Entry(e.key, AddLeg(e.val, m)), ms + [m])
  {
    var v := e.val;
    OpenerStep(ms, m, e.key);
    ScoredStep(ms, m, e.key, v.p1);
    ScoredStep(ms, m, e.key, v.p2);
    if v.p1 != v.p2 {
      PairKeyEqual(v.p1, v.p2, m.homePlayerId, m.awayPlayerId);
    }
  }

  /** The first leg of a pair opens an entry with its home player as `p1`. */
  lemma NewTie(ms: seq<Match>, m: Match)
    requires forall m' :: m' in ms ==> LegKey(m') != LegKey(m)
    ensures Describes(Entry(LegKey(m), AddLeg(Aggregate(m.homePlayerId, m.awayPlayerId, 0, 0), m)), ms + [m])
  {
    var key := LegKey(m);
    OpenerStep(ms, m, key);
    ScoredStep(ms, m, key, m.homePlayerId);
    ScoredStep(ms, m, key, m.awayPlayerId);
    ScoredAbsent(ms, key, m.homePlayerId);
    ScoredAbsent(ms, key, m.awayPlayerId);
  }

  /** The first leg of a new pair appends a new entry and keeps the map consistent. */
  lemma RecordNewConsistent(es: seq<Entry>, ms: seq<Match>, m: Match)
    requires Consistent(es, ms) && Find(es, LegKey(m)).None?
    ensures Consistent(Record(es, m), ms + [m])
  {
    var key := LegKey(m);
    var es' := Record(es, m);
    assert es' == es + [Entry(key, AddLeg(Aggregate(m.homePlayerId, m.awayPlayerId, 0, 0), m))];
    forall m' | m' in ms ensures LegKey(m') != key {
      assert Find(es, LegKey(m')).Some?;
    }
    NewTie(ms, m);
    forall i | 0 <= i < |es| ensures Describes(es'[i], ms + [m]) {
      OtherTie(es[i], ms, m);
    }
    forall m' | m' in ms + [m] ensures Find(es', LegKey(m')).Some? {
      if LegKey(m') != key {
        assert m' in ms;
        var j := Find(es, LegKey(m')).value;
        assert es'[j].key == LegKey(m');
      } else {
        assert es'[|es|].key == LegKey(m');
      }
    }
  }

  /** A further leg of a known pair updates that entry alone and keeps the map consistent. */
  lemma RecordKnownConsistent(es: seq<Entry>, ms: seq<Match>, m: Match, i: nat)
    requires Consistent(es, ms) && Find(es, LegKey(m)) == Some(i)
    ensures Consistent(Record(es, m), ms + [m])
  {
    var es' := Record(es, m);
    assert es' == es[i := Entry(LegKey(m), AddLeg(es[i].val, m))];
    SameTie(es[i], ms, m);
    forall j | 0 <= j < |es| && j != i ensures Describes(es'[j], ms + [m]) {
      OtherTie(es[j], ms, m);
    }
    forall m' | m' in ms + [m] ensures Find(es', LegKey(m')).Some? {
      if m' in ms {
        var j := Find(es, LegKey(m')).value;
        assert es'[j].key == LegKey(m');
      } else {
        assert es'[i].key == LegKey(m');
      }
    }
  }

  lemma {:induction false} PairingsConsistent(ms: seq<Match>)
    ensures Consistent(Pairings(ms), ms)
  {
    if ms != [] {
      var prefix := ms[..|ms| - 1];
      PairingsConsistent(prefix);
      var es, m := Pairings(prefix), ms[|ms| - 1];
      var found := Find(es, LegKey(m));
      if found.None? {
        RecordNewConsistent(es, prefix, m);
      } else {
        RecordKnownConsistent(es, prefix, m, found.value);
      }
      LastSplit(ms);
    }
  }

  /**
   * Every leg of the round has its tie in the map, no tie twice, and each entry holds the
   * players of the tie's first leg, home player first, and, for two different players, the
   * goals each of them scored over all legs of the tie.
   */
  lemma PairingsAreTies(ms: seq<Match>)
    ensures UniqueKeys(Pairings(ms))
    ensures forall m :: m in ms ==> Find(Pairings(ms), LegKey(m)).Some?
    ensures forall i :: 0 <= i < |Pairings(ms)| ==> Describes(Pairings(ms)[i], ms)
  {
    PairingsConsistent(ms);
  }

  /**
   * The qualifier of entry `i` is the player of the tie with more goals over its legs, and the
   * home player of the first leg when the aggregate is level.
   */
  lemma QualifierWonTie(ms: seq<Match>, i: nat)
    requires i < |Pairings(ms)|
    ensures var e := Pairings(ms)[i];
      var first := Opener(ms, e.key);
      first.Some? && LegKey(first.value) == e.key &&
      var p1, p2 := first.value.homePlayerId, first.value.awayPlayerId;
      var w := Winners(Pairings(ms))[i];
      (p1 == p2 ==> w == p1) &&
      (p1 != p2 ==>
        (Scored(ms, e.key, p1) > Scored(ms, e.key, p2) ==> w == p1) &&
        (Scored(ms, e.key, p2) > Scored(ms, e.key, p1) ==> w == p2) &&
        (Scored(ms, e.key, p1) == Scored(ms, e.key, p2) ==> w == p1))
  {
    PairingsConsistent(ms);
    assert Describes(Pairings(ms)[i], ms);
  }

  // ---------------------------------------------------------------------------------------
  // One map entry, and so one qualifier, per tie of a drawn round

  /** One more leg is one more iteration of the `forEach`. */
  lemma PairingsSnoc(ms: seq<Match>, m: Match)
    ensures Pairings(ms + [m]) == Record(Pairings(ms), m)
  {
    assert (ms + [m])[..|ms|] == ms;
  }

  /** A leg whose pair has no earlier leg opens one more entry. */
  lemma FreshPairOpens(ms: seq<Match>, m: Match)
    requires forall m' :: m' in ms ==> LegKey(m') != LegKey(m)
    ensures |Pairings(ms + [m])| == |Pairings(ms)| + 1
  {
    PairingsAreTies(ms);
    forall i | 0 <= i < |Pairings(ms)| ensures Pairings(ms)[i].key != LegKey(m) {
      assert Describes(Pairings(ms)[i], ms);
    }
    PairingsSnoc(ms, m);
  }

  /** A leg whose pair has an earlier leg opens no entry. */
  lemma KnownPairKeeps(ms: seq<Match>, m: Match)
    requires exists m' :: m' in ms && LegKey(m') == LegKey(m)
    ensures |Pairings(ms + [m])| == |Pairings(ms)|
  {
    PairingsAreTies(ms);
    PairingsSnoc(ms, m);
  }

  /** The unordered pairs of players that the legs of `ms` are played between. */
  ghost function PairsOf(ms: seq<Match>): set<set<Id>> {
    set m | m in ms :: LegKey(m)
  }

  lemma PairsOfSnoc(ms: seq<Match>, m: Match)
    ensures PairsOf(ms + [m]) == PairsOf(ms) + {LegKey(m)}
  {
    assert forall m' :: m' in ms + [m] <==> m' in ms || m' == m;
  }

  /** The map holds one entry per pair of players that has a leg in the round. */
  lemma {:induction false} PairingsCountPairs(ms: seq<Match>)
    ensures |Pairings(ms)| == |PairsOf(ms)|
  {
    if ms != [] {
      var init, m := ms[..|ms| - 1], ms[|ms| - 1];
      assert ms == init + [m];
      PairingsCountPairs(init);
      PairsOfSnoc(init, m);
      if LegKey(m) in PairsOf(init) {
        assert PairsOf(init + [m]) == PairsOf(init);
        KnownPairKeeps(init, m);
      } else {
        assert |PairsOf(init + [m])| == |PairsOf(init)| + 1;
        FreshPairOpens(init, m);
      }
    }
  }

  /** The pairs of the first `n` ties of the list `s`. */
  ghost function TiePairs(s: seq<Id>, n: nat): set<set<Id>>
    requires 2 * n <= |s|
  {
    set j | 0 <= j < n :: PairKey(s[2 * j], s[2 * j + 1])
  }

  lemma TiePairsSnoc(s: seq<Id>, n: nat)
    requires 1 <= n && 2 * n <= |s|
    ensures TiePairs(s, n) == TiePairs(s, n - 1) + {PairKey(s[2 * (n - 1)], s[2 * (n - 1) + 1])}
  {
  }

  /** In a distinct list, a tie's pair is not the pair of an earlier tie. */
  lemma TiePairFresh(s: seq<Id>, n: nat)
    requires Distinct(s) && 1 <= n && 2 * n <= |s|
    ensures PairKey(s[2 * (n - 1)], s[2 * (n - 1) + 1]) !in TiePairs(s, n - 1)
  {
    forall j | 0 <= j < n - 1 ensures PairKey(s[2 * j], s[2 * j + 1]) != PairKey(s[2 * (n - 1)], s[2 * (n - 1) + 1]) {
      assert s[2 * (n - 1)] !in PairKey(s[2 * j], s[2 * j + 1]);
    }
  }

  /** The ties of a distinct list are between different pairs. */
  lemma {:induction false} TiePairsCount(s: seq<Id>, n: nat)
    requires Distinct(s) && 2 * n <= |s|
    ensures |TiePairs(s, n)| == n
  {
    if n > 0 {
      TiePairsCount(s, n - 1);
      TiePairsSnoc(s, n);
      TiePairFresh(s, n);
    }
  }

  /** A fixture of a knockout round is played between the pair of one of its ties. */
  lemma FixtureOfTie(s: seq<Id>, round: nat, f: Fixture)
    requires f in KnockoutSchedule(s, round)
    ensures PairKey(f.home, f.away) in TiePairs(s, TieCount(s))
  {
    var j := TieOfLeg(s, round, (|s| + 1) / 2, f);
    PairKeyEqual(f.home, f.away, s[2 * j], s[2 * j + 1]);
  }

  /** Every created leg of a knockout round is played between the pair of one of its ties. */
  lemma DrawnPairsAreTies(s: seq<Id>, round: nat, tid: Id, uuid: nat -> Id, base: nat)
    ensures PairsOf(Materialize(tid, uuid, base, KnockoutSchedule(s, round))) <= TiePairs(s, TieCount(s))
  {
    var fs := KnockoutSchedule(s, round);
    var ms := Materialize(tid, uuid, base, fs);
    forall m | m in ms ensures LegKey(m) in TiePairs(s, TieCount(s)) {
      var i :| 0 <= i < |ms| && ms[i] == m;
      FixtureOfTie(s, round, fs[i]);
    }
  }

  /** Every tie of the list has a created leg. */
  lemma TiesAreDrawn(s: seq<Id>, round: nat, tid: Id, uuid: nat -> Id, base: nat)
    ensures TiePairs(s, TieCount(s)) <= PairsOf(Materialize(tid, uuid, base, KnockoutSchedule(s, round)))
  {
    var fs := KnockoutSchedule(s, round);
    var ms := Materialize(tid, uuid, base, fs);
    forall j | 0 <= j < TieCount(s) ensures PairKey(s[2 * j], s[2 * j + 1]) in PairsOf(ms) {
      LegsOfTie(s, round, (|s| + 1) / 2, j);
      var i :| 0 <= i < |fs| && fs[i] == FirstLeg(s, round, j);
      assert FixtureOf(ms[i]) == fs[i] && ms[i] in ms;
    }
  }

  /** A drawn round of a distinct list gives one map entry, and so one qualifier, per tie. */
  lemma OneQualifierPerTie(s: seq<Id>, round: nat, tid: Id, uuid: nat -> Id, base: nat)
    requires Distinct(s)
    ensures |Winners(Pairings(Materialize(tid, uuid, base, KnockoutSchedule(s, round))))| == TieCount(s)
  {
    PairingsCountPairs(Materialize(tid, uuid, base, KnockoutSchedule(s, round)));
    DrawnPairsAreTies(s, round, tid, uuid, base);
    TiesAreDrawn(s, round, tid, uuid, base);
    assert PairsOf(Materialize(tid, uuid, base, KnockoutSchedule(s, round))) == TiePairs(s, TieCount(s));
    TiePairsCount(s, TieCount(s));
  }

  // ---------------------------------------------------------------------------------------
  // `handleAdvancePhase`

  /** `standings.slice(0, n).map(s => s.id)`. */
  function TopIds(rows: seq<StandingsRow>, n: nat): (ids: seq<Id>)
    ensures |ids| == if |rows| < n then |rows| else n
    ensures forall i :: 0 <= i < |ids| ==> ids[i] == rows[i].id
  {
    if rows == [] || n == 0 then [] else [rows[0].id] + TopIds(rows[1..], n - 1)
  }

  /** Seats in the round of sixteen. */
  const Seeds: nat := 16

  /** The players that go through and the round they go into, for latest round `r`. */
  function Qualified(t: Tournament, users: seq<User>, r: nat): (seq<Id>, nat) {
    if r == 0 then (TopIds(StandingsOf(ResolveParticipants(t.participants, users), t.matches), Seeds), 1)
    else (Winners(Pairings(InRound(t.matches, r))), r + 1)
  }

  /**
   * The tournament `handleAdvancePhase` hands to `onUpdate`, or `t` itself where it alerts and
   * returns. `shuffle` is the random reordering inside `generateKnockoutRound`.
   */
  function Advanced(t: Tournament, users: seq<User>, shuffle: seq<Id> -> seq<Id>, uuid: nat -> Id): Tournament {
    match MaxRound(t.matches)
    case None => t
    case Some(r) =>
      var (players, next) := Qualified(t, users, r);
      if |players| < 2 && next < 5 then t
      else if next > FinalRound then t.(status := Finished)
      else t.(matches := t.matches + Materialize(t.id, uuid, 0, KnockoutSchedule(shuffle(players), next)))
  }

  /** The first half of `handleAdvancePhase`: `nextPlayers` and `nextRound` for latest round `r`. */
  method NextPhase(t: Tournament, users: seq<User>, r: nat) returns (nextPlayers: seq<Id>, nextRound: nat)
    ensures (nextPlayers, nextRound) == Qualified(t, users, r)
  {
    if r == 0 {
      var standings := GetStandings(ResolveParticipants(t.participants, users), t.matches);
      nextPlayers := TopIds(standings, 16);
      nextRound := 1;
    } else {
      var roundMatches := InRound(t.matches, r);
      var pairings := TallyPairings(roundMatches);
      nextPlayers := Qualify(pairings);
      nextRound := r + 1;
    }
  }

  /** `handleAdvancePhase`. */
  method AdvancePhase(t: Tournament, users: seq<User>, shuffle: seq<Id> -> seq<Id>, uuid: nat -> Id)
    returns (updated: Tournament)
    ensures updated == Advanced(t, users, shuffle, uuid)
  {
    var maxRound := MaxRound(t.matches);
    if maxRound.None? {
      // no matches: no round matches, no players and a round of -Infinity, so the alert
      updated := t;
      return;
    }
    var nextPlayers, nextRound := NextPhase(t, users, maxRound.value);
    if |nextPlayers| < 2 && nextRound < 5 {
      updated := t;
      return;
    }
    if nextRound > 4 {
      updated := t.(status := Finished);
      return;
    }
    var nextMatches := GenerateKnockoutRound(shuffle(nextPlayers), nextRound, []);
    assert nextMatches == KnockoutSchedule(shuffle(nextPlayers), nextRound);
    updated := t.(matches := t.matches + Materialize(t.id, uuid, 0, nextMatches));
  }

  /**
   * Advancing never touches existing matches or any field but `status` and `matches`: it
   * appends new matches, sets the tournament FINISHED, or changes nothing.
   */
  lemma AdvanceOnlyAppends(t: Tournament, users: seq<User>, shuffle: seq<Id> -> seq<Id>, uuid: nat -> Id)
    ensures var u := Advanced(t, users, shuffle, uuid);
      |u.matches| >= |t.matches| && u.matches[..|t.matches|] == t.matches &&
      u.(status := t.status, matches := t.matches) == t &&
      (u.status == t.status || u.status == Finished) &&
      (u.status == Finished && t.status != Finished ==> u.matches == t.matches)
  {
  }

  /** After the group stage the sixteen best-ranked participants are seeded: no unseeded row outranks a seeded one. */
  lemma SeedsAreTop(t: Tournament, users: seq<User>)
    ensures var rows := StandingsOf(ResolveParticipants(t.participants, users), t.matches);
      var seeds := Qualified(t, users, 0).0;
      |seeds| == (if |rows| < Seeds then |rows| else Seeds) &&
      forall i, j :: 0 <= i < |seeds| <= j < |rows| ==> seeds[i] == rows[i].id && !Outranks(RowRank(rows[j]), RowRank(rows[i]))
  {
    var participants := ResolveParticipants(t.participants, users);
    SortRankedCorrect(UnsortedRows(participants, t.matches), RowRank);
  }

  /**
   * When a round is drawn, every new match is an unplayed match of the next round between two
   * of the shuffled qualifiers, and every tie of the shuffled list gets its legs.
   */
  lemma AdvanceDraws(t: Tournament, users: seq<User>, shuffle: seq<Id> -> seq<Id>, uuid: nat -> Id, r: nat)
    requires MaxRound(t.matches) == Some(r)
    requires var (players, next) := Qualified(t, users, r); |players| >= 2 && next <= FinalRound
    ensures var (players, next) := Qualified(t, users, r);
      var added := Advanced(t, users, shuffle, uuid).matches[|t.matches|..];
      var drawn := KnockoutSchedule(shuffle(players), next);
      |added| == |drawn| &&
      forall k :: 0 <= k < |added| ==>
        Unplayed(added[k]) && added[k].round == Some(next) && FixtureOf(added[k]) == drawn[k] &&
        added[k].homePlayerId in shuffle(players) && added[k].awayPlayerId in shuffle(players)
  {
    var (players, next) := Qualified(t, users, r);
    var drawn := KnockoutSchedule(shuffle(players), next);
    MaterializedAreUnplayed(t.id, uuid, 0, drawn);
    KnockoutPlayers(shuffle(players), next);
    var added := Advanced(t, users, shuffle, uuid).matches[|t.matches|..];
    DrawnRoundAppended(t, users, shuffle, uuid, r);
    forall k | 0 <= k < |added|
      ensures added[k].homePlayerId in shuffle(players) && added[k].awayPlayerId in shuffle(players)
    {
      assert drawn[k] in drawn;
    }
  }

  lemma DrawnRoundAppended(t: Tournament, users: seq<User>, shuffle: seq<Id> -> seq<Id>, uuid: nat -> Id, r: nat)
    requires MaxRound(t.matches) == Some(r)
    requires var (players, next) := Qualified(t, users, r); |players| >= 2 && next <= FinalRound
    ensures var (players, next) := Qualified(t, users, r);
      Advanced(t, users, shuffle, uuid).matches[|t.matches|..] == Materialize(t.id, uuid, 0, KnockoutSchedule(shuffle(players), next))
  {
  }

  lemma {:induction false} InRoundAppend(a: seq<Match>, b: seq<Match>, r: nat)
    ensures InRound(a + b, r) == InRound(a, r) + InRound(b, r)
  {
    if a == [] {
      assert a + b == b;
    } else {
      assert (a + b)[0] == a[0];
      assert (a + b)[1..] == a[1..] + b;
      InRoundAppend(a[1..], b, r);
    }
  }

  /** The filter keeps a list whose matches all belong to round `r`, and empties one with none. */
  lemma {:induction false} InRoundWhole(ms: seq<Match>, r: nat)
    ensures (forall m :: m in ms ==> m.round == Some(r)) ==> InRound(ms, r) == ms
    ensures (forall m :: m in ms ==> m.round != Some(r)) ==> InRound(ms, r) == []
  {
    if ms != [] {
      assert forall m :: m in ms[1..] ==> m in ms;
      InRoundWhole(ms[1..], r);
    }
  }

  /** Matches of a new, later round appended to the list become its latest round, and all of it. */
  lemma LaterRoundAppended(ms: seq<Match>, added: seq<Match>, r: nat, next: nat)
    requires MaxRound(ms) == Some(r) && r < next
    requires added != [] && forall m :: m in added ==> m.round == Some(next)
    ensures MaxRound(ms + added) == Some(next)
    ensures InRound(ms + added, next) == added
  {
    assert forall m :: m in added ==> RoundOrZero(m) == next;
    assert forall m :: m in ms ==> m.round != Some(next);
    InRoundAppend(ms, added, next);
    InRoundWhole(ms, next);
    InRoundWhole(added, next);
    assert added[0] in ms + added;
  }

  /**
   * After a round is drawn from a distinct shuffled list, the next advance sees that round as
   * the latest one, and it qualifies exactly one player per tie: half the list, rounded down.
   */
  lemma AdvanceHalves(t: Tournament, users: seq<User>, shuffle: seq<Id> -> seq<Id>, uuid: nat -> Id, r: nat)
    requires MaxRound(t.matches) == Some(r)
    requires var (players, next) := Qualified(t, users, r);
      |players| >= 2 && next <= FinalRound && |shuffle(players)| >= 2 && Distinct(shuffle(players))
    ensures var (players, next) := Qualified(t, users, r);
      var u := Advanced(t, users, shuffle, uuid);
      MaxRound(u.matches) == Some(next) && |Qualified(u, users, next).0| == TieCount(shuffle(players))
  {
    var (players, next) := Qualified(t, users, r);
    var s := shuffle(players);
    var added := Materialize(t.id, uuid, 0, KnockoutSchedule(s, next));
    assert Advanced(t, users, shuffle, uuid).matches == t.matches + added;
    KnockoutSize(s, next);
    KnockoutPlayers(s, next);
    forall m | m in added ensures m.round == Some(next) {
      var j :| 0 <= j < |added| && added[j] == m;
      assert KnockoutSchedule(s, next)[j] in KnockoutSchedule(s, next);
    }
    LaterRoundAppended(t.matches, added, r, next);
    OneQualifierPerTie(s, next, t.id, uuid, 0);
  }

  /** Advancing from the final, or any later round, finishes the tournament. */
  lemma AdvanceAfterFinal(t: Tournament, users: seq<User>, shuffle: seq<Id> -> seq<Id>, uuid: nat -> Id)
    requires MaxRound(t.matches).Some? && MaxRound(t.matches).value >= FinalRound
    ensures Advanced(t, users, shuffle, uuid) == t.(status := Finished)
  {
  }

  // ---------------------------------------------------------------------------------------
  // The guards and `handleFinishTournament`

  /** Every match of `ms` is CONFIRMED. */
  predicate AllConfirmed(ms: seq<Match>) {
    forall m :: m in ms ==> m.status == Confirmed
  }

  /**
   * `canAdvance`: an ACTIVE CHAMPIONS tournament whose latest round is before the final, has
   * matches with exactly that round, and all of them confirmed.
   */
  function CanAdvance(t: Tournament): (b: bool) {
    && t.status == Active && t.kind == Champions
    && match MaxRound(t.matches)
       case None => false
       case Some(r) => |InRound(t.matches, r)| > 0 && AllConfirmed(InRound(t.matches, r)) && r < FinalRound
  }

  /**
   * `canFinish`: an ACTIVE tournament with matches, all confirmed; a CHAMPIONS one must also
   * have reached the final.
   */
  function CanFinish(t: Tournament): (b: bool) {
    && t.status == Active && |t.matches| > 0 && AllConfirmed(t.matches)
    && (t.kind == Champions ==> MaxRound(t.matches) == Some(FinalRound))
  }

  /** `handleFinishTournament`; `confirmed` is the answer to the confirmation dialog. */
  function FinishTournament(t: Tournament, confirmed: bool): (u: Tournament)
    ensures confirmed ==> u == t.(status := Finished)
    ensures !confirmed ==> u == t
  {
    if confirmed then t.(status := Finished) else t
  }

  /** At most one of the two buttons is offered. */
  lemma GuardsExclusive(t: Tournament)
    ensures !(CanAdvance(t) && CanFinish(t))
  {
  }

  /** Whenever advancing is offered, it draws a round or changes nothing: it never finishes. */
  lemma CanAdvanceNeverFinishes(t: Tournament, users: seq<User>, shuffle: seq<Id> -> seq<Id>, uuid: nat -> Id)
    requires CanAdvance(t)
    ensures Advanced(t, users, shuffle, uuid).status == Active
  {
  }

  /** A finished tournament offers neither button, whatever it was before. */
  lemma FinishedIsFinal(t: Tournament)
    ensures !CanAdvance(FinishTournament(t, true)) && !CanFinish(FinishTournament(t, true))
  {
  }
}
