/**
 * The group schedule of components/TournamentView.tsx for CHAMPIONS tournaments of more than
 * 16 participants: every participant of the shuffled list is drawn against the next
 * `matchesPerPlayer = 4` participants in circular order, all in round 0, and an unordered pair
 * already in `generatedPairs` is skipped.
 *
 * The key `[h, a].sort().join('-')` is the unordered pair `{h, a}`.
 */
module Groups {
  import opened Types
  import opened Circle
  import opened Fixtures

  /** How many participants ahead each one is drawn against. */
  const MatchesPerPlayer: nat := 4

  /** The loop's state: the fixtures pushed so far and the `generatedPairs` set. */
  datatype Draw = Draw(fixtures: seq<Fixture>, keys: set<set<Id>>)

  /** The participant `offset` places after `i`, wrapping around. */
  function Opponent(s: seq<Id>, i: nat, offset: nat): (a: Id)
    requires i < |s|
    ensures a in s
  {
    s[(i + offset) % |s|]
  }

  /** One candidate: skipped when its unordered pair is already drawn, else pushed in round 0. */
  function Visit(d: Draw, h: Id, a: Id): (e: Draw)
    ensures PairKey(h, a) in e.keys && d.keys <= e.keys
    ensures PairKey(h, a) in d.keys ==> e == d
    ensures PairKey(h, a) !in d.keys ==> e.fixtures == d.fixtures + [Fixture(h, a, 0, false)]
  {
    if PairKey(h, a) in d.keys then d
    else Draw(d.fixtures + [Fixture(h, a, 0, false)], d.keys + {PairKey(h, a)})
  }

  /** Offsets `1 .. offset` of row `i`, starting from `d`. */
  function Row(s: seq<Id>, i: nat, offset: nat, d: Draw): Draw
    requires i < |s|
  {
    if offset == 0 then d else Visit(Row(s, i, offset - 1, d), s[i], Opponent(s, i, offset))
  }

  /** Rows `0 .. i - 1`, from the empty state. */
  function Rows(s: seq<Id>, i: nat): Draw
    requires i <= |s|
  {
    if i == 0 then Draw([], {}) else Row(s, i - 1, MatchesPerPlayer, Rows(s, i - 1))
  }

  /** The fixtures of the group schedule for the shuffled list `s`. */
  function GroupSchedule(s: seq<Id>): seq<Fixture> {
    Rows(s, |s|).fixtures
  }

  /** The inner `for offset` loop for participant `i`. */
  method DrawRow(shuffled: seq<Id>, i: nat, fixtures0: seq<Fixture>, pairs0: set<set<Id>>)
    returns (fixtures: seq<Fixture>, generatedPairs: set<set<Id>>)
    requires i < |shuffled|
    ensures Draw(fixtures, generatedPairs) == Row(shuffled, i, MatchesPerPlayer, Draw(fixtures0, pairs0))
  {
    var n := |shuffled|;
    fixtures, generatedPairs := fixtures0, pairs0;
    var offset := 1;
    while offset <= MatchesPerPlayer
      invariant 1 <= offset <= MatchesPerPlayer + 1
      invariant Draw(fixtures, generatedPairs) == Row(shuffled, i, offset - 1, Draw(fixtures0, pairs0))
    {
      var h := shuffled[i];
      var a := shuffled[(i + offset) % n];
      var pairKey := PairKey(h, a);
      if pairKey !in generatedPairs {
        fixtures := fixtures + [Fixture(h, a, 0, false)];
        generatedPairs := generatedPairs + {pairKey};
      }
      offset := offset + 1;
    }
  }

  /** The CHAMPIONS branch for more than 16 participants, over the shuffled list. */
  method GroupFixtures(shuffled: seq<Id>) returns (fixtures: seq<Fixture>)
    ensures fixtures == GroupSchedule(shuffled)
  {
    var n := |shuffled|;
    fixtures := [];
    var generatedPairs: set<set<Id>> := {};
    var i := 0;
    while i < n
      invariant 0 <= i <= n
      invariant Draw(fixtures, generatedPairs) == Rows(shuffled, i)
    {
      fixtures, generatedPairs := DrawRow(shuffled, i, fixtures, generatedPairs);
      i := i + 1;
    }
  }

  // ---------------------------------------------------------------------------------------
  // What the schedule promises
  // ---------------------------------------------------------------------------------------

  function Key(f: Fixture): set<Id> {
    PairKey(f.home, f.away)
  }

  /** The unordered pairs of the fixtures. */
  ghost function KeysOf(fs: seq<Fixture>): set<set<Id>> {
    set f | f in fs :: Key(f)
  }

  /** No unordered pair is drawn twice. */
  ghost predicate Unrepeated(fs: seq<Fixture>) {
    forall j, k :: 0 <= j < k < |fs| ==> Key(fs[j]) != Key(fs[k])
  }

  /** The state's keys are exactly its fixtures' pairs, each drawn once, all in round 0 among `s`. */
  ghost predicate Sound(d: Draw, s: seq<Id>, distinct: bool) {
    && d.keys == KeysOf(d.fixtures)
    && Unrepeated(d.fixtures)
    && forall f :: f in d.fixtures ==>
         f.round == 0 && !f.isSecondLeg && f.home in s && f.away in s && (distinct ==> f.home != f.away)
  }

  lemma KeysOfPush(fs: seq<Fixture>, f: Fixture)
    ensures KeysOf(fs + [f]) == KeysOf(fs) + {Key(f)}
  {
    forall k | k in KeysOf(fs + [f]) ensures k in KeysOf(fs) + {Key(f)} {
      var g :| g in fs + [f] && Key(g) == k;
      if g != f {
        assert g in fs;
      }
    }
  }

  lemma VisitSound(d: Draw, s: seq<Id>, distinct: bool, h: Id, a: Id)
    requires Sound(d, s, distinct) && h in s && a in s && (distinct ==> h != a)
    ensures Sound(Visit(d, h, a), s, distinct)
  {
    if PairKey(h, a) !in d.keys {
      var f := Fixture(h, a, 0, false);
      KeysOfPush(d.fixtures, f);
      var fs := d.fixtures + [f];
      forall j, k | 0 <= j < k < |fs| ensures Key(fs[j]) != Key(fs[k]) {
        if k == |fs| - 1 {
          assert fs[j] in d.fixtures;
        }
      }
    }
  }

  /** On a list without repeats and longer than 4, nobody is drawn against themselves. */
  lemma OpponentIsOther(s: seq<Id>, i: nat, offset: nat)
    requires i < |s| && 1 <= offset <= MatchesPerPlayer < |s|
    requires Distinct(s)
    ensures s[i] != Opponent(s, i, offset)
  {
    var n := |s|;
    ModSmall(i + offset, n);
    var j := (i + offset) % n;
    if i < j {
      assert s[i] != s[j];
    } else {
      assert s[j] != s[i];
    }
  }

  lemma {:induction false} RowSound(s: seq<Id>, i: nat, offset: nat, d: Draw)
    requires i < |s| && offset <= MatchesPerPlayer
    requires Sound(d, s, Distinct(s) && |s| > MatchesPerPlayer)
    ensures Sound(Row(s, i, offset, d), s, Distinct(s) && |s| > MatchesPerPlayer)
  {
    if offset > 0 {
      RowSound(s, i, offset - 1, d);
      if Distinct(s) && |s| > MatchesPerPlayer {
        OpponentIsOther(s, i, offset);
      }
      VisitSound(Row(s, i, offset - 1, d), s, Distinct(s) && |s| > MatchesPerPlayer, s[i], Opponent(s, i, offset));
    }
  }

  lemma {:induction false} RowsSound(s: seq<Id>, i: nat)
    requires i <= |s|
    ensures Sound(Rows(s, i), s, Distinct(s) && |s| > MatchesPerPlayer)
  {
    if i > 0 {
      RowsSound(s, i - 1);
      RowSound(s, i - 1, MatchesPerPlayer, Rows(s, i - 1));
    }
  }

  /**
   * Every group fixture is a first-leg round-0 fixture between participants of the list, no
   * unordered pair is drawn twice, and on a list without repeats nobody plays themselves.
   */
  lemma GroupScheduleSound(s: seq<Id>)
    ensures Unrepeated(GroupSchedule(s))
    ensures forall f :: f in GroupSchedule(s) ==> f.round == 0 && !f.isSecondLeg && f.home in s && f.away in s
    ensures Distinct(s) && |s| > MatchesPerPlayer ==> forall f :: f in GroupSchedule(s) ==> f.home != f.away
  {
    RowsSound(s, |s|);
  }

  // ---------------------------------------------------------------------------------------
  // Every candidate pair is drawn; with more than 8 distinct participants none is skipped
  // ---------------------------------------------------------------------------------------

  /** The unordered pair of candidate `(i, offset)`. */
  function CandidateKey(s: seq<Id>, i: nat, offset: nat): set<Id>
    requires i < |s|
  {
    PairKey(s[i], Opponent(s, i, offset))
  }

  lemma {:induction false} RowGrows(s: seq<Id>, i: nat, offset: nat, d: Draw)
    requires i < |s|
    ensures d.keys <= Row(s, i, offset, d).keys
  {
    if offset > 0 {
      RowGrows(s, i, offset - 1, d);
    }
  }

  lemma {:induction false} RowKeepsGrowing(s: seq<Id>, i: nat, offset: nat, later: nat, d: Draw)
    requires i < |s| && offset <= later
    ensures Row(s, i, offset, d).keys <= Row(s, i, later, d).keys
  {
    if offset < later {
      RowKeepsGrowing(s, i, offset, later - 1, d);
    }
  }

  lemma {:induction false} RowsGrow(s: seq<Id>, i: nat, j: nat)
    requires i <= j <= |s|
    ensures Rows(s, i).keys <= Rows(s, j).keys
  {
    if i < j {
      RowsGrow(s, i, j - 1);
      RowGrows(s, j - 1, MatchesPerPlayer, Rows(s, j - 1));
    }
  }

  /** Every candidate `(i, offset)` of the loops ends up as a fixture, in one order or the other. */
  lemma GroupScheduleComplete(s: seq<Id>, i: nat, offset: nat)
    requires i < |s| && 1 <= offset <= MatchesPerPlayer
    ensures CandidateKey(s, i, offset) in KeysOf(GroupSchedule(s))
  {
    RowKeepsGrowing(s, i, offset, MatchesPerPlayer, Rows(s, i));
    RowsGrow(s, i + 1, |s|);
    RowsSound(s, |s|);
  }

  /** With more than 8 distinct participants, different candidates are different pairs. */
  lemma CandidatesDiffer(s: seq<Id>, i: nat, o: nat, j: nat, o': nat)
    requires Distinct(s) && |s| > 2 * MatchesPerPlayer
    requires i < |s| && j < |s| && 1 <= o <= MatchesPerPlayer && 1 <= o' <= MatchesPerPlayer
    requires i != j || o != o'
    ensures CandidateKey(s, i, o) != CandidateKey(s, j, o')
  {
    var n := |s|;
    ModSmall(i + o, n);
    ModSmall(j + o', n);
    if CandidateKey(s, i, o) == CandidateKey(s, j, o') {
      PairKeyEqual(s[i], s[(i + o) % n], s[j], s[(j + o') % n]);
    }
  }

  /** The pairs of the candidates up to offset `offset` of row `i`. */
  ghost function Candidates(s: seq<Id>, i: nat, offset: nat): set<set<Id>> {
    set j, o | 0 <= j < |s| && 1 <= o <= MatchesPerPlayer && (j < i || (j == i && o <= offset)) :: CandidateKey(s, j, o)
  }

  /** Different candidates are different pairs. */
  ghost predicate CandidatesUnique(s: seq<Id>) {
    forall i, o, j, o' ::
      0 <= i < |s| && 0 <= j < |s| && 1 <= o <= MatchesPerPlayer && 1 <= o' <= MatchesPerPlayer && (i != j || o != o') ==>
      CandidateKey(s, i, o) != CandidateKey(s, j, o')
  }

  lemma AllCandidatesDiffer(s: seq<Id>)
    requires Distinct(s) && |s| > 2 * MatchesPerPlayer
    ensures CandidatesUnique(s)
  {
    forall i, o, j, o' | 0 <= i < |s| && 0 <= j < |s| && 1 <= o <= MatchesPerPlayer && 1 <= o' <= MatchesPerPlayer && (i != j || o != o')
      ensures CandidateKey(s, i, o) != CandidateKey(s, j, o')
    {
      CandidatesDiffer(s, i, o, j, o');
    }
  }

  lemma CandidatesStep(s: seq<Id>, i: nat, offset: nat)
    requires i < |s| && 1 <= offset <= MatchesPerPlayer
    ensures CandidateKey(s, i, offset) in Candidates(s, i, offset)
    ensures Candidates(s, i, offset - 1) <= Candidates(s, i, offset)
  {
  }

  lemma CandidatesNextRow(s: seq<Id>, i: nat)
    requires 0 < i <= |s|
    ensures Candidates(s, i - 1, MatchesPerPlayer) <= Candidates(s, i, 0)
  {
  }

  lemma {:induction false} RowCount(s: seq<Id>, i: nat, offset: nat, d: Draw)
    requires CandidatesUnique(s)
    requires i < |s| && offset <= MatchesPerPlayer && d.keys <= Candidates(s, i, 0)
    ensures |Row(s, i, offset, d).fixtures| == |d.fixtures| + offset
    ensures Row(s, i, offset, d).keys <= Candidates(s, i, offset)
  {
    if offset > 0 {
      RowCount(s, i, offset - 1, d);
      var e := Row(s, i, offset - 1, d);
      var k := CandidateKey(s, i, offset);
      assert k !in e.keys;
      CandidatesStep(s, i, offset);
    }
  }

  lemma {:induction false} RowsCount(s: seq<Id>, i: nat)
    requires CandidatesUnique(s) && i <= |s|
    ensures |Rows(s, i).fixtures| == MatchesPerPlayer * i
    ensures Rows(s, i).keys <= Candidates(s, i, 0)
  {
    if i > 0 {
      RowsCount(s, i - 1);
      RowCount(s, i - 1, MatchesPerPlayer, Rows(s, i - 1));
      CandidatesNextRow(s, i);
    }
  }

  /** With more than 8 distinct participants no candidate is skipped: `4 n` fixtures. */
  lemma GroupScheduleSize(s: seq<Id>)
    requires Distinct(s) && |s| > 2 * MatchesPerPlayer
    ensures |GroupSchedule(s)| == MatchesPerPlayer * |s|
  {
    AllCandidatesDiffer(s);
    RowsCount(s, |s|);
  }
}
