/**
 * The knockout round generator `generateKnockoutRound` of components/TournamentView.tsx and
 * the choice of the first knockout round for small CHAMPIONS tournaments.
 *
 * Knockout rounds are numbered 1 (round of sixteen) to 4 (the final). The shuffled list is
 * paired off in consecutive twos; every tie before the final has a reversed second leg, and an
 * odd participant at the end of the list is left out of the round.
 */
module Knockout {
  import opened Types
  import opened Fixtures

  /** The final: the only round played over a single leg. */
  const FinalRound: nat := 4

  /** The fixtures of one tie: `h` hosts `a`, answered before the final by `a` hosting `h`. */
  function Tie(h: Id, a: Id, round: nat): (fs: seq<Fixture>)
    ensures |fs| == if round < FinalRound then 2 else 1
  {
    [Fixture(h, a, round, false)] + if round < FinalRound then [Fixture(a, h, round, true)] else []
  }

  /** What the iteration with `i = 2k - 2` pushes: the tie of entries `i` and `i + 1`, if both exist. */
  function Pushed(s: seq<Id>, round: nat, k: nat): seq<Fixture>
    requires 1 <= k && 2 * k <= |s| + 1
  {
    if 2 * k - 1 < |s| then Tie(s[2 * k - 2], s[2 * k - 1], round) else []
  }

  /** The fixtures pushed while `i` ran over `0, 2, .., 2k - 2`. */
  function KnockoutUpTo(s: seq<Id>, round: nat, k: nat): seq<Fixture>
    requires 2 * k <= |s| + 1
  {
    if k == 0 then [] else KnockoutUpTo(s, round, k - 1) + Pushed(s, round, k)
  }

  /** The fixtures of one knockout round drawn from the shuffled list `s`. */
  function KnockoutSchedule(s: seq<Id>, round: nat): seq<Fixture> {
    KnockoutUpTo(s, round, (|s| + 1) / 2)
  }

  /** `generateKnockoutRound`: pushes the round's fixtures after those already in `matches`. */
  method GenerateKnockoutRound(shuffled: seq<Id>, round: nat, matches: seq<Fixture>) returns (fixtures: seq<Fixture>)
    ensures fixtures == matches + KnockoutSchedule(shuffled, round)
  {
    fixtures := matches;
    var i := 0;
    ghost var k := 0;
    while i < |shuffled|
      invariant i == 2 * k && 2 * k <= |shuffled| + 1
      invariant fixtures == matches + KnockoutUpTo(shuffled, round, k)
    {
      ghost var before := fixtures;
      if i + 1 < |shuffled| {
        fixtures := fixtures + [Fixture(shuffled[i], shuffled[i + 1], round, false)];
        if round < 4 {
          fixtures := fixtures + [Fixture(shuffled[i + 1], shuffled[i], round, true)];
        }
        assert fixtures == before + Pushed(shuffled, round, k + 1);
      }
      i := i + 2;
      k := k + 1;
    }
    assert k == (|shuffled| + 1) / 2;
  }

  /** The number of ties: one per two entries of the list. */
  function TieCount(s: seq<Id>): nat {
    |s| / 2
  }

  /** The first leg of tie `j`: entry `2j` hosts entry `2j + 1`. */
  function FirstLeg(s: seq<Id>, round: nat, j: nat): (f: Fixture)
    requires 2 * j + 1 < |s|
    ensures f.home == s[2 * j] && f.away == s[2 * j + 1] && f.round == round && !f.isSecondLeg
  {
    Fixture(s[2 * j], s[2 * j + 1], round, false)
  }

  /** The second leg of tie `j`: the first leg reversed. */
  function SecondLeg(s: seq<Id>, round: nat, j: nat): (f: Fixture)
    requires 2 * j + 1 < |s|
    ensures f.home == s[2 * j + 1] && f.away == s[2 * j] && f.round == round && f.isSecondLeg
  {
    Fixture(s[2 * j + 1], s[2 * j], round, true)
  }

  /** `f` is a leg of tie `j`: its first leg, or its second leg before the final. */
  predicate LegOf(s: seq<Id>, round: nat, j: nat, f: Fixture)
    requires 2 * j + 1 < |s|
  {
    f == FirstLeg(s, round, j) || (round < FinalRound && f == SecondLeg(s, round, j))
  }

  /** The tie a pushed fixture belongs to. */
  lemma {:induction false} TieOfLeg(s: seq<Id>, round: nat, k: nat, f: Fixture) returns (j: nat)
    requires 2 * k <= |s| + 1 && f in KnockoutUpTo(s, round, k)
    ensures j < k && 2 * j + 1 < |s| && LegOf(s, round, j, f)
  {
    if f in KnockoutUpTo(s, round, k - 1) {
      j := TieOfLeg(s, round, k - 1, f);
    } else {
      j := k - 1;
      assert f in Pushed(s, round, k);
    }
  }

  /** Both legs of tie `j` are pushed once `i` has passed `2j`. */
  lemma {:induction false} LegsOfTie(s: seq<Id>, round: nat, k: nat, j: nat)
    requires 2 * k <= |s| + 1 && j < k && 2 * j + 1 < |s|
    ensures FirstLeg(s, round, j) in KnockoutUpTo(s, round, k)
    ensures round < FinalRound ==> SecondLeg(s, round, j) in KnockoutUpTo(s, round, k)
  {
    if j < k - 1 {
      LegsOfTie(s, round, k - 1, j);
    } else {
      var tie := Pushed(s, round, k);
      assert tie[0] == FirstLeg(s, round, j);
      if round < FinalRound {
        assert tie[1] == SecondLeg(s, round, j);
      }
    }
  }

  /**
   * A knockout round consists of exactly the legs of ties `0 .. |s| / 2 - 1`: every tie's first
   * leg, its reversed second leg unless this is the final, and nothing else.
   */
  lemma KnockoutLegs(s: seq<Id>, round: nat)
    ensures forall f :: f in KnockoutSchedule(s, round) ==>
      exists j :: 0 <= j < TieCount(s) && LegOf(s, round, j, f)
    ensures forall j :: 0 <= j < TieCount(s) ==>
      FirstLeg(s, round, j) in KnockoutSchedule(s, round) &&
      (round < FinalRound ==> SecondLeg(s, round, j) in KnockoutSchedule(s, round))
  {
    var k := (|s| + 1) / 2;
    forall f | f in KnockoutSchedule(s, round) ensures exists j :: 0 <= j < TieCount(s) && LegOf(s, round, j, f) {
      var j := TieOfLeg(s, round, k, f);
    }
    forall j | 0 <= j < TieCount(s)
      ensures FirstLeg(s, round, j) in KnockoutSchedule(s, round)
      ensures round < FinalRound ==> SecondLeg(s, round, j) in KnockoutSchedule(s, round)
    {
      LegsOfTie(s, round, k, j);
    }
  }

  /** Every fixture of the round is in that round and between listed players, distinct when the list is. */
  lemma KnockoutPlayers(s: seq<Id>, round: nat)
    ensures forall f :: f in KnockoutSchedule(s, round) ==>
      f.round == round && (f.isSecondLeg ==> round < FinalRound) &&
      f.home in s && f.away in s && (Distinct(s) ==> f.home != f.away)
  {
    forall f | f in KnockoutSchedule(s, round)
      ensures f.round == round && (f.isSecondLeg ==> round < FinalRound)
      ensures f.home in s && f.away in s && (Distinct(s) ==> f.home != f.away)
    {
      var j := TieOfLeg(s, round, (|s| + 1) / 2, f);
    }
  }

  /** With an odd number of distinct entries, the last one of the shuffled list plays no leg. */
  lemma OddOneOut(s: seq<Id>, round: nat)
    requires Distinct(s) && |s| % 2 == 1
    ensures forall f :: f in KnockoutSchedule(s, round) ==> f.home != s[|s| - 1] && f.away != s[|s| - 1]
  {
    forall f | f in KnockoutSchedule(s, round) ensures f.home != s[|s| - 1] && f.away != s[|s| - 1] {
      var j := TieOfLeg(s, round, (|s| + 1) / 2, f);
    }
  }

  lemma {:induction false} KnockoutUpToSize(s: seq<Id>, round: nat, k: nat)
    requires 2 * k <= |s|
    ensures |KnockoutUpTo(s, round, k)| == if round < FinalRound then 2 * k else k
  {
    if k > 0 {
      KnockoutUpToSize(s, round, k - 1);
    }
  }

  /** Two fixtures per tie before the final, one in the final. */
  lemma KnockoutSize(s: seq<Id>, round: nat)
    ensures |KnockoutSchedule(s, round)| == if round < FinalRound then 2 * TieCount(s) else TieCount(s)
  {
    var k := (|s| + 1) / 2;
    if 2 * k <= |s| {
      KnockoutUpToSize(s, round, k);
    } else {
      KnockoutUpToSize(s, round, k - 1);
      assert Pushed(s, round, k) == [];
    }
  }

  /** The knockout round a CHAMPIONS tournament of at most 16 participants starts with. */
  function InitialRound(k: nat): (r: nat)
    ensures 1 <= r <= FinalRound
  {
    if k > 8 then 1 else if k > 4 then 2 else if k > 2 then 3 else 4
  }

  /** The number of places in knockout round `r`: 2 in the final, doubling per earlier round. */
  function BracketSize(r: nat): (b: nat)
    requires 1 <= r <= FinalRound
    decreases FinalRound - r
    ensures b >= 2
  {
    if r == FinalRound then 2 else 2 * BracketSize(r + 1)
  }

  /**
   * `k` participants start in the round of the smallest bracket that holds them all: the one
   * with more than half but at most all of its places filled; no other round qualifies.
   */
  lemma InitialRoundFits(k: nat, r: nat)
    requires 2 <= k <= 16 && 1 <= r <= FinalRound
    ensures BracketSize(InitialRound(k)) / 2 < k <= BracketSize(InitialRound(k))
    ensures BracketSize(r) / 2 < k <= BracketSize(r) ==> r == InitialRound(k)
  {
    assert BracketSize(4) == 2 && BracketSize(3) == 4 && BracketSize(2) == 8 && BracketSize(1) == 16;
  }
}
