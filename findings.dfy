/**
 * A CHAMPIONS knockout that does not start with a full bracket can never be finished.
 *
 * A CHAMPIONS tournament of `k` participants, 2 <= k <= 16, starts in the round of the
 * smallest bracket that holds them (`InitialRound`). `generateKnockoutRound` pairs the
 * shuffled list off and leaves an odd last entrant out, and `handleAdvancePhase` sends one
 * winner per tie to the next round (`Advance.AdvanceHalves`), so every round halves the field
 * rounding down. Unless `k` is the bracket size (2, 4, 8 or 16), a round before the final
 * leaves a single qualifier: `handleAdvancePhase` then alerts and changes nothing, the advance
 * button stays offered and the finish button, which needs a final, never appears. Leaving the
 * odd entrant out is a deliberate choice of the design; the defect is that such a cup has no
 * way to end. Giving the odd entrant a bye is one possible correction, modelled below: it
 * halves the field rounding up and always brings two players to the final.
 */
module Findings {
  import opened Types
  import opened Fixtures
  import opened Knockout
  import opened Advance
  import Start

  // ---------------------------------------------------------------------------------------
  // As written: a concrete cup of three that stalls

  /** A confirmed semifinal leg between `h` (scoring `hg`) and `a` (scoring `ag`). */
  function SemifinalLeg(id: Id, h: Id, a: Id, hg: nat, ag: nat, secondLeg: bool): Match {
    Match(id, "cup", h, a, MatchStats(hg, 0, 0), MatchStats(ag, 0, 0), Confirmed, Some(h), [h, a],
          Some(3), secondLeg, 0, None)
  }

  /**
   * Three participants "a", "b" and "c" after the semifinal: "a" beat "b" 1-0 and drew the
   * return leg; "c", last in the shuffled list, was left out of the draw.
   */
  function StalledCup(): Tournament {
    Tournament("cup", "Copa", Champions, Active, "a", "CODE1", ["a", "b", "c"],
      [SemifinalLeg("m1", "a", "b", 1, 0, false), SemifinalLeg("m2", "b", "a", 0, 0, true)], false, 0)
  }

  /** Three participants start in the semifinal, and the draw leaves the third one out. */
  lemma ThreePlayerDraw()
    ensures InitialRound(3) == 3
    ensures Start.InitialSchedule(Champions, ["a", "b", "c"], ["a", "b", "c"])
         == [Fixture("a", "b", 3, false), Fixture("b", "a", 3, true)]
  {
    var s: seq<Id> := ["a", "b", "c"];
    assert KnockoutSchedule(s, 3) == KnockoutUpTo(s, 3, 2);
    assert KnockoutUpTo(s, 3, 1) == Tie("a", "b", 3);
  }

  /**
   * After that semifinal the only offered action, advancing, changes nothing (one qualifier
   * for a final that needs two), while finishing is never offered: the cup is stuck.
   */
  lemma ThreePlayerCupStalls(users: seq<User>, shuffle: seq<Id> -> seq<Id>, uuid: nat -> Id)
    ensures CanAdvance(StalledCup())
    ensures !CanFinish(StalledCup())
    ensures Advanced(StalledCup(), users, shuffle, uuid) == StalledCup()
  {
    var t := StalledCup();
    SemifinalRound();
    SemifinalPairings();
    assert Winners(Pairings(t.matches)) == ["a"];
    assert Qualified(t, users, 3) == (["a"], 4);
  }

  /** The cup's latest round is the semifinal, which holds all its matches, all confirmed. */
  lemma SemifinalRound()
    ensures var ms := StalledCup().matches;
      MaxRound(ms) == Some(3) && InRound(ms, 3) == ms && AllConfirmed(ms)
  {
    var ms := StalledCup().matches;
    assert ms[1..][1..] == [];
  }

  /** Two legs between the same pair make a single entry of the map. */
  lemma TwoLegTie(m1: Match, m2: Match)
    requires LegKey(m2) == LegKey(m1)
    ensures Pairings([m1, m2])
         == [Entry(LegKey(m1), AddLeg(AddLeg(Aggregate(m1.homePlayerId, m1.awayPlayerId, 0, 0), m1), m2))]
  {
    var ms := [m1, m2];
    assert ms[..1] == [m1] && [m1][..0] == [];
    assert Pairings([m1][..0]) == [];
    var first := Pairings([m1]);
    assert first == Record([], m1);
    assert Find(first, LegKey(m1)) == Some(0);
  }

  /** The semifinal's two legs make one tie, won by "a" 1-0 on aggregate. */
  lemma SemifinalPairings()
    ensures Pairings(StalledCup().matches) == [Entry({"a", "b"}, Aggregate("a", "b", 1, 0))]
  {
    var ms := StalledCup().matches;
    assert LegKey(ms[0]) == {"a", "b"} == LegKey(ms[1]);
    TwoLegTie(ms[0], ms[1]);
  }

  // ---------------------------------------------------------------------------------------
  // As written: every bracket that does not start full

  /** The field after `times` rounds that send one player per pair on and drop an odd one. */
  function FloorHalvings(n: nat, times: nat): nat {
    if times == 0 then n else FloorHalvings(n / 2, times - 1)
  }

  /** From between half and all of the places of round `r`, halving down reaches the final with two players only from a full bracket. */
  lemma {:induction false} FloorHalvingsBracket(n: nat, r: nat)
    requires 1 <= r <= FinalRound && BracketSize(r) / 2 <= n <= BracketSize(r)
    decreases FinalRound - r
    ensures n == BracketSize(r) ==> FloorHalvings(n, FinalRound - r) == 2
    ensures n < BracketSize(r) ==> FloorHalvings(n, FinalRound - r) == 1
  {
    if r < FinalRound {
      assert BracketSize(r) == 2 * BracketSize(r + 1);
      assert BracketSize(r + 1) % 2 == 0 by {
        if r + 1 < FinalRound {
          assert BracketSize(r + 1) == 2 * BracketSize(r + 2);
        }
      }
      FloorHalvingsBracket(n / 2, r + 1);
    }
  }

  /**
   * The field sizes the code as written goes through, counting one qualifier per tie of a
   * distinct list in every round (`Advance.AdvanceHalves` proves that step about `Advanced`):
   * `k` participants leave two players for the final exactly when `k` fills its starting
   * bracket, and one otherwise (3, 5 to 7, 9 to 15). For three participants the stalled cup
   * itself is `ThreePlayerCupStalls`.
   */
  lemma FinalFieldAsWritten(k: nat)
    requires 2 <= k <= 16
    ensures FloorHalvings(k, FinalRound - InitialRound(k)) == if k == BracketSize(InitialRound(k)) then 2 else 1
  {
    InitialRoundFits(k, InitialRound(k));
    FloorHalvingsBracket(k, InitialRound(k));
  }

  // ---------------------------------------------------------------------------------------
  // One possible correction: the odd entrant gets a bye

  /** The entrant the draw leaves out, who goes through on a bye. */
  function ByeEntrant(s: seq<Id>): (b: seq<Id>)
    ensures |b| == |s| % 2
  {
    if |s| % 2 == 1 then [s[|s| - 1]] else []
  }

  /** The players going on from a round drawn from `s`: one winner per tie, then the bye entrant. */
  function QualifiersWithBye(s: seq<Id>, winners: seq<Id>): seq<Id> {
    winners + ByeEntrant(s)
  }

  /**
   * With one winner per tie, the corrected qualifiers are half the field rounded up, and the
   * bye goes exactly to the entrant who played no leg of the round.
   */
  lemma QualifiersWithByeSpec(s: seq<Id>, winners: seq<Id>, round: nat)
    requires Distinct(s) && |winners| == TieCount(s)
    ensures |QualifiersWithBye(s, winners)| == (|s| + 1) / 2
    ensures |s| % 2 == 1 ==> QualifiersWithBye(s, winners)[|winners|] == s[|s| - 1]
    ensures |s| % 2 == 1 ==> forall f :: f in KnockoutSchedule(s, round) ==> f.home != s[|s| - 1] && f.away != s[|s| - 1]
  {
    if |s| % 2 == 1 {
      OddOneOut(s, round);
    }
  }

  /** The field after `times` rounds with byes: half, rounded up, each time. */
  function CeilHalvings(n: nat, times: nat): nat {
    if times == 0 then n else CeilHalvings((n + 1) / 2, times - 1)
  }

  /** From more than half of the places of round `r`, halving up keeps the field in the next bracket, down to two finalists. */
  lemma {:induction false} CeilHalvingsBracket(n: nat, r: nat)
    requires 1 <= r <= FinalRound && BracketSize(r) / 2 < n <= BracketSize(r)
    decreases FinalRound - r
    ensures CeilHalvings(n, FinalRound - r) == 2
  {
    if r < FinalRound {
      assert BracketSize(r) == 2 * BracketSize(r + 1);
      assert BracketSize(r + 1) % 2 == 0 by {
        if r + 1 < FinalRound {
          assert BracketSize(r + 1) == 2 * BracketSize(r + 2);
        }
      }
      CeilHalvingsBracket((n + 1) / 2, r + 1);
    }
  }

  /** With byes, every knockout of 2 to 16 participants reaches a final of exactly two players. */
  lemma FinalFieldWithByes(k: nat)
    requires 2 <= k <= 16
    ensures CeilHalvings(k, FinalRound - InitialRound(k)) == 2
  {
    InitialRoundFits(k, InitialRound(k));
    CeilHalvingsBracket(k, InitialRound(k));
  }
}
