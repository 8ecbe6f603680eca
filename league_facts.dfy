/**
 * The shape of the LEAGUE schedule of components/TournamentView.tsx: every fixture is between
 * listed participants (never the `'BYE'` padding), nobody plays themselves, every first leg of
 * round `r + 1` is answered by the reversed second leg of round `r + n`, and `k` participants
 * get `k * (k - 1)` fixtures.
 */
module LeagueFacts {
  import opened Types
  import opened Circle
  import opened Fixtures
  import opened RoundRobin

  /** The second leg that answers first leg `f` when the padded list has `n` slots. */
  function Mirror(f: Fixture, n: nat): (g: Fixture)
    requires n > 0
    ensures g.home == f.away && g.away == f.home && g.isSecondLeg && g.round - f.round == n - 1
  {
    Fixture(f.away, f.home, f.round + n - 1, true)
  }

  /**
   * Fixture `f` of schedule `fs` over `n` slots for participants `p`: its players are listed,
   * distinct when the list is, and its leg has the round range and the partner leg of the
   * circle method.
   */
  ghost predicate WellPlaced(f: Fixture, fs: seq<Fixture>, p: seq<Id>, n: nat) {
    && n >= 2
    && f.home in p && f.away in p
    && (Distinct(p) ==> f.home != f.away)
    && if f.isSecondLeg then
         n <= f.round <= 2 * n - 2 && Fixture(f.away, f.home, f.round - (n - 1), false) in fs
       else
         1 <= f.round <= n - 1 && Mirror(f, n) in fs
  }

  ghost predicate AllWellPlaced(fs: seq<Fixture>, p: seq<Id>, n: nat) {
    forall f :: f in fs ==> WellPlaced(f, fs, p, n)
  }

  /** Concatenating two well-placed blocks keeps every fixture well placed. */
  lemma WellPlacedAppend(a: seq<Fixture>, b: seq<Fixture>, p: seq<Id>, n: nat)
    requires AllWellPlaced(a, p, n) && AllWellPlaced(b, p, n)
    ensures AllWellPlaced(a + b, p, n)
  {
    forall f | f in a + b ensures WellPlaced(f, a + b, p, n) {
      if f in a {
        assert WellPlaced(f, a, p, n);
      } else {
        assert WellPlaced(f, b, p, n);
      }
    }
  }

  /** Only the padding can sit past the listed participants. */
  lemma EntrantSlot(p: seq<Id>, j: nat)
    requires j < |Rotated(p)| && Rotated(p)[j].Entrant?
    ensures j < |p| && Rotated(p)[j].id == p[j]
  {
  }

  /** One pairing yields a well-placed first leg and its mirror, or nothing. */
  lemma PairingWellPlaced(p: seq<Id>, q: nat, r: nat, i: nat)
    requires |Rotated(p)| == 2 * q + 2 && r < 2 * q + 1 && i <= q
    ensures AllWellPlaced(Pairing(Rotated(p), q, r, i), p, 2 * q + 2)
  {
    var slots, n := Rotated(p), 2 * q + 2;
    var h, w := HomePos(q, r, i), AwayPos(q, r, i);
    if slots[h].Entrant? && slots[w].Entrant? {
      EntrantSlot(p, h);
      EntrantSlot(p, w);
      var f := Fixture(p[h], p[w], r + 1, false);
      var g := Fixture(p[w], p[h], r + n, true);
      assert Pairing(slots, q, r, i) == [f, g];
      assert g == Mirror(f, n);
      assert Fixture(g.away, g.home, g.round - (n - 1), false) == f;
      if Distinct(p) {
        NoSelfPairing(q, r, i);
        if h < w {
          assert p[h] != p[w];
        } else {
          assert p[w] != p[h];
        }
      }
      assert WellPlaced(f, [f, g], p, n) && WellPlaced(g, [f, g], p, n);
    }
  }

  /** Every pairing of the schedule is well placed. */
  ghost predicate PairingsWellPlaced(slots: seq<Slot>, q: nat, p: seq<Id>)
    requires |slots| == 2 * q + 2
  {
    forall r, i :: 0 <= r < 2 * q + 1 && 0 <= i <= q ==> AllWellPlaced(Pairing(slots, q, r, i), p, 2 * q + 2)
  }

  lemma EveryPairingWellPlaced(p: seq<Id>, q: nat)
    requires |Rotated(p)| == 2 * q + 2
    ensures PairingsWellPlaced(Rotated(p), q, p)
  {
    forall r, i | 0 <= r < 2 * q + 1 && 0 <= i <= q
      ensures AllWellPlaced(Pairing(Rotated(p), q, r, i), p, 2 * q + 2)
    {
      PairingWellPlaced(p, q, r, i);
    }
  }

  lemma {:induction false} RoundWellPlaced(slots: seq<Slot>, q: nat, p: seq<Id>, r: nat, i: nat)
    requires |slots| == 2 * q + 2 && r < 2 * q + 1 && i <= q + 1
    requires PairingsWellPlaced(slots, q, p)
    ensures AllWellPlaced(RoundFixtures(slots, q, r, i), p, 2 * q + 2)
  {
    if i > 0 {
      RoundWellPlaced(slots, q, p, r, i - 1);
      WellPlacedAppend(RoundFixtures(slots, q, r, i - 1), Pairing(slots, q, r, i - 1), p, 2 * q + 2);
    }
  }

  /** The first `r` rounds are the first `r - 1` followed by round `r - 1`. */
  lemma LeagueStep(slots: seq<Slot>, q: nat, r: nat)
    requires |slots| == 2 * q + 2 && 0 < r <= 2 * q + 1
    ensures LeagueUpTo(slots, q, r) == LeagueUpTo(slots, q, r - 1) + WholeRound(slots, q, r - 1)
  {
  }

  /** Every round of the schedule is well placed. */
  ghost predicate RoundsAllWellPlaced(slots: seq<Slot>, q: nat, p: seq<Id>)
    requires |slots| == 2 * q + 2
  {
    forall r :: 0 <= r < 2 * q + 1 ==> AllWellPlaced(WholeRound(slots, q, r), p, 2 * q + 2)
  }

  lemma EveryRoundWellPlaced(slots: seq<Slot>, q: nat, p: seq<Id>)
    requires |slots| == 2 * q + 2
    requires PairingsWellPlaced(slots, q, p)
    ensures RoundsAllWellPlaced(slots, q, p)
  {
    forall r | 0 <= r < 2 * q + 1 ensures AllWellPlaced(WholeRound(slots, q, r), p, 2 * q + 2) {
      RoundWellPlaced(slots, q, p, r, q + 1);
    }
  }

  lemma {:induction false} RoundsWellPlaced(slots: seq<Slot>, q: nat, p: seq<Id>, r: nat)
    requires |slots| == 2 * q + 2 && r <= 2 * q + 1
    requires RoundsAllWellPlaced(slots, q, p)
    ensures AllWellPlaced(LeagueUpTo(slots, q, r), p, 2 * q + 2)
  {
    if r > 0 {
      RoundsWellPlaced(slots, q, p, r - 1);
      LeagueStep(slots, q, r);
      WellPlacedAppend(LeagueUpTo(slots, q, r - 1), WholeRound(slots, q, r - 1), p, 2 * q + 2);
    }
  }

  /**
   * Every fixture of the league is between listed participants, never the padding and, for a
   * list without repeats, never a participant against themselves; first legs fall in rounds
   * `1 .. n - 1` and each has its reversed second leg `n - 1` rounds later, where `n` is the
   * padded length.
   */
  lemma LeagueWellPlaced(p: seq<Id>)
    ensures AllWellPlaced(LeagueSchedule(p), p, |Rotated(p)|)
  {
    var slots := Rotated(p);
    if |slots| > 0 {
      var q := |slots| / 2 - 1;
      LeagueOfRounds(slots, q);
      EveryPairingWellPlaced(p, q);
      EveryRoundWellPlaced(slots, q, p);
      RoundsWellPlaced(slots, q, p, 2 * q + 1);
    }
  }

  /** How many fixtures pairing `i` yields: two, except pairing 0 against the padding. */
  function PairingYield(i: nat, padded: bool): nat {
    if i == 0 && padded then 0 else 2
  }

  ghost predicate PairingSizes(slots: seq<Slot>, q: nat, padded: bool)
    requires |slots| == 2 * q + 2
  {
    forall r, i :: 0 <= r < 2 * q + 1 && 0 <= i <= q ==> |Pairing(slots, q, r, i)| == PairingYield(i, padded)
  }

  lemma EveryPairingSize(p: seq<Id>, q: nat)
    requires |Rotated(p)| == 2 * q + 2
    ensures PairingSizes(Rotated(p), q, |p| % 2 == 1)
  {
    var slots := Rotated(p);
    forall r, i | 0 <= r < 2 * q + 1 && 0 <= i <= q
      ensures |Pairing(slots, q, r, i)| == PairingYield(i, |p| % 2 == 1)
    {
      assert slots[HomePos(q, r, i)].Entrant?;
      if |p| % 2 == 1 {
        assert slots[2 * q + 1] == Bye;
      }
    }
  }

  lemma {:induction false} RoundSize(slots: seq<Slot>, q: nat, padded: bool, r: nat, i: nat)
    requires |slots| == 2 * q + 2 && r < 2 * q + 1 && i <= q + 1
    requires PairingSizes(slots, q, padded)
    ensures |RoundFixtures(slots, q, r, i)| == 2 * i - (if i > 0 && padded then 2 else 0)
  {
    if i > 0 {
      RoundSize(slots, q, padded, r, i - 1);
      assert |Pairing(slots, q, r, i - 1)| == PairingYield(i - 1, padded);
    }
  }

  /** Every round yields `c` fixtures. */
  ghost predicate RoundSizes(slots: seq<Slot>, q: nat, c: nat)
    requires |slots| == 2 * q + 2
  {
    forall r :: 0 <= r < 2 * q + 1 ==> |WholeRound(slots, q, r)| == c
  }

  lemma EveryRoundSize(slots: seq<Slot>, q: nat, padded: bool)
    requires |slots| == 2 * q + 2
    requires PairingSizes(slots, q, padded)
    ensures RoundSizes(slots, q, if padded then 2 * q else 2 * q + 2)
  {
    forall r | 0 <= r < 2 * q + 1 ensures |WholeRound(slots, q, r)| == if padded then 2 * q else 2 * q + 2 {
      RoundSize(slots, q, padded, r, q + 1);
    }
  }

  lemma MulStep(r: nat, c: nat)
    requires r > 0
    ensures r * c == (r - 1) * c + c
  {
  }

  lemma {:induction false} RoundsSize(slots: seq<Slot>, q: nat, c: nat, r: nat)
    requires |slots| == 2 * q + 2 && r <= 2 * q + 1
    requires RoundSizes(slots, q, c)
    ensures |LeagueUpTo(slots, q, r)| == r * c
  {
    if r > 0 {
      RoundsSize(slots, q, c, r - 1);
      LeagueStep(slots, q, r);
      MulStep(r, c);
    }
  }

  lemma RoundsTimesYield(k: nat, q: nat, padded: bool, c: nat)
    requires k == if padded then 2 * q + 1 else 2 * q + 2
    requires c == if padded then 2 * q else 2 * q + 2
    ensures (2 * q + 1) * c == k * (k - 1)
  {
  }

  /** The padded list has `2q + 2` slots: the list itself if even, plus the padding if odd. */
  lemma PaddedLength(p: seq<Id>, q: nat)
    requires |Rotated(p)| == 2 * q + 2
    ensures |p| == if |p| % 2 == 1 then 2 * q + 1 else 2 * q + 2
  {
  }

  lemma RoundsOfSize(p: seq<Id>, q: nat)
    requires |Rotated(p)| == 2 * q + 2
    ensures |LeagueUpTo(Rotated(p), q, 2 * q + 1)| == |p| * (|p| - 1)
  {
    var slots := Rotated(p);
    var padded := |p| % 2 == 1;
    var c := if padded then 2 * q else 2 * q + 2;
    assert RoundSizes(slots, q, c) by {
      EveryPairingSize(p, q);
      EveryRoundSize(slots, q, padded);
    }
    RoundsSize(slots, q, c, 2 * q + 1);
    PaddedLength(p, q);
    RoundsTimesYield(|p|, q, padded, c);
  }

  /** `k` participants get `k * (k - 1)` fixtures: each ordered pair once. */
  lemma LeagueSize(p: seq<Id>)
    ensures |LeagueSchedule(p)| == |p| * (|p| - 1)
  {
    var slots := Rotated(p);
    if |slots| > 0 {
      var q := |slots| / 2 - 1;
      LeagueOfRounds(slots, q);
      RoundsOfSize(p, q);
    }
  }
}
