/**
 * What the LEAGUE schedule of components/TournamentView.tsx promises: every two participants
 * meet exactly once in the first legs and once in the second legs, nobody meets the padding
 * or themselves, and `k` participants play `k * (k - 1)` matches.
 */
module RoundRobin {
  import opened Types
  import opened Circle
  import opened Fixtures

  /** The fixture is of the given leg and between `a` and `b`, in either order. */
  predicate IsMeeting(f: Fixture, a: Id, b: Id, secondLeg: bool) {
    f.isSecondLeg == secondLeg && ((f.home == a && f.away == b) || (f.home == b && f.away == a))
  }

  /** How many of the first `n` fixtures of `fs` are of the given leg and between `a` and `b`. */
  function MeetingsIn(fs: seq<Fixture>, n: nat, a: Id, b: Id, secondLeg: bool): (c: nat)
    requires n <= |fs|
    ensures c <= n
  {
    if n == 0 then 0 else MeetingsIn(fs, n - 1, a, b, secondLeg) + (if IsMeeting(fs[n - 1], a, b, secondLeg) then 1 else 0)
  }

  /** How many fixtures of `fs` of the given leg are between `a` and `b`. */
  function Meetings(fs: seq<Fixture>, a: Id, b: Id, secondLeg: bool): (c: nat)
    ensures c <= |fs|
  {
    MeetingsIn(fs, |fs|, a, b, secondLeg)
  }

  /** Appending fixtures leaves the count over the prefix alone. */
  lemma {:induction false} MeetingsInPrefix(s: seq<Fixture>, t: seq<Fixture>, n: nat, a: Id, b: Id, secondLeg: bool)
    requires n <= |s|
    ensures MeetingsIn(s + t, n, a, b, secondLeg) == MeetingsIn(s, n, a, b, secondLeg)
  {
    if n > 0 {
      MeetingsInPrefix(s, t, n - 1, a, b, secondLeg);
      assert (s + t)[n - 1] == s[n - 1];
    }
  }

  lemma {:induction false} MeetingsInSuffix(s: seq<Fixture>, t: seq<Fixture>, k: nat, a: Id, b: Id, secondLeg: bool)
    requires k <= |t|
    ensures MeetingsIn(s + t, |s| + k, a, b, secondLeg) == Meetings(s, a, b, secondLeg) + MeetingsIn(t, k, a, b, secondLeg)
  {
    if k == 0 {
      MeetingsInPrefix(s, t, |s|, a, b, secondLeg);
    } else {
      MeetingsInSuffix(s, t, k - 1, a, b, secondLeg);
      assert (s + t)[|s| + k - 1] == t[k - 1];
    }
  }

  lemma MeetingsAppend(s: seq<Fixture>, t: seq<Fixture>, a: Id, b: Id, secondLeg: bool)
    ensures Meetings(s + t, a, b, secondLeg) == Meetings(s, a, b, secondLeg) + Meetings(t, a, b, secondLeg)
  {
    MeetingsInSuffix(s, t, |t|, a, b, secondLeg);
  }

  lemma MeetingsOfTwo(f: Fixture, g: Fixture, a: Id, b: Id, secondLeg: bool)
    ensures Meetings([f, g], a, b, secondLeg)
         == (if IsMeeting(f, a, b, secondLeg) then 1 else 0) + (if IsMeeting(g, a, b, secondLeg) then 1 else 0)
  {
    assert MeetingsIn([f, g], 1, a, b, secondLeg) == if IsMeeting(f, a, b, secondLeg) then 1 else 0;
  }

  /** Slot `x` is the only slot holding entrant `a`. */
  ghost predicate SoleSlot(slots: seq<Slot>, x: nat, a: Id) {
    x < |slots| && forall j :: 0 <= j < |slots| ==> (slots[j] == Entrant(a) <==> j == x)
  }

  /** Padding the list keeps each participant in its own slot. */
  lemma RotatedSole(p: seq<Id>, x: nat)
    requires Distinct(p) && x < |p|
    ensures SoleSlot(Rotated(p), x, p[x])
  {
    var slots := Rotated(p);
    forall j | 0 <= j < |slots| ensures slots[j] == Entrant(p[x]) <==> j == x {
      if j < |p| && j != x {
        assert slots[j] == Entrant(p[j]);
        assert p[j] != p[x] by {
          if j < x { assert p[j] != p[x]; } else { assert p[x] != p[j]; }
        }
      }
    }
  }

  /** A pairing holds `a` and `b` exactly when it brings their slots together. */
  lemma PairingMeetings(slots: seq<Slot>, q: nat, r: nat, i: nat, x: nat, y: nat, a: Id, b: Id, secondLeg: bool)
    requires |slots| == 2 * q + 2 && r < 2 * q + 1 && i <= q
    requires x != y && SoleSlot(slots, x, a) && SoleSlot(slots, y, b)
    ensures Meetings(Pairing(slots, q, r, i), a, b, secondLeg) == if Meets(q, r, i, x, y) then 1 else 0
  {
    var h, w := HomePos(q, r, i), AwayPos(q, r, i);
    if slots[h].Entrant? && slots[w].Entrant? {
      var f, g := Fixture(slots[h].id, slots[w].id, r + 1, false), Fixture(slots[w].id, slots[h].id, r + 2 * q + 2, true);
      assert Pairing(slots, q, r, i) == [f, g];
      MeetingsOfTwo(f, g, a, b, secondLeg);
    } else {
      assert !Meets(q, r, i, x, y);
    }
  }

  /** Pairing `i` of round `r` is where `x` and `y` meet exactly when it is pairing `i0` of round `r0`. */
  lemma MeetsExactlyThere(q: nat, r: nat, i: nat, r0: nat, i0: nat, x: nat, y: nat)
    requires r < 2 * q + 1 && i <= q && r0 < 2 * q + 1 && i0 <= q && x != y && Meets(q, r0, i0, x, y)
    ensures Meets(q, r, i, x, y) <==> r == r0 && i == i0
  {
    if Meets(q, r, i, x, y) {
      MeetAtMostOnce(q, r, i, r0, i0, x, y);
    }
  }

  /** Round `r`'s first `n` pairings hold one meeting of `a` and `b` if they meet in one of them. */
  ghost predicate RoundMeetingsAre(slots: seq<Slot>, q: nat, r: nat, n: nat, a: Id, b: Id, secondLeg: bool, r0: nat, i0: nat)
    requires |slots| == 2 * q + 2 && r < 2 * q + 1 && n <= q + 1
  {
    Meetings(RoundFixtures(slots, q, r, n), a, b, secondLeg) == if r == r0 && i0 < n then 1 else 0
  }

  /** The first `rounds` rounds hold one meeting of `a` and `b` if they meet in one of them. */
  ghost predicate LeagueMeetingsAre(slots: seq<Slot>, q: nat, rounds: nat, a: Id, b: Id, secondLeg: bool, r0: nat)
    requires |slots| == 2 * q + 2 && rounds <= 2 * q + 1
  {
    Meetings(LeagueUpTo(slots, q, rounds), a, b, secondLeg) == if r0 < rounds then 1 else 0
  }

  /** Pairing `i` of round `r` holds one meeting of `a` and `b` if it is pairing `i0` of round `r0`, else none. */
  lemma PairingMeetingsAt(slots: seq<Slot>, q: nat, r: nat, i: nat, x: nat, y: nat, a: Id, b: Id, secondLeg: bool, r0: nat, i0: nat)
    requires |slots| == 2 * q + 2 && r < 2 * q + 1 && i <= q
    requires x != y && SoleSlot(slots, x, a) && SoleSlot(slots, y, b)
    requires r0 < 2 * q + 1 && i0 <= q && Meets(q, r0, i0, x, y)
    ensures Meetings(Pairing(slots, q, r, i), a, b, secondLeg) == if r == r0 && i == i0 then 1 else 0
  {
    PairingMeetings(slots, q, r, i, x, y, a, b, secondLeg);
    MeetsExactlyThere(q, r, i, r0, i0, x, y);
  }

  lemma RoundSplit(slots: seq<Slot>, q: nat, r: nat, n: nat, a: Id, b: Id, secondLeg: bool)
    requires |slots| == 2 * q + 2 && r < 2 * q + 1 && 0 < n <= q + 1
    ensures Meetings(RoundFixtures(slots, q, r, n), a, b, secondLeg)
         == Meetings(RoundFixtures(slots, q, r, n - 1), a, b, secondLeg) + Meetings(Pairing(slots, q, r, n - 1), a, b, secondLeg)
  {
    MeetingsAppend(RoundFixtures(slots, q, r, n - 1), Pairing(slots, q, r, n - 1), a, b, secondLeg);
  }

  lemma LeagueSplit(slots: seq<Slot>, q: nat, rounds: nat, a: Id, b: Id, secondLeg: bool)
    requires |slots| == 2 * q + 2 && 0 < rounds <= 2 * q + 1
    ensures Meetings(LeagueUpTo(slots, q, rounds), a, b, secondLeg)
         == Meetings(LeagueUpTo(slots, q, rounds - 1), a, b, secondLeg) + Meetings(WholeRound(slots, q, rounds - 1), a, b, secondLeg)
  {
    MeetingsAppend(LeagueUpTo(slots, q, rounds - 1), RoundFixtures(slots, q, rounds - 1, q + 1), a, b, secondLeg);
  }

  /** Every pairing of the schedule holds one meeting of `a` and `b` if it is pairing `i0` of round `r0`, else none. */
  ghost predicate OnlyAt(slots: seq<Slot>, q: nat, a: Id, b: Id, secondLeg: bool, r0: nat, i0: nat)
    requires |slots| == 2 * q + 2
  {
    forall r, i :: 0 <= r < 2 * q + 1 && 0 <= i <= q ==>
      Meetings(Pairing(slots, q, r, i), a, b, secondLeg) == if r == r0 && i == i0 then 1 else 0
  }

  lemma MeetingsOnlyAt(slots: seq<Slot>, q: nat, x: nat, y: nat, a: Id, b: Id, secondLeg: bool, r0: nat, i0: nat)
    requires |slots| == 2 * q + 2
    requires x != y && SoleSlot(slots, x, a) && SoleSlot(slots, y, b)
    requires r0 < 2 * q + 1 && i0 <= q && Meets(q, r0, i0, x, y)
    ensures OnlyAt(slots, q, a, b, secondLeg, r0, i0)
  {
    forall r, i | 0 <= r < 2 * q + 1 && 0 <= i <= q
      ensures Meetings(Pairing(slots, q, r, i), a, b, secondLeg) == if r == r0 && i == i0 then 1 else 0
    {
      PairingMeetingsAt(slots, q, r, i, x, y, a, b, secondLeg, r0, i0);
    }
  }

  lemma {:induction false} RoundMeetings(slots: seq<Slot>, q: nat, r: nat, n: nat, a: Id, b: Id, secondLeg: bool, r0: nat, i0: nat)
    requires |slots| == 2 * q + 2 && r < 2 * q + 1 && n <= q + 1
    requires OnlyAt(slots, q, a, b, secondLeg, r0, i0)
    ensures RoundMeetingsAre(slots, q, r, n, a, b, secondLeg, r0, i0)
  {
    if n > 0 {
      RoundMeetings(slots, q, r, n - 1, a, b, secondLeg, r0, i0);
      RoundSplit(slots, q, r, n, a, b, secondLeg);
    }
  }

  /** Every round of the schedule holds one meeting of `a` and `b` if it is round `r0`, else none. */
  ghost predicate OnlyInRound(slots: seq<Slot>, q: nat, a: Id, b: Id, secondLeg: bool, r0: nat)
    requires |slots| == 2 * q + 2
  {
    forall r :: 0 <= r < 2 * q + 1 ==> Meetings(WholeRound(slots, q, r), a, b, secondLeg) == if r == r0 then 1 else 0
  }

  /** All pairings of round `r`. */
  function WholeRound(slots: seq<Slot>, q: nat, r: nat): seq<Fixture>
    requires |slots| == 2 * q + 2 && r < 2 * q + 1
  {
    RoundFixtures(slots, q, r, q + 1)
  }

  lemma RoundsOnlyAt(slots: seq<Slot>, q: nat, a: Id, b: Id, secondLeg: bool, r0: nat, i0: nat)
    requires |slots| == 2 * q + 2 && i0 <= q
    requires OnlyAt(slots, q, a, b, secondLeg, r0, i0)
    ensures OnlyInRound(slots, q, a, b, secondLeg, r0)
  {
    forall r | 0 <= r < 2 * q + 1
      ensures Meetings(WholeRound(slots, q, r), a, b, secondLeg) == if r == r0 then 1 else 0
    {
      RoundMeetings(slots, q, r, q + 1, a, b, secondLeg, r0, i0);
    }
  }

  lemma {:induction false} LeagueMeetings(slots: seq<Slot>, q: nat, rounds: nat, a: Id, b: Id, secondLeg: bool, r0: nat)
    requires |slots| == 2 * q + 2 && rounds <= 2 * q + 1
    requires OnlyInRound(slots, q, a, b, secondLeg, r0)
    ensures LeagueMeetingsAre(slots, q, rounds, a, b, secondLeg, r0)
  {
    if rounds > 0 {
      LeagueMeetings(slots, q, rounds - 1, a, b, secondLeg, r0);
      LeagueSplit(slots, q, rounds, a, b, secondLeg);
    }
  }

  lemma LeagueMeetsOnce(slots: seq<Slot>, q: nat, a: Id, b: Id, secondLeg: bool, r0: nat)
    requires |slots| == 2 * q + 2 && r0 < 2 * q + 1
    requires OnlyInRound(slots, q, a, b, secondLeg, r0)
    ensures Meetings(LeagueUpTo(slots, q, 2 * q + 1), a, b, secondLeg) == 1
  {
    LeagueMeetings(slots, q, 2 * q + 1, a, b, secondLeg, r0);
  }

  /** On distinct slots, two entrants meet exactly once per leg over the whole schedule. */
  lemma SlotsMeetOnce(slots: seq<Slot>, q: nat, x: nat, y: nat, a: Id, b: Id, secondLeg: bool)
    requires |slots| == 2 * q + 2
    requires x != y && SoleSlot(slots, x, a) && SoleSlot(slots, y, b)
    ensures Meetings(LeagueUpTo(slots, q, 2 * q + 1), a, b, secondLeg) == 1
  {
    var r0, i0 := MeetSomewhere(q, x, y);
    MeetingsOnlyAt(slots, q, x, y, a, b, secondLeg, r0, i0);
    RoundsOnlyAt(slots, q, a, b, secondLeg, r0, i0);
    LeagueMeetsOnce(slots, q, a, b, secondLeg, r0);
  }

  /**
   * Every two different participants meet exactly once as a first leg and exactly once as a
   * second leg.
   */
  lemma EveryPairMeetsOnce(p: seq<Id>, a: Id, b: Id)
    requires Distinct(p) && a in p && b in p && a != b
    ensures Meetings(LeagueSchedule(p), a, b, false) == 1
    ensures Meetings(LeagueSchedule(p), a, b, true) == 1
  {
    var slots := Rotated(p);
    var x :| 0 <= x < |p| && p[x] == a;
    var y :| 0 <= y < |p| && p[y] == b;
    RotatedSole(p, x);
    RotatedSole(p, y);
    var q := |slots| / 2 - 1;
    LeagueOfRounds(slots, q);
    SlotsMeetOnce(slots, q, x, y, a, b, false);
    SlotsMeetOnce(slots, q, x, y, a, b, true);
  }
}
