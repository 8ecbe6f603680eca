/**
 * The arithmetic of the circle method (Berger tables) behind the league schedule of
 * components/TournamentView.tsx: `n = 2q + 2` slots, slot `n - 1` fixed, the other
 * `m = 2q + 1` rotating; in round `r` (0-based), pairing `i` puts slot `(r + i) % m` at home and
 * slot `(m - i + r) % m` away, except pairing 0, whose away slot is the fixed one.
 */
module Circle {

  /** Home slot of pairing `i` in round `r`, the `(r + i) % (n - 1)` of the loop. */
  function HomePos(q: nat, r: nat, i: nat): (p: nat)
    requires r < 2 * q + 1 && i <= q
    ensures p < 2 * q + 1
  {
    if r + i < 2 * q + 1 then r + i else r + i - (2 * q + 1)
  }

  /** The rotating away slot of pairing `i` in round `r`, the `(n - 1 - i + r) % (n - 1)` of the loop. */
  function AwayTurn(q: nat, r: nat, i: nat): (p: nat)
    requires r < 2 * q + 1 && i <= q
    ensures p < 2 * q + 1
  {
    if i <= r then r - i else r + (2 * q + 1) - i
  }

  /** Away slot of pairing `i` in round `r`: the fixed slot for pairing 0, else the rotating one. */
  function AwayPos(q: nat, r: nat, i: nat): (p: nat)
    requires r < 2 * q + 1 && i <= q
    ensures p <= 2 * q + 1
    ensures p == 2 * q + 1 <==> i == 0
  {
    if i == 0 then 2 * q + 1 else AwayTurn(q, r, i)
  }

  lemma ModSmall(a: int, m: int)
    requires 0 < m && 0 <= a < 2 * m
    ensures a % m == if a < m then a else a - m
  {
    if a < m {
      assert a == 0 * m + a;
    } else {
      assert a == 1 * m + (a - m);
    }
  }

  /** The two rotating positions are the loop's remainders modulo `n - 1 = 2q + 1`. */
  lemma PositionsAreRemainders(q: nat, r: nat, i: nat)
    requires r < 2 * q + 1 && i <= q
    ensures HomePos(q, r, i) == (r + i) % (2 * q + 1)
    ensures AwayTurn(q, r, i) == (2 * q + 1 - i + r) % (2 * q + 1)
  {
    ModSmall(r + i, 2 * q + 1);
    ModSmall(2 * q + 1 - i + r, 2 * q + 1);
  }

  /** Pairing `i` of round `r` brings slots `x` and `y` together, in either order. */
  predicate Meets(q: nat, r: nat, i: nat, x: nat, y: nat)
    requires r < 2 * q + 1 && i <= q
  {
    (HomePos(q, r, i) == x && AwayPos(q, r, i) == y) || (HomePos(q, r, i) == y && AwayPos(q, r, i) == x)
  }

  /** No pairing puts a slot against itself. */
  lemma NoSelfPairing(q: nat, r: nat, i: nat)
    requires r < 2 * q + 1 && i <= q
    ensures HomePos(q, r, i) != AwayPos(q, r, i)
  {
  }

  /** Within one round, two different pairings share no slot. */
  lemma RoundIsDisjoint(q: nat, r: nat, i: nat, j: nat)
    requires r < 2 * q + 1 && i <= q && j <= q && i != j
    ensures HomePos(q, r, i) != HomePos(q, r, j)
    ensures HomePos(q, r, i) != AwayPos(q, r, j)
    ensures AwayPos(q, r, i) != AwayPos(q, r, j)
  {
  }

  /** Two slots meet in at most one pairing of the whole schedule. */
  lemma MeetAtMostOnce(q: nat, r: nat, i: nat, r': nat, i': nat, x: nat, y: nat)
    requires r < 2 * q + 1 && i <= q && r' < 2 * q + 1 && i' <= q && x != y
    requires Meets(q, r, i, x, y) && Meets(q, r', i', x, y)
    ensures r == r' && i == i'
  {
    if r == r' {
      if i != i' {
        RoundIsDisjoint(q, r, i, i');
      }
    } else if i == 0 || i' == 0 {
      // the fixed slot meets slot r in round r only
    } else {
      // home + away is 2r modulo 2q + 1, and 2q + 1 is odd
    }
  }

  /** The round `r` with `2r` equal to `x + y` modulo `2q + 1`. */
  lemma HalfSum(q: nat, x: nat, y: nat) returns (r: nat)
    requires x < 2 * q + 1 && y < 2 * q + 1
    ensures r < 2 * q + 1
    ensures 2 * r == x + y || 2 * r == x + y + 2 * q + 1 || 2 * r == x + y - (2 * q + 1)
  {
    var m, s := 2 * q + 1, x + y;
    if s % 2 == 0 {
      r := s / 2;
    } else if s < m {
      r := (s + m) / 2;
    } else {
      r := (s - m) / 2;
    }
  }

  /** Two different rotating slots meet in the round halfway between them. */
  lemma MeetRotating(q: nat, x: nat, y: nat) returns (r: nat, i: nat)
    requires x < 2 * q + 1 && y < 2 * q + 1 && x != y
    ensures r < 2 * q + 1 && i <= q && Meets(q, r, i, x, y)
  {
    var m := 2 * q + 1;
    r := HalfSum(q, x, y);
    var d := if x >= r then x - r else x + m - r;
    i := if d <= q then d else m - d;
  }

  /** Two different slots meet in some pairing. */
  lemma MeetSomewhere(q: nat, x: nat, y: nat) returns (r: nat, i: nat)
    requires x <= 2 * q + 1 && y <= 2 * q + 1 && x != y
    ensures r < 2 * q + 1 && i <= q && Meets(q, r, i, x, y)
  {
    if x == 2 * q + 1 {
      r, i := y, 0;
    } else if y == 2 * q + 1 {
      r, i := x, 0;
    } else {
      r, i := MeetRotating(q, x, y);
    }
  }
}
