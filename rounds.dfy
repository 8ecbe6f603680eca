/**
 * How components/TournamentView.tsx lays out the match list: `matchesByRound` groups the
 * matches by round (a missing round counts as 0), `sortedRounds` lists the rounds latest
 * first, and `getRoundLabel` names each round.
 */
module Rounds {
  import opened Types
  import opened Text

  /** The rounds that occur among `ms`. */
  function RoundsOf(ms: seq<Match>): set<nat> {
    set j | 0 <= j < |ms| :: RoundOrZero(ms[j])
  }

  /** The matches of round `r`, in list order. */
  function Bucket(ms: seq<Match>, r: nat): seq<Match> {
    if ms == [] then []
    else Bucket(ms[..|ms| - 1], r) + (if RoundOrZero(ms[|ms| - 1]) == r then [ms[|ms| - 1]] else [])
  }

  /** The object `matchesByRound` returns: one list per round that occurs. */
  function Grouped(ms: seq<Match>): map<nat, seq<Match>> {
    map r | r in RoundsOf(ms) :: Bucket(ms, r)
  }

  lemma RoundsOfStep(ms: seq<Match>, j: nat)
    requires j < |ms|
    ensures RoundsOf(ms[..j + 1]) == RoundsOf(ms[..j]) + {RoundOrZero(ms[j])}
  {
    var a, b := ms[..j + 1], ms[..j];
    forall r | r in RoundsOf(a) ensures r in RoundsOf(b) + {RoundOrZero(ms[j])} {
      var i :| 0 <= i < |a| && RoundOrZero(a[i]) == r;
      if i < j {
        assert RoundOrZero(b[i]) == r;
      }
    }
    forall r | r in RoundsOf(b) ensures r in RoundsOf(a) {
      var i :| 0 <= i < |b| && RoundOrZero(b[i]) == r;
      assert RoundOrZero(a[i]) == r;
    }
    assert RoundOrZero(a[j]) in RoundsOf(a);
  }

  lemma BucketStep(ms: seq<Match>, j: nat, r: nat)
    requires j < |ms|
    ensures Bucket(ms[..j + 1], r) == Bucket(ms[..j], r) + (if RoundOrZero(ms[j]) == r then [ms[j]] else [])
  {
    assert ms[..j + 1][..j] == ms[..j];
  }

  /** A round that has not occurred yet has an empty bucket. */
  lemma {:induction false} BucketAbsent(ms: seq<Match>, r: nat)
    requires r !in RoundsOf(ms)
    ensures Bucket(ms, r) == []
  {
    if ms != [] {
      var init := ms[..|ms| - 1];
      assert RoundOrZero(ms[|ms| - 1]) in RoundsOf(ms);
      forall x | x in RoundsOf(init) ensures x in RoundsOf(ms) {
        var i :| 0 <= i < |init| && RoundOrZero(init[i]) == x;
        assert RoundOrZero(ms[i]) == x;
      }
      BucketAbsent(init, r);
    }
  }

  /** `matchesByRound`: the `reduce` that pushes each match onto the list of its round. */
  method MatchesByRound(matches: seq<Match>) returns (acc: map<nat, seq<Match>>)
    ensures acc == Grouped(matches)
  {
    acc := map[];
    for j := 0 to |matches|
      invariant acc.Keys == RoundsOf(matches[..j])
      invariant forall r :: r in acc ==> acc[r] == Bucket(matches[..j], r)
    {
      var m := matches[j];
      var r := RoundOrZero(m);
      RoundsOfStep(matches, j);
      forall x | x in acc ensures Bucket(matches[..j + 1], x) == acc[x] + (if x == r then [m] else []) {
        BucketStep(matches, j, x);
      }
      if r !in acc {
        BucketAbsent(matches[..j], r);
        BucketStep(matches, j, r);
        acc := acc[r := []];
      }
      acc := acc[r := acc[r] + [m]];
    }
    assert matches[..|matches|] == matches;
  }

  /** Every match of the bucket of `r` is a match of the list, and of round `r`. */
  lemma {:induction false} BucketMembers(ms: seq<Match>, r: nat)
    ensures forall m :: m in Bucket(ms, r) ==> m in ms && RoundOrZero(m) == r
  {
    if ms != [] {
      var init := ms[..|ms| - 1];
      BucketMembers(init, r);
      forall m | m in Bucket(ms, r) ensures m in ms && RoundOrZero(m) == r {
        if m in Bucket(init, r) {
          var i :| 0 <= i < |init| && init[i] == m;
          assert ms[i] == m;
        }
      }
    }
  }

  /** Every match of the list is in the bucket of its round. */
  lemma {:induction false} BucketComplete(ms: seq<Match>, j: nat)
    requires j < |ms|
    ensures ms[j] in Bucket(ms, RoundOrZero(ms[j]))
  {
    var init := ms[..|ms| - 1];
    if j < |ms| - 1 {
      BucketComplete(init, j);
      assert init[j] == ms[j];
    }
  }

  /**
   * The groups partition the list by round: a round has a group exactly when some match has
   * it, every match is in the group of its round, and a group holds only matches of the list
   * with its round.
   */
  lemma GroupedPartition(ms: seq<Match>)
    ensures forall r :: r in Grouped(ms) <==> exists j :: 0 <= j < |ms| && RoundOrZero(ms[j]) == r
    ensures forall j :: 0 <= j < |ms| ==> ms[j] in Grouped(ms)[RoundOrZero(ms[j])]
    ensures forall r, m :: r in Grouped(ms) && m in Grouped(ms)[r] ==> m in ms && RoundOrZero(m) == r
  {
    forall j | 0 <= j < |ms| ensures ms[j] in Grouped(ms)[RoundOrZero(ms[j])] {
      BucketComplete(ms, j);
    }
    forall r | r in Grouped(ms) ensures forall m :: m in Grouped(ms)[r] ==> m in ms && RoundOrZero(m) == r {
      BucketMembers(ms, r);
    }
  }

  /** The rounds of `g` below `n`, latest first. */
  function RoundsBelow(g: map<nat, seq<Match>>, n: nat): (rs: seq<nat>)
    ensures forall i :: 0 <= i < |rs| ==> rs[i] < n && rs[i] in g
    ensures forall r :: r < n && r in g ==> r in rs
    ensures forall i, j :: 0 <= i < j < |rs| ==> rs[i] > rs[j]
  {
    if n == 0 then [] else (if n - 1 in g then [n - 1] else []) + RoundsBelow(g, n - 1)
  }

  /** One more than the latest round among `ms`, 0 for no matches. */
  function RoundBound(ms: seq<Match>): (n: nat)
    ensures forall j :: 0 <= j < |ms| ==> RoundOrZero(ms[j]) < n
  {
    if ms == [] then 0
    else
      var n := RoundBound(ms[1..]);
      assert forall j :: 1 <= j < |ms| ==> ms[j] == ms[1..][j - 1];
      if RoundOrZero(ms[0]) < n then n else RoundOrZero(ms[0]) + 1
  }

  /**
   * `sortedRounds`: the round numbers of `groupedMatches`, `sort((a, b) => b - a)`. The result
   * lists every round that occurs among the matches once, latest first.
   */
  function SortedRounds(ms: seq<Match>): (rs: seq<nat>)
    ensures forall r :: r in rs <==> r in Grouped(ms)
    ensures forall i, j :: 0 <= i < j < |rs| ==> rs[i] > rs[j]
  {
    RoundsBelow(Grouped(ms), RoundBound(ms))
  }

  /** `getRoundLabel`. */
  function RoundLabel(r: nat, kind: TournamentType): string {
    if kind == Champions then
      if r == 0 then "Fase de Grupos"
      else if r == 1 then "Octavos de Final"
      else if r == 2 then "Cuartos de Final"
      else if r == 3 then "Semifinales"
      else if r == 4 then "La Gran Final"
      else "Eliminatorias"
    else "Jornada " + NatToString(r)
  }

  /**
   * Outside CHAMPIONS every round has a label of its own; in CHAMPIONS rounds 0 to 4 have
   * labels of their own, and every later round shares "Eliminatorias".
   */
  lemma RoundLabelsDistinct(r: nat, s: nat, kind: TournamentType)
    requires r != s
    ensures kind != Champions ==> RoundLabel(r, kind) != RoundLabel(s, kind)
    ensures kind == Champions ==> (RoundLabel(r, kind) == RoundLabel(s, kind) <==> r > 4 && s > 4)
  {
    if kind != Champions && RoundLabel(r, kind) == RoundLabel(s, kind) {
      var p := "Jornada ";
      assert NatToString(r) == RoundLabel(r, kind)[|p|..];
      assert NatToString(s) == RoundLabel(s, kind)[|p|..];
      NatToStringInjective(r, s);
    }
  }
}
