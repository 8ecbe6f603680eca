/**
 * The dashboard of components/Dashboard.tsx: the split of the user's tournaments into active
 * and finished ones, the list of results awaiting the user's approval, and the invite-code
 * field.
 */
module Dashboard {
  import opened Types
  import opened Text
  import opened Lifecycle

  /** `tournaments.filter(t => t.status !== FINISHED)`. */
  function ActiveTournaments(ts: seq<Tournament>): (r: seq<Tournament>)
    ensures forall t :: t in r <==> t in ts && t.status != Finished
  {
    if ts == [] then []
    else (if ts[0].status != Finished then [ts[0]] else []) + ActiveTournaments(ts[1..])
  }

  /** `tournaments.filter(t => t.status === FINISHED)`. */
  function FinishedTournaments(ts: seq<Tournament>): (r: seq<Tournament>)
    ensures forall t :: t in r <==> t in ts && t.status == Finished
  {
    if ts == [] then []
    else (if ts[0].status == Finished then [ts[0]] else []) + FinishedTournaments(ts[1..])
  }

  /** The two lists split the tournaments: together they hold each one exactly as often as the list does. */
  lemma {:induction false} ActiveFinishedPartition(ts: seq<Tournament>)
    ensures multiset(ActiveTournaments(ts)) + multiset(FinishedTournaments(ts)) == multiset(ts)
    ensures |ActiveTournaments(ts)| + |FinishedTournaments(ts)| == |ts|
  {
    if ts != [] {
      ActiveFinishedPartition(ts[1..]);
      assert ts == [ts[0]] + ts[1..];
    }
  }

  /** One entry of `pendingConfirmations`. */
  datatype PendingAction = PendingAction(tournamentId: Id, tournamentName: string, matchId: Id, opponentName: string, score: string)

  /** The score text `${home goals} - ${away goals}`. */
  function ScoreText(m: Match): string {
    NatToString(m.homeStats.goals) + " - " + NatToString(m.awayStats.goals)
  }

  /** The entry pushed for match `m` of tournament `t`. */
  function ActionOf(t: Tournament, m: Match): PendingAction {
    PendingAction(t.id, t.name, m.id, "tu rival", ScoreText(m))
  }

  /** The inner condition: the user plays the match, it awaits approval, and the user has not approved it. */
  predicate AwaitsUser(m: Match, u: User) {
    IsParticipant(m, u) && m.status == AwaitingConfirmation && !AlreadyConfirmed(m, u)
  }

  /** The entries for the matches `ms` of tournament `t`, in match order. */
  function PendingIn(t: Tournament, ms: seq<Match>, u: User): seq<PendingAction> {
    if ms == [] then []
    else PendingIn(t, ms[..|ms| - 1], u) + (if AwaitsUser(ms[|ms| - 1], u) then [ActionOf(t, ms[|ms| - 1])] else [])
  }

  /** The entries for the tournaments `ts`, in tournament order, skipping finished ones. */
  function PendingOf(ts: seq<Tournament>, u: User): seq<PendingAction> {
    if ts == [] then []
    else
      var t := ts[|ts| - 1];
      PendingOf(ts[..|ts| - 1], u) + (if t.status == Finished then [] else PendingIn(t, t.matches, u))
  }

  /** The inner `forEach` over one tournament's matches. */
  method PushPendingIn(t: Tournament, u: User, actions: seq<PendingAction>) returns (pushed: seq<PendingAction>)
    ensures pushed == actions + PendingIn(t, t.matches, u)
  {
    pushed := actions;
    for j := 0 to |t.matches|
      invariant pushed == actions + PendingIn(t, t.matches[..j], u)
    {
      var m := t.matches[j];
      assert t.matches[..j + 1][..j] == t.matches[..j];
      if IsParticipant(m, u) && m.status == AwaitingConfirmation && !AlreadyConfirmed(m, u) {
        pushed := pushed + [PendingAction(t.id, t.name, m.id, "tu rival", ScoreText(m))];
      }
    }
    assert t.matches[..|t.matches|] == t.matches;
  }

  /** `pendingConfirmations`: the nested `forEach` pushing into `actions`. */
  method PendingConfirmations(tournaments: seq<Tournament>, u: User) returns (actions: seq<PendingAction>)
    ensures actions == PendingOf(tournaments, u)
  {
    actions := [];
    for i := 0 to |tournaments|
      invariant actions == PendingOf(tournaments[..i], u)
    {
      var t := tournaments[i];
      assert tournaments[..i + 1][..i] == tournaments[..i];
      if t.status != Finished {
        actions := PushPendingIn(t, u, actions);
      }
    }
    assert tournaments[..|tournaments|] == tournaments;
  }

  /** Every entry for a tournament's matches comes from one of them that awaits the user. */
  lemma {:induction false} PendingInSound(t: Tournament, ms: seq<Match>, u: User, a: PendingAction)
    requires a in PendingIn(t, ms, u)
    ensures exists j :: 0 <= j < |ms| && AwaitsUser(ms[j], u) && a == ActionOf(t, ms[j])
  {
    var init := ms[..|ms| - 1];
    if a in PendingIn(t, init, u) {
      PendingInSound(t, init, u, a);
      var j :| 0 <= j < |init| && AwaitsUser(init[j], u) && a == ActionOf(t, init[j]);
      assert ms[j] == init[j];
    } else {
      assert AwaitsUser(ms[|ms| - 1], u) && a == ActionOf(t, ms[|ms| - 1]);
    }
  }

  /** Every match that awaits the user has its entry. */
  lemma {:induction false} PendingInComplete(t: Tournament, ms: seq<Match>, u: User, j: nat)
    requires j < |ms| && AwaitsUser(ms[j], u)
    ensures ActionOf(t, ms[j]) in PendingIn(t, ms, u)
  {
    var init := ms[..|ms| - 1];
    if j < |ms| - 1 {
      PendingInComplete(t, init, u, j);
      assert init[j] == ms[j];
    }
  }

  /**
   * An entry is listed exactly for a match that the user plays, that awaits approval and that
   * the user has not approved, in a tournament that is not FINISHED.
   */
  lemma {:induction false} PendingSound(ts: seq<Tournament>, u: User, a: PendingAction)
    requires a in PendingOf(ts, u)
    ensures exists i, j :: (0 <= i < |ts| && 0 <= j < |ts[i].matches| &&
      ts[i].status != Finished && AwaitsUser(ts[i].matches[j], u) && a == ActionOf(ts[i], ts[i].matches[j]))
  {
    var init := ts[..|ts| - 1];
    var t := ts[|ts| - 1];
    if a in PendingOf(init, u) {
      PendingSound(init, u, a);
      var i, j :| 0 <= i < |init| && 0 <= j < |init[i].matches| &&
        init[i].status != Finished && AwaitsUser(init[i].matches[j], u) && a == ActionOf(init[i], init[i].matches[j]);
      assert ts[i] == init[i];
    } else {
      PendingInSound(t, t.matches, u, a);
      var j :| 0 <= j < |t.matches| && AwaitsUser(t.matches[j], u) && a == ActionOf(t, t.matches[j]);
      assert ts[|ts| - 1] == t;
    }
  }

  lemma {:induction false} PendingComplete(ts: seq<Tournament>, u: User, i: nat, j: nat)
    requires i < |ts| && j < |ts[i].matches| && ts[i].status != Finished && AwaitsUser(ts[i].matches[j], u)
    ensures ActionOf(ts[i], ts[i].matches[j]) in PendingOf(ts, u)
  {
    var init := ts[..|ts| - 1];
    if i < |ts| - 1 {
      assert init[i] == ts[i];
      PendingComplete(init, u, i, j);
    } else {
      PendingInComplete(ts[i], ts[i].matches, u, j);
    }
  }

  /** In a rendered score the first space is the one right after the home goals. */
  lemma FirstSpace(x: string, rest: string)
    requires IsDigits(x)
    ensures (x + " - " + rest)[|x|] == ' '
    ensures forall i :: 0 <= i < |x| ==> (x + " - " + rest)[i] != ' '
  {
  }

  /** The score text gives the score back: different scores have different texts. */
  lemma ScoreTextInjective(m: Match, n: Match)
    requires ScoreText(m) == ScoreText(n)
    ensures m.homeStats.goals == n.homeStats.goals && m.awayStats.goals == n.awayStats.goals
  {
    var x, y := NatToString(m.homeStats.goals), NatToString(n.homeStats.goals);
    var s := ScoreText(m);
    FirstSpace(x, NatToString(m.awayStats.goals));
    FirstSpace(y, NatToString(n.awayStats.goals));
    assert x == s[..|x|] == y;
    assert s[|x| + 3..] == NatToString(m.awayStats.goals) == NatToString(n.awayStats.goals);
    NatToStringInjective(m.homeStats.goals, n.homeStats.goals);
    NatToStringInjective(m.awayStats.goals, n.awayStats.goals);
  }

  /** The code `handleJoinSubmit` passes to `onJoin`, if any: the trimmed input unless it is blank. */
  function JoinCode(input: string): (r: Option<string>)
    ensures r.None? <==> AllSpace(input)
    ensures r.Some? ==> r.value != "" && !IsSpace(r.value[0]) && !IsSpace(r.value[|r.value| - 1])
  {
    TrimEnds(input);
    if Trim(input) != "" then Some(Trim(input)) else None
  }

  /** The invite-code field of the dashboard. */
  class JoinForm {
    var inviteCode: string

    constructor()
      ensures inviteCode == ""
    {
      inviteCode := "";
    }

    /** Typing into the field. */
    method Type(text: string)
      modifies this
      ensures inviteCode == text
    {
      inviteCode := text;
    }

    /**
     * `handleJoinSubmit`: blank input submits nothing and keeps the field; otherwise the
     * trimmed code goes to `onJoin` and the field is cleared.
     */
    method Submit() returns (joined: Option<string>)
      modifies this
      ensures joined == JoinCode(old(inviteCode))
      ensures inviteCode == if joined.Some? then "" else old(inviteCode)
    {
      var code := Trim(inviteCode);
      if code != "" {
        joined := Some(code);
        inviteCode := "";
      } else {
        joined := None;
      }
    }
  }
}
