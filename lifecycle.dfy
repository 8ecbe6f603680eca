/**
 * The match-result lifecycle of components/TournamentView.tsx: `handleUpdateMatch` (report or
 * correct a score), `handleConfirmMatch` (approve a reported score) and the actions MatchCard
 * offers for one match. The handlers themselves check nothing: the three-correction ceiling
 * and the one-approval-per-player rule hold only because the card offers no button that
 * would break them.
 */
module Lifecycle {
  import opened Types

  /** `canManage`: the tournament's creator, a MASTER or an ADMIN. */
  predicate CanManage(t: Tournament, u: User) {
    t.creatorId == u.id || IsStaff(u)
  }

  /** `isParticipant`: the user plays the match, on either side. */
  predicate IsParticipant(m: Match, u: User) {
    m.homePlayerId == u.id || m.awayPlayerId == u.id
  }

  /** `alreadyConfirmed`: the user's id is in the confirmation list. */
  predicate AlreadyConfirmed(m: Match, u: User) {
    u.id in m.confirmations
  }

  /** `evidence || m.evidenceUrl`: a missing or empty new evidence keeps the current one. */
  function NewEvidence(evidence: Option<string>, current: Option<string>): Option<string> {
    if evidence.Some? && evidence.value != "" then evidence else current
  }

  /** The map callback of `handleUpdateMatch` for the targeted match. */
  function Reported(m: Match, actor: User, home: MatchStats, away: MatchStats, evidence: Option<string>): Match {
    m.(homeStats := home, awayStats := away,
       status := if IsStaff(actor) then Confirmed else AwaitingConfirmation,
       reporterId := Some(actor.id),
       confirmations := if IsStaff(actor) then [m.homePlayerId, m.awayPlayerId] else [actor.id],
       evidenceUrl := NewEvidence(evidence, m.evidenceUrl),
       correctionCount := if m.status == AwaitingConfirmation then m.correctionCount + 1 else m.correctionCount)
  }

  /** `tournament.matches.map(...)` of `handleUpdateMatch`: every match with id `matchId` is reported. */
  function UpdateMatches(ms: seq<Match>, matchId: Id, actor: User, home: MatchStats, away: MatchStats,
                         evidence: Option<string>): (r: seq<Match>)
    ensures |r| == |ms|
    ensures forall i :: 0 <= i < |ms| ==>
      r[i] == if ms[i].id == matchId then Reported(ms[i], actor, home, away, evidence) else ms[i]
  {
    if ms == [] then []
    else
      [if ms[0].id == matchId then Reported(ms[0], actor, home, away, evidence) else ms[0]] +
      UpdateMatches(ms[1..], matchId, actor, home, away, evidence)
  }

  /** `handleUpdateMatch`: the tournament handed to `onUpdate`. */
  function HandleUpdateMatch(t: Tournament, matchId: Id, actor: User, home: MatchStats, away: MatchStats,
                             evidence: Option<string>): Tournament {
    t.(matches := UpdateMatches(t.matches, matchId, actor, home, away, evidence))
  }

  /** The map callback of `handleConfirmMatch`: the actor is appended, CONFIRMED from two entries on. */
  function Approved(m: Match, actor: User): Match {
    var confs := m.confirmations + [actor.id];
    m.(confirmations := confs, status := if |confs| >= 2 then Confirmed else AwaitingConfirmation)
  }

  /** `tournament.matches.map(...)` of `handleConfirmMatch`. */
  function ConfirmMatches(ms: seq<Match>, matchId: Id, actor: User): (r: seq<Match>)
    ensures |r| == |ms|
    ensures forall i :: 0 <= i < |ms| ==> r[i] == if ms[i].id == matchId then Approved(ms[i], actor) else ms[i]
  {
    if ms == [] then []
    else [if ms[0].id == matchId then Approved(ms[0], actor) else ms[0]] + ConfirmMatches(ms[1..], matchId, actor)
  }

  /** `handleConfirmMatch`: the tournament handed to `onUpdate`. */
  function HandleConfirmMatch(t: Tournament, matchId: Id, actor: User): Tournament {
    t.(matches := ConfirmMatches(t.matches, matchId, actor))
  }

  /** What MatchCard shows under the score. */
  datatype Card =
    | EditScore                              // "Editar Marcador"
    | Approve(correctionsLeft: Option<nat>)  // "Aprobar Resultado", with "Corregir Marcador (n restantes)" when Some(n)
    | Waiting(forManager: bool)              // "A espera de jugadores" / "Esperando rival"
    | Official                               // "Resultado Oficial"

  /** MatchCard's nested conditional for user `u`. */
  function CardFor(m: Match, u: User, canManage: bool): Card {
    if (IsParticipant(m, u) || canManage) && m.status == Pending then EditScore
    else if m.status == AwaitingConfirmation then
      if IsParticipant(m, u) && !AlreadyConfirmed(m, u) then
        Approve(if m.correctionCount < 3 then Some(3 - m.correctionCount) else None)
      else Waiting(canManage)
    else Official
  }

  /** The card has a button that opens the report form. */
  predicate ReportOffered(m: Match, u: User, canManage: bool) {
    var c := CardFor(m, u, canManage);
    c == EditScore || (c.Approve? && c.correctionsLeft.Some?)
  }

  /** The card has the approve button. */
  predicate ConfirmOffered(m: Match, u: User, canManage: bool) {
    CardFor(m, u, canManage).Approve?
  }

  /**
   * A report is offered exactly on a PENDING match to a participant or a manager, and on an
   * AWAITING_CONFIRMATION match to a participant who has not approved it, while fewer than
   * three corrections were made; approval is offered exactly on an AWAITING_CONFIRMATION
   * match to a participant who has not approved it. A CONFIRMED match offers neither.
   */
  lemma CardGuards(m: Match, u: User, canManage: bool)
    ensures ReportOffered(m, u, canManage) <==>
      (m.status == Pending && (IsParticipant(m, u) || canManage)) ||
      (m.status == AwaitingConfirmation && IsParticipant(m, u) && !AlreadyConfirmed(m, u) && m.correctionCount < 3)
    ensures ConfirmOffered(m, u, canManage) <==>
      m.status == AwaitingConfirmation && IsParticipant(m, u) && !AlreadyConfirmed(m, u)
    ensures m.status == Confirmed ==> CardFor(m, u, canManage) == Official
  {
  }

  /** The counter shown beside the correction button is the number of corrections still allowed. */
  lemma CorrectionsLeft(m: Match, u: User, canManage: bool)
    requires CardFor(m, u, canManage).Approve? && CardFor(m, u, canManage).correctionsLeft.Some?
    ensures m.correctionCount + CardFor(m, u, canManage).correctionsLeft.value == 3
    ensures CardFor(m, u, canManage).correctionsLeft.value >= 1
  {
  }

  /** The documented ceiling on corrections. */
  predicate WithinCorrectionLimit(m: Match) {
    m.correctionCount <= 3
  }

  /**
   * A MASTER/ADMIN report is CONFIRMED with both players recorded; anyone else's awaits
   * approval with only the reporter recorded. Either way the new score and the reporter are
   * stored, the fixture is kept, and the correction count rises by one exactly when the match
   * was awaiting approval.
   */
  lemma ReportOutcome(m: Match, actor: User, home: MatchStats, away: MatchStats, evidence: Option<string>)
    ensures var r := Reported(m, actor, home, away, evidence);
      && (r.status == Confirmed <==> IsStaff(actor))
      && (r.status == AwaitingConfirmation <==> !IsStaff(actor))
      && r.confirmations == (if IsStaff(actor) then [m.homePlayerId, m.awayPlayerId] else [actor.id])
      && r.homeStats == home && r.awayStats == away && r.reporterId == Some(actor.id)
      && r.id == m.id && r.tournamentId == m.tournamentId
      && r.homePlayerId == m.homePlayerId && r.awayPlayerId == m.awayPlayerId
      && r.round == m.round && r.isSecondLeg == m.isSecondLeg
      && (r.correctionCount == m.correctionCount + 1 <==> m.status == AwaitingConfirmation)
      && r.correctionCount - m.correctionCount <= 1 && r.correctionCount >= m.correctionCount
  {
  }

  /** Evidence is replaced only by a non-empty new one; otherwise the stored one is kept. */
  lemma EvidenceKept(m: Match, actor: User, home: MatchStats, away: MatchStats, evidence: Option<string>)
    ensures var r := Reported(m, actor, home, away, evidence);
      (evidence == None || evidence == Some("") ==> r.evidenceUrl == m.evidenceUrl) &&
      (evidence.Some? && evidence.value != "" ==> r.evidenceUrl == evidence) &&
      (m.evidenceUrl.Some? ==> r.evidenceUrl.Some?)
  {
  }

  /**
   * Every report the card offers keeps the correction count within the ceiling of three: a
   * PENDING match keeps its count and a correction is only offered below three.
   */
  lemma CorrectionCeiling(m: Match, u: User, canManage: bool, home: MatchStats, away: MatchStats, evidence: Option<string>)
    requires WithinCorrectionLimit(m) && ReportOffered(m, u, canManage)
    ensures WithinCorrectionLimit(Reported(m, u, home, away, evidence))
  {
    CardGuards(m, u, canManage);
  }

  /** A report changes only the matches with the given id; the rest of the tournament is kept. */
  lemma UpdateOnlyTarget(t: Tournament, matchId: Id, actor: User, home: MatchStats, away: MatchStats, evidence: Option<string>)
    ensures var u := HandleUpdateMatch(t, matchId, actor, home, away, evidence);
      && u.(matches := t.matches) == t
      && |u.matches| == |t.matches|
      && (forall i :: 0 <= i < |t.matches| && t.matches[i].id != matchId ==> u.matches[i] == t.matches[i])
      && (forall i :: 0 <= i < |t.matches| ==> u.matches[i].id == t.matches[i].id)
  {
  }

  /**
   * Approving appends the actor to the list, keeping the earlier entries in order, and leaves
   * the match CONFIRMED exactly when the list then holds two entries or more, whoever they are.
   */
  lemma ConfirmOutcome(m: Match, actor: User)
    ensures var r := Approved(m, actor);
      && r.confirmations[..|m.confirmations|] == m.confirmations
      && |r.confirmations| == |m.confirmations| + 1
      && r.confirmations[|m.confirmations|] == actor.id
      && (r.status == Confirmed <==> |m.confirmations| >= 1)
      && r.(confirmations := m.confirmations, status := m.status) == m
  {
  }

  /** An approval changes only the matches with the given id; the rest of the tournament is kept. */
  lemma ConfirmOnlyTarget(t: Tournament, matchId: Id, actor: User)
    ensures var u := HandleConfirmMatch(t, matchId, actor);
      && u.(matches := t.matches) == t
      && |u.matches| == |t.matches|
      && (forall i :: 0 <= i < |t.matches| && t.matches[i].id != matchId ==> u.matches[i] == t.matches[i])
      && (forall i :: 0 <= i < |t.matches| ==> u.matches[i].id == t.matches[i].id)
  {
  }

  /**
   * Approvals offered by the card never record a player twice: a list without repeats stays
   * without repeats.
   */
  lemma OfferedConfirmNoRepeat(m: Match, u: User, canManage: bool)
    requires Distinct(m.confirmations) && ConfirmOffered(m, u, canManage)
    ensures Distinct(Approved(m, u).confirmations)
  {
    CardGuards(m, u, canManage);
    var c := Approved(m, u).confirmations;
    forall j, k | 0 <= j < k < |c| ensures c[j] != c[k] {
      if k == |c| - 1 {
        assert c[j] == m.confirmations[j];
      }
    }
  }

  /**
   * The two-player workflow: a non-staff participant reports, the card then offers the other
   * participant the approval, and approving leaves the reported score CONFIRMED with both
   * players recorded, reporter first.
   */
  lemma ReportThenConfirm(m: Match, a: User, b: User, canManage: bool, home: MatchStats, away: MatchStats, evidence: Option<string>)
    requires !IsStaff(a) && IsParticipant(m, a) && IsParticipant(m, b) && a.id != b.id
    ensures var r := Reported(m, a, home, away, evidence);
      && ConfirmOffered(r, b, canManage)
      && Approved(r, b).status == Confirmed
      && Approved(r, b).confirmations == [a.id, b.id]
      && Approved(r, b).homeStats == home && Approved(r, b).awayStats == away
  {
    var r := Reported(m, a, home, away, evidence);
    assert !AlreadyConfirmed(r, b);
  }

  /**
   * The reporter cannot approve their own report: after a non-staff report the reporter's card
   * shows the waiting label, not the approve button.
   */
  lemma ReporterWaits(m: Match, a: User, canManage: bool, home: MatchStats, away: MatchStats, evidence: Option<string>)
    requires !IsStaff(a)
    ensures var r := Reported(m, a, home, away, evidence);
      !ConfirmOffered(r, a, canManage) && !ReportOffered(r, a, canManage)
  {
    var r := Reported(m, a, home, away, evidence);
    assert AlreadyConfirmed(r, a);
  }

  /**
   * Approval counts entries, not players: a manager who does not play the match (the creator,
   * say, with the PLAYER role) reports a PENDING match, one player approves it, and it is
   * CONFIRMED although the other player never approved it.
   */
  lemma ConfirmedWithoutOpponent(m: Match, creator: User, home: User, homeScore: MatchStats, awayScore: MatchStats)
    requires m.status == Pending && creator.role == Player
    requires creator.id != m.homePlayerId && creator.id != m.awayPlayerId
    requires home.id == m.homePlayerId && m.awayPlayerId != m.homePlayerId
    ensures var r := Reported(m, creator, homeScore, awayScore, None);
      && ReportOffered(m, creator, true)
      && ConfirmOffered(r, home, true)
      && Approved(r, home).status == Confirmed
      && m.awayPlayerId !in Approved(r, home).confirmations
  {
    var r := Reported(m, creator, homeScore, awayScore, None);
    assert !AlreadyConfirmed(r, home);
  }
}
