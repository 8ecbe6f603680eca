/**
 * The score form of components/MatchReportModal.tsx: its state starts from the match, the two
 * goal counters step up by one and down by one without going below zero, a correction can be
 * submitted only with evidence, and submitting hands the match id and the form values to
 * `onSave` (`handleUpdateMatch`).
 */
module ReportModal {
  import opened Types
  import opened Lifecycle

  /** `isCorrection`: the match was corrected before or is awaiting approval. */
  predicate IsCorrection(m: Match) {
    m.correctionCount > 0 || m.status == AwaitingConfirmation
  }

  /** JavaScript truthiness of the optional evidence string. */
  predicate HasEvidence(evidence: Option<string>) {
    evidence.Some? && evidence.value != ""
  }

  /** `canSubmit`: `!isCorrection || (isCorrection && evidence)`. */
  predicate CanSubmit(m: Match, evidence: Option<string>) {
    !IsCorrection(m) || (IsCorrection(m) && HasEvidence(evidence))
  }

  /** The arguments of `onSave`. */
  datatype Payload = Payload(matchId: Id, home: MatchStats, away: MatchStats, evidence: Option<string>)

  /** The side a goal counter belongs to. */
  datatype Side = HomeSide | AwaySide

  /** The form's `useState` fields. */
  class ReportForm {
    const target: Match
    var homeScore: int
    var awayScore: int
    var homeY: int
    var homeR: int
    var awayY: int
    var awayR: int
    var evidence: Option<string>

    /** No counter is negative, and the card counters, which have no control, keep the match's values. */
    predicate Valid()
      reads this
    {
      && homeScore >= 0 && awayScore >= 0
      && homeY == target.homeStats.yellowCards && homeR == target.homeStats.redCards
      && awayY == target.awayStats.yellowCards && awayR == target.awayStats.redCards
    }

    /** The form opens on the match's current goals, cards and evidence. */
    constructor(m: Match)
      ensures target == m && Valid()
      ensures homeScore == m.homeStats.goals && awayScore == m.awayStats.goals
      ensures evidence == m.evidenceUrl
    {
      target := m;
      homeScore, awayScore := m.homeStats.goals, m.awayStats.goals;
      homeY, homeR := m.homeStats.yellowCards, m.homeStats.redCards;
      awayY, awayR := m.awayStats.yellowCards, m.awayStats.redCards;
      evidence := m.evidenceUrl;
    }

    /** The "-" button of a goal row: `Math.max(0, value - 1)`. */
    method Decrement(side: Side)
      requires Valid()
      modifies this
      ensures Valid()
      ensures side == HomeSide ==> homeScore == (if old(homeScore) > 0 then old(homeScore) - 1 else 0) && awayScore == old(awayScore)
      ensures side == AwaySide ==> awayScore == (if old(awayScore) > 0 then old(awayScore) - 1 else 0) && homeScore == old(homeScore)
      ensures evidence == old(evidence)
    {
      if side == HomeSide {
        homeScore := Max(0, homeScore - 1);
      } else {
        awayScore := Max(0, awayScore - 1);
      }
    }

    /** The "+" button of a goal row: `value + 1`. */
    method Increment(side: Side)
      requires Valid()
      modifies this
      ensures Valid()
      ensures side == HomeSide ==> homeScore == old(homeScore) + 1 && awayScore == old(awayScore)
      ensures side == AwaySide ==> awayScore == old(awayScore) + 1 && homeScore == old(homeScore)
      ensures evidence == old(evidence)
    {
      if side == HomeSide {
        homeScore := homeScore + 1;
      } else {
        awayScore := awayScore + 1;
      }
    }

    /** `reader.onloadend`: the uploaded file's data URL becomes the evidence. */
    method LoadEvidence(dataUrl: string)
      requires Valid()
      modifies this
      ensures Valid()
      ensures evidence == Some(dataUrl) && homeScore == old(homeScore) && awayScore == old(awayScore)
    {
      evidence := Some(dataUrl);
    }

    /**
     * The save button: disabled unless `canSubmit`; otherwise `onSave` receives the match id,
     * the goals entered, the unchanged cards and the evidence.
     */
    method Submit() returns (p: Option<Payload>)
      requires Valid()
      ensures p.Some? <==> CanSubmit(target, evidence)
      ensures p.Some? && IsCorrection(target) ==> HasEvidence(p.value.evidence)
      ensures p.None? ==> IsCorrection(target) && !HasEvidence(evidence)
      ensures p.Some? ==> p.value == Payload(target.id,
        MatchStats(homeScore, homeY, homeR), MatchStats(awayScore, awayY, awayR), evidence)
    {
      if !CanSubmit(target, evidence) {
        return None;
      }
      p := Some(Payload(target.id, MatchStats(homeScore, homeY, homeR), MatchStats(awayScore, awayY, awayR), evidence));
    }
  }

  function Max(a: int, b: int): (r: int)
    ensures r >= a && r >= b && (r == a || r == b)
  {
    if a >= b then a else b
  }

  /**
   * Whenever the handler will count a correction (the match is awaiting approval), the form
   * treats the report as a correction and so demands evidence; the form's notion is wider, as
   * it also covers a match corrected before.
   */
  lemma HandlerCorrectionIsFormCorrection(m: Match)
    ensures m.status == AwaitingConfirmation ==> IsCorrection(m)
    ensures !IsCorrection(m) ==> m.correctionCount == 0 && m.status != AwaitingConfirmation
  {
  }

  /**
   * A correction submitted through the form and saved by `handleUpdateMatch` stores the
   * submitted evidence, keeps the match's cards, records the goals entered, and counts one more
   * correction.
   */
  lemma CorrectionStoresEvidence(m: Match, actor: User, homeGoals: nat, awayGoals: nat, evidence: Option<string>)
    requires m.status == AwaitingConfirmation && CanSubmit(m, evidence)
    ensures var r := Reported(m, actor,
        MatchStats(homeGoals, m.homeStats.yellowCards, m.homeStats.redCards),
        MatchStats(awayGoals, m.awayStats.yellowCards, m.awayStats.redCards), evidence);
      && r.evidenceUrl == evidence && evidence.Some?
      && r.homeStats.yellowCards == m.homeStats.yellowCards && r.homeStats.redCards == m.homeStats.redCards
      && r.awayStats.yellowCards == m.awayStats.yellowCards && r.awayStats.redCards == m.awayStats.redCards
      && r.homeStats.goals == homeGoals && r.awayStats.goals == awayGoals
      && r.correctionCount == m.correctionCount + 1
  {
  }
}
