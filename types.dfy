/** The records and enumerations of the tournament tracker (types.ts). */
module Types {

  /** Identifiers of users, tournaments and matches (UUID strings in the application). */
  type Id = string

  /** An optional field (`field?: T` in the records). */
  datatype Option<T> = None | Some(value: T)

  datatype TournamentType = League | Champions | Friendly

  datatype TournamentStatus = Draft | Active | Finished

  /** Every match is in exactly one of these three states. */
  datatype MatchStatus = Pending | AwaitingConfirmation | Confirmed

  datatype UserRole = Player | Admin | Master

  /** One side's result: goals and disciplinary cards. */
  datatype MatchStats = MatchStats(goals: nat, yellowCards: nat, redCards: nat)

  /**
   * A fixture and its reported result. `confirmations` is an ordered list, so the same
   * identifier may occur twice; `round` may be missing (consumers read it as 0);
   * `correctionCount` is documented as limited to 3, which nothing in the record enforces.
   */
  datatype Match = Match(
    id: Id,
    tournamentId: Id,
    homePlayerId: Id,
    awayPlayerId: Id,
    homeStats: MatchStats,
    awayStats: MatchStats,
    status: MatchStatus,
    reporterId: Option<Id>,
    confirmations: seq<Id>,
    round: Option<nat>,
    isSecondLeg: bool,
    correctionCount: nat,
    evidenceUrl: Option<string>)

  /** A tournament; `kind` is the record's `type` field. */
  datatype Tournament = Tournament(
    id: Id,
    name: string,
    kind: TournamentType,
    status: TournamentStatus,
    creatorId: Id,
    inviteCode: string,
    participants: seq<Id>,
    matches: seq<Match>,
    isDetailedLeague: bool,
    createdAt: int)

  datatype User = User(
    id: Id,
    nickname: string,
    password: Option<string>,
    recoveryContact: Option<string>,
    role: UserRole,
    registered: bool,
    joinedTournaments: seq<Id>,
    prefBackground: Option<string>,
    prefSecondaryColor: Option<string>,
    prefFontColor: Option<string>)

  /** `m.round || 0`: a missing round reads as round 0. */
  function RoundOrZero(m: Match): nat {
    match m.round
    case None => 0
    case Some(r) => r
  }

  /** Elevated roles, which may override the confirmation workflow and see every tournament. */
  predicate IsStaff(u: User) {
    u.role == Master || u.role == Admin
  }

  /** No id is listed twice. */
  ghost predicate Distinct(p: seq<Id>) {
    forall j, k :: 0 <= j < k < |p| ==> p[j] != p[k]
  }

  /** The player ids of the match, as an unordered pair (the `[h, a].sort().join('-')` key). */
  function PairKey(home: Id, away: Id): set<Id> {
    {home, away}
  }

  /** Two pair keys are equal exactly when they name the same two players, in either order. */
  lemma PairKeyEqual(a: Id, b: Id, c: Id, d: Id)
    ensures PairKey(a, b) == PairKey(c, d) <==> (a == c && b == d) || (a == d && b == c)
  {
    if PairKey(a, b) == PairKey(c, d) {
      assert a in PairKey(c, d) && b in PairKey(c, d);
      assert c in PairKey(a, b) && d in PairKey(a, b);
    }
  }

  /** A non-empty list is its prefix followed by its last element. */
  lemma LastSplit<T>(s: seq<T>)
    requires |s| > 0
    ensures s[..|s| - 1] + [s[|s| - 1]] == s
  {
  }
}
