# APP-torneo in Dafny

A model of the tournament tracker APP-torneo, a single-page React application in which players
create LEAGUE, CHAMPIONS and FRIENDLY tournaments, join them by invite code, report and approve
match results, and follow standings. The model covers the application's logic, not its rendering:

- the records of `types.ts` (users, tournaments, matches, match statistics);
- the fixture generators of `TournamentView`: the double round robin of a league (circle method with
  a `'BYE'` padding slot), the friendly, the CHAMPIONS group stage (each player drawn against the
  next four in a shuffled list, no pair twice) and the knockout rounds (`generateKnockoutRound`);
- phase advancement (`handleAdvancePhase`: seeding from the standings after the group stage,
  two-legged ties aggregated in a map keyed by the unordered pair, winner through), and the
  `canAdvance` / `canFinish` guards;
- the result workflow: reporting or correcting a score (`handleUpdateMatch`), approving it
  (`handleConfirmMatch`), and the buttons `MatchCard` offers;
- the compact standings of `getStandings` and the detailed table of `LeagueTable`, both sorted
  by points, goal difference and goals scored with a stable sort;
- the score form of `MatchReportModal`, the dashboard lists and invite field of `Dashboard`,
  `handleCreate` of `CreateTournament`, and the state handlers of `App` (joining by code,
  replacing and adding tournaments, role changes, password reset, registration).

Randomness is a parameter: `shuffle: seq<Id> -> seq<Id>` is the random reordering
(`sort(() => 0.5 - Math.random())`), `uuid: nat -> Id` numbers the matches one handler call creates
(the `j`-th gets `uuid(j)`), and the invite code is drawn from a parameter holding the text of
`Math.random().toString(36)`. The clock is the parameter `now`.

One module per concern: `Types`, `Text` (decimal rendering, `trim`, ASCII case mapping), `Ranking`
(the stable sort), `Standings`, `LeagueTable`, `Fixtures`, `Circle` (the arithmetic of the circle
method), `RoundRobin` and `LeagueFacts` (what the league schedule guarantees), `Groups`, `Knockout`,
`Start` (`handleStartTournament`), `Advance`, `Lifecycle`, `Rounds` (the match list layout),
`ReportModal`, `Dashboard`, `Create`, `App`, and `Findings`.

Where the source's loops update variables (the fixture loops, the `forEach` passes of the standings,
the map of ties, the dashboard's pending list, `matchesByRound`), the model has a method with a loop
proved against a specification function. The forms whose `useState` fields change step by step are
classes (`ReportModal.ReportForm`, `Dashboard.JoinForm`), as is the application state
(`App.AppState`). The rest is functions and lemmas.

Where the design intent and the code differ, the model follows the code:

- A MASTER or ADMIN report is CONFIRMED at once with both players recorded as approvals. A manager who
  is only the creator reports like a player.
- A match becomes CONFIRMED when its approval list holds two entries, whoever they are
  (`Lifecycle.ConfirmedWithoutOpponent`). The list is not a set of players.
- The three-correction ceiling and the evidence requirement for corrections are enforced only by
  which buttons the card and the form enable. `handleUpdateMatch` checks neither
  (`Lifecycle.CorrectionCeiling`, `ReportModal.CorrectionStoresEvidence`).
- A PENDING match seen by a user who neither plays it nor manages the tournament shows the
  "Resultado Oficial" label, the same as a CONFIRMED one.
- The form's notion of a correction (`correctionCount > 0` or AWAITING_CONFIRMATION) is wider than
  the handler's (AWAITING_CONFIRMATION only).
- `handleCreate` rejects only the empty name. A name of spaces creates a tournament.
  `isDetailedLeague` is recorded whatever the type.
- A CHAMPIONS knockout whose size is not 2, 4, 8 or 16 can never be finished (see Findings).

## Model

| member | source | states |
|---|---|---|
| Types.PairKeyEqual | components/TournamentView.tsx:132 | two pair keys are equal exactly when they name the same two players, in either order |
| Text.NatToString | components/Dashboard.tsx:35 | the rendered number is a non-empty string of digits without a leading zero |
| Text.DecimalOfNatToString | components/Dashboard.tsx:35 | reading the rendered digits back gives the number |
| Text.NatToStringInjective | components/Dashboard.tsx:35 | different numbers render differently |
| Text.TrimShape | components/Dashboard.tsx:45-46 | trimming keeps one contiguous slice of the input, dropping only white space before and after it, and the slice neither starts nor ends with white space |
| Text.TrimEnds | components/Dashboard.tsx:45-46 | the trimmed text is empty exactly when the input is all white space; otherwise its ends are not white space |
| Text.TrimIdempotent | components/Dashboard.tsx:45-46 | trimming twice is trimming once |
| Text.Lower | App.tsx:119-120 | lower-casing keeps the length and maps each character on its own |
| Text.Upper | App.tsx:229 | upper-casing keeps the length and maps each character on its own |
| Text.SameIgnoringCaseChars | App.tsx:120 | case-insensitive equality holds exactly when the lengths agree and every position agrees up to case |
| Text.LowerUpper | App.tsx:229 | lower-casing is idempotent and forgets an earlier upper-casing |
| Text.UpperHasNoLower | components/CreateTournament.tsx:27 | an upper-cased string holds no lower-case letter |
| Ranking.OutranksTransitive | components/LeagueTable.tsx:50 | the comparator's strict order is transitive across a non-strict step |
| Ranking.InsertPermutes | components/LeagueTable.tsx:50 | inserting a row adds exactly that row |
| Ranking.InsertSorted | components/LeagueTable.tsx:50 | inserting into a sorted table keeps it sorted |
| Ranking.InsertStable | components/LeagueTable.tsx:50 | an inserted row goes after every row of the same rank |
| Ranking.SortRankedCorrect | components/TournamentView.tsx:41 | the sort returns a permutation of its input in descending order of points, goal difference and goals for, with rows of equal rank in input order (a stable sort) |
| Ranking.SortRankedMap | components/LeagueTable.tsx:50 | sorting commutes with any row conversion that keeps the rank |
| Standings.FindUser | components/TournamentView.tsx:20 | the user found has the id; when none is found, no user has it |
| Standings.ResolveParticipants | components/TournamentView.tsx:19-21 | the resolved users are users with listed ids, and every listed id that has a user is resolved |
| Standings.ResolveParticipantsAppend | components/TournamentView.tsx:19-21 | resolving one more id appends that id's user, if it has one, after the users already resolved: participant order is kept, with one entry per resolved id |
| Standings.GetStandings | components/TournamentView.tsx:25-43 | one row per participant, a permutation of the per-participant rows, sorted by points, goal difference and goals for, stable |
| Standings.UnsortedRows | components/TournamentView.tsx:26-40 | row `i` is the tally of participant `i` over the matches |
| Standings.ConfirmedOnly | components/TournamentView.tsx:29 | keeps exactly the CONFIRMED matches |
| Standings.TallyAppend | components/TournamentView.tsx:28-39 | the tally over two lists of matches is the sum of their tallies |
| Standings.StandingsIdentities | components/TournamentView.tsx:30-40 | points are 3 per confirmed win plus 1 per confirmed draw; goals for and against are the player's own and the opponent's goals in confirmed matches; goal difference is their difference |
| Standings.OnlyConfirmedCount | components/TournamentView.tsx:29 | matches that are not CONFIRMED never change a row |
| LeagueTable.CountMatch | components/LeagueTable.tsx:16-40 | one iteration adds the match's credit to the sixteen counters: nothing unless CONFIRMED, home checked before away |
| LeagueTable.ParticipantRow | components/LeagueTable.tsx:11-49 | the row built after the pass over the matches is the participant's tally |
| LeagueTable.ComputeTable | components/LeagueTable.tsx:11-50 | one row per participant, a permutation of the per-participant rows, sorted by points, goal difference and goals for, stable |
| LeagueTable.TallyStep | components/LeagueTable.tsx:16-40 | each further match adds its own credit to the counters |
| LeagueTable.TallyAppend | components/LeagueTable.tsx:16-40 | the counters over two lists of matches are the sum of their counters |
| LeagueTable.TallyConsistent | components/LeagueTable.tsx:19-39 | played is won + drawn + lost, for the totals and for each side, and the home and away splits add up to the totals |
| LeagueTable.RowConsistent | components/LeagueTable.tsx:42-49 | the row's played, won, drawn and lost are the sums of its home and away splits; points are 3 per win plus draws; goal difference is goals for minus against |
| LeagueTable.CardsAreOwnSide | components/LeagueTable.tsx:24-25 | yellow and red cards count only the player's own side of its confirmed matches |
| LeagueTable.OnlyConfirmedCount | components/LeagueTable.tsx:17 | matches that are not CONFIRMED never change a counter |
| LeagueTable.SelfMatchCountsOnceAsHome | components/LeagueTable.tsx:19-29 | a confirmed match with the player on both sides counts once, as a home match |
| LeagueTable.SameRankAsStandings | components/LeagueTable.tsx:45 | the detailed table credits each participant with the points, goal difference and goals for of the compact standings |
| LeagueTable.SameOrderAsStandings | components/LeagueTable.tsx:50 | the detailed table lists the participants in the order of the standings that seed the knockout |
| LeagueTable.CompactRows | components/LeagueTable.tsx:42-49 | compacting the detailed rows gives the rows of the compact standings |
| Fixtures.CreateMatch | components/TournamentView.tsx:45-57 | a new match is PENDING, unreported, uncorrected, without evidence, and carries the fixture's players, round and leg |
| Fixtures.Materialize | components/TournamentView.tsx:45-57 | match `j` is the match created for fixture `j` with id `uuid(base + j)` |
| Fixtures.MaterializeAppend | components/TournamentView.tsx:75-76 | creating matches for two lists of fixtures in turn creates them for the concatenation |
| Fixtures.MaterializedAreUnplayed | components/TournamentView.tsx:45-57 | every created match is unplayed and mirrors its fixture |
| Fixtures.Rotated | components/TournamentView.tsx:67 | the padded list has even length, keeps every participant in its place, and adds one `'BYE'` slot exactly for an odd list |
| Fixtures.PushPairing | components/TournamentView.tsx:71-77 | one inner iteration pushes the pairing's first leg and its reversed second leg, or nothing against the padding |
| Fixtures.PushLeagueRound | components/TournamentView.tsx:70-78 | the inner loop pushes round `r`'s pairings in order |
| Fixtures.PushLeague | components/TournamentView.tsx:69-79 | the outer loop pushes the whole circle-method schedule |
| Fixtures.LeagueFixtures | components/TournamentView.tsx:66-79 | the LEAGUE branch produces the league schedule of the padded list |
| Circle.PositionsAreRemainders | components/TournamentView.tsx:71-72 | the home and rotating away slots are the loop's remainders modulo `n - 1` |
| Circle.AwayPos | components/TournamentView.tsx:72-73 | the away slot is the fixed last slot exactly for pairing 0 |
| Circle.NoSelfPairing | components/TournamentView.tsx:71-73 | no pairing puts a slot against itself |
| Circle.RoundIsDisjoint | components/TournamentView.tsx:70-73 | within a round, different pairings share no slot |
| Circle.MeetAtMostOnce | components/TournamentView.tsx:69-73 | two slots meet in at most one pairing of the schedule |
| Circle.MeetSomewhere | components/TournamentView.tsx:69-73 | every two different slots meet in some pairing |
| RoundRobin.EveryPairMeetsOnce | components/TournamentView.tsx:66-79 | every two different participants meet exactly once as a first leg and exactly once as a second leg |
| RoundRobin.SlotsMeetOnce | components/TournamentView.tsx:69-78 | two entrants on different slots meet once per leg over the schedule |
| LeagueFacts.LeagueWellPlaced | components/TournamentView.tsx:66-79 | every league fixture is between listed participants, never the padding, never a player against themselves on a list without repeats; first legs fall in rounds 1 to `n - 1` and each has its reversed second leg `n - 1` rounds later |
| LeagueFacts.LeagueSize | components/TournamentView.tsx:66-79 | `k` participants get `k * (k - 1)` fixtures |
| LeagueFacts.Mirror | components/TournamentView.tsx:75-76 | the second leg reverses the first and is played `n - 1` rounds later |
| Groups.Visit | components/TournamentView.tsx:92-96 | a pair already drawn is skipped; otherwise its round-0 fixture is pushed and its key recorded |
| Groups.DrawRow | components/TournamentView.tsx:89-97 | the inner loop visits the next four participants in circular order |
| Groups.GroupFixtures | components/TournamentView.tsx:83-98 | the group branch produces the group schedule of the shuffled list |
| Groups.GroupScheduleSound | components/TournamentView.tsx:83-98 | every group fixture is a round-0 first leg between listed participants, no unordered pair is drawn twice, and on a list without repeats longer than four nobody plays themselves |
| Groups.GroupScheduleComplete | components/TournamentView.tsx:88-97 | every candidate pair of the loops ends up drawn, in one order or the other |
| Groups.GroupScheduleSize | components/TournamentView.tsx:83-98 | with more than 8 distinct participants no candidate is skipped: four fixtures per participant |
| Knockout.Tie | components/TournamentView.tsx:111-114 | a tie has two legs before the final and one in the final |
| Knockout.GenerateKnockoutRound | components/TournamentView.tsx:107-117 | the loop appends the round's fixtures after the existing matches |
| Knockout.KnockoutLegs | components/TournamentView.tsx:109-116 | the round is exactly the first leg of every consecutive pair of the list and, before the final, its reversed second leg |
| Knockout.KnockoutPlayers | components/TournamentView.tsx:109-116 | every fixture is in the given round, between listed players, distinct on a list without repeats, and a second leg only before the final |
| Knockout.OddOneOut | components/TournamentView.tsx:110 | with an odd number of distinct entries, the last one plays no leg |
| Knockout.KnockoutSize | components/TournamentView.tsx:109-116 | two fixtures per tie before the final, one per tie in the final |
| Knockout.InitialRound | components/TournamentView.tsx:100 | the first knockout round is between the round of sixteen (1) and the final (4) |
| Knockout.InitialRoundFits | components/TournamentView.tsx:100 | `k` participants start in the smallest bracket that holds them: more than half and at most all of its places filled, and no other round qualifies |
| Start.InitialFixtures | components/TournamentView.tsx:64-103 | the handler's branches produce the initial schedule of the tournament's format |
| Start.StartTournament | components/TournamentView.tsx:59-105 | the handler returns the started tournament |
| Start.StartedShape | components/TournamentView.tsx:59-105 | fewer than two participants change nothing; otherwise the tournament is ACTIVE, every other field is kept, the matches are replaced by unplayed matches of the tournament numbered by `uuid` and created from the format's schedule |
| Start.StartLeague | components/TournamentView.tsx:66-79 | a league of `k` distinct participants gets `k * (k - 1)` matches, every two meeting once per leg |
| Start.PermutationDistinct | components/TournamentView.tsx:84 | a reordering of a list without repeats has no repeats |
| Start.StartGroups | components/TournamentView.tsx:83-98 | more than 16 distinct CHAMPIONS participants open with four round-0 matches per participant, no pair repeated, nobody against themselves |
| Start.StartKnockout | components/TournamentView.tsx:99-102 | 2 to 16 distinct CHAMPIONS participants open with the knockout round that fits them, one tie per two shuffled participants, between different players, with second legs before the final |
| Advance.MaxRound | components/TournamentView.tsx:122 | the latest round bounds every match's round and is attained; none for no matches |
| Advance.InRound | components/TournamentView.tsx:129 | keeps exactly the matches whose round is the given one; a match without a round is never kept |
| Advance.Find | components/TournamentView.tsx:133 | the entry found has the key; when none is found, no entry has it |
| Advance.RecordLeg | components/TournamentView.tsx:132-139 | one iteration updates the leg's tie or opens a new entry at the end |
| Advance.TallyPairings | components/TournamentView.tsx:131-140 | the loop builds the map of ties of the round |
| Advance.Qualify | components/TournamentView.tsx:141-145 | one qualifier per entry, in map order |
| Advance.PairingsConsistent | components/TournamentView.tsx:131-140 | after any prefix of the round the map has one entry per pair, each describing its tie |
| Advance.PairingsAreTies | components/TournamentView.tsx:131-140 | every leg's pair has an entry, no pair twice, and each entry holds the first leg's players, home first, and for two different players each one's goals over all legs |
| Advance.QualifierWonTie | components/TournamentView.tsx:141-145 | the qualifier of a tie scored more goals over its legs, or is the first leg's home player on a level aggregate |
| Advance.TopIds | components/TournamentView.tsx:126 | the first `n` row ids, in order |
| Advance.NextPhase | components/TournamentView.tsx:120-147 | the handler's first half computes the qualifiers and the next round |
| Advance.AdvancePhase | components/TournamentView.tsx:119-160 | the handler returns the advanced tournament |
| Advance.AdvanceOnlyAppends | components/TournamentView.tsx:148-158 | advancing keeps every field but status and matches, and appends matches, sets FINISHED, or changes nothing |
| Advance.SeedsAreTop | components/TournamentView.tsx:125-127 | after the group stage no unseeded participant outranks a seeded one |
| Advance.FreshPairOpens | components/TournamentView.tsx:133-139 | a leg whose pair has no earlier leg in the round adds one entry to the map |
| Advance.KnownPairKeeps | components/TournamentView.tsx:133-139 | a leg whose pair already has a leg in the round adds no entry |
| Advance.PairingsCountPairs | components/TournamentView.tsx:130-140 | the map holds exactly as many entries as there are different pairs of players among the round's legs |
| Advance.TiePairsCount | components/TournamentView.tsx:107-117 | the ties drawn from a list of distinct players are between pairwise different pairs |
| Advance.DrawnPairsAreTies | components/TournamentView.tsx:107-117 | every created leg of a knockout round is played between the pair of one of its ties |
| Advance.TiesAreDrawn | components/TournamentView.tsx:107-117 | every tie of the shuffled list has a created leg |
| Advance.OneQualifierPerTie | components/TournamentView.tsx:107-145 | the legs of a round drawn from a list `s` of distinct players make one map entry per tie, so half of `s`, rounded down, qualify |
| Advance.LaterRoundAppended | components/TournamentView.tsx:122-129 | matches of a later round appended to the list make it the latest round, and the round filter then keeps exactly them |
| Advance.AdvanceHalves | components/TournamentView.tsx:119-158 | after a round is drawn from a distinct shuffled list, the next advance takes it as the latest round and qualifies exactly one player per tie, half the list rounded down |
| Advance.AdvanceDraws | components/TournamentView.tsx:156-158 | a drawn round adds unplayed matches of the next round between shuffled qualifiers, every tie of the shuffled list getting its legs |
| Advance.DrawnRoundAppended | components/TournamentView.tsx:156-158 | the drawn round is appended after the existing matches |
| Advance.AdvanceAfterFinal | components/TournamentView.tsx:152-155 | advancing from the final or later finishes the tournament |
| Advance.FinishTournament | components/TournamentView.tsx:162-166 | a confirmed dialog finishes the tournament; a cancelled one changes nothing |
| Advance.GuardsExclusive | components/TournamentView.tsx:202-215 | advancing and finishing are never offered together |
| Advance.CanAdvanceNeverFinishes | components/TournamentView.tsx:148-158 | when advancing is offered, it never finishes the tournament |
| Advance.FinishedIsFinal | components/TournamentView.tsx:202-215 | a finished tournament offers neither button |
| Lifecycle.UpdateMatches | components/TournamentView.tsx:169-186 | every match with the id is reported, every other match is kept |
| Lifecycle.ConfirmMatches | components/TournamentView.tsx:192-198 | every match with the id is approved, every other match is kept |
| Lifecycle.CardGuards | components/TournamentView.tsx:400-429 | a report is offered exactly on a PENDING match to a participant or manager, or on an awaiting match to a participant who has not approved it while fewer than three corrections were made; approval exactly on an awaiting match to a participant who has not approved it; a CONFIRMED match offers neither |
| Lifecycle.CorrectionsLeft | components/TournamentView.tsx:408-410 | the counter beside the correction button is the number of corrections left, at least one |
| Lifecycle.ReportOutcome | components/TournamentView.tsx:170-183 | a MASTER or ADMIN report is CONFIRMED with both players recorded, any other awaits approval with the reporter recorded; the score and reporter are stored, the fixture kept, and the count rises by one exactly for an awaiting match |
| Lifecycle.EvidenceKept | components/TournamentView.tsx:181 | evidence is replaced only by a non-empty new one |
| Lifecycle.CorrectionCeiling | components/TournamentView.tsx:400-411 | every report the card offers keeps the correction count within three |
| Lifecycle.UpdateOnlyTarget | components/TournamentView.tsx:168-189 | a report changes only the matches with the id and no other field of the tournament |
| Lifecycle.ConfirmOutcome | components/TournamentView.tsx:194-195 | approving appends the actor and leaves the match CONFIRMED exactly when the list then has two entries or more |
| Lifecycle.ConfirmOnlyTarget | components/TournamentView.tsx:191-200 | an approval changes only the matches with the id and no other field of the tournament |
| Lifecycle.OfferedConfirmNoRepeat | components/TournamentView.tsx:402-403 | approvals the card offers never record a player twice |
| Lifecycle.ReportThenConfirm | components/TournamentView.tsx:168-200 | after a player's report the other player is offered approval, and approving confirms the reported score with both recorded, reporter first |
| Lifecycle.ReporterWaits | components/TournamentView.tsx:420-425 | after a player's report, the reporter sees the waiting label, not the approve button |
| Lifecycle.ConfirmedWithoutOpponent | components/TournamentView.tsx:194-195 | a manager's report plus one player's approval confirms a match the other player never approved |
| Rounds.MatchesByRound | components/TournamentView.tsx:436-441 | the `reduce` builds the grouping of the matches by round |
| Rounds.BucketMembers | components/TournamentView.tsx:436-441 | a round's group holds only matches of the list with that round |
| Rounds.BucketComplete | components/TournamentView.tsx:437-439 | every match is in the group of its round, a missing round counting as 0 |
| Rounds.GroupedPartition | components/TournamentView.tsx:436-441 | a round has a group exactly when some match has it, and the groups partition the matches by round |
| Rounds.SortedRounds | components/TournamentView.tsx:218 | every round with a group, once, latest first |
| Rounds.RoundLabelsDistinct | components/TournamentView.tsx:443-453 | outside CHAMPIONS every round has its own label; in CHAMPIONS rounds 0 to 4 do and every later round shares one |
| ReportModal.ReportForm.constructor | components/MatchReportModal.tsx:15-21 | the form opens on the match's goals, cards and evidence |
| ReportModal.ReportForm.Decrement | components/MatchReportModal.tsx:45 | the minus button lowers one goal counter by one, never below zero, and changes nothing else |
| ReportModal.ReportForm.Increment | components/MatchReportModal.tsx:52 | the plus button raises one goal counter by one and changes nothing else |
| ReportModal.ReportForm.LoadEvidence | components/MatchReportModal.tsx:33-35 | the uploaded file becomes the evidence |
| ReportModal.ReportForm.Submit | components/MatchReportModal.tsx:61-128 | a payload is sent exactly when the form can submit; a correction is sent only with non-empty evidence, and only a correction without evidence is refused; the payload holds the match id, the goals entered, the match's cards and the evidence |
| ReportModal.HandlerCorrectionIsFormCorrection | components/MatchReportModal.tsx:27 | whenever the handler counts a correction, the form demands evidence |
| ReportModal.CorrectionStoresEvidence | components/MatchReportModal.tsx:127 | a correction saved through the form stores its evidence, keeps the cards, records the goals and counts one more correction |
| Dashboard.ActiveTournaments | components/Dashboard.tsx:17 | keeps exactly the tournaments that are not FINISHED |
| Dashboard.FinishedTournaments | components/Dashboard.tsx:18 | keeps exactly the FINISHED tournaments |
| Dashboard.ActiveFinishedPartition | components/Dashboard.tsx:17-18 | the two lists together hold each tournament exactly as often as the input |
| Dashboard.PushPendingIn | components/Dashboard.tsx:25-38 | the inner loop appends the entries of one tournament's matches |
| Dashboard.PendingConfirmations | components/Dashboard.tsx:20-41 | the nested loops build the pending list |
| Dashboard.PendingSound | components/Dashboard.tsx:24-37 | every entry comes from a match of a tournament that is not FINISHED, which the user plays, which awaits approval and which the user has not approved |
| Dashboard.PendingComplete | components/Dashboard.tsx:24-37 | every such match has its entry |
| Dashboard.ScoreTextInjective | components/Dashboard.tsx:35 | the score text determines the score |
| Dashboard.JoinCode | components/Dashboard.tsx:45-46 | no code for blank input; otherwise a non-empty code without white space at its ends |
| Dashboard.JoinForm.Submit | components/Dashboard.tsx:43-49 | blank input submits nothing and keeps the field; otherwise the trimmed code is submitted and the field cleared |
| Create.Clamp | components/CreateTournament.tsx:27 | a position clamped into the string's bounds |
| Create.SubstringTwoSeven | components/CreateTournament.tsx:27 | `substring(2, 7)` keeps at most five characters, those from position 2 on |
| Create.InviteCodeShape | components/CreateTournament.tsx:27 | for the text of a random number in base 36, the code is the upper-cased first five digits after the point, each a digit or an upper-case letter |
| Create.InviteCodeIsUpper | components/CreateTournament.tsx:27 | upper-casing the code again leaves it as it is |
| Create.CreatedTournament | components/CreateTournament.tsx:17-35 | an empty name creates nothing; otherwise the tournament has the name, type and creator given |
| Create.CreatedShape | components/CreateTournament.tsx:21-32 | a new tournament is a DRAFT whose only participant is its creator, without matches, with the checkbox value, an upper-case code of at most five characters, and managed by its creator |
| Create.CreatedCannotStartAlone | components/CreateTournament.tsx:28 | starting a new tournament changes nothing, since its creator alone is fewer than two participants |
| App.Participating | App.tsx:57 | keeps exactly the tournaments the user takes part in |
| App.VisibleTournaments | App.tsx:54-58 | nothing when signed out, every tournament for MASTER and ADMIN, otherwise the user's own |
| App.FindByCode | App.tsx:229 | the first tournament whose code matches ignoring case; none when no code matches |
| App.WithParticipant | App.tsx:245-250 | the user is appended to every tournament with the id; the others are kept |
| App.JoinSpec | App.tsx:228-253 | an unknown code, a tournament already joined or past DRAFT leave the list unchanged; a join adds the user as last participant of the first DRAFT tournament whose code matches, keeps every other one, and makes it visible to the user |
| App.FindAfterJoin | App.tsx:229 | a join changes no invite code, so the same code finds the same tournament afterwards |
| App.JoinIdempotent | App.tsx:228-253 | following the same invite link twice has the effect of following it once |
| App.Replaced | App.tsx:255-257 | every tournament with the id is replaced, every other one kept |
| App.ReplacedMembers | App.tsx:255-257 | the updated record appears exactly when a tournament with its id existed, and everything else is an old tournament with another id |
| App.ReplacedIdempotent | App.tsx:255-257 | replacing again with the same record changes nothing more |
| App.RoleUpdated | App.tsx:206-209 | only a MASTER changes roles, and only the role of the named user |
| App.FindRecovery | App.tsx:189-192 | the first user whose nickname and recovery contact match ignoring case; none when no user matches |
| App.PasswordResetSpec | App.tsx:188-204 | a reset succeeds exactly when some user matches; then only that user's password changes; otherwise nothing changes |
| App.Registration | App.tsx:124-140 | registration is refused exactly for a nickname taken ignoring case or reserved for the master |
| App.NewUserShape | App.tsx:129-140 | a new user is a PLAYER, registered exactly when not a guest, with password and contact only when not a guest, in no tournament |
| App.RegistrationKeepsNicknamesUnique | App.tsx:119-141 | registration keeps nicknames unique ignoring case, and the same nickname in any case cannot register again |
| App.UpdatesKeepNicknamesUnique | App.tsx:188-209 | a role change and a password reset keep nicknames unique |
| App.AppState.constructor | App.tsx:34-47 | the state holds the loaded lists and user |
| App.AppState.JoinTournament | App.tsx:228-253 | the outcome and the new tournament list are those of a join by the signed-in user; the users are unchanged |
| App.AppState.UpdateTournament | App.tsx:255-257 | the tournament list becomes the replaced list |
| App.AppState.AddTournament | App.tsx:222-226 | the new tournament goes first |
| App.AppState.UpdateUserRole | App.tsx:206-209 | the user list becomes the role-updated list, nicknames staying unique |
| App.AppState.ResetPassword | App.tsx:188-204 | the result and the new user list are those of the reset, nicknames staying unique |
| App.AppState.Register | App.tsx:124-142 | a refused registration changes nothing; otherwise the new user is appended and signed in, nicknames staying unique |
| Findings.ThreePlayerDraw | components/TournamentView.tsx:100-117 | three participants start in the semifinal, and the draw leaves the third one out |
| Findings.ThreePlayerCupStalls | components/TournamentView.tsx:141-155 | after that semifinal, advancing is offered but changes nothing, and finishing is never offered |
| Findings.FinalFieldAsWritten | components/TournamentView.tsx:100-158 | halving the field rounding down once per round, one qualifier per tie as `Advance.AdvanceHalves` proves of a round, `k` participants leave two players for the final exactly when `k` fills its bracket, and one otherwise |
| Findings.QualifiersWithByeSpec | components/TournamentView.tsx:109-116 | with a bye for the odd entrant, half the field rounded up goes through, and the bye goes to the entrant who played no leg |
| Findings.FinalFieldWithByes | components/TournamentView.tsx:100-158 | with byes, every knockout of 2 to 16 participants reaches a final of exactly two players |

## Left out

- Rendering: JSX, styling, icons, tabs, the sidebar, and the view and navigation state (`setView`,
  `navigateToTournament`, `setActiveTab`, `setReportingMatch`). These decide only what is shown.
- Persistence: `localStorage` reads and writes, and the effect that joins a tournament from the
  `?join=` URL parameter (`pendingJoinCode`). `App.AppState.constructor` takes the loaded values.
- Dialogs: `alert` calls are the "no change" outcome of the handler; the answer to `window.confirm`
  is the parameter `confirmed` of `Advance.FinishTournament`.
- Randomness and the clock: `Math.random`, `crypto.randomUUID` and `Date.now` are parameters, as
  described above. The model assumes `shuffle` returns a reordering where a property needs it.
- `FileReader`: evidence is an opaque string (the data URL).
- The login branch of `handleLogin` (password check, master login from environment variables),
  `updateUserSettings`, `handleLogout`, and the `Login`, `AdminPanel` and `UserSettings`
  components. AdminPanel.tsx, Login.tsx and UserSettings.tsx are not part of this model.
- The opponent's name in a pending entry is the constant "tu rival", as in the source; the lookups
  of player nicknames for display are not modelled.
- Text: case mapping covers ASCII letters only. `trim` uses the white-space set of JavaScript.
- The pair key `[h, a].sort().join('-')` is the unordered set of the two ids. The two differ only
  when two different pairs of ids join to the same text. Ids are either `crypto.randomUUID()` values
  (36 characters of lower-case hexadecimal digits and dashes, App.tsx:130) or the master user's
  `'admin-master-id'` (App.tsx:151). A UUID cannot begin with "adm", since `m` is not a hexadecimal
  digit, so the start of the key tells which kind the first id is, and with it the first id's
  length; the rest after the joining `-` is the second id. Different pairs therefore give
  different keys.
- The `Map` of ties is a list of entries in insertion order, which is the `Map`'s iteration order.
- LeagueTable's sixteen closure counters are grouped into one `Counters` value.
- Integers are unbounded; goals, cards and counters never approach JavaScript's safe integer range.
- LeagueTable.CountMatch: the sixteen `++` and `+=` statements are one update of the `Counters`
  value, not sixteen separate steps.
- App.AppState.JoinTournament: requires a signed-in user, as the source's `currentUser!` assumes;
  the source would throw otherwise.
- Text.Lower, Text.Upper: ASCII only; `toLowerCase` and `toUpperCase` also map non-ASCII letters.

## Findings

| source | as written | input that shows it | evidently intended | confidence | as-written member | corrected member |
|---|---|---|---|---|---|---|
| components/TournamentView.tsx:107-117, 141-155 | `generateKnockoutRound` leaves the odd last entrant out, and `handleAdvancePhase` sends only tie winners on, so a knockout whose size is not 2, 4, 8 or 16 is left with a single qualifier before the final; advancing then alerts and changes nothing while staying offered, and `canFinish`, which needs a final, never holds | a CHAMPIONS tournament of 3 participants: the semifinal pairs two of them, its winner is alone, and the tournament can neither advance nor finish | every CHAMPIONS cup can be played to the end: a draw that leaves the odd entrant out must not leave a round short of the final with a single qualifier. A bye for the odd entrant, which halves the field rounding up and brings two players to the final, is one way to achieve it | not executed | Findings.ThreePlayerCupStalls | Findings.FinalFieldWithByes |
