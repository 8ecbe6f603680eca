/**
 * `handleCreate` of components/CreateTournament.tsx: the record of a new tournament built from
 * the form values. The random parts (the UUID, the `Math.random().toString(36)` text and the
 * clock) are parameters.
 */
module Create {
  import opened Types
  import opened Text
  import opened Lifecycle
  import Start

  /** A position clamped into `[0, n]`, as `substring` does with its arguments. */
  function Clamp(i: int, n: nat): (c: nat)
    ensures c <= n
    ensures 0 <= i <= n ==> c == i
    ensures i < 0 ==> c == 0
    ensures i > n ==> c == n
  {
    if i < 0 then 0 else if i > n then n else i
  }

  /** `s.substring(start, end)`: both bounds clamped, and swapped when the end comes first. */
  function Substring(s: string, start: int, end: int): string {
    var a, b := Clamp(start, |s|), Clamp(end, |s|);
    if a <= b then s[a..b] else s[b..a]
  }

  /** What `substring(2, 7)` keeps: at most five characters, the ones from position 2 on. */
  lemma SubstringTwoSeven(s: string)
    ensures var r := Substring(s, 2, 7);
      && |r| <= 5
      && (|s| >= 7 ==> |r| == 5)
      && (|s| <= 2 ==> r == [])
      && forall i :: 0 <= i < |r| ==> i + 2 < |s| && r[i] == s[i + 2]
  {
  }

  /** The invite code drawn from the random text `raw`: `raw.substring(2, 7).toUpperCase()`. */
  function InviteCode(raw: string): string {
    Upper(Substring(raw, 2, 7))
  }

  /** A character `toString(36)` produces after the point: a digit or a lower-case letter. */
  predicate IsBase36Digit(c: char) {
    '0' <= c <= '9' || 'a' <= c <= 'z'
  }

  /** A character of an invite code: a digit or an upper-case letter. */
  predicate IsCodeChar(c: char) {
    '0' <= c <= '9' || 'A' <= c <= 'Z'
  }

  /**
   * For the text of a random number in base 36, `0.` followed by base-36 digits, the invite
   * code is at most five characters long, each a digit or an upper-case letter, and it is the
   * upper-cased first five digits after the point; it has exactly five characters when there
   * are at least five digits.
   */
  lemma InviteCodeShape(digits: string)
    requires forall i :: 0 <= i < |digits| ==> IsBase36Digit(digits[i])
    ensures var code := InviteCode("0." + digits);
      && |code| <= 5
      && (|digits| >= 5 ==> |code| == 5)
      && (forall i :: 0 <= i < |code| ==> IsCodeChar(code[i]) && code[i] == UpperChar(digits[i]))
  {
    var raw := "0." + digits;
    SubstringTwoSeven(raw);
    var r := Substring(raw, 2, 7);
    assert forall i :: 0 <= i < |r| ==> r[i] == digits[i];
  }

  /** Upper-casing an invite code again leaves it as it is, so `joinTournament` can match it. */
  lemma InviteCodeIsUpper(raw: string)
    ensures Upper(InviteCode(raw)) == InviteCode(raw)
  {
    var code := InviteCode(raw);
    UpperHasNoLower(Substring(raw, 2, 7));
    assert forall i :: 0 <= i < |code| ==> Upper(code)[i] == code[i];
  }

  /**
   * `handleCreate`: an empty name creates nothing; otherwise a DRAFT tournament of the chosen
   * type, created by `creatorId`, whose only participant is its creator, without matches, with
   * the checkbox's `isDetailed`, the fresh id `id`, the invite code drawn from `raw` and the
   * creation time `now`.
   */
  function CreatedTournament(name: string, kind: TournamentType, isDetailed: bool, creatorId: Id,
                             id: Id, raw: string, now: int): (r: Option<Tournament>)
    ensures r.None? <==> name == ""
    ensures r.Some? ==> r.value.name == name && r.value.kind == kind && r.value.creatorId == creatorId
  {
    if name == "" then None
    else Some(Tournament(id, name, kind, Draft, creatorId, InviteCode(raw), [creatorId], [], isDetailed, now))
  }

  /**
   * A new tournament is a DRAFT whose only participant is its creator, has no matches, keeps the
   * checkbox value, has an invite code of at most five upper-case characters, and is managed by
   * its creator.
   */
  lemma CreatedShape(name: string, kind: TournamentType, isDetailed: bool, creator: User, id: Id, raw: string, now: int)
    requires name != ""
    ensures var t := CreatedTournament(name, kind, isDetailed, creator.id, id, raw, now).value;
      && t.status == Draft && t.participants == [creator.id] && t.matches == []
      && t.isDetailedLeague == isDetailed && t.id == id && t.createdAt == now
      && |t.inviteCode| <= 5 && Upper(t.inviteCode) == t.inviteCode
      && CanManage(t, creator)
  {
    SubstringTwoSeven(raw);
    InviteCodeIsUpper(raw);
  }

  /**
   * Starting a tournament straight after creating it changes nothing: its creator is the only
   * participant, fewer than the two a start needs.
   */
  lemma CreatedCannotStartAlone(name: string, kind: TournamentType, isDetailed: bool, creatorId: Id, id: Id, raw: string,
                                now: int, shuffle: seq<Id> -> seq<Id>, uuid: nat -> Id)
    requires name != ""
    ensures var t := CreatedTournament(name, kind, isDetailed, creatorId, id, raw, now).value;
      Start.Started(t, shuffle, uuid) == t
  {
    var t := CreatedTournament(name, kind, isDetailed, creatorId, id, raw, now).value;
    Start.StartedShape(t, shuffle, uuid);
  }
}
