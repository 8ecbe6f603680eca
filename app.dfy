/**
 * The application state of App.tsx: the tournament list, the user list and the signed-in user,
 * with the handlers that replace them: joining a tournament by invite code, replacing or
 * adding a tournament, changing a user's role, resetting a password and registering. Each
 * handler's new value is a function of the old state, as the source computes it with `map`,
 * `filter`, `find` and `findIndex`; the class fields hold what the `useState` setters store.
 */
module App {
  import opened Types
  import opened Text

  // ---------------------------------------------------------------------------------------
  // userTournaments
  // ---------------------------------------------------------------------------------------

  /** `tournaments.filter(t => t.participants.includes(uid))`, in list order. */
  function Participating(ts: seq<Tournament>, uid: Id): (r: seq<Tournament>)
    ensures |r| <= |ts|
    ensures forall t :: t in r <==> t in ts && uid in t.participants
  {
    if ts == [] then []
    else (if uid in ts[0].participants then [ts[0]] else []) + Participating(ts[1..], uid)
  }

  /** `userTournaments`: nothing when signed out, every tournament for MASTER and ADMIN, otherwise the user's own. */
  function VisibleTournaments(ts: seq<Tournament>, current: Option<User>): (r: seq<Tournament>)
    ensures current.None? ==> r == []
    ensures current.Some? && IsStaff(current.value) ==> r == ts
    ensures current.Some? && !IsStaff(current.value) ==>
      forall t :: t in r <==> t in ts && current.value.id in t.participants
  {
    match current
    case None => []
    case Some(u) => if IsStaff(u) then ts else Participating(ts, u.id)
  }

  // ---------------------------------------------------------------------------------------
  // joinTournament
  // ---------------------------------------------------------------------------------------

  /** The invite code of `t` matches `code` when both upper-cased agree. */
  predicate CodeMatches(t: Tournament, code: string) {
    Upper(t.inviteCode) == Upper(code)
  }

  /** `tournaments.find(...)` by invite code: the index of the first match, if any. */
  function FindByCode(ts: seq<Tournament>, code: string): (r: Option<nat>)
    ensures r.Some? ==> r.value < |ts| && CodeMatches(ts[r.value], code)
    ensures r.Some? ==> forall j :: 0 <= j < r.value ==> !CodeMatches(ts[j], code)
    ensures r.None? ==> forall j :: 0 <= j < |ts| ==> !CodeMatches(ts[j], code)
  {
    if ts == [] then None
    else if CodeMatches(ts[0], code) then Some(0)
    else match FindByCode(ts[1..], code)
      case None => None
      case Some(i) => Some(i + 1)
  }

  /** How `joinTournament` ends: the three early returns, or a join. */
  datatype JoinOutcome = CodeNotFound | AlreadyJoined(tournamentId: Id) | AlreadyStarted | Joined(tournamentId: Id)

  /** The branch `joinTournament` takes for the user `uid` and the typed `code`. */
  function JoinOutcomeOf(ts: seq<Tournament>, code: string, uid: Id): JoinOutcome {
    match FindByCode(ts, code)
    case None => CodeNotFound
    case Some(i) =>
      if uid in ts[i].participants then AlreadyJoined(ts[i].id)
      else if ts[i].status != Draft then AlreadyStarted
      else Joined(ts[i].id)
  }

  /** The `map` of `joinTournament`: `uid` is appended to every tournament with id `tid`. */
  function WithParticipant(ts: seq<Tournament>, tid: Id, uid: Id): (r: seq<Tournament>)
    ensures |r| == |ts|
    ensures forall i :: 0 <= i < |ts| ==>
      r[i] == if ts[i].id == tid then ts[i].(participants := ts[i].participants + [uid]) else ts[i]
  {
    if ts == [] then []
    else
      [if ts[0].id == tid then ts[0].(participants := ts[0].participants + [uid]) else ts[0]] +
      WithParticipant(ts[1..], tid, uid)
  }

  /** The tournament list after `joinTournament`. */
  function AfterJoin(ts: seq<Tournament>, code: string, uid: Id): seq<Tournament> {
    match JoinOutcomeOf(ts, code, uid)
    case Joined(tid) => WithParticipant(ts, tid, uid)
    case _ => ts
  }

  /**
   * The outcome of a join: an unknown code, a tournament the user already belongs to and a
   * tournament past DRAFT leave the list unchanged; a join is the first tournament whose code
   * matches ignoring case, a DRAFT the user was not in, and afterwards the user is its last
   * participant, every tournament with another id is unchanged and the user sees it.
   */
  lemma JoinSpec(ts: seq<Tournament>, code: string, u: User)
    ensures JoinOutcomeOf(ts, code, u.id) == CodeNotFound <==> forall j :: 0 <= j < |ts| ==> !CodeMatches(ts[j], code)
    ensures !JoinOutcomeOf(ts, code, u.id).Joined? ==> AfterJoin(ts, code, u.id) == ts
    ensures JoinOutcomeOf(ts, code, u.id).Joined? ==>
      var tid := JoinOutcomeOf(ts, code, u.id).tournamentId;
      var r := AfterJoin(ts, code, u.id);
      && (exists i :: 0 <= i < |ts| && ts[i].id == tid && CodeMatches(ts[i], code)
            && ts[i].status == Draft && u.id !in ts[i].participants)
      && |r| == |ts|
      && (forall i :: 0 <= i < |ts| && ts[i].id != tid ==> r[i] == ts[i])
      && (forall i :: 0 <= i < |ts| && ts[i].id == tid ==>
            r[i].participants == ts[i].participants + [u.id] && r[i].(participants := ts[i].participants) == ts[i])
      && (forall i :: 0 <= i < |ts| && ts[i].id == tid ==> r[i] in VisibleTournaments(r, Some(u)))
  {
    var out := JoinOutcomeOf(ts, code, u.id);
    if out.Joined? {
      var i := FindByCode(ts, code).value;
      assert ts[i].id == out.tournamentId;
      var r := AfterJoin(ts, code, u.id);
      forall j | 0 <= j < |ts| && ts[j].id == out.tournamentId ensures r[j] in VisibleTournaments(r, Some(u)) {
        assert r[j] in r && u.id in r[j].participants;
      }
    }
  }

  /** Lists whose invite codes match `code` at the same positions find the same tournament. */
  lemma SameFind(ts: seq<Tournament>, rs: seq<Tournament>, code: string)
    requires |rs| == |ts| && forall j :: 0 <= j < |ts| ==> (CodeMatches(rs[j], code) <==> CodeMatches(ts[j], code))
    ensures FindByCode(rs, code) == FindByCode(ts, code)
  {
    match FindByCode(rs, code)
    case None =>
    case Some(i) =>
      assert CodeMatches(ts[i], code);
  }

  /** A join changes no invite code, so the same code finds the same tournament afterwards. */
  lemma FindAfterJoin(ts: seq<Tournament>, code: string, tid: Id, uid: Id)
    ensures FindByCode(WithParticipant(ts, tid, uid), code) == FindByCode(ts, code)
  {
    var r := WithParticipant(ts, tid, uid);
    assert forall j :: 0 <= j < |ts| ==> r[j].inviteCode == ts[j].inviteCode;
    SameFind(ts, r, code);
  }

  /** Following the same invite link twice has the effect of following it once. */
  lemma JoinIdempotent(ts: seq<Tournament>, code: string, uid: Id)
    ensures AfterJoin(AfterJoin(ts, code, uid), code, uid) == AfterJoin(ts, code, uid)
  {
    var out := JoinOutcomeOf(ts, code, uid);
    if out.Joined? {
      var r := WithParticipant(ts, out.tournamentId, uid);
      FindAfterJoin(ts, code, out.tournamentId, uid);
      var i := FindByCode(ts, code).value;
      assert uid in r[i].participants;
      assert JoinOutcomeOf(r, code, uid).AlreadyJoined?;
    }
  }

  // ---------------------------------------------------------------------------------------
  // updateTournament, addTournament
  // ---------------------------------------------------------------------------------------

  /** `prev.map(t => t.id === updated.id ? updated : t)`. */
  function Replaced(ts: seq<Tournament>, updated: Tournament): (r: seq<Tournament>)
    ensures |r| == |ts|
    ensures forall i :: 0 <= i < |ts| ==> r[i] == if ts[i].id == updated.id then updated else ts[i]
  {
    if ts == [] then []
    else [if ts[0].id == updated.id then updated else ts[0]] + Replaced(ts[1..], updated)
  }

  /** Replacing puts `updated` exactly where a tournament with its id was and keeps every other one. */
  lemma ReplacedMembers(ts: seq<Tournament>, updated: Tournament)
    ensures forall t :: t in Replaced(ts, updated) ==> t == updated || (t in ts && t.id != updated.id)
    ensures (exists i :: 0 <= i < |ts| && ts[i].id == updated.id) <==> updated in Replaced(ts, updated)
  {
    var r := Replaced(ts, updated);
    forall t | t in r ensures t == updated || (t in ts && t.id != updated.id) {
      var i :| 0 <= i < |r| && r[i] == t;
    }
    if updated in r {
      var i :| 0 <= i < |r| && r[i] == updated;
      assert ts[i].id == updated.id;
    }
  }

  /** Replacing again with the same record changes nothing more. */
  lemma ReplacedIdempotent(ts: seq<Tournament>, updated: Tournament)
    ensures Replaced(Replaced(ts, updated), updated) == Replaced(ts, updated)
  {
    var r := Replaced(ts, updated);
    assert forall i :: 0 <= i < |ts| ==> (r[i].id == updated.id <==> ts[i].id == updated.id);
  }

  // ---------------------------------------------------------------------------------------
  // updateUserRole
  // ---------------------------------------------------------------------------------------

  /** `updateUserRole`: only a MASTER changes roles, and only the role of the user `userId`. */
  function RoleUpdated(users: seq<User>, current: Option<User>, userId: Id, role: UserRole): (r: seq<User>)
    ensures |r| == |users|
    ensures !(current.Some? && current.value.role == Master) ==> r == users
    ensures forall i :: 0 <= i < |users| ==> r[i].(role := users[i].role) == users[i]
    ensures current.Some? && current.value.role == Master ==>
      forall i :: 0 <= i < |users| ==> r[i].role == if users[i].id == userId then role else users[i].role
  {
    if !(current.Some? && current.value.role == Master) then users
    else WithRole(users, userId, role)
  }

  /** `prev.map(u => u.id === userId ? { ...u, role: newRole } : u)`. */
  function WithRole(users: seq<User>, userId: Id, role: UserRole): (r: seq<User>)
    ensures |r| == |users|
    ensures forall i :: 0 <= i < |users| ==> r[i] == if users[i].id == userId then users[i].(role := role) else users[i]
  {
    if users == [] then []
    else [if users[0].id == userId then users[0].(role := role) else users[0]] + WithRole(users[1..], userId, role)
  }

  // ---------------------------------------------------------------------------------------
  // handleResetPassword
  // ---------------------------------------------------------------------------------------

  /**
   * The `findIndex` condition: the nickname matches ignoring case and the user has a recovery
   * contact that matches ignoring case (a missing contact never matches).
   */
  predicate RecoveryMatches(u: User, nickname: string, contact: string) {
    SameIgnoringCase(u.nickname, nickname) && u.recoveryContact.Some? && SameIgnoringCase(u.recoveryContact.value, contact)
  }

  /** `allUsers.findIndex(...)`: the first user that matches, if any. */
  function FindRecovery(users: seq<User>, nickname: string, contact: string): (r: Option<nat>)
    ensures r.Some? ==> r.value < |users| && RecoveryMatches(users[r.value], nickname, contact)
    ensures r.Some? ==> forall j :: 0 <= j < r.value ==> !RecoveryMatches(users[j], nickname, contact)
    ensures r.None? ==> forall j :: 0 <= j < |users| ==> !RecoveryMatches(users[j], nickname, contact)
  {
    if users == [] then None
    else if RecoveryMatches(users[0], nickname, contact) then Some(0)
    else match FindRecovery(users[1..], nickname, contact)
      case None => None
      case Some(i) => Some(i + 1)
  }

  /** `handleResetPassword`: whether it succeeded, and the new user list. */
  function PasswordReset(users: seq<User>, nickname: string, contact: string, newPass: string): (bool, seq<User>) {
    match FindRecovery(users, nickname, contact)
    case None => (false, users)
    case Some(i) => (true, users[i := users[i].(password := Some(newPass))])
  }

  /**
   * A reset succeeds exactly when some user matches both the nickname and the recovery contact
   * ignoring case; then only that user's password changes, to the new one; otherwise nothing
   * changes.
   */
  lemma PasswordResetSpec(users: seq<User>, nickname: string, contact: string, newPass: string)
    ensures var (ok, r) := PasswordReset(users, nickname, contact, newPass);
      && (ok <==> exists i :: 0 <= i < |users| && RecoveryMatches(users[i], nickname, contact))
      && (!ok ==> r == users)
      && |r| == |users|
      && (ok ==> exists i :: (0 <= i < |users| && RecoveryMatches(users[i], nickname, contact)
            && r[i] == users[i].(password := Some(newPass))
            && forall j :: 0 <= j < |users| && j != i ==> r[j] == users[j]))
  {
    match FindRecovery(users, nickname, contact)
    case None =>
    case Some(i) =>
      var r := PasswordReset(users, nickname, contact, newPass).1;
      assert r[i] == users[i].(password := Some(newPass));
  }

  // ---------------------------------------------------------------------------------------
  // handleLogin, registration branch
  // ---------------------------------------------------------------------------------------

  /** `existing`: some user already has the nickname, ignoring case. */
  predicate NicknameTaken(users: seq<User>, nickname: string) {
    exists i | 0 <= i < |users| :: SameIgnoringCase(users[i].nickname, nickname)
  }

  /** `MASTER_NICK && nicknameLower === MASTER_NICK.toLowerCase()`: a set, non-empty master nick matches. */
  predicate ReservedNickname(nickname: string, masterNick: Option<string>) {
    masterNick.Some? && masterNick.value != "" && SameIgnoringCase(nickname, masterNick.value)
  }

  /** The record `handleLogin` registers; a guest gets neither a password nor a recovery contact. */
  function NewUser(id: Id, nickname: string, password: string, isGuest: bool, contact: Option<string>): User {
    User(id, nickname,
      if isGuest then None else Some(password),
      if isGuest then None else contact,
      Player, !isGuest, [], Some("default"), Some("#4f46e5"), Some("#111827"))
  }

  /** Registration: refused for a taken or reserved nickname, otherwise the new user. */
  function Registration(users: seq<User>, nickname: string, password: string, isGuest: bool,
                        contact: Option<string>, masterNick: Option<string>, id: Id): (r: Option<User>)
    ensures r.None? <==> NicknameTaken(users, nickname) || ReservedNickname(nickname, masterNick)
    ensures r.Some? ==> r.value.nickname == nickname && r.value.id == id
  {
    if NicknameTaken(users, nickname) || ReservedNickname(nickname, masterNick) then None
    else Some(NewUser(id, nickname, password, isGuest, contact))
  }

  /**
   * A registered user is a PLAYER, registered exactly when not a guest, with the password and
   * contact given only when not a guest, in no tournament yet.
   */
  lemma NewUserShape(users: seq<User>, nickname: string, password: string, isGuest: bool,
                     contact: Option<string>, masterNick: Option<string>, id: Id)
    requires !NicknameTaken(users, nickname) && !ReservedNickname(nickname, masterNick)
    ensures var u := Registration(users, nickname, password, isGuest, contact, masterNick, id).value;
      && u.role == Player && !IsStaff(u) && u.registered == !isGuest
      && (u.password.Some? <==> !isGuest) && (u.password.Some? ==> u.password.value == password)
      && (isGuest ==> u.recoveryContact.None?) && (!isGuest ==> u.recoveryContact == contact)
      && u.joinedTournaments == []
  {
  }

  /** No two users share a nickname, ignoring case. */
  predicate UniqueNicknames(users: seq<User>) {
    forall i, j :: 0 <= i < j < |users| ==> !SameIgnoringCase(users[i].nickname, users[j].nickname)
  }

  /**
   * Registration keeps nicknames unique, and the same nickname in any letter case cannot be
   * registered a second time.
   */
  lemma RegistrationKeepsNicknamesUnique(users: seq<User>, nickname: string, password: string, isGuest: bool,
                                         contact: Option<string>, masterNick: Option<string>, id: Id,
                                         again: string, password2: string, isGuest2: bool, contact2: Option<string>, id2: Id)
    requires UniqueNicknames(users)
    requires Registration(users, nickname, password, isGuest, contact, masterNick, id).Some?
    requires SameIgnoringCase(again, nickname)
    ensures var users' := users + [Registration(users, nickname, password, isGuest, contact, masterNick, id).value];
      && UniqueNicknames(users')
      && Registration(users', again, password2, isGuest2, contact2, masterNick, id2).None?
  {
    var u := Registration(users, nickname, password, isGuest, contact, masterNick, id).value;
    var users' := users + [u];
    forall i, j | 0 <= i < j < |users'| ensures !SameIgnoringCase(users'[i].nickname, users'[j].nickname) {
      if j == |users| {
        assert users'[i] == users[i];
      }
    }
    assert SameIgnoringCase(users'[|users|].nickname, again);
  }

  /** A role change and a password reset keep every nickname, so they keep nicknames unique. */
  lemma UpdatesKeepNicknamesUnique(users: seq<User>, current: Option<User>, userId: Id, role: UserRole,
                                   nickname: string, contact: string, newPass: string)
    requires UniqueNicknames(users)
    ensures UniqueNicknames(RoleUpdated(users, current, userId, role))
    ensures UniqueNicknames(PasswordReset(users, nickname, contact, newPass).1)
  {
    var r := RoleUpdated(users, current, userId, role);
    assert forall i :: 0 <= i < |users| ==> r[i].nickname == users[i].nickname;
    var s := PasswordReset(users, nickname, contact, newPass).1;
    assert forall i :: 0 <= i < |users| ==> s[i].nickname == users[i].nickname;
  }

  // ---------------------------------------------------------------------------------------
  // The state held by the App component
  // ---------------------------------------------------------------------------------------

  class AppState {
    var tournaments: seq<Tournament>
    var allUsers: seq<User>
    var currentUser: Option<User>

    /** No two users share a nickname, ignoring case. */
    predicate Valid()
      reads this
    {
      UniqueNicknames(allUsers)
    }

    /** The state as loaded from storage. */
    constructor(tournaments: seq<Tournament>, allUsers: seq<User>, currentUser: Option<User>)
      requires UniqueNicknames(allUsers)
      ensures Valid()
      ensures this.tournaments == tournaments && this.allUsers == allUsers && this.currentUser == currentUser
    {
      this.tournaments := tournaments;
      this.allUsers := allUsers;
      this.currentUser := currentUser;
    }

    /** `joinTournament`, which only runs for a signed-in user. */
    method JoinTournament(code: string) returns (outcome: JoinOutcome)
      requires currentUser.Some?
      modifies this
      ensures outcome == JoinOutcomeOf(old(tournaments), code, old(currentUser).value.id)
      ensures tournaments == AfterJoin(old(tournaments), code, old(currentUser).value.id)
      ensures allUsers == old(allUsers) && currentUser == old(currentUser)
    {
      var uid := currentUser.value.id;
      var found := FindByCode(tournaments, code);
      if found.None? {
        return CodeNotFound;
      }
      var t := tournaments[found.value];
      if uid in t.participants {
        return AlreadyJoined(t.id);
      }
      if t.status != Draft {
        return AlreadyStarted;
      }
      tournaments := WithParticipant(tournaments, t.id, uid);
      outcome := Joined(t.id);
    }

    /** `updateTournament`. */
    method UpdateTournament(updated: Tournament)
      modifies this
      ensures tournaments == Replaced(old(tournaments), updated)
      ensures allUsers == old(allUsers) && currentUser == old(currentUser)
    {
      tournaments := Replaced(tournaments, updated);
    }

    /** `addTournament`: the new tournament goes first. */
    method AddTournament(t: Tournament)
      modifies this
      ensures tournaments == [t] + old(tournaments)
      ensures allUsers == old(allUsers) && currentUser == old(currentUser)
    {
      tournaments := [t] + tournaments;
    }

    /** `updateUserRole`. */
    method UpdateUserRole(userId: Id, role: UserRole)
      requires Valid()
      modifies this
      ensures Valid()
      ensures allUsers == RoleUpdated(old(allUsers), currentUser, userId, role)
      ensures tournaments == old(tournaments) && currentUser == old(currentUser)
    {
      UpdatesKeepNicknamesUnique(allUsers, currentUser, userId, role, "", "", "");
      if currentUser.Some? && currentUser.value.role == Master {
        allUsers := WithRole(allUsers, userId, role);
      }
    }

    /** `handleResetPassword`. */
    method ResetPassword(nickname: string, contact: string, newPass: string) returns (ok: bool)
      requires Valid()
      modifies this
      ensures Valid()
      ensures (ok, allUsers) == PasswordReset(old(allUsers), nickname, contact, newPass)
      ensures tournaments == old(tournaments) && currentUser == old(currentUser)
    {
      UpdatesKeepNicknamesUnique(allUsers, currentUser, "", Player, nickname, contact, newPass);
      var existingIndex := FindRecovery(allUsers, nickname, contact);
      if existingIndex.Some? {
        var i := existingIndex.value;
        allUsers := allUsers[i := allUsers[i].(password := Some(newPass))];
        return true;
      }
      return false;
    }

    /**
     * The registration branch of `handleLogin`: a taken or reserved nickname is refused and
     * nothing changes; otherwise the new user is appended and signed in.
     */
    method Register(nickname: string, password: string, isGuest: bool, contact: Option<string>,
                    masterNick: Option<string>, id: Id) returns (ok: bool)
      requires Valid()
      modifies this
      ensures Valid()
      ensures var u := Registration(old(allUsers), nickname, password, isGuest, contact, masterNick, id);
        && (ok <==> u.Some?)
        && (u.None? ==> allUsers == old(allUsers) && currentUser == old(currentUser))
        && (u.Some? ==> allUsers == old(allUsers) + [u.value] && currentUser == u)
      ensures tournaments == old(tournaments)
    {
      var registered := Registration(allUsers, nickname, password, isGuest, contact, masterNick, id);
      if registered.None? {
        return false;
      }
      RegistrationKeepsNicknamesUnique(allUsers, nickname, password, isGuest, contact, masterNick, id,
                                       nickname, password, isGuest, contact, id);
      allUsers := allUsers + [registered.value];
      currentUser := registered;
      ok := true;
    }
  }
}
