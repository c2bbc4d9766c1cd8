/**
 The browser-storage branches of services/api.ts. Each call loads the
 document (writing the default one when storage is empty), works on it, and
 writes it back only when it changed something.
 */
module MockApi {
  import opened Basics
  import opened KeyedSeq
  import opened AppModel
  import Worker

  /**
   `getMockData`: the stored document, or the default one, which is then also
   written. Returns the document and the write performed, if any.
   */
  function GetMockData(stored: Option<AppState>, bootTime: int): (r: (AppState, Option<AppState>))
    ensures stored.Some? ==> r.0 == stored.value && r.1.None?
    ensures stored.None? ==>
      && r.1 == Some(r.0)
      && r.0.users == [DefaultAdmin(bootTime)] && r.0.sessions == []
      && r.0.config.startPassword == DefaultStartPassword
  {
    match stored
    case Some(data) => (data, None)
    case None => var initial := DefaultState(bootTime); (initial, Some(initial))
  }

  /** Storage after a load: the write it made, or what was already there. */
  function AfterLoad(stored: Option<AppState>, bootTime: int): Option<AppState> {
    var (data, write) := GetMockData(stored, bootTime);
    if write.Some? then write else stored
  }

  /** Loading leaves storage holding what it returned, so a second load returns the same document and writes nothing. */
  lemma LoadStable(stored: Option<AppState>, bootTime: int, laterBootTime: int)
    ensures AfterLoad(stored, bootTime) == Some(GetMockData(stored, bootTime).0)
    ensures GetMockData(AfterLoad(stored, bootTime), laterBootTime) == (GetMockData(stored, bootTime).0, None)
  {
  }

  /** `checkStartPassword`: holds exactly when the password is the configured one. */
  function CheckStartPassword(data: AppState, password: string): (ok: bool)
    ensures ok <==> password == data.config.startPassword
  {
    data.config.startPassword == password
  }

  /** Both backends answer the gate check alike. */
  lemma GateAgrees(data: AppState, password: string)
    ensures CheckStartPassword(data, password) <==> Worker.InitStatus(data, password) == 200
  {
  }

  /**
   `login`: the first user whose username and password both equal the given
   ones has its tracking fields rewritten (the values are drawn at random in
   the source and are a parameter here); `None` is the `null` answer, with no write.
   */
  function Login(data: AppState, username: string, password: string, t: Tracking): (r: Option<(AppState, User)>)
    ensures r.None? <==> NoLoginMatch(data.users, username, Some(password))
    ensures r.Some? ==>
      && r.value.0.sessions == data.sessions && r.value.0.config == data.config
      && exists i :: FirstLoginMatch(data.users, username, Some(password), i)
           && r.value.0.users == data.users[i := r.value.1]
           && SameAccount(r.value.1, data.users[i]) && TrackedAs(r.value.1, t)
  {
    match FindLogin(data.users, username, Some(password))
    case None => None
    case Some(i) =>
      var u := Touch(data.users[i], t);
      Some((data.(users := data.users[i := u]), u))
  }

  /** `saveUser`: an existing id is replaced at the same index by the record as sent, a new id is appended. */
  function SaveUser(data: AppState, user: User): (r: AppState)
    ensures r.sessions == data.sessions && r.config == data.config
    ensures forall i :: IsFirst(data.users, UserId, user.id, i) ==> r.users == data.users[i := user]
    ensures Absent(data.users, UserId, user.id) ==> r.users == data.users + [user]
  {
    data.(users := Upsert(data.users, UserId, user, Overwrite))
  }

  /**
   Unlike the worker, the browser backend does not carry the stored tracking
   fields over: for an id already stored, the two agree exactly when the
   record sent already carries the stored tracking fields.
   */
  lemma SaveUserAgreesWhenTracked(data: AppState, user: User, i: nat)
    requires IsFirst(data.users, UserId, user.id, i)
    ensures SaveUser(data, user) == Worker.SaveUser(data, user).0 <==>
      && user.ip == data.users[i].ip && user.location == data.users[i].location
      && user.lastSeen == data.users[i].lastSeen
  {
    var w := Worker.SaveUser(data, user);
    if SaveUser(data, user) == w.0 {
      assert SaveUser(data, user).users[i] == user;
      assert w.0.users[i] == w.1;
    }
  }

  /** For an id not stored yet, both backends append the record as sent. */
  lemma SaveUserAgreesWhenNew(data: AppState, user: User)
    requires Absent(data.users, UserId, user.id)
    ensures SaveUser(data, user) == Worker.SaveUser(data, user).0
  {
  }

  /**
   `deleteUser`: every user with the id is removed; sessions are not touched.
   The kept users stay in their original order: that is `RemoveKeyAppend`,
   not this contract.
   */
  function DeleteUser(data: AppState, userId: string): (r: AppState)
    ensures r.sessions == data.sessions && r.config == data.config
    ensures Absent(r.users, UserId, userId)
    ensures forall k :: 0 <= k < |r.users| ==> r.users[k] in data.users
    ensures forall k :: 0 <= k < |data.users| && data.users[k].id != userId ==> data.users[k] in r.users
  {
    data.(users := RemoveKey(data.users, UserId, userId))
  }

  /** There is no last-administrator guard: deleting the bootstrap administrator leaves no user at all. */
  lemma DeleteLastAdmin(bootTime: int)
    ensures DeleteUser(DefaultState(bootTime), "admin-1").users == []
  {
    assert DefaultState(bootTime).users[1..] == [];
  }

  /** `saveSession`: an existing id is replaced at the same index, a new id is appended. */
  function SaveSession(data: AppState, session: Session): (r: AppState)
    ensures r.users == data.users && r.config == data.config
    ensures forall i :: IsFirst(data.sessions, SessionId, session.id, i) ==> r.sessions == data.sessions[i := session]
    ensures Absent(data.sessions, SessionId, session.id) ==> r.sessions == data.sessions + [session]
  {
    data.(sessions := Upsert(data.sessions, SessionId, session, Overwrite))
  }

  /**
   `deleteSession`: every session with the id is removed; users are not
   touched. The kept sessions stay in their original order: that is
   `RemoveKeyAppend`, not this contract.
   */
  function DeleteSession(data: AppState, sessionId: string): (r: AppState)
    ensures r.users == data.users && r.config == data.config
    ensures Absent(r.sessions, SessionId, sessionId)
    ensures forall k :: 0 <= k < |r.sessions| ==> r.sessions[k] in data.sessions
    ensures forall k :: 0 <= k < |data.sessions| && data.sessions[k].id != sessionId ==> data.sessions[k] in r.sessions
  {
    data.(sessions := RemoveKey(data.sessions, SessionId, sessionId))
  }

  /**
   `submitVote`: `None` is `false` with no write. Refused when the session or
   the user is unknown, the quota is used up, the user is not listed, the
   session is inactive, or the option is unknown (checked in that order);
   otherwise the vote is recorded and the document written.
   */
  function SubmitVote(data: AppState, sessionId: string, optionId: string, userId: string): (r: Option<AppState>)
    ensures Absent(data.users, UserId, userId) ==> r.None?
    ensures (forall i :: IsFirst(data.sessions, SessionId, sessionId, i) ==> !data.sessions[i].isActive) ==> r.None?
    ensures forall i :: IsFirst(data.sessions, SessionId, sessionId, i) ==>
      (Used(data.sessions[i], userId) >= data.sessions[i].votesPerUser || userId !in data.sessions[i].allowedUserIds) ==> r.None?
    ensures r.Some? <==> Worker.Vote(data, sessionId, optionId, userId).Ok? && !Absent(data.users, UserId, userId)
    ensures r.Some? ==> r.value == Worker.Vote(data, sessionId, optionId, userId).value
  {
    match (IndexOf(data.sessions, SessionId, sessionId), IndexOf(data.users, UserId, userId))
    case (None, _) => None
    case (_, None) => None
    case (Some(i), Some(_)) =>
      var ses := data.sessions[i];
      var used := Used(ses, userId);
      if used >= ses.votesPerUser then None
      else if userId !in ses.allowedUserIds then None
      else if !ses.isActive then None
      else
        match IndexOf(ses.options, OptionId, optionId)
        case None => None
        case Some(j) =>
          Some(data.(sessions := data.sessions[i := Worker.RecordVote(ses, j, userId)]))
  }
}
