/**
 The request handlers of worker.js, one request as one state transition over
 the loaded document. A handler's `Err` result means "respond with an error
 and do not write"; an `Ok` result is the document it writes back.
 */
module Worker {
  import opened Basics
  import opened KeyedSeq
  import opened AppModel

  /** `getData`: the stored document, or the default one when the `data` key is absent (not written back). */
  function GetData(stored: Option<AppState>, bootTime: int): (s: AppState)
    ensures stored.Some? ==> s == stored.value
    ensures stored.None? ==>
      && |s.users| == 1 && s.users[0].id == "admin-1" && s.users[0].username == "admin"
      && s.users[0].role == Admin && s.users[0].password == Some("12345")
      && s.sessions == [] && s.config.startPassword == "secure-start"
  {
    match stored
    case Some(data) => data
    case None => DefaultState(bootTime)
  }

  /** The store after a handler ran: the written document on success, the old one otherwise. */
  function Persist<E>(stored: AppState, r: Result<AppState, E>): AppState {
    if r.Ok? then r.value else stored
  }

  // --- /api/init ---

  /** The gate check: 200 exactly when the password is the configured start password, otherwise 401. */
  function InitStatus(data: AppState, password: string): (status: int)
    ensures status == 200 || status == 401
    ensures status == 200 <==> password == data.config.startPassword
  {
    if password == data.config.startPassword then 200 else 401
  }

  /** The gate answer depends on the configuration only, never on which users or sessions exist. */
  lemma InitIgnoresAccounts(a: AppState, b: AppState, password: string)
    requires a.config == b.config
    ensures InitStatus(a, password) == InitStatus(b, password)
  {
  }

  // --- /api/login ---

  /**
   The worker's tracking values: the `CF-Connecting-IP` header (absent or empty
   gives "未知"), "city, country" from the edge metadata when present, and the clock.
   */
  function RequestTracking(connectingIp: Option<string>, cf: Option<(string, string)>, now: int): (t: Tracking)
    ensures connectingIp.Some? && connectingIp.value != "" ==> t.ip == connectingIp.value
    ensures (connectingIp.None? || connectingIp.value == "") ==> t.ip == "未知"
    ensures cf.None? ==> t.location == "未知"
    ensures cf.Some? ==> t.location == cf.value.0 + ", " + cf.value.1
    ensures t.lastSeen == now
  {
    Tracking(
      if connectingIp.Some? && connectingIp.value != "" then connectingIp.value else "未知",
      match cf
      case Some((city, country)) => city + ", " + country
      case None => "未知",
      now)
  }

  /**
   `/api/login`: the first user whose username and password both equal the
   request's (an absent password matches only an absent password) gets its
   tracking fields rewritten; the document is written and that user returned.
   `None` is the 401 answer, with no write.
   */
  function Login(data: AppState, username: string, password: Option<string>, t: Tracking): (r: Option<(AppState, User)>)
    ensures r.None? <==> NoLoginMatch(data.users, username, password)
    ensures r.Some? ==>
      && r.value.0.sessions == data.sessions && r.value.0.config == data.config
      && exists i :: FirstLoginMatch(data.users, username, password, i)
           && r.value.0.users == data.users[i := r.value.1]
           && SameAccount(r.value.1, data.users[i]) && TrackedAs(r.value.1, t)
  {
    match FindLogin(data.users, username, password)
    case None => None
    case Some(i) =>
      var u := Touch(data.users[i], t);
      Some((data.(users := data.users[i := u]), u))
  }

  /**
   With `===` on an absent password, a stored user without a password is
   selected by a request that leaves the password out.
   */
  lemma LoginWithoutPassword(t: Tracking)
    ensures var guest := User("u-1", "guest", None, Voter, 1, None, None, None, None);
      Login(AppState([guest], [], Config(DefaultStartPassword)), "guest", None, t).Some?
  {
    var guest := User("u-1", "guest", None, Voter, 1, None, None, None, None);
    assert LoginMatches(guest, "guest", None);
  }

  /** Login as evidently intended: an absent password never authenticates; otherwise as `Login`. */
  function LoginRequiringPassword(data: AppState, username: string, password: Option<string>, t: Tracking): (r: Option<(AppState, User)>)
    ensures password.None? ==> r.None?
    ensures password.Some? ==> r == Login(data, username, password, t)
    ensures r.Some? ==> password.Some? && r.value.1.password == password && r.value.1.username == username
  {
    if password.None? then None else Login(data, username, password, t)
  }

  // --- /api/user ---

  /** The incoming record with the stored record's tracking fields. */
  function KeepTracking(stored: User, incoming: User): User {
    incoming.(ip := stored.ip, location := stored.location, lastSeen := stored.lastSeen)
  }

  /**
   `/api/user`: an existing id is replaced in place by the incoming record,
   which keeps the stored `ip`/`location`/`lastSeen`; a new id is appended.
   Returns the written document and the record sent back.
   */
  function SaveUser(data: AppState, user: User): (r: (AppState, User))
    ensures r.0.sessions == data.sessions && r.0.config == data.config
    ensures |data.users| <= |r.0.users| <= |data.users| + 1
    ensures forall i :: IsFirst(data.users, UserId, user.id, i) ==>
      && r.0.users == data.users[i := r.1]
      && SameAccount(r.1, user)
      && r.1.ip == data.users[i].ip && r.1.location == data.users[i].location
      && r.1.lastSeen == data.users[i].lastSeen
    ensures Absent(data.users, UserId, user.id) ==> r.0.users == data.users + [user] && r.1 == user
  {
    var users := Upsert(data.users, UserId, user, KeepTracking);
    UpsertShape(data.users, UserId, user, KeepTracking);
    var reply := match IndexOf(data.users, UserId, user.id)
      case Some(i) => KeepTracking(data.users[i], user)
      case None => user;
    assert forall i :: IsFirst(data.users, UserId, user.id, i) ==> reply == KeepTracking(data.users[i], user) by {
      forall i | IsFirst(data.users, UserId, user.id, i)
        ensures reply == KeepTracking(data.users[i], user)
      {
        FirstUnique(data.users, UserId, user.id, i, IndexOf(data.users, UserId, user.id).value);
      }
    }
    (data.(users := users), reply)
  }

  // --- /api/session ---

  /** `/api/session`: an existing id is replaced in place, a new id is appended; nothing else changes. */
  function SaveSession(data: AppState, session: Session): (r: AppState)
    ensures r.users == data.users && r.config == data.config
    ensures |data.sessions| <= |r.sessions| <= |data.sessions| + 1
    ensures forall i :: IsFirst(data.sessions, SessionId, session.id, i) ==> r.sessions == data.sessions[i := session]
    ensures Absent(data.sessions, SessionId, session.id) ==> r.sessions == data.sessions + [session]
  {
    UpsertShape(data.sessions, SessionId, session, Overwrite);
    data.(sessions := Upsert(data.sessions, SessionId, session, Overwrite))
  }

  // --- /api/vote ---

  /** Why a vote was refused. A missing session and an inactive one are the same answer. */
  datatype VoteError = SessionUnavailable | NotAllowed | QuotaExceeded | OptionNotFound

  /** The HTTP status of each refusal. */
  function Status(e: VoteError): (code: int)
    ensures code == 403 <==> e == NotAllowed
    ensures code == 400 <==> e != NotAllowed
  {
    match e
    case NotAllowed => 403
    case _ => 400
  }

  /** Session `i` is the one `sessionId` resolves to, and it is active. */
  ghost predicate Open(data: AppState, sessionId: string, i: int) {
    IsFirst(data.sessions, SessionId, sessionId, i) && data.sessions[i].isActive
  }

  /** Session `i` is open and `userId` is listed and still has quota in it. */
  ghost predicate Eligible(data: AppState, sessionId: string, userId: string, i: int) {
    && Open(data, sessionId, i)
    && userId in data.sessions[i].allowedUserIds
    && Used(data.sessions[i], userId) < data.sessions[i].votesPerUser
  }

  /**
   `data'` is `data` with one vote by `u` recorded against option `j` of
   session `i`: that option's count and `u`'s consumption each rise by one, and
   nothing else in the document changes.
   */
  ghost predicate OneVote(data: AppState, data': AppState, i: nat, j: nat, u: string)
    requires i < |data.sessions| && j < |data.sessions[i].options|
  {
    var a := data.sessions[i];
    && data'.users == data.users && data'.config == data.config
    && |data'.sessions| == |data.sessions|
    && (forall k :: 0 <= k < |data.sessions| && k != i ==> data'.sessions[k] == data.sessions[k])
    && var b := data'.sessions[i];
    && b.id == a.id && b.title == a.title && b.allowedUserIds == a.allowedUserIds
    && b.votesPerUser == a.votesPerUser && b.isActive == a.isActive && b.createdAt == a.createdAt
    && |b.options| == |a.options|
    && (forall k :: 0 <= k < |a.options| && k != j ==> b.options[k] == a.options[k])
    && b.options[j] == a.options[j].(count := a.options[j].count + 1)
    && b.userVotes == a.userVotes[u := Used(a, u) + 1]
  }

  /** Session `ses` with one more vote for option `j` by `userId`. */
  function RecordVote(ses: Session, j: nat, userId: string): (r: Session)
    requires j < |ses.options|
    ensures |r.options| == |ses.options|
    ensures r.options[j].count == ses.options[j].count + 1
    ensures r.options[j].id == ses.options[j].id && r.options[j].text == ses.options[j].text
    ensures forall k :: 0 <= k < |ses.options| && k != j ==> r.options[k] == ses.options[k]
    ensures Used(r, userId) == Used(ses, userId) + 1
    ensures r.userVotes.Keys == ses.userVotes.Keys + {userId}
    ensures forall u :: u in ses.userVotes && u != userId ==> r.userVotes[u] == ses.userVotes[u]
    ensures r.id == ses.id && r.title == ses.title && r.allowedUserIds == ses.allowedUserIds
    ensures r.votesPerUser == ses.votesPerUser && r.isActive == ses.isActive && r.createdAt == ses.createdAt
  {
    ses.(options := ses.options[j := ses.options[j].(count := ses.options[j].count + 1)],
         userVotes := ses.userVotes[userId := Used(ses, userId) + 1])
  }

  /**
   `/api/vote`. The checks run in the order of the handler: the session must
   exist and be active, the user must be listed, the user must have quota
   left, and the option must exist. Only then is the vote recorded.
   */
  function Vote(data: AppState, sessionId: string, optionId: string, userId: string): (r: Result<AppState, VoteError>)
    ensures r == Err(SessionUnavailable) <==> forall i :: IsFirst(data.sessions, SessionId, sessionId, i) ==> !data.sessions[i].isActive
    ensures r == Err(NotAllowed) <==> exists i :: Open(data, sessionId, i) && userId !in data.sessions[i].allowedUserIds
    ensures r == Err(QuotaExceeded) <==>
      exists i :: Open(data, sessionId, i) && userId in data.sessions[i].allowedUserIds
        && Used(data.sessions[i], userId) >= data.sessions[i].votesPerUser
    ensures r == Err(OptionNotFound) <==>
      exists i :: Eligible(data, sessionId, userId, i) && Absent(data.sessions[i].options, OptionId, optionId)
    ensures r.Ok? <==>
      exists i :: Eligible(data, sessionId, userId, i) && !Absent(data.sessions[i].options, OptionId, optionId)
    ensures forall i, j :: Eligible(data, sessionId, userId, i) && IsFirst(data.sessions[i].options, OptionId, optionId, j) ==>
      r.Ok? && OneVote(data, r.value, i, j, userId)
  {
    match IndexOf(data.sessions, SessionId, sessionId)
    case None => Err(SessionUnavailable)
    case Some(i) =>
      assert forall i' :: IsFirst(data.sessions, SessionId, sessionId, i') ==> i' == i by {
        forall i' | IsFirst(data.sessions, SessionId, sessionId, i') {
          FirstUnique(data.sessions, SessionId, sessionId, i, i');
        }
      }
      var ses := data.sessions[i];
      if !ses.isActive then Err(SessionUnavailable)
      else if userId !in ses.allowedUserIds then Err(NotAllowed)
      else if Used(ses, userId) >= ses.votesPerUser then Err(QuotaExceeded)
      else
        match IndexOf(ses.options, OptionId, optionId)
        case None => Err(OptionNotFound)
        case Some(j) =>
          assert forall j' :: IsFirst(ses.options, OptionId, optionId, j') ==> j' == j by {
            forall j' | IsFirst(ses.options, OptionId, optionId, j') {
              FirstUnique(ses.options, OptionId, optionId, j, j');
            }
          }
          Ok(data.(sessions := data.sessions[i := RecordVote(ses, j, userId)]))
  }

  /** The session and option positions a successful vote was recorded at. */
  lemma VoteApplied(data: AppState, sessionId: string, optionId: string, userId: string) returns (i: nat, j: nat)
    requires Vote(data, sessionId, optionId, userId).Ok?
    ensures Eligible(data, sessionId, userId, i)
    ensures IsFirst(data.sessions[i].options, OptionId, optionId, j)
    ensures OneVote(data, Vote(data, sessionId, optionId, userId).value, i, j, userId)
  {
    var i' :| Eligible(data, sessionId, userId, i') && !Absent(data.sessions[i'].options, OptionId, optionId);
    i := i';
    j := IndexOf(data.sessions[i].options, OptionId, optionId).value;
  }

  /** A vote leaves every session id in place, so every session resolves to the same position. */
  lemma VoteKeepsIds(data: AppState, sessionId: string, optionId: string, userId: string, sid: string, k: int)
    requires Vote(data, sessionId, optionId, userId).Ok?
    ensures IsFirst(data.sessions, SessionId, sid, k) <==>
            IsFirst(Vote(data, sessionId, optionId, userId).value.sessions, SessionId, sid, k)
  {
    var i, j := VoteApplied(data, sessionId, optionId, userId);
    var d' := Vote(data, sessionId, optionId, userId).value;
    assert forall m :: 0 <= m < |data.sessions| ==> d'.sessions[m].id == data.sessions[m].id;
  }

  /**
   The quota is never exceeded: a successful vote leaves the voter at most at
   the session's allowance, and if no session was over quota before, none is after.
   */
  lemma VoteKeepsQuota(data: AppState, sessionId: string, optionId: string, userId: string)
    ensures var r := Vote(data, sessionId, optionId, userId);
      r.Ok? ==> forall i :: IsFirst(data.sessions, SessionId, sessionId, i) ==>
        Used(r.value.sessions[i], userId) <= r.value.sessions[i].votesPerUser
    ensures var r := Vote(data, sessionId, optionId, userId);
      r.Ok? && (forall k :: 0 <= k < |data.sessions| ==> WithinQuota(data.sessions[k])) ==>
        forall k :: 0 <= k < |r.value.sessions| ==> WithinQuota(r.value.sessions[k])
  {
    var r := Vote(data, sessionId, optionId, userId);
    if r.Ok? {
      var i, j := VoteApplied(data, sessionId, optionId, userId);
      forall i' | IsFirst(data.sessions, SessionId, sessionId, i')
        ensures Used(r.value.sessions[i'], userId) <= r.value.sessions[i'].votesPerUser
      {
        FirstUnique(data.sessions, SessionId, sessionId, i, i');
      }
    }
  }

  /**
   A successful vote raises the option total and the consumption total of the
   voted session by exactly one each, so a balanced ledger stays balanced.
   */
  lemma VoteKeepsBalance(data: AppState, sessionId: string, optionId: string, userId: string)
    ensures var r := Vote(data, sessionId, optionId, userId);
      r.Ok? ==> forall i :: IsFirst(data.sessions, SessionId, sessionId, i) ==>
        && SumCounts(r.value.sessions[i].options) == SumCounts(data.sessions[i].options) + 1
        && SumVotes(r.value.sessions[i].userVotes) == SumVotes(data.sessions[i].userVotes) + 1
    ensures var r := Vote(data, sessionId, optionId, userId);
      r.Ok? && (forall k :: 0 <= k < |data.sessions| ==> Balanced(data.sessions[k])) ==>
        forall k :: 0 <= k < |r.value.sessions| ==> Balanced(r.value.sessions[k])
  {
    var r := Vote(data, sessionId, optionId, userId);
    if r.Ok? {
      var i, j := VoteApplied(data, sessionId, optionId, userId);
      var a, b := data.sessions[i], r.value.sessions[i];
      assert b.options == a.options[j := a.options[j].(count := a.options[j].count + 1)];
      SumCountsBump(a.options, j);
      SumVotesUpdate(a.userVotes, userId, Used(a, userId) + 1);
      forall i' | IsFirst(data.sessions, SessionId, sessionId, i')
        ensures SumCounts(r.value.sessions[i'].options) == SumCounts(data.sessions[i'].options) + 1
        ensures SumVotes(r.value.sessions[i'].userVotes) == SumVotes(data.sessions[i'].userVotes) + 1
      {
        FirstUnique(data.sessions, SessionId, sessionId, i, i');
      }
    }
  }

  /** One `/api/vote` request body. */
  datatype VoteRequest = VoteRequest(sessionId: string, optionId: string, userId: string)

  /**
   Requests served one after another, each a complete read-modify-write of the
   document: the final document and the number of requests answered with success.
   */
  function Replay(data: AppState, reqs: seq<VoteRequest>): (AppState, nat)
    decreases |reqs|
  {
    if |reqs| == 0 then (data, 0)
    else
      var r := Vote(data, reqs[0].sessionId, reqs[0].optionId, reqs[0].userId);
      var (last, n) := Replay(Persist(data, r), reqs[1..]);
      (last, n + if r.Ok? then 1 else 0)
  }

  /**
   Served one at a time, requests by one user in one session succeed at most
   as often as that user's remaining quota, and each success is recorded.
   */
  lemma {:induction false} ReplayQuota(data: AppState, reqs: seq<VoteRequest>, sid: string, u: string, i: nat)
    requires IsFirst(data.sessions, SessionId, sid, i)
    requires forall k :: 0 <= k < |reqs| ==> reqs[k].sessionId == sid && reqs[k].userId == u
    ensures var (last, n) := Replay(data, reqs);
      && IsFirst(last.sessions, SessionId, sid, i)
      && last.sessions[i].votesPerUser == data.sessions[i].votesPerUser
      && Used(last.sessions[i], u) == Used(data.sessions[i], u) + n
      && (n == 0 || Used(data.sessions[i], u) + n <= data.sessions[i].votesPerUser)
    decreases |reqs|
  {
    if |reqs| > 0 {
      var q := reqs[0];
      var r := Vote(data, q.sessionId, q.optionId, q.userId);
      var next := Persist(data, r);
      if r.Ok? {
        var i', j := VoteApplied(data, q.sessionId, q.optionId, q.userId);
        FirstUnique(data.sessions, SessionId, sid, i, i');
        VoteKeepsIds(data, q.sessionId, q.optionId, q.userId, sid, i);
      }
      ReplayQuota(next, reqs[1..], sid, u, i);
    }
  }

  /**
   Served one at a time, requests to one session raise its option total and
   its consumption total by exactly the number of successes, and leave every
   other session as it was.
   */
  lemma {:induction false} ReplayTally(data: AppState, reqs: seq<VoteRequest>, sid: string, i: nat)
    requires IsFirst(data.sessions, SessionId, sid, i)
    requires forall k :: 0 <= k < |reqs| ==> reqs[k].sessionId == sid
    ensures var (last, n) := Replay(data, reqs);
      && IsFirst(last.sessions, SessionId, sid, i)
      && SumCounts(last.sessions[i].options) == SumCounts(data.sessions[i].options) + n
      && SumVotes(last.sessions[i].userVotes) == SumVotes(data.sessions[i].userVotes) + n
      && |last.sessions| == |data.sessions|
      && forall k :: 0 <= k < |data.sessions| && k != i ==> last.sessions[k] == data.sessions[k]
    decreases |reqs|
  {
    if |reqs| > 0 {
      var q := reqs[0];
      var r := Vote(data, q.sessionId, q.optionId, q.userId);
      var next := Persist(data, r);
      if r.Ok? {
        var i', j := VoteApplied(data, q.sessionId, q.optionId, q.userId);
        FirstUnique(data.sessions, SessionId, sid, i, i');
        VoteKeepsIds(data, q.sessionId, q.optionId, q.userId, sid, i);
        VoteKeepsBalance(data, q.sessionId, q.optionId, q.userId);
      }
      ReplayTally(next, reqs[1..], sid, i);
    }
  }

  /**
   The lost update of the unsynchronised read-modify-write: two requests that
   both read the same document both succeed, but the second write replaces the
   first, so the stored tally of the session rises by one, not two.
   */
  lemma LostUpdate(data: AppState, a: VoteRequest, b: VoteRequest, i: nat)
    requires IsFirst(data.sessions, SessionId, a.sessionId, i) && b.sessionId == a.sessionId
    requires Vote(data, a.sessionId, a.optionId, a.userId).Ok?
    requires Vote(data, b.sessionId, b.optionId, b.userId).Ok?
    ensures var afterA := Persist(data, Vote(data, a.sessionId, a.optionId, a.userId));
      var afterB := Persist(afterA, Vote(data, b.sessionId, b.optionId, b.userId));
      SumCounts(afterB.sessions[i].options) == SumCounts(data.sessions[i].options) + 1
  {
    VoteKeepsBalance(data, b.sessionId, b.optionId, b.userId);
  }
}
