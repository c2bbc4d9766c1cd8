/**
 The persisted application document: users, voting sessions with their
 options and per-user consumption, and the shared gate password. The shapes
 follow types.ts; the bootstrap values follow constants.ts and worker.js.
 */
module AppModel {
  import opened Basics

  /** `'admin' | 'user'`. */
  datatype Role = Admin | Voter

  /**
   A user account. The credential, the tracking fields (`ip`, `location`,
   `lastSeen`) and `isBlocked` are optional in the stored document.
   */
  datatype User = User(
    id: string,
    username: string,
    password: Option<string>,
    role: Role,
    votesAllowed: int,
    ip: Option<string>,
    location: Option<string>,
    lastSeen: Option<int>,
    isBlocked: Option<bool>)

  /** One choice of a session with its running tally. */
  datatype VoteOption = VoteOption(id: string, text: string, count: nat)

  /** A voting session; `userVotes` maps a user id to the votes that user has consumed here. */
  datatype Session = Session(
    id: string,
    title: string,
    options: seq<VoteOption>,
    allowedUserIds: seq<string>,
    votesPerUser: int,
    isActive: bool,
    userVotes: map<string, nat>,
    createdAt: int)

  datatype Config = Config(startPassword: string)

  /** The whole document, stored and replaced as one unit. */
  datatype AppState = AppState(users: seq<User>, sessions: seq<Session>, config: Config)

  /** Keys under which the three record lists are searched. */
  function UserId(u: User): string { u.id }
  function SessionId(s: Session): string { s.id }
  function OptionId(o: VoteOption): string { o.id }

  const DefaultStartPassword: string := "secure-start"

  /** The bootstrap administrator; `bootTime` is the `Date.now()` read when the module was loaded. */
  function DefaultAdmin(bootTime: int): (u: User)
    ensures u.id == "admin-1" && u.username == "admin" && u.password == Some("12345")
    ensures u.role == Admin && u.votesAllowed == 10
    ensures u.ip == Some("127.0.0.1") && u.location == Some("系統控制台") && u.lastSeen == Some(bootTime)
  {
    User("admin-1", "admin", Some("12345"), Admin, 10,
         Some("127.0.0.1"), Some("系統控制台"), Some(bootTime), None)
  }

  /** The document used when nothing is stored yet: one administrator, no sessions. */
  function DefaultState(bootTime: int): (s: AppState)
    ensures s.users == [DefaultAdmin(bootTime)] && s.users[0].role == Admin
    ensures FirstLoginMatch(s.users, "admin", Some("12345"), 0)
    ensures s.sessions == [] && s.config.startPassword == "secure-start"
  {
    AppState([DefaultAdmin(bootTime)], [], Config(DefaultStartPassword))
  }

  /** Votes `userId` has consumed in `s`; a missing entry counts as zero (`userVotes[userId] || 0`). */
  function Used(s: Session, userId: string): (n: nat)
    ensures userId in s.userVotes ==> n == s.userVotes[userId]
    ensures userId !in s.userVotes ==> n == 0
  {
    if userId in s.userVotes then s.userVotes[userId] else 0
  }

  /** `u` is the account a login with these credentials selects (`===` on both; absent equals only absent). */
  predicate LoginMatches(u: User, username: string, password: Option<string>) {
    u.username == username && u.password == password
  }

  /** `i` is the first user matching the credentials. */
  ghost predicate FirstLoginMatch(users: seq<User>, username: string, password: Option<string>, i: int) {
    && 0 <= i < |users|
    && LoginMatches(users[i], username, password)
    && forall j :: 0 <= j < i ==> !LoginMatches(users[j], username, password)
  }

  /** No user matches the credentials. */
  ghost predicate NoLoginMatch(users: seq<User>, username: string, password: Option<string>) {
    forall j :: 0 <= j < |users| ==> !LoginMatches(users[j], username, password)
  }

  /** `users.find(u => u.username === username && u.password === password)`, as a position. */
  function FindLogin(users: seq<User>, username: string, password: Option<string>): (r: Option<nat>)
    ensures r.Some? ==> FirstLoginMatch(users, username, password, r.value)
    ensures r.None? <==> NoLoginMatch(users, username, password)
  {
    if |users| == 0 then None
    else if LoginMatches(users[0], username, password) then Some(0)
    else
      match FindLogin(users[1..], username, password)
      case None => None
      case Some(i) => Some(i + 1)
  }

  /** The values a login records about the client. */
  datatype Tracking = Tracking(ip: string, location: string, lastSeen: int)

  /** `a` and `b` are the same account: they differ at most in the tracking fields. */
  ghost predicate SameAccount(a: User, b: User) {
    && a.id == b.id && a.username == b.username && a.password == b.password
    && a.role == b.role && a.votesAllowed == b.votesAllowed && a.isBlocked == b.isBlocked
  }

  /** `u` carries exactly the tracking values `t`. */
  ghost predicate TrackedAs(u: User, t: Tracking) {
    u.ip == Some(t.ip) && u.location == Some(t.location) && u.lastSeen == Some(t.lastSeen)
  }

  /** The record of `u` after a login that recorded `t`. */
  function Touch(u: User, t: Tracking): User {
    u.(ip := Some(t.ip), location := Some(t.location), lastSeen := Some(t.lastSeen))
  }

  /** Total of the option tallies of a session. */
  function SumCounts(opts: seq<VoteOption>): nat {
    if |opts| == 0 then 0 else opts[0].count + SumCounts(opts[1..])
  }

  /** Total of the values of `m` over the keys `ks`. */
  ghost function SumOver(m: map<string, nat>, ks: set<string>): nat
    requires ks <= m.Keys
    decreases ks
  {
    if ks == {} then 0 else var k :| k in ks; m[k] + SumOver(m, ks - {k})
  }

  /** Total number of votes consumed by all users of a session. */
  ghost function SumVotes(m: map<string, nat>): nat {
    SumOver(m, m.Keys)
  }

  /** The tallies account for exactly the consumed votes. */
  ghost predicate Balanced(s: Session) {
    SumCounts(s.options) == SumVotes(s.userVotes)
  }

  /** No user has consumed more than the session allows. */
  ghost predicate WithinQuota(s: Session) {
    forall u :: u in s.userVotes ==> s.userVotes[u] <= s.votesPerUser
  }

  /** The sum over a key set may be split at any of its keys, whichever the definition picked first. */
  lemma SumOverRemove(m: map<string, nat>, ks: set<string>, k: string)
    requires ks <= m.Keys && k in ks
    ensures SumOver(m, ks) == m[k] + SumOver(m, ks - {k})
    decreases ks
  {
    var j :| j in ks && SumOver(m, ks) == m[j] + SumOver(m, ks - {j});
    if j != k {
      SumOverRemove(m, ks - {j}, k);
      SumOverRemove(m, ks - {k}, j);
      assert ks - {j} - {k} == ks - {k} - {j};
    }
  }

  /** The sum only depends on the values at the keys summed over. */
  lemma SumOverFrame(m: map<string, nat>, m': map<string, nat>, ks: set<string>)
    requires ks <= m.Keys && ks <= m'.Keys
    requires forall k :: k in ks ==> m[k] == m'[k]
    ensures SumOver(m, ks) == SumOver(m', ks)
    decreases ks
  {
    if ks != {} {
      var k :| k in ks;
      SumOverRemove(m, ks, k);
      SumOverRemove(m', ks, k);
      SumOverFrame(m, m', ks - {k});
    }
  }

  /** Setting one user's consumption to `v` moves the total by `v` minus that user's previous value. */
  lemma SumVotesUpdate(m: map<string, nat>, u: string, v: nat)
    ensures SumVotes(m[u := v]) + (if u in m then m[u] else 0) == SumVotes(m) + v
  {
    var m' := m[u := v];
    if u in m {
      assert m'.Keys == m.Keys;
      SumOverRemove(m', m'.Keys, u);
      SumOverRemove(m, m.Keys, u);
      SumOverFrame(m, m', m.Keys - {u});
    } else {
      assert m'.Keys - {u} == m.Keys;
      SumOverRemove(m', m'.Keys, u);
      SumOverFrame(m, m', m.Keys);
    }
  }

  /** Adding one to the tally of option `j` adds one to the session total. */
  lemma {:induction false} SumCountsBump(opts: seq<VoteOption>, j: nat)
    requires j < |opts|
    ensures SumCounts(opts[j := opts[j].(count := opts[j].count + 1)]) == SumCounts(opts) + 1
    decreases j
  {
    var bumped := opts[j := opts[j].(count := opts[j].count + 1)];
    if j == 0 {
      assert bumped[1..] == opts[1..];
    } else {
      SumCountsBump(opts[1..], j - 1);
      assert bumped[1..] == opts[1..][j - 1 := opts[1..][j - 1].(count := opts[1..][j - 1].count + 1)];
    }
  }
}
