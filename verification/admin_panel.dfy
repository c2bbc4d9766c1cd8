/**
 The pure editing helpers of the administrator panel: turning a partially
 filled form into a stored record, and editing a session's option list and
 eligible users. Form fields that may be left unset are `Option`s; the
 source's `x || d` treats an empty string and the number 0 as unset, while
 `x ?? d` treats only a missing value as unset.
 */
module AdminPanel {
  import opened Basics
  import opened AppModel

  /** A user form (`Partial<User>`). */
  datatype UserDraft = UserDraft(
    id: Option<string>,
    username: Option<string>,
    password: Option<string>,
    role: Option<Role>,
    votesAllowed: Option<int>,
    ip: Option<string>,
    location: Option<string>,
    lastSeen: Option<int>,
    isBlocked: Option<bool>)

  /** A session form (`Partial<Session>`). */
  datatype SessionDraft = SessionDraft(
    id: Option<string>,
    title: Option<string>,
    options: Option<seq<VoteOption>>,
    allowedUserIds: Option<seq<string>>,
    votesPerUser: Option<int>,
    isActive: Option<bool>,
    userVotes: Option<map<string, nat>>,
    createdAt: Option<int>)

  /** A string field is set when present and non-empty. */
  predicate Filled(v: Option<string>) {
    v.Some? && v.value != ""
  }

  /** `v || d` on a string field. */
  function OrText(v: Option<string>, d: string): string {
    if Filled(v) then v.value else d
  }

  /** A number field is set when present and non-zero. */
  predicate Given(v: Option<int>) {
    v.Some? && v.value != 0
  }

  /** `v || d` on a number field: 0 counts as unset. */
  function OrNumber(v: Option<int>, d: int): int {
    if Given(v) then v.value else d
  }

  /**
   `handleSaveUser`: nothing happens without a username. Otherwise the record
   takes the form's values, with a fresh id, password "12345", role user and
   an allowance of 1 for unset fields; the tracking fields are copied as they
   are and `isBlocked` is dropped.
   */
  function BuildUser(d: UserDraft, freshId: string): (r: Option<User>)
    ensures r.None? <==> !Filled(d.username)
    ensures r.Some? ==> var u := r.value;
      && u.username == d.username.value
      && (Filled(d.id) ==> u.id == d.id.value) && (!Filled(d.id) ==> u.id == freshId)
      && (Filled(d.password) ==> u.password == d.password) && (!Filled(d.password) ==> u.password == Some("12345"))
      && (d.role.Some? ==> u.role == d.role.value) && (d.role.None? ==> u.role == Voter)
      && (Given(d.votesAllowed) ==> u.votesAllowed == d.votesAllowed.value) && (!Given(d.votesAllowed) ==> u.votesAllowed == 1)
      && u.ip == d.ip && u.location == d.location && u.lastSeen == d.lastSeen
      && u.isBlocked.None?
  {
    if !Filled(d.username) then None
    else
      Some(User(
        OrText(d.id, freshId),
        d.username.value,
        Some(OrText(d.password, "12345")),
        d.role.GetOr(Voter),
        OrNumber(d.votesAllowed, 1),
        d.ip, d.location, d.lastSeen,
        None))
  }

  /** The form the panel opens for an existing user. */
  function UserForm(u: User): UserDraft {
    UserDraft(Some(u.id), Some(u.username), u.password, Some(u.role), Some(u.votesAllowed),
              u.ip, u.location, u.lastSeen, u.isBlocked)
  }

  /**
   Opening a complete user record in the form and saving it unchanged gives
   back the same record; only a cleared `isBlocked` flag is lost.
   */
  lemma UserFormRoundTrip(u: User, freshId: string)
    requires u.id != "" && u.username != ""
    requires u.password.Some? && u.password.value != "" && u.votesAllowed != 0
    ensures BuildUser(UserForm(u), freshId) == Some(u.(isBlocked := None))
  {
  }

  /** The ids of `users`, in order (`users.map(u => u.id)`). */
  function AllIds(users: seq<User>): (ids: seq<string>)
    ensures |ids| == |users|
    ensures forall k :: 0 <= k < |users| ==> ids[k] == users[k].id
  {
    seq(|users|, k requires 0 <= k < |users| => users[k].id)
  }

  /**
   `handleSaveSession`: nothing happens without a title. Otherwise unset
   fields default to: a fresh id, active (only when the flag is missing, an
   explicit false is kept), one vote per user, every known user eligible, no
   options, no consumption, and creation time `now`.
   */
  function BuildSession(d: SessionDraft, users: seq<User>, freshId: string, now: int): (r: Option<Session>)
    ensures r.None? <==> !Filled(d.title)
    ensures r.Some? ==> var s := r.value;
      && s.title == d.title.value
      && (Filled(d.id) ==> s.id == d.id.value) && (!Filled(d.id) ==> s.id == freshId)
      && (d.isActive.Some? ==> s.isActive == d.isActive.value) && (d.isActive.None? ==> s.isActive)
      && (Given(d.votesPerUser) ==> s.votesPerUser == d.votesPerUser.value) && (!Given(d.votesPerUser) ==> s.votesPerUser == 1)
      && (d.allowedUserIds.Some? ==> s.allowedUserIds == d.allowedUserIds.value)
      && (d.allowedUserIds.None? ==> s.allowedUserIds == AllIds(users))
      && (d.options.Some? ==> s.options == d.options.value) && (d.options.None? ==> s.options == [])
      && (d.userVotes.Some? ==> s.userVotes == d.userVotes.value) && (d.userVotes.None? ==> s.userVotes == map[])
      && (Given(d.createdAt) ==> s.createdAt == d.createdAt.value) && (!Given(d.createdAt) ==> s.createdAt == now)
  {
    if !Filled(d.title) then None
    else
      Some(Session(
        OrText(d.id, freshId),
        d.title.value,
        d.options.GetOr([]),
        d.allowedUserIds.GetOr(AllIds(users)),
        OrNumber(d.votesPerUser, 1),
        d.isActive.GetOr(true),
        d.userVotes.GetOr(map[]),
        OrNumber(d.createdAt, now)))
  }

  /** The form the panel opens for an existing session. */
  function SessionForm(s: Session): SessionDraft {
    SessionDraft(Some(s.id), Some(s.title), Some(s.options), Some(s.allowedUserIds),
                 Some(s.votesPerUser), Some(s.isActive), Some(s.userVotes), Some(s.createdAt))
  }

  /**
   Opening a session in the form and saving it unchanged gives back the same
   record, its tallies and consumption included.
   */
  lemma SessionFormRoundTrip(s: Session, users: seq<User>, freshId: string, now: int)
    requires s.id != "" && s.title != "" && s.votesPerUser != 0 && s.createdAt != 0
    ensures BuildSession(SessionForm(s), users, freshId, now) == Some(s)
  {
  }

  /** The text a newly added option starts with. */
  const NewOptionText: string := "新選項"

  /** `addOptionToSession`: one option with a zero count is appended; nothing else in the form changes. */
  function AddOption(d: SessionDraft, freshId: string): (r: SessionDraft)
    ensures r.options.Some?
    ensures |r.options.value| == |d.options.GetOr([])| + 1
    ensures r.options.value[..|r.options.value| - 1] == d.options.GetOr([])
    ensures r.options.value[|r.options.value| - 1] == VoteOption(freshId, NewOptionText, 0)
    ensures r.(options := d.options) == d
  {
    d.(options := Some(d.options.GetOr([]) + [VoteOption(freshId, NewOptionText, 0)]))
  }

  /** Removing the option just added restores the form's option list. */
  lemma AddThenRemoveOption(d: SessionDraft, freshId: string)
    ensures RemoveOption(AddOption(d, freshId), |d.options.GetOr([])|).options == Some(d.options.GetOr([]))
  {
    var opts := d.options.GetOr([]);
    var added := opts + [VoteOption(freshId, NewOptionText, 0)];
    assert AddOption(d, freshId).options == Some(added);
    assert added[..|opts|] == opts && added[|opts| + 1..] == [];
    assert added[..|opts|] + added[|opts| + 1..] == opts;
  }

  /** `filter((_, i) => i !== idx)`: every option except the one at position `idx`. */
  function DropPosition(xs: seq<VoteOption>, idx: int): (r: seq<VoteOption>)
    ensures 0 <= idx < |xs| ==> |r| == |xs| - 1
    ensures 0 <= idx < |xs| ==> forall k :: 0 <= k < idx ==> r[k] == xs[k]
    ensures 0 <= idx < |xs| ==> forall k :: idx <= k < |r| ==> r[k] == xs[k + 1]
    ensures !(0 <= idx < |xs|) ==> r == xs
    decreases |xs|
  {
    if |xs| == 0 then []
    else if idx == 0 then DropPosition(xs[1..], idx - 1)
    else
      var rest := DropPosition(xs[1..], idx - 1);
      assert !(0 <= idx < |xs|) ==> [xs[0]] + xs[1..] == xs;
      [xs[0]] + rest
  }

  /**
   `removeOption(idx)`: the option at position `idx` is removed and the others
   keep their order; a form without an option list is left alone.
   */
  function RemoveOption(d: SessionDraft, idx: int): (r: SessionDraft)
    ensures d.options.None? ==> r == d
    ensures d.options.Some? ==> r.options.Some? && r.(options := d.options) == d
    ensures d.options.Some? && 0 <= idx < |d.options.value| ==>
      r.options.value == d.options.value[..idx] + d.options.value[idx + 1..]
    ensures d.options.Some? && !(0 <= idx < |d.options.value|) ==> r.options == d.options
  {
    match d.options
    case None => d
    case Some(opts) =>
      var kept := DropPosition(opts, idx);
      assert 0 <= idx < |opts| ==> kept == opts[..idx] + opts[idx + 1..];
      d.(options := Some(kept))
  }

  /** No id occurs twice. */
  ghost predicate NoDuplicates(xs: seq<string>) {
    forall i, j :: 0 <= i < j < |xs| ==> xs[i] != xs[j]
  }

  /** `new Set(xs)` read back as a list: first occurrences, in order. */
  function Distinct(xs: seq<string>): (r: seq<string>)
    ensures NoDuplicates(r)
    ensures forall x :: x in r <==> x in xs
    decreases |xs|
  {
    if |xs| == 0 then []
    else
      var front := xs[..|xs| - 1];
      var last := xs[|xs| - 1];
      assert xs == front + [last];
      var d := Distinct(front);
      if last in d then d else d + [last]
  }

  /** `xs` without the element `x`. */
  function Without(xs: seq<string>, x: string): (r: seq<string>)
    ensures forall y :: y in r <==> y in xs && y != x
    ensures NoDuplicates(xs) ==> NoDuplicates(r)
    decreases |xs|
  {
    if |xs| == 0 then []
    else
      var rest := Without(xs[1..], x);
      assert forall y :: y in xs <==> y == xs[0] || y in xs[1..];
      if xs[0] == x then rest
      else
        assert NoDuplicates(xs) ==> xs[0] !in xs[1..];
        [xs[0]] + rest
  }

  /**
   `toggleAllowedUser(userId)`: the eligible set gains `userId` if it lacked
   it and loses it otherwise; every other id keeps its membership, and the
   list comes back without duplicates.
   */
  function ToggleAllowedUser(d: SessionDraft, userId: string): (r: SessionDraft)
    ensures r.allowedUserIds.Some? && r.(allowedUserIds := d.allowedUserIds) == d
    ensures NoDuplicates(r.allowedUserIds.value)
    ensures userId in r.allowedUserIds.value <==> userId !in d.allowedUserIds.GetOr([])
    ensures forall x :: x != userId ==> (x in r.allowedUserIds.value <==> x in d.allowedUserIds.GetOr([]))
  {
    var current := Distinct(d.allowedUserIds.GetOr([]));
    var next := if userId in current then Without(current, userId) else current + [userId];
    assert userId !in current ==> NoDuplicates(current + [userId]);
    d.(allowedUserIds := Some(next))
  }

  /** Toggling the same user twice restores the original membership. */
  lemma ToggleTwice(d: SessionDraft, userId: string)
    ensures forall x :: x in ToggleAllowedUser(ToggleAllowedUser(d, userId), userId).allowedUserIds.value
                        <==> x in d.allowedUserIds.GetOr([])
  {
    var once := ToggleAllowedUser(d, userId);
    var twice := ToggleAllowedUser(once, userId);
    assert once.allowedUserIds.GetOr([]) == once.allowedUserIds.value;
    forall x ensures x in twice.allowedUserIds.value <==> x in d.allowedUserIds.GetOr([]) {
      if x == userId {
        assert userId in twice.allowedUserIds.value <==> userId !in once.allowedUserIds.value;
      }
    }
  }

  /**
   The bars of a session's chart: its options in order, each with the count
   the results map holds for it, or 0 when the session or the option is
   missing from the results.
   */
  function ChartData(options: seq<VoteOption>, results: map<string, map<string, nat>>, sessionId: string): (r: seq<VoteOption>)
    ensures |r| == |options|
    ensures forall k :: 0 <= k < |options| ==> r[k].id == options[k].id && r[k].text == options[k].text
    ensures forall k :: 0 <= k < |options| ==>
      r[k].count == (if sessionId in results && options[k].id in results[sessionId] then results[sessionId][options[k].id] else 0)
  {
    var sessionResults := if sessionId in results then results[sessionId] else map[];
    seq(|options|, k requires 0 <= k < |options| =>
      options[k].(count := if options[k].id in sessionResults then sessionResults[options[k].id] else 0))
  }

  /**
   When the results hold each option's own count under its id, the chart
   shows the options exactly as they are.
   */
  lemma ChartOfOwnCounts(options: seq<VoteOption>, results: map<string, map<string, nat>>, sessionId: string)
    requires sessionId in results
    requires forall k :: 0 <= k < |options| ==>
      options[k].id in results[sessionId] && results[sessionId][options[k].id] == options[k].count
    ensures ChartData(options, results, sessionId) == options
  {
    var r := ChartData(options, results, sessionId);
    assert forall k :: 0 <= k < |options| ==> r[k] == options[k];
  }
}
