# Vote ledger model

A Dafny model of the vote ledger of a small voting application. Users sit
behind a shared gate password and log in. Administrators define voting
sessions, each with options, a list of eligible users and a per-user quota.
Voters cast votes against that quota. The whole application state (users,
sessions, gate password) is one document, and every request loads it,
changes it in memory and writes it back whole.

The model covers four pieces:

- **The Cloudflare worker** (`worker.js`, module `Worker`). It covers the
  default document, the gate check, login, user and session upsert, and the
  vote transaction. A handler's `Err`/`None` result means "answer with an
  error and write nothing". An `Ok`/`Some` result is the document written back.
- **The browser-storage backend** (mock branches of `services/api.ts`, module
  `MockApi`). It covers load-or-seed, the gate check, login, save and delete
  of users and sessions, and vote submission. It is related to the worker by
  lemmas.
- **The per-option counter variant** (`functions/api/vote.ts` and
  `functions/api/results.ts`, module `KvCounter`). It keeps one `vote::<option>`
  counter per option and has a fixed read of options `A` and `B`.
- **The administrator panel's pure helpers** (`components/AdminPanel.tsx`,
  module `AdminPanel`). These build a user or session record from a partly
  filled form, append or remove an option, toggle an eligible user, and
  compute the chart counts.

Shared pieces:

- `Basics` holds `Option`/`Result`.
- `KeyedSeq` holds first-match search, replace-or-append and filter-by-id over
  lists of records.
- `AppModel` holds the records of `types.ts`, the bootstrap values of
  `constants.ts`, and the ledger invariants. `Balanced` says the option
  tallies sum to the consumed votes. `WithinQuota` says no user is over
  quota.

Each request is one state transition. The storage offers no atomic
read-modify-write. The model states the single-request semantics and, as
sequential lemmas, what happens when requests are served one after another
(`Worker.ReplayQuota`, `Worker.ReplayTally`). It also states what happens when
two requests read the same document before either writes
(`Worker.LostUpdate`, `KvCounter.LostIncrement`).

Some facts about the code that the model reproduces:

- There is no last-administrator guard. `deleteUser` is a plain filter
  (`MockApi.DeleteLastAdmin`). `worker.js` has no DELETE routes, and the
  DELETE routes of the Pages backend `functions/api/[[route]].js` are the
  same plain filters.
- A missing session and an inactive session get the same 400 answer.
- A successful worker vote answers `{status: 'ok'}`, not a tally.
- Neither backend serialises concurrent writers.

## Model

| member | source | states |
|---|---|---|
| KeyedSeq.IndexOf | worker.js:110 | `findIndex` by id: the result is the first position carrying the id, and it is absent exactly when no element carries it |
| KeyedSeq.Upsert | services/api.ts:102-107 | the first element with the record's id is replaced at the same index (through a merge), otherwise the record is appended at the end |
| KeyedSeq.UpsertShape | worker.js:90-100 | an upsert grows the list by at most one, grows it exactly when the id was new, and changes at most one old position |
| KeyedSeq.RemoveKey | services/api.ts:121 | filtering by id leaves no element with that id, keeps every element with another id, and introduces nothing new |
| KeyedSeq.RemoveKeyAppend | services/api.ts:92 | filtering distributes over concatenation, so the kept elements keep their original relative order |
| KeyedSeq.RemoveKeyAbsent | services/api.ts:121 | deleting an id nobody carries leaves the list unchanged |
| KeyedSeq.RemoveKeyIdempotent | services/api.ts:92 | deleting the same id twice equals deleting it once |
| KeyedSeq.RemoveKeyShrinks | services/api.ts:121 | the list gets shorter exactly when some element carried the id |
| AppModel.DefaultAdmin | constants.ts:10-20 | the bootstrap account is `admin-1`/`admin` with password "12345", role admin, allowance 10, ip 127.0.0.1, location 系統控制台, and last seen at boot time |
| AppModel.DefaultState | worker.js:17-32 | the default document holds exactly the default administrator, whom the credentials admin/12345 log in as, no sessions, and start password `secure-start` |
| AppModel.Used | worker.js:134 | a user's consumed votes in a session are the stored entry, and 0 when there is none |
| AppModel.FindLogin | worker.js:67 | the login lookup returns the first user whose username and password both equal the request's, and nothing exactly when no user matches |
| AppModel.SumVotesUpdate | worker.js:142 | setting one user's consumption changes the session's total consumption by the new value minus the old one |
| AppModel.SumCountsBump | worker.js:141 | incrementing one option's count raises the session's option total by exactly one |
| Worker.GetData | worker.js:17-37 | an absent `data` key reads as the default document: the single admin `admin-1`, no sessions, start password `secure-start` |
| Worker.InitStatus | worker.js:54-61 | the gate answers 200 exactly when the password equals the configured start password, and 401 otherwise |
| Worker.InitIgnoresAccounts | worker.js:57-60 | the gate answer depends only on the configuration, never on which users or sessions exist |
| Worker.RequestTracking | worker.js:71-73 | a login records the connecting IP (or "未知" when absent or empty), "city, country" from the edge metadata (or "未知" without it), and the current time |
| Worker.Login | worker.js:64-78 | a login fails with no write exactly when no user matches; otherwise only the first matching user changes, only in its tracking fields, and that user is returned |
| Worker.LoginWithoutPassword | worker.js:67 | a user stored without a password is logged into by a request that omits the password |
| Worker.LoginRequiringPassword | worker.js:64-78 | corrected login: a request without a password never authenticates, and a successful login returns a user whose password equals the one supplied |
| Worker.SaveUser | worker.js:87-104 | a user upsert replaces an existing id in place but keeps the stored ip, location and lastSeen; a new id is appended; sessions and config are unchanged; the list grows by at most one |
| Worker.SaveSession | worker.js:107-117 | a session upsert replaces an existing id in place or appends a new one; users and config are unchanged; the list grows by at most one |
| Worker.Status | worker.js:126-147 | a non-eligible voter is refused with 403; every other vote refusal is 400 |
| Worker.RecordVote | worker.js:141-142 | recording a vote raises the chosen option's count by one, sets the voter's consumption to its previous value plus one, and changes no other option, user entry or session field |
| Worker.Vote | worker.js:120-148 | a vote is refused as unavailable iff the first session with the id is missing or inactive, as not allowed iff the user is not listed, as over quota iff the consumed votes reach `votesPerUser`, and as unknown option iff the option is missing; it succeeds iff all four checks pass, and then records exactly one vote |
| Worker.VoteApplied | worker.js:139-144 | a successful vote was recorded at the session the id resolves to and at the first option with the option id, and nothing else changed |
| Worker.VoteKeepsIds | worker.js:141-142 | a vote changes no session id, so every session id resolves to the same position afterwards |
| Worker.VoteKeepsQuota | worker.js:134-142 | after a successful vote the voter's consumption is at most `votesPerUser`, and if no session was over quota before, none is after |
| Worker.VoteKeepsBalance | worker.js:139-143 | a successful vote raises the session's option total and its consumption total by exactly one each, so balanced sessions stay balanced |
| Worker.ReplayQuota | worker.js:120-145 | served one at a time, a user's votes in a session succeed at most as often as the remaining quota, and each success is counted in `userVotes` |
| Worker.ReplayTally | worker.js:120-145 | served one at a time, votes to a session raise its option total and its consumption total by the number of successes; other sessions are untouched |
| Worker.LostUpdate | worker.js:122-143 | two votes that read the same document both succeed, but after both writes the session's tally has risen by one, not two |
| MockApi.GetMockData | services/api.ts:6-17 | stored data is returned without a write; empty storage yields, and persists, the default document with start password `secure-start`, the default admin and no sessions |
| MockApi.LoadStable | services/api.ts:6-21 | after a load, storage holds exactly what was returned, so the next load returns the same document and writes nothing |
| MockApi.CheckStartPassword | services/api.ts:25-29 | the browser gate check holds exactly when the password equals the configured start password |
| MockApi.GateAgrees | services/api.ts:26-34 | the browser gate check and the worker's `/api/init` give the same answer |
| MockApi.Login | services/api.ts:37-51 | login returns null with no write exactly when no user matches; otherwise only the first matching user changes, only in its tracking fields |
| MockApi.SaveUser | services/api.ts:70-81 | `saveUser` replaces the first user with the id at the same index with the record as sent, or appends it; sessions and config are unchanged |
| MockApi.SaveUserAgreesWhenTracked | services/api.ts:73-78 | for an id already stored, the browser and worker user upserts agree if and only if the record sent already carries the stored ip, location and last-seen time |
| MockApi.SaveUserAgreesWhenNew | services/api.ts:76-78 | for an id not stored yet, the browser and worker user upserts give the same document |
| MockApi.DeleteUser | services/api.ts:89-97 | `deleteUser` leaves no user with the id, keeps every other user, and leaves sessions untouched |
| MockApi.DeleteLastAdmin | services/api.ts:92 | deleting the only administrator is not refused: it leaves an empty user list |
| MockApi.SaveSession | services/api.ts:99-110 | `saveSession` replaces the first session with the id at the same index, or appends; users and config are unchanged |
| MockApi.DeleteSession | services/api.ts:118-126 | `deleteSession` leaves no session with the id, keeps every other session, and leaves users untouched |
| MockApi.SubmitVote | services/api.ts:128-151 | `submitVote` is false with no write for an unknown user, an unavailable session, an exhausted quota or an unlisted user; it succeeds exactly when the worker's vote succeeds and the user exists, and then writes the same document |
| KvCounter.CounterKey | functions/api/vote.ts:10 | an option's counter key is `vote::` followed by exactly the option text |
| KvCounter.CounterKeyInjective | functions/api/vote.ts:10 | distinct options never share a counter key |
| KvCounter.Read | functions/api/vote.ts:11-12 | an absent counter reads as 0, a present one as its stored value |
| KvCounter.PostVote | functions/api/vote.ts:1-23 | an empty or missing option is refused with no write; otherwise the option's counter becomes the previous value plus one, the reply carries that value, and no other key changes |
| KvCounter.Results | functions/api/results.ts:1-13 | the results are the counters under `vote::A` and `vote::B`, each 0 when absent, and they are the keys votes for "A" and "B" write |
| KvCounter.VoteThenResults | functions/api/results.ts:4-9 | a vote for "A" makes the results show one more `A` and the same `B` (and symmetrically for "B") |
| KvCounter.OtherVoteInvisible | functions/api/results.ts:4-9 | a vote for any other non-empty option leaves both results unchanged |
| KvCounter.LostIncrement | functions/api/vote.ts:11-15 | two votes for one option that read the same store both succeed, but the counter ends only one above where it started |
| AdminPanel.BuildUser | components/AdminPanel.tsx:49-60 | no record without a username; otherwise each set form value is kept (a non-empty id or password, a role, a non-zero allowance), and an unset one becomes a fresh id, "12345", user, or 1 |
| AdminPanel.UserFormRoundTrip | components/AdminPanel.tsx:51-60 | saving an existing complete user from the form unchanged reproduces it, except that `isBlocked` is dropped |
| AdminPanel.AllIds | components/AdminPanel.tsx:83 | the default eligible list is every user's id, in order |
| AdminPanel.BuildSession | components/AdminPanel.tsx:76-87 | no record without a title; otherwise each set form value is kept, `isActive` defaults to true only when missing (an explicit false is kept), a zero or missing `votesPerUser` to 1, eligibility to every user's id in order, options to none, consumption to empty, and a zero or missing creation time to now |
| AdminPanel.SessionFormRoundTrip | components/AdminPanel.tsx:78-87 | saving an existing session from the form unchanged reproduces it, tallies and consumption included |
| AdminPanel.AddOption | components/AdminPanel.tsx:93-100 | adding an option appends exactly one option with count 0 and keeps the existing options and every other form field |
| AdminPanel.AddThenRemoveOption | components/AdminPanel.tsx:93-112 | removing the option just added, at its position, gives back the form's original option list |
| AdminPanel.DropPosition | components/AdminPanel.tsx:111 | dropping position `idx` keeps the options before it, shifts the later ones down by one, and shortens the list by one; an out-of-range `idx` changes nothing |
| AdminPanel.RemoveOption | components/AdminPanel.tsx:109-113 | removing option `idx` takes out exactly that element; the rest keep their order; a form without options is left alone |
| AdminPanel.Distinct | components/AdminPanel.tsx:117 | reading the eligible list into a set keeps exactly its members, without duplicates |
| AdminPanel.Without | components/AdminPanel.tsx:118 | deleting an id from the set removes exactly that id and keeps the list free of duplicates |
| AdminPanel.ToggleAllowedUser | components/AdminPanel.tsx:115-121 | toggling a user flips that user's eligibility, keeps every other id's membership, and yields no duplicates |
| AdminPanel.ToggleTwice | components/AdminPanel.tsx:115-121 | toggling the same user twice restores the original membership |
| AdminPanel.ChartData | components/AdminPanel.tsx:175-179 | each chart bar keeps its option's id and text, and its count is the result recorded for that option, or 0 when the session or option is missing from the results |
| AdminPanel.ChartOfOwnCounts | components/AdminPanel.tsx:175-179 | when the results hold each option's own count, the chart shows the options unchanged |

## Left out

- Storage, JSON and transport are left out: the KV `get`/`put`, `localStorage`, JSON parse/stringify, `fetch`, CORS headers, `OPTIONS` handling and the 500 catch-all. Handlers work on the loaded document and return what they would write.
- There is no concurrency control. The source has none, so there are no locks, version stamps or retries. Interleavings appear only as the sequential lost-update lemmas.
- Clocks and randomness are parameters: `Date.now()`, `crypto.randomUUID()`, the random ip/location of the browser login, and the request's `CF-Connecting-IP` header and edge metadata.
- JavaScript numbers are modelled as unbounded integers. Option counts, consumption and KV counters are `nat`. The `NaN` that `Number()` gives for a non-numeric stored counter is not modelled. Neither are fractional or `NaN` values of `votesPerUser` and `votesAllowed`.
- `DEFAULT_DATA` in worker.js is one module-level object that handlers mutate in place while the store is empty. `DEFAULT_ADMIN_USER` in constants.ts is likewise one object: `getMockData` puts that object itself into the default document, and a later browser `login` as that admin mutates it. The model hands out a fresh default document and a fresh administrator record each time.
- `GET /api/data` and the browser `fetchData` are not modelled separately. Each is a plain read of the loaded document (`Worker.GetData`, `MockApi.GetMockData`).
- The non-mock branches of services/api.ts are left out. They only forward to the worker over HTTP.
- KvCounter.PostVote: takes the request's `option` as a present or missing string. The `String(...)` conversion of numbers or other JSON values is not modelled.
- Worker.InitStatus: the request's password is always a string. A body without `password` never equals the configured string, so it always gets 401; that case is not modelled.
- Worker.Login: the request's username is always a string. A request without a username field is not modelled.
- Worker.RequestTracking: edge metadata is a (city, country) pair. A present `request.cf` with missing city or country fields, which would print as "undefined", is not modelled.
- AppModel.Used: `userVotes` is modelled as a map of own keys only, and so is the chart's `sessionResults[o.id] || 0` (`AdminPanel.tsx`:178). In the source these are plain parsed objects, and `userVotes[userId] || 0` (`worker.js`:134, `services/api.ts`:137) reads an inherited `Object.prototype` member for an id such as `constructor`, `toString` or `__proto__`. For such an id the comparison with `votesPerUser` is against `NaN` and never refuses, so the source enforces no quota. With `__proto__` the write to `userVotes` is also lost, so `Balanced` fails. `Worker.VoteKeepsQuota`, `Worker.ReplayQuota` and `Worker.VoteKeepsBalance` hold only for ids that are not `Object.prototype` member names. The panel's ids come from `crypto.randomUUID()` or are `admin-1`, so it never creates such an id.
- Worker.GetData: states only the identifying fields of the default administrator. Its ip, location, allowance and boot-time `lastSeen` are given by `AppModel.DefaultAdmin`.
- `updateOptionText`, `handleDeleteUser`, `isOnline` and the panel's refresh loop are left out. `updateOptionText` writes the new text into the option object that the shallow copy still shares with the form's state (AdminPanel.tsx:104-105), an in-place aliasing effect outside this pure-value model; `handleDeleteUser` is a confirmation dialog around `deleteUser`, and the last two are time-driven presentation.
- The panel's results come from a `fetchResults` that the panel imports from services/api.ts, but that file does not define it. `AdminPanel.ChartData` takes the results map as a parameter.
- `functions/api/[[route]].js` replaces `worker.js` on Pages and is the backend `constants.ts` points at. It has the same handlers plus `DELETE /api/user/{id}` and `DELETE /api/session/{id}` (`[[route]].js`:113-121 and 136-143), each the plain filter that `MockApi.DeleteUser` and `MockApi.DeleteSession` model. It is not modelled separately. On Pages the more specific `functions/api/vote.ts` answers `/api/vote` ahead of this catch-all, so a vote posted there is `KvCounter.PostVote`, and the whole-document vote at `[[route]].js`:146-174 is never reached. The presentation files `App.tsx`, `Login.tsx`, `SiteGate.tsx` and `UserPanel.tsx` are not part of it either.
- `votesAllowed` and `isBlocked` are carried in the user record. Neither backend consults them when voting, and neither does the model.

## Findings

| source | as written | input that shows it | evidently intended | confidence | as-written member | corrected member |
|---|---|---|---|---|---|---|
| worker.js:67 | the login lookup compares `u.password === password`, so a missing password equals a missing password | a user saved through `/api/user` without a `password` field, then `/api/login` with `{username}` and no password: the login succeeds and tracking is written | a login without a password is refused | medium; not executed | Worker.LoginWithoutPassword | Worker.LoginRequiringPassword |
