# Trivia room orchestrator: a Dafny model

This project models the in-memory room orchestrator of a real-time trivia
server (`backend/server.js`). The server keeps two tables. `games` maps a room
code to a room. `socketRooms` maps a connection to the code of the room it
last entered. The model treats each socket event as running to completion,
and gives each one a method of the class `Orchestrator.Registry`:
`create_game`, `join_game`, `submit_answer`, `disconnect`, `startGame` /
`sendNewQuestion`, the body of the room's one-second interval (`Tick`) and
`endGame`.

The helpers are modelled beside it:

- `decodeHTMLEntities`: five chained global replacements.
- `makeId` and the Fisher–Yates `shuffle`. Each `Math.random` draw is a supplied index.
- The per-record mapping of `fetchQuestions`.
- The stable score sort.
- The history records written at game end.
- The `login` first-write-wins rule.

Modules, leaf first:

- `Options`: the optional value used by lookups.
- `Entities`: `ReplaceAll` (JavaScript `replace` with a `/g` pattern), `DecodeHTMLEntities`,
  and `EncodeEntities`, an escaper for exactly the five characters the decoder handles.
- `Draws`: `MakeId`, and `Shuffle` on an array, proved against the function `Shuffled`.
- `Questions`: raw and stored question records, `Normalise`, `FetchQuestions`.
- `Scoring`: players, the `find`-then-`+= 10` award, the `filter` on disconnect,
  the stable sort `SortByScore`, and the history loop `MakeHistory`.
- `Rooms`: the room record, the invariants between ticks, and the pure tick step `TickRoom`.
- `Orchestrator`: the class `Registry` owning `games` and `socketRooms`.
- `Accounts`: the `login` decision over the credential table.

Rooms are values in the `games` map; handlers replace a room's entry. The
interval handle is the flag `hasInterval`. The registry invariant `Valid`
says four things about every room:

- its key is a 4-character code over `A–Z0–9`;
- it has at least one player;
- it is either waiting (`qIndex` 0, `timeLeft` 15, no interval) or running;
- if running, `0 ≤ qIndex < |questions|`, `1 ≤ timeLeft ≤ 15` and an interval exists.

Because every stored code is non-empty, the `roomCode &&` test in
`disconnect` reduces to map membership.

The model follows the code, including these behaviours:

- `join_game` does not deduplicate connections.
- A connection may sit in several rooms. Only its latest room is recorded.
- `disconnect` removes every entry of the connection, but only from that latest room.
- A correct answer credits the first matching entry, and a repeated correct answer scores again.
- `endGame` deletes the room but leaves the players' `socketRooms` entries in place.
- A colliding room code overwrites the existing room.
- No fetch-in-flight state exists.

## Model

| member | source | states |
|---|---|---|
| `Entities.ReplaceAll` | backend/server.js:39 | a global literal replacement never lengthens the text when the replacement is no longer than the pattern |
| `Entities.NoMatchUnchanged` | backend/server.js:39 | a global replacement leaves text without the pattern's first character unchanged |
| `Entities.DecodeHTMLEntities` | backend/server.js:38-40 | decoding never lengthens a text |
| `Entities.DecodeWithoutAmpersand` | backend/server.js:38-40 | text without `&` is returned unchanged by all five replacements |
| `Entities.StageOnEscaped` | backend/server.js:39 | one `replace` stage on a text whose characters in a set `k` are escaped turns the stage's entity back into its character and leaves the others escaped; once `&` is no longer escaped, this needs the text to be free of that entity |
| `Entities.DecodeEncodeRoundTrip` | backend/server.js:38-40 | decoding undoes the HTML escaping of `"`, `&`, `'`, `<`, `>` for every text in which none of `&#039;`, `&lt;`, `&gt;` occurs |
| `Entities.AmpersandSurvives` | backend/server.js:38-40 | an escaped `"AT&T"` decodes back to `"AT&T"` |
| `Entities.OrderMatters` | backend/server.js:39 | because `&amp;` is decoded second, `"&amp;lt;"` decodes to `"<"` while `"&amp;quot;"` decodes to `"&quot;"` |
| `Entities.EscapedLessThan` | backend/server.js:39 | a text containing `&lt;` does not survive the round trip: `"&lt;"` escapes to `"&amp;lt;"`, which decodes to `"<"` |
| `Draws.MakeId` | backend/server.js:23-28 | the id has the requested length and character `i` is the alphabet character at draw `i`, so it uses only `A–Z0–9` |
| `Draws.Shuffle` | backend/server.js:30-36 | the in-place loop leaves the array equal to `Shuffled` of its old contents for the supplied draws |
| `Draws.ShuffledIsPermutation` | backend/server.js:30-36 | the shuffle keeps the length and the multiset of elements |
| `Questions.Normalise` | backend/server.js:49-56 | the stored question text and answer are the decoded originals, the options are a permutation of the decoded incorrect answers plus the decoded correct answer, and the answer is one of the options |
| `Questions.FetchQuestions` | backend/server.js:43-64 | a failed request or response yields no questions; otherwise question `i` is record `i` normalised with its own draws, and each stored answer is among its options |
| `Scoring.FindPlayer` | backend/server.js:166 | `find` returns the first entry holding the connection, or nothing exactly when no entry holds it |
| `Scoring.Award` | backend/server.js:165-167 | a correct answer adds exactly 10 to the caller's first entry and changes no other entry; ids and names are untouched and no score decreases |
| `Scoring.AwardTotal` | backend/server.js:165-167 | a correct answer raises the sum of scores by exactly 10 when `find` locates the caller, and by 0 otherwise |
| `Scoring.RemoveConn` | backend/server.js:176 | the filter keeps exactly the entries of other connections, and keeps the length iff the connection holds no entry |
| `Scoring.RemoveConnAppend` | backend/server.js:176 | the filter distributes over concatenation, so surviving players keep their relative order |
| `Scoring.SortByScore` | backend/server.js:223 | the ranking holds exactly the room's players (same length and multiset); its order and stability are the contracts of `SortIsOrdered` and `SortIsStable` |
| `Scoring.SortIsOrdered` | backend/server.js:223 | the ranking is ordered by non-increasing score |
| `Scoring.SortIsStable` | backend/server.js:223 | for every score, the players holding it appear in join order, as with JavaScript's stable sort |
| `Scoring.ExampleRanking` | backend/server.js:223 | players A(0), B(10), C(10), joined in that order, rank as B, C, A |
| `Scoring.MakeHistory` | backend/server.js:225-229 | one record per ranked player, in ranking order, carrying that player's name and score, rank `i + 1` and the player count |
| `Rooms.NewRoom` | backend/server.js:98-107 | a new room holds only its creator at score 0, no questions, `qIndex` 0, `timeLeft` 15, no interval, not running |
| `Rooms.TickRoom` | backend/server.js:197-210 | a tick moves `qIndex` by exactly one iff the clock was at 1. It ends the game iff exactly one tick remained. Otherwise the room stays within the running bounds with one tick fewer to go. Players and questions are untouched |
| `Rooms.AfterTicks` | backend/server.js:197-205 | after any number of ticks short of the last, the room is still within the running bounds, with that many ticks fewer to go and the same players |
| `Rooms.GameLength` | backend/server.js:190-210 | a game started on its first question with a full clock runs for exactly 15 ticks per question. No earlier tick ends it. The 15·N-th tick exhausts the questions. Scores never change by ticking |
| `Rooms.TwoQuestionsEndOnTick30` | backend/server.js:197-203 | with two questions and no answers, the 29th tick does not end the game, the 30th does, and all scores are unchanged |
| `Orchestrator.Registry.constructor` | backend/server.js:19-20 | both tables start empty and the invariant holds |
| `Orchestrator.Registry.Create` | backend/server.js:96-112 | the code is 4 characters drawn from `A–Z0–9` by the supplied draws. The code maps to a fresh waiting room whose sole player is the creator at score 0. The creator's connection maps to the code. The invariant is kept |
| `Orchestrator.Registry.Join` | backend/server.js:115-152 | an unknown code reports the error and changes neither table. Otherwise the joiner is appended at score 0 after the unchanged players and its connection maps to the code. The game starts (questions stored, running, `qIndex` 0, `timeLeft` 15) iff the room has at least two players, is not running and the fetch is non-empty. An empty fetch leaves it waiting. A running room keeps its cursor and clock and the joiner gets the current question and time |
| `Orchestrator.Registry.StartGame` | backend/server.js:190-206 | the room becomes running on question 0 with a full clock and an interval, and the first question is announced |
| `Orchestrator.Registry.SendNewQuestion` | backend/server.js:208-214 | only the clock changes, to 15; the question under the cursor and its 1-based number are announced |
| `Orchestrator.Registry.SubmitAnswer` | backend/server.js:155-170 | if the caller's room is missing or not running, nothing happens. Otherwise the reply says whether the answer matches the current answer exactly. A match awards the caller's first entry 10 points. A mismatch changes nothing |
| `Orchestrator.Registry.Disconnect` | backend/server.js:172-184 | the connection's `socketRooms` entry is always deleted. Its room loses exactly that connection's entries. The room and its interval are deleted iff no player remains |
| `Orchestrator.Registry.EndGame` | backend/server.js:216-233 | for a missing room, nothing happens. Otherwise the room is deleted, the ranking is the stable score sort, and one history record follows per ranked player. `socketRooms` is left unchanged |
| `Orchestrator.Registry.Tick` | backend/server.js:197-205 | one firing changes the room exactly as `TickRoom` says and keeps the invariant. It announces the clock or the next question. When the questions run out, the room is ranked and deleted |
| `Accounts.Login` | backend/server.js:72-84 | login succeeds iff no non-empty password is stored or the stored one matches. An absent or empty entry is overwritten with the given password. A stored non-empty password leaves the table unchanged. No other user's entry changes |
| `Accounts.FirstWriteWins` | backend/server.js:77-83 | after a first login with a non-empty password, a login with a different password fails and changes nothing |
| `Accounts.EmptyPasswordNotRetained` | backend/server.js:77-78 | a first login with an empty password reserves nothing: the next login with any password succeeds and stores that password |

## Left out

- Transport: express/http/cors/socket.io setup, `socket.join` and event delivery. Handlers return what they would emit (`JoinOutcome`, `AnswerResult`, `TickEvent`, `GameOver`); `create_game`'s acknowledgements and the repeated `leaderboard_update` broadcasts are not returned: they carry nothing that the returned code and the two tables do not already show.
- The credential and history store (Redis): `login` is a function over the table's contents. `get_history` only reads the store and is not modelled. History records are returned, not pushed. They are not keyed by the lower-cased name.
- The question bank request and its error handling. A failed or unreadable response is `None` for `FetchQuestions`. `Join` takes the fetched list as a parameter.
- A rejected or hanging history write: `endGame` awaits each write before deleting the room and announcing the result, so such a write would leave a stopped, exhausted room in `games`, a state `Valid` excludes. The model treats each write as completing.
- Timing: `setInterval`/`clearInterval` and the `await` points. `Tick` is called explicitly. It may only be called for a present, running room, because only such a room has a live interval. The race in which a second join starts a second fetch and timer while the first fetch is pending is not modelled. Neither is a handler running while `endGame` awaits the history store.
- `Math.random`: every draw is a supplied index (`[0, 36)` for `makeId`, `[0, i]` for the shuffle step at `i`).
- Dates, the `"Rank #N"` and `"Battle Royale (N players)"` strings, and the Unicode `trim`/`toLowerCase` of user names.
- Room identity. Rooms are values, so the room object captured by the interval callback is not modelled as an alias. This matters only after a code collision replaces a room whose timer is running. The old timer's `timeLeft--` and `qIndex++` still act on the old object. Its `sendNewQuestion` and `endGame` calls look the code up again, so they act on the new room:
  - a waiting new room has no questions, so `sendNewQuestion` throws inside the timer callback, which ends the server process (no handler for uncaught exceptions is installed);
  - the old clock reaches 0 once and then keeps falling, so from that tick on every tick advances the old cursor and resets the new room's clock to 15, until the old cursor passes the last old question;
  - then `endGame` ranks and deletes the new room, and clears the new room's interval rather than the old one;
  - the old interval is never cleared, so it ends any later room created under the same code within a second.
- Lookups of inherited JavaScript object properties used as room codes or connection ids.
