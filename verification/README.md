# Quiz duel server: live match orchestration

This project models the core of a two-player quiz duel server (`app.py`) and the
client's countdown formatter (`fmtTime` in `static/main.js`). Players join a
matchmaking queue. They are paired with the waiting player of the closest
rating, and the pair gets a pending match. Both players attach a socket, and the
match starts and counts down one second per tick. The match completes exactly
once: when the clock runs out, when both players have answered, or when one
player surrenders. The winner is chosen by first-correct-wins judging, and both
ratings are moved by the Elo rule from the ratings the accounts hold at
completion, before either update (not from the ratings copied into the match
row at pairing).

Modules:

- `Wrappers` (`wrappers.dfy`): `Option`.
- `Answers` (`answers.dfy`): `normalize_answer`, `is_correct` and
  `normalize_difficulty`. Python's `strip()` uses the full `str.isspace` set.
  `lower()` covers ASCII, Latin-1 and the basic Cyrillic block.
- `Queue` (`queue.dfy`): the `QueueEntry` record, the two removal filters and
  `find_best_opponent`. The last is an imperative scan proved against an
  "earliest entry with the smallest rating gap" specification.
- `Judging` (`judging.dfy`): how one player's submission record is updated, how
  the winner is chosen, and the Elo scores.
- `Arena` (`arena.dfy`): the class `Server`, holding the following fields.
  - `waiting` is the queue, and `live` is the live-match map.
  - The persisted rows are the map fields `matches` and `accounts`, because
    `finish_match` and `start_match` write them.
  - A ghost `log` records the broadcasts that mark transitions.
  - Each socket handler is a method. Its `ensures` gives the outcome and the whole new state for every input.
    `Valid()` is kept by every method and says:
    - the queue holds at most one entry per user;
    - every live record agrees with its match row;
    - a row is `started` exactly when its live record runs;
    - no match is ever logged as started twice, or as ended twice.

  That last part is the single-fire guarantee of `finish_match`.
- `Clock` (`clock.dfy`): `fmtTime`, with `sec|0` modelled as a wrap to signed
  32 bits.

Inputs the server gets from outside become parameters:

- the session user, as an `int` where `0` means no session;
- the socket id, as a `string`;
- the clock reading `time.time()`, as an `int`;
- the randomly picked task (`pick_task`), as a `Task` value;
- the Elo update `elo_apply`, as the uninterpreted function field `Server.elo`,
  called with `k = 32`.

## Model

| member | source | states |
|---|---|---|
| Answers.StripLeftSplits | app.py:143-144 | `strip()`'s left half drops only whitespace, keeps the rest as a suffix, and leaves no leading whitespace |
| Answers.StripRightSplits | app.py:143-144 | `strip()`'s right half drops only whitespace, keeps the rest as a prefix, and leaves no trailing whitespace |
| Answers.StripLeft | app.py:143-144 | the left half of `strip()` never lengthens the string; what it drops and keeps is in `StripLeftSplits` |
| Answers.StripRight | app.py:143-144 | the right half of `strip()` never lengthens the string; what it drops and keeps is in `StripRightSplits` |
| Answers.Strip | app.py:47 | `str.strip()`, used on the difficulty label (line 47), the answers (line 144) and a submission (line 736), never lengthens the string; `StripSplits` characterises it |
| Answers.StripEnds | app.py:143-144 | neither end of `s.strip()` is whitespace |
| Answers.StripInfix | app.py:143-144 | `s.strip()` is the infix of `s` that starts after the leading whitespace, and only whitespace follows it |
| Answers.StripSplits | app.py:143-144 | `s.strip()` is the infix of `s` between a run of leading and a run of trailing whitespace, and neither of its ends is whitespace |
| Answers.StripTrimmed | app.py:143-144 | `strip()` leaves a string without surrounding whitespace unchanged |
| Answers.CommaToPoint | app.py:143-144 | `replace(",", ".")` keeps the length, turns every comma into a point, changes nothing else, and leaves no comma |
| Answers.LowerChar | app.py:143-144 | lower-casing one character never creates or removes whitespace or a comma |
| Answers.LowerCharIdempotent | app.py:143-144 | lower-casing an already lower-cased character changes nothing |
| Answers.Lower | app.py:143-144 | `lower()` keeps the length and lower-cases each character in place |
| Answers.NormalizeAnswer | app.py:143-144 | the normalized answer is as long as the trimmed answer |
| Answers.NormalizedShape | app.py:143-144 | a normalized answer has no comma and no whitespace at either end |
| Answers.NormalizeIdempotent | app.py:143-144 | normalizing twice is the same as normalizing once |
| Answers.IsCorrect | app.py:147-148 | two answers judged equal have trimmed forms of the same length (a consequence of `NormalizeAnswer`'s contract; what the verdict means is stated by `Answers.IsCorrectSymmetric` and `Answers.IsCorrectUpToNormalization`) |
| Answers.IsCorrectSymmetric | app.py:147-148 | `is_correct(a, b)` holds exactly when `is_correct(b, a)` does |
| Answers.IsCorrectUpToNormalization | app.py:143-148 | judging a pre-normalized answer gives the same verdict as judging the raw one, and every answer matches itself |
| Answers.StripExample | app.py:143-144 | `" 3,5 ".strip()` is `"3,5"` |
| Answers.DecimalCommaExample | app.py:143-148 | `" 3,5 "` is accepted for the answer `"3.5"` |
| Answers.CapitalsExample | app.py:143-148 | a capitalised Cyrillic answer is accepted for its lower-case form |
| Answers.CommaIsNotDroppedExample | app.py:143-148 | the comma becomes a point rather than disappearing, so `"3,5"` is not accepted for `"35"` |
| Answers.NormalizeDifficulty | app.py:41-48 | the result is always one of the three labels: the trimmed input when it is one, the default otherwise |
| Answers.NormalizeDifficultyFixes | app.py:41-48 | `normalize_difficulty` is the identity on the three labels and is idempotent |
| Answers.LabelTrimmed | app.py:41 | no difficulty label has whitespace at either end |
| Queue.Keep | app.py:117-124 | a list comprehension keeps exactly the entries that pass the filter and never grows the list |
| Queue.KeepAppend | app.py:117-124 | filtering preserves the relative order of the kept entries (it distributes over concatenation) |
| Queue.KeepAll | app.py:117-124 | a filter that every entry passes leaves the list unchanged |
| Queue.KeepUnique | app.py:117-124 | filtering a queue with one entry per user keeps it one entry per user |
| Queue.WithoutUser | app.py:117-119 | `remove_from_queue_by_user` drops exactly that user's entries |
| Queue.WithoutSid | app.py:122-124 | `remove_from_queue_by_sid` drops exactly the entries on that socket |
| Queue.RemoveAbsent | app.py:117-124 | removing a user or a socket that is not queued leaves the queue as it was |
| Queue.RemovePreservesOrderAndUniqueness | app.py:117-124 | both removals keep the surviving entries in queue order and keep users unique |
| Queue.BestOpponentUnique | app.py:127-137 | at most one entry meets the specification of the best opponent |
| Queue.FindBestOpponent | app.py:127-137 | `None` exactly when every waiting entry is the joiner's own; otherwise another user's entry with the smallest rating gap, the earliest one on ties |
| Judging.Resubmit | app.py:748-761 | a submission always records the latest answer and time, sets the first time once, and sets the first-correct time only on the first correct answer, keeping it afterwards |
| Judging.FirstCorrectSnoc | app.py:760-761 | the earliest correct submission of a longer list is the earlier list's, or else the new one when it is correct |
| Judging.ReplayRecord | app.py:748-761 | after any non-empty series of submissions, the record holds the last answer and time, the first time, and the time of the earliest correct answer |
| Judging.Judge | app.py:800-826 | only player 1, player 2 or nobody wins, and each player wins exactly when their final answer is correct and either the other's is not or their first-correct time is strictly earlier |
| Judging.JudgeSymmetric | app.py:800-826 | swapping the two players does not change the verdict |
| Judging.JudgeBothCorrect | app.py:811-824 | with two correct final answers, the earlier first-correct time wins and equal times draw; the "missing timestamp" draw cannot happen |
| Judging.JudgeOneOrNoneCorrect | app.py:807-826 | exactly one correct final answer wins; no correct answer is a draw |
| Judging.SurrenderWinner | app.py:784 | on surrender the other participant is the winner |
| Judging.Verdict | app.py:788-826 | on surrender the declared winner is kept; otherwise the judged winner, who is one of the players or nobody |
| Judging.Scores | app.py:842-847 | the scores are (1, 0), (0, 1) or (0.5, 0.5) according to the winner, and always sum to one |
| Arena.NewLive | app.py:587-596 | a new live record has no sockets, is not running and has no submissions |
| Arena.ReadyToStart | app.py:690 | the start guard of `match:join`: both sockets set, not running, not ended |
| Arena.Attach | app.py:662-665 | a joining player's socket goes into their own slot, and nothing else in the record changes |
| Arena.Rerate | app.py:836-850 | when both players exist, each is re-rated by `elo` from the two ratings the accounts hold at completion, before either update, with their own score; otherwise no account changes |
| Arena.LiveUpdateKeeps | app.py:748-761 | replacing a live record by one that agrees with its row and runs as before keeps the server invariant |
| Arena.CreateKeeps | app.py:570-596 | a new pending match under the next id keeps the server invariant |
| Arena.StartKeeps | app.py:694-704 | starting a live match that neither runs nor has ended moves its row from pending to started and keeps the invariant |
| Arena.FinishKeeps | app.py:788-876 | completing a running match finds no earlier end event for it, and ending the row, dropping the live record and logging the end keeps the invariant |
| Arena.Server.constructor | app.py:109-110 | the server starts with an empty queue, no live matches and the first match id 1; the model also starts with an empty Match table (see `Arena.Server.constructor` under Left out) |
| Arena.Server.RemoveFromQueueByUser | app.py:117-119 | the queue loses exactly the user's entries; nothing else changes |
| Arena.Server.RemoveFromQueueBySid | app.py:122-124 | the queue loses exactly the socket's entries; nothing else changes |
| Arena.Server.QueueJoin | app.py:548-611 | a rejection happens exactly when there is no session or the user is unknown, and the queue keeps one entry per user in every case: (1) with no session, nothing changes; (2) for an unknown user, only their old entry goes; (3) otherwise their old entry goes and then either the user is appended at the end (exactly when nobody else waits) or the best opponent leaves the queue too, a pending match between the two exists under the next id, and the next id moves up by one |
| Arena.Server.CreateMatch | app.py:570-596 | the pairing creates a pending row under a fresh id with both players' names and ratings and the default duration, plus its live record, and the next id moves up by one |
| Arena.Server.EntryFor | app.py:562-568 | the queue entry carries the user's id, name and rating from the account, the socket and the join time |
| Arena.Server.QueueLeave | app.py:614-619 | never fails; drops the session user's entries, and does nothing without a session |
| Arena.Server.Disconnect | app.py:879-881 | drops the entries queued on that socket; matches are untouched |
| Arena.Server.FinishMatch | app.py:788-876 | a no-op unless the row has not ended and the live record runs; otherwise the row ends with the verdict and the reason, both ratings move from the ratings the accounts hold at completion, before either update, the live record is gone, and the end is logged for the first time |
| Arena.Server.StartMatch | app.py:694-707 | a pending match becomes started and its live record runs; a start is logged |
| Arena.Server.MatchJoin | app.py:625-691 | without a session or a match id, for a missing match, and for a non-participant, the join is rejected and the state is unchanged; a participant is always attached, and their socket goes into their own slot; the match starts exactly when both sockets are set, it is not running and it has not ended |
| Arena.Server.TimerTick | app.py:710-725 | only a running match is affected; a positive count drops by exactly one and never below zero; at zero the match completes for reason time |
| Arena.Server.RunTimer | app.py:710-725 | left alone, the countdown stops only when the match no longer runs; a match that was running logs one `match:tick` per second it had left (`Countdown`) and then completes for reason time with the judged winner and both ratings moved, with the queue, the other rows and the other accounts unchanged; otherwise nothing changes |
| Arena.Server.AcceptsSubmission | app.py:731-746 | a submission is accepted only for a live match of a session user, and in a valid state that match is started and the user is one of its two players |
| Arena.Server.Recorded | app.py:748-761 | the live record after a submission differs only in the submitter's record, updated by `Resubmit` from the stripped answer |
| Arena.Server.RecordSubmission | app.py:748-763 | the updated live record is stored and the submission is logged; nothing else changes |
| Arena.Server.SubmitAnswer | app.py:729-768 | ignored unless the user plays a live, running, not-ended match; otherwise the submission is recorded, and once both players have answered the match completes for reason both_submitted |
| Arena.Server.MatchSurrender | app.py:771-785 | for a participant of a running, not-ended match, it completes with the other player as winner; anything else, including a surrender before the start, changes nothing |
| Clock.ToInt32 | static/main.js:26 | `x \| 0` lands in the signed 32-bit range, agrees with `x` modulo 2^32, and is `x` itself inside that range |
| Clock.Displayed | static/main.js:26 | the clamped count is never negative, is `sec` for any non-negative 32-bit `sec`, and is zero for counts from −2^31 to 0 (below −2^31, `sec\|0` wraps first) |
| Clock.Decimal | static/main.js:27-29 | `String(n)` is a non-empty digit string with no leading zero, one digit exactly below 10, at most two below 100 |
| Clock.ValueOfDecimal | static/main.js:27-29 | reading `String(n)` back gives `n` |
| Clock.PadStart2 | static/main.js:29 | `padStart(2, "0")` gives the string itself from two characters on and two characters otherwise; the zeros and the value are in `PadStart2Value` |
| Clock.PadStart2Value | static/main.js:29 | `padStart(2, "0")` keeps a digit string a digit string of the same value |
| Clock.PaddedDecimal | static/main.js:29 | a padded field has at least two digits, exactly two below 100, and denotes its number |
| Clock.FieldsShape | static/main.js:29 | the text splits at the colon into the padded minutes and exactly two seconds digits, which denote the two numbers |
| Clock.ClockTextShape | static/main.js:27-29 | the minutes field denotes `floor(t / 60)` and the seconds field denotes `t % 60` |
| Clock.FmtTimeSeconds | static/main.js:28-29 | the part after the colon is exactly two digits and denotes the clamped count modulo 60, between 00 and 59 |
| Clock.FmtTimeMinutes | static/main.js:27-29 | the part before the colon has at least two digits, no leading zero beyond the padding, and denotes the clamped count divided by 60, rounded down |
| Clock.NegativeShowsZero | static/main.js:26 | every count from −2^31 to 0 is shown as `00:00` |
| Clock.FmtTime | static/main.js:25-30 | the text is at least five characters, with the colon third from the end |
| Clock.FmtTimeRoundTrip | static/main.js:25-30 | reading minutes·60 + seconds back from the text gives the clamped count, which is `sec` itself for any non-negative 32-bit `sec` |
| Clock.FmtTimeFiveChars | static/main.js:25-30 | below 6000 seconds the text is exactly five characters |

## Left out

- Elo arithmetic: `elo_expected` and `elo_apply` (app.py:88-94) use floating-point powers and rounding. `elo_apply` is the uninterpreted field `Server.elo`. The model states which scores it receives and that both calls use the ratings the accounts hold at completion, before either update.
- Persistence: SQLAlchemy sessions and commits are not modelled. The `Match` and `AuthUser` rows are the maps `matches` and `accounts`, and `db.session.get` is a map lookup. `started_at`, `ended_at` and the `hasattr` guards are not modelled, because the model's row always has `winner` and `reason` fields.
- `pick_task` (app.py:151-175) is a random database query. Its result is the `task` parameter of `QueueJoin` and `MatchJoin`.
- Socket.IO: `emit`, rooms, `start_background_task` and `socketio.sleep` are not modelled. The ghost `log` keeps one event per transition (found, started, tick, submitted, ended). The source may emit a transition's message once to each player's socket, as it does for `match:found` (app.py:598-607); the log still holds one event. The late tick named under `Arena.Server.TimerTick` below is not logged. Toast messages become the `Notice` of a rejection. The payloads of `match:task`, `match:state` and `match:ended` are not modelled.
- Concurrency: eventlet interleaving is modelled as sequential method calls. `TimerTick` is one pass of `timer_task`'s loop, so other events can happen between ticks. `RunTimer` is the loop with no other event in between.
- Arena.Server.FinishMatch: does not model the moment between clearing `running` (app.py:798) and dropping the live record (app.py:876), because no other step runs in between in a sequential model.
- Arena.Server.constructor: the model starts from an empty Match table. In the source, Match rows live in the database (config.py:5) and survive a restart, while `WAITING` and `LIVE_MATCHES` start empty (app.py:109-110). `Valid()` rules out a `started` row left by an earlier process without a running live record. The source ignores submissions and surrenders on such a row (app.py:744-746, 790-792); when both players rejoin, it builds a fresh live record (app.py:648-660) and starts the match again with the full duration (app.py:690-691). A `pending` row without a live record is allowed by `Valid()`, and `MatchJoin` builds a fresh record for it, as the source does; only the constructor's empty table leaves such rows out.
- Arena.Server.TimerTick: one pass checks `running` and decrements in a single step, but the source checks (app.py:717), sleeps (app.py:718), and then decrements and broadcasts `match:tick` without checking again (app.py:719-720). When a surrender or a both_submitted completion happens during that sleep, the source sends one more `match:tick` after `match:ended`. The model logs no such tick: after the completion the pass finds no live record and does nothing.
- Arena.Server.TimerTick: the loop's own reference to a live record that was replaced after it ended is not modelled. The model reads the record from `live` on each pass. A replacement record is never running, so both stop the same way.
- `time.time()` is a float in the source. It is an `int` parameter here. Only the order of timestamps matters for judging.
- Answers.Lower: `str.lower()` beyond ASCII, Latin-1 and the Cyrillic block U+0400..U+042F is not modelled, because the full Unicode case table is out of scope for this quiz's answers.
- Answers.NormalizeAnswer: `(s or "")` is modelled by passing `""` for a missing answer. `None` is not a separate input.
- `int(... .get("match_id", 0))` is not modelled. A match id that is not an integer raises an exception in the source. The model takes the already-converted `int`.
- `DEFAULT_MATCH_SECONDS` is the constant 600 (config.py:9). Its `MATCH_SECONDS` environment override is not modelled.
- Clock.FmtTime: only integral `sec` is modelled. `sec|0` on fractional, infinite or NaN numbers is not modelled.
- Flask routes, templates, login, registration, password hashing and the admin pages with their CSV/JSON import and export (app.py:54-82, 189-542) are not modelled. They sit outside the match orchestration and depend on the database and web stack.
- `static/css/main.js` and the DOM, toast and socket code in `static/main.js` are not modelled. Only `fmtTime` is pure logic.
- Training sessions have no code in the server, so there is nothing to model for them.
