/**
 * The live match orchestration of app.py: the waiting queue, the per-match live
 * records and the persisted match and account rows they move alongside, driven
 * by the socket handlers `queue:join`, `queue:leave`, `disconnect`, `match:join`,
 * `match:submit_answer`, `match:surrender`, the countdown and `finish_match`.
 *
 * The database is modelled by two maps owned by the server (match rows and user
 * accounts); the random task pick, the socket id, the session's user id and the
 * wall clock are parameters of the handlers. Emitted events that mark state
 * transitions are recorded in a ghost log.
 */
module Arena {
  import opened Wrappers
  import opened Answers
  import opened Queue
  import opened Judging

  /** `DEFAULT_MATCH_SECONDS` of config.py. */
  const DEFAULT_MATCH_SECONDS: int := 600
  /** The Elo K-factor `finish_match` reads (`ELO_K`, 32 by default). */
  const ELO_K: int := 32

  /** The persisted `Match.status`. */
  datatype Status = Pending | Started | Ended

  /** Position of a status along pending, started, ended. */
  function Rank(s: Status): nat
  {
    match s
    case Pending => 0
    case Started => 1
    case Ended => 2
  }

  /** The task snapshot a match races on; only `answer` is used for judging. */
  datatype Task = Task(id: Option<int>, topic: string, prompt: string, answer: string, kind: string, difficulty: string)

  /** The fields of an `AuthUser` row the orchestration reads and writes. */
  datatype Account = Account(username: string, rating: int)

  /** The fields of a `Match` row the orchestration reads and writes. */
  datatype MatchRow = MatchRow(
    player1: int, player2: int,
    player1Name: string, player2Name: string,
    player1Rating: int, player2Rating: int,
    durationSec: int,
    status: Status,
    winner: Option<int>,
    reason: Option<Reason>)

  /** The per-match record of `LIVE_MATCHES`. */
  datatype LiveMatch = LiveMatch(
    p1Sid: Option<string>, p2Sid: Option<string>,
    p1: int, p2: int,
    secondsLeft: int,
    running: bool,
    task: Task,
    submissions: map<int, Submission>)

  /** Why a socket request was turned away with a notice. */
  datatype Notice = NeedLogin | UnknownUser | BadMatchId | MatchNotFound | NotParticipant

  /** What `queue:join` answered. */
  datatype QueueOutcome = QueueRejected(notice: Notice) | Searching | Paired(matchId: int, opponent: QueueEntry)

  /** What `match:join` answered; `started` tells whether this join started the match. */
  datatype MatchJoinOutcome = JoinRejected(notice: Notice) | Attached(started: bool)

  /** Broadcasts that mark a transition of a match. */
  datatype Event =
    | MatchFound(matchId: int)
    | MatchStarted(matchId: int)
    | MatchTick(matchId: int, secondsLeft: int)
    | AnswerSubmitted(matchId: int, userId: int)
    | MatchEnded(matchId: int, winner: Option<int>, reason: Reason)

  /** Two log entries that record the same one-time transition of the same match. */
  predicate SameTransition(a: Event, b: Event)
  {
    (a.MatchStarted? && b.MatchStarted? && a.matchId == b.matchId) ||
    (a.MatchEnded? && b.MatchEnded? && a.matchId == b.matchId)
  }

  /** Python truthiness of a stored socket id. */
  predicate HasSid(sid: Option<string>)
  {
    sid.Some? && sid.value != ""
  }

  predicate IsPlayer(m: MatchRow, userId: int)
  {
    userId == m.player1 || userId == m.player2
  }

  function Lookup(subs: map<int, Submission>, userId: int): Option<Submission>
  {
    if userId in subs then Some(subs[userId]) else None
  }

  /** A live record as created at pairing time or on a join that finds none. */
  function NewLive(p1: int, p2: int, seconds: int, task: Task): (st: LiveMatch)
    ensures !st.running && st.submissions == map[] && st.p1Sid == None && st.p2Sid == None
  {
    LiveMatch(None, None, p1, p2, seconds, false, task, map[])
  }

  /** The socket id of a joining player is stored in that player's own slot, the other slot is kept. */
  function Attach(st: LiveMatch, userId: int, sid: string): (r: LiveMatch)
    ensures userId == st.p1 ==> r.p1Sid == Some(sid) && r.p2Sid == st.p2Sid
    ensures userId != st.p1 ==> r.p2Sid == Some(sid) && r.p1Sid == st.p1Sid
    ensures r.(p1Sid := st.p1Sid, p2Sid := st.p2Sid) == st
  {
    if userId == st.p1 then st.(p1Sid := Some(sid)) else st.(p2Sid := Some(sid))
  }

  /** The guard of `start_match`'s call: both sockets attached, not running, not ended. */
  predicate ReadyToStart(st: LiveMatch, status: Status)
  {
    HasSid(st.p1Sid) && HasSid(st.p2Sid) && !st.running && status != Ended
  }

  /** A live record that agrees with its match row and holds only the players' consistent submissions. */
  predicate LiveOk(st: LiveMatch, m: MatchRow)
  {
    && st.p1 == m.player1 && st.p2 == m.player2
    && st.secondsLeft >= 0
    && (forall u :: u in st.submissions ==> u == st.p1 || u == st.p2)
    && (forall u :: u in st.submissions ==> Consistent(st.submissions[u], st.task.answer))
  }

  /**
   * The accounts after `finish_match`: when both players exist, each rating is moved
   * by `elo` from the two ratings the accounts hold when the match completes, before
   * either update (not the ratings copied into the row at pairing), with the
   * player's own score; nobody else changes.
   */
  function Rerate(accounts: map<int, Account>, p1: int, p2: int, winner: Option<int>,
                  elo: (int, int, real, int) -> int): (r: map<int, Account>)
    ensures r.Keys == accounts.Keys
    ensures forall u :: u in accounts && u != p1 && u != p2 ==> r[u] == accounts[u]
    ensures !(p1 in accounts && p2 in accounts) ==> r == accounts
    ensures p1 in accounts && p2 in accounts && p1 != p2 ==>
      && r[p1] == accounts[p1].(rating := elo(accounts[p1].rating, accounts[p2].rating, Scores(winner, p1, p2).0, ELO_K))
      && r[p2] == accounts[p2].(rating := elo(accounts[p2].rating, accounts[p1].rating, Scores(winner, p1, p2).1, ELO_K))
  {
    if p1 in accounts && p2 in accounts then
      var r1, r2 := accounts[p1].rating, accounts[p2].rating;
      var s := Scores(winner, p1, p2);
      accounts[p1 := accounts[p1].(rating := elo(r1, r2, s.0, ELO_K))]
              [p2 := accounts[p2].(rating := elo(r2, r1, s.1, ELO_K))]
    else accounts
  }

  /** Match ids lie below the next id to hand out; durations are not negative. */
  predicate RowsOk(matches: map<int, MatchRow>, nextMatchId: int)
  {
    && 1 <= nextMatchId
    && (forall id :: id in matches ==> 1 <= id < nextMatchId && matches[id].durationSec >= 0)
  }

  /** Every live record belongs to a row and agrees with it; a row is started exactly when its live record runs. */
  predicate LiveAgrees(live: map<int, LiveMatch>, matches: map<int, MatchRow>)
  {
    && (forall id :: id in live ==> id in matches && LiveOk(live[id], matches[id]))
    && (forall id :: id in matches ==> (matches[id].status == Started <==> id in live && live[id].running))
  }

  /** A logged start or end is reflected in the status of its row. */
  predicate Reflected(e: Event, matches: map<int, MatchRow>)
  {
    && (e.MatchStarted? ==> e.matchId in matches && matches[e.matchId].status != Pending)
    && (e.MatchEnded? ==> e.matchId in matches && matches[e.matchId].status == Ended)
  }

  /** Every logged start and end is reflected, and no match is logged as started, or as ended, twice. */
  predicate LogOk(log: seq<Event>, matches: map<int, MatchRow>)
  {
    && (forall i :: 0 <= i < |log| ==> Reflected(log[i], matches))
    && (forall i, j :: 0 <= i < j < |log| ==> !SameTransition(log[i], log[j]))
  }

  /** The invariant of the server state. */
  predicate ServerOk(waiting: seq<QueueEntry>, live: map<int, LiveMatch>, matches: map<int, MatchRow>,
                     nextMatchId: int, log: seq<Event>)
  {
    UniqueUsers(waiting) && RowsOk(matches, nextMatchId) && LiveAgrees(live, matches) && LogOk(log, matches)
  }

  /** Broadcasts other than a start or an end never break the log invariant. */
  lemma LogAppendQuiet(log: seq<Event>, matches: map<int, MatchRow>, e: Event)
    requires LogOk(log, matches)
    requires !e.MatchStarted? && !e.MatchEnded?
    ensures LogOk(log + [e], matches)
  {
  }

  /** Replacing a live record by one that agrees with the row and runs as before keeps the invariant. */
  lemma {:induction false} LiveUpdateKeeps(waiting: seq<QueueEntry>, live: map<int, LiveMatch>, matches: map<int, MatchRow>,
                                           nextMatchId: int, log: seq<Event>, id: int, st: LiveMatch)
    requires ServerOk(waiting, live, matches, nextMatchId, log)
    requires id in matches && LiveOk(st, matches[id])
    requires st.running <==> matches[id].status == Started
    ensures ServerOk(waiting, live[id := st], matches, nextMatchId, log)
  {
  }

  /** A freshly paired match, under the next id, keeps the invariant. */
  lemma {:induction false} CreateKeeps(waiting: seq<QueueEntry>, live: map<int, LiveMatch>, matches: map<int, MatchRow>,
                                       nextMatchId: int, log: seq<Event>, row: MatchRow, st: LiveMatch)
    requires ServerOk(waiting, live, matches, nextMatchId, log)
    requires row.status == Pending && row.durationSec >= 0 && LiveOk(st, row) && !st.running
    ensures nextMatchId !in matches && nextMatchId !in live
    ensures ServerOk(waiting, live[nextMatchId := st], matches[nextMatchId := row], nextMatchId + 1,
                     log + [MatchFound(nextMatchId)])
  {
    var matches' := matches[nextMatchId := row];
    assert forall i :: 0 <= i < |log| ==> Reflected(log[i], matches');
  }

  /** Starting a match that is live, not running and not ended moves it from pending to started and keeps the invariant. */
  lemma {:induction false} StartKeeps(waiting: seq<QueueEntry>, live: map<int, LiveMatch>, matches: map<int, MatchRow>,
                                      nextMatchId: int, log: seq<Event>, id: int)
    requires ServerOk(waiting, live, matches, nextMatchId, log)
    requires id in live && id in matches && !live[id].running && matches[id].status != Ended
    ensures matches[id].status == Pending
    ensures ServerOk(waiting, live[id := live[id].(running := true)],
                     matches[id := matches[id].(status := Started)], nextMatchId, log + [MatchStarted(id)])
  {
    var matches' := matches[id := matches[id].(status := Started)];
    var log' := log + [MatchStarted(id)];
    assert forall i :: 0 <= i < |log| ==> Reflected(log[i], matches');
    forall i | 0 <= i < |log| ensures !SameTransition(log[i], MatchStarted(id)) {
      assert Reflected(log[i], matches);
    }
    assert forall i :: 0 <= i < |log'| ==> Reflected(log'[i], matches') by {
      forall i | 0 <= i < |log'| ensures Reflected(log'[i], matches') {
        if i < |log| { assert log'[i] == log[i]; }
      }
    }
    forall i, j | 0 <= i < j < |log'| ensures !SameTransition(log'[i], log'[j]) {
      if j < |log| { assert log'[i] == log[i] && log'[j] == log[j]; }
      else { assert log'[i] == log[i]; }
    }
  }

  /**
   * Completing a running match ends its row, drops its live record and logs its end
   * once: no end of this match was logged before, and the invariant is kept.
   */
  lemma {:induction false} FinishKeeps(waiting: seq<QueueEntry>, live: map<int, LiveMatch>, matches: map<int, MatchRow>,
                                       nextMatchId: int, log: seq<Event>, id: int, w: Option<int>, reason: Reason)
    requires ServerOk(waiting, live, matches, nextMatchId, log)
    requires id in live && live[id].running
    ensures id in matches && matches[id].status == Started
    ensures forall e :: e in log ==> !(e.MatchEnded? && e.matchId == id)
    ensures ServerOk(waiting, live - {id}, matches[id := matches[id].(status := Ended, winner := w, reason := Some(reason))],
                     nextMatchId, log + [MatchEnded(id, w, reason)])
  {
    var matches' := matches[id := matches[id].(status := Ended, winner := w, reason := Some(reason))];
    var log' := log + [MatchEnded(id, w, reason)];
    forall e | e in log ensures !(e.MatchEnded? && e.matchId == id) {
      var i :| 0 <= i < |log| && log[i] == e;
      assert Reflected(log[i], matches);
    }
    assert forall i :: 0 <= i < |log'| ==> Reflected(log'[i], matches') by {
      forall i | 0 <= i < |log'| ensures Reflected(log'[i], matches') {
        if i < |log| { assert log'[i] == log[i]; assert Reflected(log[i], matches); }
      }
    }
    forall i, j | 0 <= i < j < |log'| ensures !SameTransition(log'[i], log'[j]) {
      if j < |log| { assert log'[i] == log[i] && log'[j] == log[j]; }
      else { assert log'[i] == log[i]; assert log[i] in log; }
    }
  }

  /**
   * The process-wide state of the match server: the waiting list, the live
   * matches, and the persisted match and account rows.
   */
  class Server {
    var waiting: seq<QueueEntry>
    var live: map<int, LiveMatch>
    var matches: map<int, MatchRow>
    var accounts: map<int, Account>
    var nextMatchId: int
    ghost var log: seq<Event>
    /** `elo_apply`, left uninterpreted. */
    const elo: (int, int, real, int) -> int

    ghost predicate Valid()
      reads this
    {
      ServerOk(waiting, live, matches, nextMatchId, log)
    }

    /** Nothing observable changed. */
    twostate predicate Unchanged()
      reads this
    {
      waiting == old(waiting) && live == old(live) && matches == old(matches) &&
      accounts == old(accounts) && nextMatchId == old(nextMatchId) && log == old(log)
    }

    /** No match row disappeared and no status moved backwards. */
    twostate predicate StatusForward()
      reads this
    {
      forall id :: id in old(matches) ==> id in matches && Rank(old(matches)[id].status) <= Rank(matches[id].status)
    }

    /**
     * The state after `finish_match` fired for match `id`, whose live record was `st`
     * and the log `log0` at that moment: the row is ended with the judged (or, on
     * surrender, declared) winner and the reason, the ratings are updated from the
     * ratings held at completion, the live record is gone, and one end event was logged.
     */
    twostate predicate CompletedFrom(id: int, st: LiveMatch, log0: seq<Event>, declared: Option<int>, reason: Reason)
      reads this
    {
      && id in old(matches)
      && var m := old(matches)[id];
         var w := Verdict(reason, declared, m.player1, m.player2,
                          Lookup(st.submissions, m.player1), Lookup(st.submissions, m.player2), st.task.answer);
         && matches == old(matches)[id := m.(status := Ended, winner := w, reason := Some(reason))]
         && live == old(live) - {id}
         && accounts == Rerate(old(accounts), m.player1, m.player2, w, elo)
         && waiting == old(waiting) && nextMatchId == old(nextMatchId)
         && log == log0 + [MatchEnded(id, w, reason)]
    }

    /** The queue entry `queue:join` builds for a known user. */
    function EntryFor(userId: int, sid: string, now: int): (e: QueueEntry)
      reads this
      requires userId in accounts
      ensures e.userId == userId && e.sid == sid && e.joinedAt == now
      ensures e.username == accounts[userId].username && e.rating == accounts[userId].rating
    {
      QueueEntry(userId, accounts[userId].username, accounts[userId].rating, sid, now)
    }

    constructor (accounts: map<int, Account>, elo: (int, int, real, int) -> int)
      ensures Valid()
      ensures waiting == [] && live == map[] && matches == map[] && log == []
      ensures this.accounts == accounts && this.elo == elo
      ensures nextMatchId == 1
    {
      waiting := [];
      live := map[];
      matches := map[];
      this.accounts := accounts;
      nextMatchId := 1;
      log := [];
      this.elo := elo;
    }

    /** `remove_from_queue_by_user`. */
    method RemoveFromQueueByUser(userId: int)
      requires Valid()
      modifies this
      ensures Valid() && StatusForward()
      ensures waiting == WithoutUser(old(waiting), userId)
      ensures live == old(live) && matches == old(matches) && accounts == old(accounts)
      ensures nextMatchId == old(nextMatchId) && log == old(log)
    {
      KeepUnique(waiting, OtherUser(userId));
      waiting := WithoutUser(waiting, userId);
    }

    /** `remove_from_queue_by_sid`. */
    method RemoveFromQueueBySid(sid: string)
      requires Valid()
      modifies this
      ensures Valid() && StatusForward()
      ensures waiting == WithoutSid(old(waiting), sid)
      ensures live == old(live) && matches == old(matches) && accounts == old(accounts)
      ensures nextMatchId == old(nextMatchId) && log == old(log)
    {
      KeepUnique(waiting, OtherSid(sid));
      waiting := WithoutSid(waiting, sid);
    }

    /**
     * `queue:join` for the session user `userId` (0 when there is no session) on
     * socket `sid` at time `now`; `task` is the task a new match would get. Any old
     * entry of the user is dropped first. Then either the user is appended to the
     * queue, or the best opponent is found, both leave the queue, and a pending
     * match between them is created.
     */
    method QueueJoin(userId: int, sid: string, now: int, task: Task) returns (out: QueueOutcome)
      requires Valid()
      modifies this
      ensures Valid() && StatusForward()
      ensures accounts == old(accounts)
      ensures out.QueueRejected? <==> userId == 0 || userId !in accounts
      ensures userId == 0 ==> out == QueueRejected(NeedLogin) && Unchanged()
      ensures userId != 0 && userId !in accounts ==>
        && out == QueueRejected(UnknownUser)
        && waiting == WithoutUser(old(waiting), userId)
        && live == old(live) && matches == old(matches) && nextMatchId == old(nextMatchId) && log == old(log)
      ensures out.Searching? <==>
        userId != 0 && userId in accounts && forall e :: e in old(waiting) ==> e.userId == userId
      ensures out.Searching? ==>
        && waiting == WithoutUser(old(waiting), userId) + [EntryFor(userId, sid, now)]
        && live == old(live) && matches == old(matches) && nextMatchId == old(nextMatchId) && log == old(log)
      ensures out.Paired? ==>
        && userId != 0 && userId in accounts
        && out.opponent in old(waiting) && out.opponent.userId != userId
        && (exists i :: IsBestOpponent(WithoutUser(old(waiting), userId), EntryFor(userId, sid, now), i) &&
                        WithoutUser(old(waiting), userId)[i] == out.opponent)
        && waiting == WithoutUser(WithoutUser(old(waiting), userId), out.opponent.userId)
        && (forall e :: e in waiting ==> e.userId != userId && e.userId != out.opponent.userId)
        && out.matchId == old(nextMatchId) && out.matchId !in old(matches)
        && nextMatchId == old(nextMatchId) + 1
        && matches == old(matches)[out.matchId := MatchRow(
             userId, out.opponent.userId, accounts[userId].username, out.opponent.username,
             accounts[userId].rating, out.opponent.rating, DEFAULT_MATCH_SECONDS, Pending, None, None)]
        && live == old(live)[out.matchId := NewLive(userId, out.opponent.userId, DEFAULT_MATCH_SECONDS, task)]
        && log == old(log) + [MatchFound(out.matchId)]
    {
      if userId == 0 {
        return QueueRejected(NeedLogin);
      }
      RemoveFromQueueByUser(userId);
      if userId !in accounts {
        return QueueRejected(UnknownUser);
      }
      var entry := EntryFor(userId, sid, now);
      var opponent := FindBestOpponent(waiting, entry);
      if opponent.Some? {
        var opp := opponent.value;
        RemoveFromQueueByUser(opp.userId);
        var id := CreateMatch(entry, opp, task);
        return Paired(id, opp);
      }
      assert forall e :: e in waiting ==> e.userId != userId;
      waiting := waiting + [entry];
      return Searching;
    }

    /**
     * The pairing branch of `queue:join`: a pending match row for the two entries,
     * under a fresh id, and its live record with no sockets, the full countdown,
     * not running, the task snapshot and no submissions.
     */
    method CreateMatch(joiner: QueueEntry, opponent: QueueEntry, task: Task) returns (id: int)
      requires Valid()
      modifies this
      ensures Valid() && StatusForward()
      ensures id == old(nextMatchId) && id !in old(matches) && nextMatchId == old(nextMatchId) + 1
      ensures matches == old(matches)[id := MatchRow(
        joiner.userId, opponent.userId, joiner.username, opponent.username,
        joiner.rating, opponent.rating, DEFAULT_MATCH_SECONDS, Pending, None, None)]
      ensures live == old(live)[id := NewLive(joiner.userId, opponent.userId, DEFAULT_MATCH_SECONDS, task)]
      ensures log == old(log) + [MatchFound(id)]
      ensures waiting == old(waiting) && accounts == old(accounts)
    {
      id := nextMatchId;
      var row := MatchRow(joiner.userId, opponent.userId, joiner.username, opponent.username,
                          joiner.rating, opponent.rating, DEFAULT_MATCH_SECONDS, Pending, None, None);
      assert id !in live;
      matches := matches[id := row];
      nextMatchId := nextMatchId + 1;
      live := live[id := NewLive(row.player1, row.player2, row.durationSec, task)];
      log := log + [MatchFound(id)];
    }

    /** `queue:leave`: never fails; drops the session user's entry if there is one. */
    method QueueLeave(userId: int)
      requires Valid()
      modifies this
      ensures Valid() && StatusForward()
      ensures waiting == if userId != 0 then WithoutUser(old(waiting), userId) else old(waiting)
      ensures live == old(live) && matches == old(matches) && accounts == old(accounts)
      ensures nextMatchId == old(nextMatchId) && log == old(log)
    {
      if userId != 0 {
        RemoveFromQueueByUser(userId);
      }
    }

    /** `disconnect`: drops whatever entry was queued on that socket; live matches are untouched. */
    method Disconnect(sid: string)
      requires Valid()
      modifies this
      ensures Valid() && StatusForward()
      ensures waiting == WithoutSid(old(waiting), sid)
      ensures live == old(live) && matches == old(matches) && accounts == old(accounts)
      ensures nextMatchId == old(nextMatchId) && log == old(log)
    {
      RemoveFromQueueBySid(sid);
    }

    /**
     * `finish_match`: fires only for a match whose row is not ended and whose live
     * record is running; otherwise does nothing. When it fires, the state is that
     * of `CompletedFrom`, and the log held no end event for the match before.
     */
    method FinishMatch(matchId: int, declared: Option<int>, reason: Reason)
      requires Valid()
      modifies this
      ensures Valid() && StatusForward()
      ensures !(matchId in old(matches) && matchId in old(live) &&
                old(matches)[matchId].status != Ended && old(live)[matchId].running) ==>
        Unchanged()
      ensures matchId in old(matches) && matchId in old(live) && old(matches)[matchId].status != Ended &&
              old(live)[matchId].running ==>
        && CompletedFrom(matchId, old(live)[matchId], old(log), declared, reason)
        && (forall e :: e in old(log) ==> !(e.MatchEnded? && e.matchId == matchId))
    {
      if matchId !in matches || matchId !in live {
        return;
      }
      var m := matches[matchId];
      var st := live[matchId];
      if m.status == Ended || !st.running {
        return;
      }
      // The running flag is cleared here in the source; the record is dropped below,
      // so no later step can observe the cleared flag.
      var w := Verdict(reason, declared, m.player1, m.player2,
                       Lookup(st.submissions, m.player1), Lookup(st.submissions, m.player2), st.task.answer);
      FinishKeeps(waiting, live, matches, nextMatchId, log, matchId, w, reason);
      matches := matches[matchId := m.(status := Ended, winner := w, reason := Some(reason))];
      ghost var before := accounts;
      if m.player1 in accounts && m.player2 in accounts {
        var r1, r2 := accounts[m.player1].rating, accounts[m.player2].rating;
        var scores := Scores(w, m.player1, m.player2);
        accounts := accounts[m.player1 := accounts[m.player1].(rating := elo(r1, r2, scores.0, ELO_K))];
        accounts := accounts[m.player2 := accounts[m.player2].(rating := elo(r2, r1, scores.1, ELO_K))];
      }
      assert accounts == Rerate(before, m.player1, m.player2, w, elo);
      log := log + [MatchEnded(matchId, w, reason)];
      live := live - {matchId};
    }

    /**
     * `start_match`, called once both sockets are attached to a match that neither
     * runs nor has ended: the live record runs and the row becomes started.
     */
    method StartMatch(matchId: int)
      requires Valid()
      requires matchId in live && matchId in matches ==> !live[matchId].running && matches[matchId].status != Ended
      modifies this
      ensures Valid() && StatusForward()
      ensures !(matchId in old(live) && matchId in old(matches)) ==> Unchanged()
      ensures matchId in old(live) && matchId in old(matches) ==>
        && old(matches)[matchId].status == Pending
        && matches == old(matches)[matchId := old(matches)[matchId].(status := Started)]
        && live == old(live)[matchId := old(live)[matchId].(running := true)]
        && log == old(log) + [MatchStarted(matchId)]
        && waiting == old(waiting) && accounts == old(accounts) && nextMatchId == old(nextMatchId)
    {
      if matchId !in matches || matchId !in live {
        return;
      }
      assert matches[matchId].status == Pending;
      live := live[matchId := live[matchId].(running := true)];
      matches := matches[matchId := matches[matchId].(status := Started)];
      log := log + [MatchStarted(matchId)];
    }

    /**
     * `match:join` by the session user `userId` on socket `sid`; `task` is the task a
     * live record created here would get. Non-players and unknown matches are
     * turned away with no change. A player's socket goes into their own slot, and
     * the match starts exactly when both slots are filled, it is not running and
     * its row is not ended.
     */
    method MatchJoin(userId: int, sid: string, matchId: int, task: Task) returns (out: MatchJoinOutcome)
      requires Valid()
      modifies this
      ensures Valid() && StatusForward()
      ensures userId == 0 ==> out == JoinRejected(NeedLogin) && Unchanged()
      ensures userId != 0 && matchId == 0 ==> out == JoinRejected(BadMatchId) && Unchanged()
      ensures userId != 0 && matchId != 0 && matchId !in old(matches) ==> out == JoinRejected(MatchNotFound) && Unchanged()
      ensures userId != 0 && matchId != 0 && matchId in old(matches) && !IsPlayer(old(matches)[matchId], userId) ==>
        out == JoinRejected(NotParticipant) && Unchanged()
      ensures out.Attached? <==>
        userId != 0 && matchId != 0 && matchId in old(matches) && IsPlayer(old(matches)[matchId], userId)
      ensures out.Attached? ==>
        && var m := old(matches)[matchId];
           var st := Attach(if matchId in old(live) then old(live)[matchId]
                            else NewLive(m.player1, m.player2, m.durationSec, task), userId, sid);
           && out.started == ReadyToStart(st, m.status)
           && live == old(live)[matchId := st.(running := st.running || out.started)]
           && matches == (if out.started then old(matches)[matchId := m.(status := Started)] else old(matches))
           && log == old(log) + (if out.started then [MatchStarted(matchId)] else [])
           && waiting == old(waiting) && accounts == old(accounts) && nextMatchId == old(nextMatchId)
    {
      if userId == 0 {
        return JoinRejected(NeedLogin);
      }
      if matchId == 0 {
        return JoinRejected(BadMatchId);
      }
      if matchId !in matches {
        return JoinRejected(MatchNotFound);
      }
      var m := matches[matchId];
      if !IsPlayer(m, userId) {
        return JoinRejected(NotParticipant);
      }
      var st := if matchId in live then live[matchId] else NewLive(m.player1, m.player2, m.durationSec, task);
      st := Attach(st, userId, sid);
      live := live[matchId := st];
      if ReadyToStart(st, m.status) {
        StartMatch(matchId);
        return Attached(true);
      }
      return Attached(false);
    }

    /**
     * One pass of `timer_task`'s loop for a match: nothing unless the match is live
     * and running; otherwise one second comes off a positive countdown, and once the
     * countdown is at zero the match completes for reason time.
     */
    method TimerTick(matchId: int)
      requires Valid()
      modifies this
      ensures Valid() && StatusForward()
      ensures !(matchId in old(live) && old(live)[matchId].running) ==> Unchanged()
      ensures matchId in old(live) && old(live)[matchId].running && old(live)[matchId].secondsLeft > 1 ==>
        && live == old(live)[matchId := old(live)[matchId].(secondsLeft := old(live)[matchId].secondsLeft - 1)]
        && log == old(log) + [MatchTick(matchId, old(live)[matchId].secondsLeft - 1)]
        && waiting == old(waiting) && matches == old(matches) && accounts == old(accounts)
        && nextMatchId == old(nextMatchId)
      ensures matchId in old(live) && old(live)[matchId].running && old(live)[matchId].secondsLeft <= 1 ==>
        CompletedFrom(matchId, old(live)[matchId],
                      old(log) + (if old(live)[matchId].secondsLeft == 1 then [MatchTick(matchId, 0)] else []),
                      None, Time)
    {
      if matchId !in live || !live[matchId].running {
        return;
      }
      var st := live[matchId];
      if st.secondsLeft > 0 {
        st := st.(secondsLeft := st.secondsLeft - 1);
        live := live[matchId := st];
        log := log + [MatchTick(matchId, st.secondsLeft)];
      }
      if st.secondsLeft <= 0 {
        FinishMatch(matchId, None, Time);
      }
    }

    /**
     * The ticks `timer_task` logs while its countdown goes from `hi` down to `lo`:
     * one `match:tick` for each value from `hi - 1` down to `lo`, in that order.
     */
    function Countdown(matchId: int, hi: int, lo: int): (r: seq<Event>)
      decreases hi - lo
    {
      if lo >= hi then [] else Countdown(matchId, hi, lo + 1) + [MatchTick(matchId, lo)]
    }

    /**
     * `timer_task` when nothing else happens to the match meanwhile: tick until the
     * match stops running. A match that was running ends for reason time, after one
     * tick for every second its countdown had left, and nothing else changes.
     */
    method RunTimer(matchId: int)
      requires Valid()
      modifies this
      ensures Valid() && StatusForward()
      ensures !(matchId in live && live[matchId].running)
      ensures !(matchId in old(live) && old(live)[matchId].running) ==> Unchanged()
      ensures matchId in old(live) && old(live)[matchId].running ==>
        matchId in matches && matches[matchId].status == Ended && matches[matchId].reason == Some(Time)
      ensures matchId in old(live) && old(live)[matchId].running ==>
        CompletedFrom(matchId, old(live)[matchId],
                      old(log) + Countdown(matchId, old(live)[matchId].secondsLeft, 0), None, Time)
    {
      if !(matchId in live && live[matchId].running) {
        return;
      }
      ghost var st0 := live[matchId];
      while matchId in live && live[matchId].running
        invariant Valid() && StatusForward()
        invariant matchId in live && live[matchId].running ==>
          && 0 <= live[matchId].secondsLeft <= st0.secondsLeft
          && live == old(live)[matchId := st0.(secondsLeft := live[matchId].secondsLeft)]
          && matches == old(matches) && accounts == old(accounts)
          && waiting == old(waiting) && nextMatchId == old(nextMatchId)
          && log == old(log) + Countdown(matchId, st0.secondsLeft, live[matchId].secondsLeft)
        invariant !(matchId in live && live[matchId].running) ==>
          CompletedFrom(matchId, st0, old(log) + Countdown(matchId, st0.secondsLeft, 0), None, Time)
        decreases if matchId in live && live[matchId].running then live[matchId].secondsLeft + 1 else 0
      {
        ghost var n := live[matchId].secondsLeft;
        ghost var log1 := log;
        ghost var live1 := live;
        TimerTick(matchId);
        if n > 1 {
          assert Countdown(matchId, st0.secondsLeft, n - 1)
              == Countdown(matchId, st0.secondsLeft, n) + [MatchTick(matchId, n - 1)];
          assert live == old(live)[matchId := st0.(secondsLeft := n - 1)];
        } else {
          assert live1 - {matchId} == old(live) - {matchId};
          if n == 1 {
            assert Countdown(matchId, st0.secondsLeft, 0)
                == Countdown(matchId, st0.secondsLeft, 1) + [MatchTick(matchId, 0)];
          }
        }
      }
    }

    /** The guard of `match:submit_answer`: a session user who plays a live, running, not-ended match. */
    function AcceptsSubmission(userId: int, matchId: int): (ok: bool)
      reads this
      ensures ok ==> matchId in matches && matchId in live && userId != 0
      ensures ok && Valid() ==>
        matches[matchId].status == Started && (userId == live[matchId].p1 || userId == live[matchId].p2)
    {
      && userId != 0
      && matchId in matches && matches[matchId].status != Ended
      && IsPlayer(matches[matchId], userId)
      && matchId in live && live[matchId].running
    }

    /** The live record after `userId` submits `answer` (trimmed) at time `now`. */
    function Recorded(st: LiveMatch, userId: int, answer: string, now: int): (r: LiveMatch)
      ensures r == st.(submissions := r.submissions)
      ensures r.submissions.Keys == st.submissions.Keys + {userId}
      ensures r.submissions[userId] == Resubmit(Lookup(st.submissions, userId), Strip(answer), now, st.task.answer)
      ensures forall u :: u in st.submissions && u != userId ==> r.submissions[u] == st.submissions[u]
    {
      var sub := Resubmit(Lookup(st.submissions, userId), Strip(answer), now, st.task.answer);
      st.(submissions := st.submissions[userId := sub])
    }

    /** Stores the updated live record of a running match and logs the submission. */
    method RecordSubmission(userId: int, matchId: int, st: LiveMatch)
      requires Valid()
      requires matchId in matches && matchId in live && live[matchId].running
      requires LiveOk(st, matches[matchId]) && st.running
      modifies this
      ensures Valid() && StatusForward()
      ensures live == old(live)[matchId := st] && log == old(log) + [AnswerSubmitted(matchId, userId)]
      ensures waiting == old(waiting) && matches == old(matches) && accounts == old(accounts)
      ensures nextMatchId == old(nextMatchId)
    {
      LiveUpdateKeeps(waiting, live, matches, nextMatchId, log, matchId, st);
      LogAppendQuiet(log, matches, AnswerSubmitted(matchId, userId));
      live := live[matchId := st];
      log := log + [AnswerSubmitted(matchId, userId)];
    }

    /**
     * `match:submit_answer`: ignored unless `AcceptsSubmission`. Otherwise the
     * player's record is updated (latest answer and time, first time kept,
     * first-correct time sticky), and once both players have a record the match
     * completes for reason both_submitted.
     */
    method SubmitAnswer(userId: int, matchId: int, answer: string, now: int)
      requires Valid()
      modifies this
      ensures Valid() && StatusForward()
      ensures !old(AcceptsSubmission(userId, matchId)) ==> Unchanged()
      ensures old(AcceptsSubmission(userId, matchId)) ==>
        var st := Recorded(old(live)[matchId], userId, answer, now);
        var log0 := old(log) + [AnswerSubmitted(matchId, userId)];
        if st.p1 in st.submissions && st.p2 in st.submissions
        then CompletedFrom(matchId, st, log0, None, BothSubmitted)
        else && live == old(live)[matchId := st] && log == log0
             && waiting == old(waiting) && matches == old(matches) && accounts == old(accounts)
             && nextMatchId == old(nextMatchId)
    {
      if !AcceptsSubmission(userId, matchId) {
        return;
      }
      var st := Recorded(live[matchId], userId, answer, now);
      RecordSubmission(userId, matchId, st);
      if st.p1 in st.submissions && st.p2 in st.submissions {
        assert live - {matchId} == old(live) - {matchId};
        FinishMatch(matchId, None, BothSubmitted);
      }
    }

    /**
     * `match:surrender`: for a player of a match that has not ended, the match
     * completes with the other player declared winner, which does nothing unless
     * the match is running. Anything else is ignored.
     */
    method MatchSurrender(userId: int, matchId: int)
      requires Valid()
      modifies this
      ensures Valid() && StatusForward()
      ensures !(userId != 0 && matchId in old(matches) && old(matches)[matchId].status != Ended &&
                IsPlayer(old(matches)[matchId], userId) && matchId in old(live) && old(live)[matchId].running) ==>
        Unchanged()
      ensures userId != 0 && matchId in old(matches) && old(matches)[matchId].status != Ended &&
              IsPlayer(old(matches)[matchId], userId) && matchId in old(live) && old(live)[matchId].running ==>
        var m := old(matches)[matchId];
        CompletedFrom(matchId, old(live)[matchId], old(log), Some(SurrenderWinner(userId, m.player1, m.player2)), Surrender)
    {
      if userId == 0 || matchId !in matches {
        return;
      }
      var m := matches[matchId];
      if m.status == Ended || !IsPlayer(m, userId) {
        return;
      }
      FinishMatch(matchId, Some(SurrenderWinner(userId, m.player1, m.player2)), Surrender);
    }
  }
}
