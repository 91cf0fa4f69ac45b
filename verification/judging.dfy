/**
 * The pure part of a live match in app.py: how one player's submission record is
 * updated, how the winner is chosen when the match completes, and which Elo
 * scores the two players receive.
 */
module Judging {
  import opened Wrappers
  import opened Answers

  /** Why a match completed: the countdown ran out, both players answered, or one gave up. */
  datatype Reason = Time | BothSubmitted | Surrender

  /**
   * One player's record in a live match: the latest answer and when it came, when
   * the first answer came, and when the first correct answer came (if any).
   */
  datatype Submission = Submission(answer: string, ts: int, firstTs: int, firstCorrectTs: Option<int>)

  /** A record whose latest answer is correct has a first-correct timestamp. */
  predicate Consistent(s: Submission, correct: string)
  {
    IsCorrect(s.answer, correct) ==> s.firstCorrectTs.Some?
  }

  /**
   * A new submission of `ans` at time `now`: the answer and its time are always the
   * latest; the first-submission time is set once; the first-correct time is set by
   * the first correct answer and kept afterwards.
   */
  function Resubmit(prev: Option<Submission>, ans: string, now: int, correct: string): (s: Submission)
    ensures s.answer == ans && s.ts == now
    ensures s.firstTs == if prev.Some? then prev.value.firstTs else now
    ensures prev.Some? && prev.value.firstCorrectTs.Some? ==> s.firstCorrectTs == prev.value.firstCorrectTs
    ensures s.firstCorrectTs.Some? ==> (prev.Some? && prev.value.firstCorrectTs == s.firstCorrectTs) || (IsCorrect(ans, correct) && s.firstCorrectTs == Some(now))
    ensures Consistent(s, correct)
  {
    var first := if prev.Some? then prev.value.firstTs else now;
    var firstCorrect := if prev.Some? then prev.value.firstCorrectTs else None;
    var firstCorrect' := if firstCorrect.None? && IsCorrect(ans, correct) then Some(now) else firstCorrect;
    Submission(ans, now, first, firstCorrect')
  }

  /** The record left by a player's submissions, given in arrival order as (answer, time) pairs. */
  function Replay(subs: seq<(string, int)>, correct: string): Option<Submission>
  {
    if subs == [] then None
    else
      var last := subs[|subs| - 1];
      Some(Resubmit(Replay(subs[..|subs| - 1], correct), last.0, last.1, correct))
  }

  /** Reference definition: the time of the earliest correct submission in the list. */
  function FirstCorrect(subs: seq<(string, int)>, correct: string): Option<int>
  {
    if subs == [] then None
    else if IsCorrect(subs[0].0, correct) then Some(subs[0].1)
    else FirstCorrect(subs[1..], correct)
  }

  lemma {:induction false} FirstCorrectSnoc(subs: seq<(string, int)>, x: (string, int), correct: string)
    ensures FirstCorrect(subs + [x], correct) ==
      if FirstCorrect(subs, correct).Some? then FirstCorrect(subs, correct)
      else if IsCorrect(x.0, correct) then Some(x.1) else None
  {
    if subs == [] {
      assert [] + [x] == [x];
    } else {
      assert (subs + [x])[1..] == subs[1..] + [x];
      FirstCorrectSnoc(subs[1..], x, correct);
    }
  }

  /**
   * Whatever the sequence of submissions, the record holds the last answer and its
   * time, the time of the first submission, and the time of the earliest correct one.
   */
  lemma {:induction false} ReplayRecord(subs: seq<(string, int)>, correct: string)
    requires subs != []
    ensures Replay(subs, correct).Some?
    ensures Replay(subs, correct).value.answer == subs[|subs| - 1].0
    ensures Replay(subs, correct).value.ts == subs[|subs| - 1].1
    ensures Replay(subs, correct).value.firstTs == subs[0].1
    ensures Replay(subs, correct).value.firstCorrectTs == FirstCorrect(subs, correct)
  {
    var init := subs[..|subs| - 1];
    var last := subs[|subs| - 1];
    var prev := Replay(init, correct);
    assert Replay(subs, correct) == Some(Resubmit(prev, last.0, last.1, correct));
    assert init + [last] == subs;
    FirstCorrectSnoc(init, last, correct);
    if init == [] {
      assert prev == None;
    } else {
      ReplayRecord(init, correct);
      assert init[0] == subs[0];
    }
  }

  /** Whether a player's final answer is correct; no submission counts as wrong. */
  predicate Solved(s: Option<Submission>, correct: string)
  {
    s.Some? && IsCorrect(s.value.answer, correct)
  }

  /**
   * The condition for `mine` to win outright: its final answer is correct and either
   * the other's is not, or both first-correct times are known and `mine`'s is earlier.
   */
  predicate Beats(mine: Option<Submission>, theirs: Option<Submission>, correct: string)
  {
    && Solved(mine, correct)
    && (!Solved(theirs, correct) ||
        (mine.value.firstCorrectTs.Some? && theirs.value.firstCorrectTs.Some? &&
         mine.value.firstCorrectTs.value < theirs.value.firstCorrectTs.value))
  }

  /**
   * The winner-selection branch of `finish_match` for a completion other than a
   * surrender: only player 1, player 2 or nobody can win, and (for two distinct
   * players) each one wins exactly when it beats the other.
   */
  function Judge(p1: int, p2: int, sub1: Option<Submission>, sub2: Option<Submission>, correct: string): (w: Option<int>)
    ensures w == None || w == Some(p1) || w == Some(p2)
    ensures p1 != p2 ==> (w == Some(p1) <==> Beats(sub1, sub2, correct))
    ensures p1 != p2 ==> (w == Some(p2) <==> Beats(sub2, sub1, correct))
  {
    var ok1 := Solved(sub1, correct);
    var ok2 := Solved(sub2, correct);
    if ok1 && !ok2 then Some(p1)
    else if ok2 && !ok1 then Some(p2)
    else if ok1 && ok2 then
      var t1 := sub1.value.firstCorrectTs;
      var t2 := sub2.value.firstCorrectTs;
      if t1.None? || t2.None? then None
      else if t1.value < t2.value then Some(p1)
      else if t2.value < t1.value then Some(p2)
      else None
    else None
  }

  /** Swapping the two players swaps nothing in the verdict. */
  lemma JudgeSymmetric(p1: int, p2: int, sub1: Option<Submission>, sub2: Option<Submission>, correct: string)
    requires p1 != p2
    ensures Judge(p2, p1, sub2, sub1, correct) == Judge(p1, p2, sub1, sub2, correct)
  {
  }

  /**
   * With consistent records, two correct final answers are never a draw for want of
   * a timestamp: the earlier first-correct time wins and only equal times draw.
   */
  lemma {:induction false} JudgeBothCorrect(p1: int, p2: int, s1: Submission, s2: Submission, correct: string)
    requires p1 != p2
    requires Consistent(s1, correct) && Consistent(s2, correct)
    requires IsCorrect(s1.answer, correct) && IsCorrect(s2.answer, correct)
    ensures s1.firstCorrectTs.Some? && s2.firstCorrectTs.Some?
    ensures Judge(p1, p2, Some(s1), Some(s2), correct) ==
      if s1.firstCorrectTs.value < s2.firstCorrectTs.value then Some(p1)
      else if s2.firstCorrectTs.value < s1.firstCorrectTs.value then Some(p2)
      else None
  {
    assert Solved(Some(s1), correct) && Solved(Some(s2), correct);
  }

  /** Exactly one correct final answer wins; none correct is a draw. */
  lemma JudgeOneOrNoneCorrect(p1: int, p2: int, sub1: Option<Submission>, sub2: Option<Submission>, correct: string)
    ensures Solved(sub1, correct) && !Solved(sub2, correct) ==> Judge(p1, p2, sub1, sub2, correct) == Some(p1)
    ensures !Solved(sub1, correct) && Solved(sub2, correct) ==> Judge(p1, p2, sub1, sub2, correct) == Some(p2)
    ensures !Solved(sub1, correct) && !Solved(sub2, correct) ==> Judge(p1, p2, sub1, sub2, correct) == None
  {
  }

  /** On surrender the other participant is declared the winner. */
  function SurrenderWinner(userId: int, p1: int, p2: int): (w: int)
    requires userId == p1 || userId == p2
    ensures p1 != p2 ==> w != userId
    ensures w == p1 || w == p2
  {
    if userId == p1 then p2 else p1
  }

  /** The winner recorded by `finish_match`: the declared one on surrender, the judged one otherwise. */
  function Verdict(reason: Reason, declared: Option<int>, p1: int, p2: int,
                   sub1: Option<Submission>, sub2: Option<Submission>, correct: string): (w: Option<int>)
    ensures reason == Surrender ==> w == declared
    ensures reason != Surrender ==> w == None || w == Some(p1) || w == Some(p2)
  {
    if reason == Surrender then declared else Judge(p1, p2, sub1, sub2, correct)
  }

  /**
   * The Elo scores of the two players: 1 and 0 for a win by player 1, 0 and 1 for a
   * win by player 2, a half each otherwise. They always sum to one.
   */
  function Scores(winner: Option<int>, p1: int, p2: int): (s: (real, real))
    ensures s.0 + s.1 == 1.0
    ensures s.0 == 1.0 <==> winner == Some(p1)
    ensures p1 != p2 ==> (s.1 == 1.0 <==> winner == Some(p2))
    ensures winner != Some(p1) && winner != Some(p2) ==> s == (0.5, 0.5)
  {
    if winner == Some(p1) then (1.0, 0.0)
    else if winner == Some(p2) then (0.0, 1.0)
    else (0.5, 0.5)
  }
}
