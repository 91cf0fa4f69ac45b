/**
 * The in-memory matchmaking queue of app.py: the waiting list, the two filters
 * that drop entries from it, and the scan that finds the closest-rated opponent.
 */
module Queue {
  import opened Wrappers

  /** One waiting player: who, under which name and rating, on which socket, since when. */
  datatype QueueEntry = QueueEntry(userId: int, username: string, rating: int, sid: string, joinedAt: int)

  function Abs(x: int): nat
  {
    if x < 0 then -x else x
  }

  /** The rating gap between a waiting entry and the joining player. */
  function Gap(e: QueueEntry, joiner: QueueEntry): nat
  {
    Abs(e.rating - joiner.rating)
  }

  /** At most one entry per user. */
  predicate UniqueUsers(q: seq<QueueEntry>)
  {
    forall i, j :: 0 <= i < j < |q| ==> q[i].userId != q[j].userId
  }

  /** The list comprehension `[e for e in q if keep(e)]`. */
  function Keep(q: seq<QueueEntry>, keep: QueueEntry -> bool): (r: seq<QueueEntry>)
    ensures |r| <= |q|
    ensures forall e :: e in r <==> e in q && keep(e)
  {
    if q == [] then []
    else (if keep(q[0]) then [q[0]] else []) + Keep(q[1..], keep)
  }

  /** Filtering distributes over concatenation: kept entries stay in their original order. */
  lemma {:induction false} KeepAppend(a: seq<QueueEntry>, b: seq<QueueEntry>, keep: QueueEntry -> bool)
    ensures Keep(a + b, keep) == Keep(a, keep) + Keep(b, keep)
  {
    if a == [] {
      assert a + b == b;
    } else {
      assert (a + b)[0] == a[0];
      assert (a + b)[1..] == a[1..] + b;
      KeepAppend(a[1..], b, keep);
    }
  }

  /** When every entry is kept the queue is unchanged. */
  lemma {:induction false} KeepAll(q: seq<QueueEntry>, keep: QueueEntry -> bool)
    requires forall e :: e in q ==> keep(e)
    ensures Keep(q, keep) == q
  {
    if q != [] {
      KeepAll(q[1..], keep);
    }
  }

  /** Filtering never creates two entries for one user. */
  lemma {:induction false} KeepUnique(q: seq<QueueEntry>, keep: QueueEntry -> bool)
    requires UniqueUsers(q)
    ensures UniqueUsers(Keep(q, keep))
  {
    if q != [] {
      var rest := Keep(q[1..], keep);
      KeepUnique(q[1..], keep);
      forall e | e in rest ensures e.userId != q[0].userId {
        var k :| 0 <= k < |q[1..]| && q[1..][k] == e;
        assert q[k + 1] == e;
      }
    }
  }

  /** The filter condition of `remove_from_queue_by_user`. */
  function OtherUser(userId: int): QueueEntry -> bool
  {
    (e: QueueEntry) => e.userId != userId
  }

  /** The filter condition of `remove_from_queue_by_sid`. */
  function OtherSid(sid: string): QueueEntry -> bool
  {
    (e: QueueEntry) => e.sid != sid
  }

  /** `remove_from_queue_by_user`: every entry of that user goes, every other entry stays. */
  function WithoutUser(q: seq<QueueEntry>, userId: int): (r: seq<QueueEntry>)
    ensures forall e :: e in r <==> e in q && e.userId != userId
  {
    Keep(q, OtherUser(userId))
  }

  /** `remove_from_queue_by_sid`: every entry on that socket goes, every other entry stays. */
  function WithoutSid(q: seq<QueueEntry>, sid: string): (r: seq<QueueEntry>)
    ensures forall e :: e in r <==> e in q && e.sid != sid
  {
    Keep(q, OtherSid(sid))
  }

  /** Removing a user or a socket that is not queued leaves the queue exactly as it was. */
  lemma RemoveAbsent(q: seq<QueueEntry>, userId: int, sid: string)
    ensures (forall e :: e in q ==> e.userId != userId) ==> WithoutUser(q, userId) == q
    ensures (forall e :: e in q ==> e.sid != sid) ==> WithoutSid(q, sid) == q
  {
    if forall e :: e in q ==> e.userId != userId {
      KeepAll(q, OtherUser(userId));
    }
    if forall e :: e in q ==> e.sid != sid {
      KeepAll(q, OtherSid(sid));
    }
  }

  /** Both removals keep the surviving entries in queue order and the queue free of duplicate users. */
  lemma RemovePreservesOrderAndUniqueness(a: seq<QueueEntry>, b: seq<QueueEntry>, userId: int, sid: string)
    ensures WithoutUser(a + b, userId) == WithoutUser(a, userId) + WithoutUser(b, userId)
    ensures WithoutSid(a + b, sid) == WithoutSid(a, sid) + WithoutSid(b, sid)
    ensures UniqueUsers(a) ==> UniqueUsers(WithoutUser(a, userId)) && UniqueUsers(WithoutSid(a, sid))
  {
    KeepAppend(a, b, OtherUser(userId));
    KeepAppend(a, b, OtherSid(sid));
    if UniqueUsers(a) {
      KeepUnique(a, OtherUser(userId));
      KeepUnique(a, OtherSid(sid));
    }
  }

  /**
   * Among the first `k` entries, entry `i` belongs to another user, no other user's
   * entry has a smaller gap, and every other user's entry before `i` has a larger one.
   */
  predicate BestSoFar(q: seq<QueueEntry>, joiner: QueueEntry, i: int, k: int)
    requires 0 <= k <= |q|
  {
    && 0 <= i < k
    && q[i].userId != joiner.userId
    && (forall j :: 0 <= j < k && q[j].userId != joiner.userId ==> Gap(q[i], joiner) <= Gap(q[j], joiner))
    && (forall j :: 0 <= j < i && q[j].userId != joiner.userId ==> Gap(q[i], joiner) < Gap(q[j], joiner))
  }

  /** Entry `i` is the opponent the scan must pick: the earliest one with the smallest gap. */
  predicate IsBestOpponent(q: seq<QueueEntry>, joiner: QueueEntry, i: int)
  {
    BestSoFar(q, joiner, i, |q|)
  }

  /** The scan's specification pins down a single entry. */
  lemma BestOpponentUnique(q: seq<QueueEntry>, joiner: QueueEntry, i: int, j: int)
    requires IsBestOpponent(q, joiner, i) && IsBestOpponent(q, joiner, j)
    ensures i == j
  {
  }

  /**
   * `find_best_opponent`: `None` exactly when every waiting entry belongs to the
   * joining user; otherwise the earliest waiting entry of another user with the
   * smallest rating gap (a later entry replaces the current best only on a strictly
   * smaller gap).
   */
  method FindBestOpponent(waiting: seq<QueueEntry>, joiner: QueueEntry) returns (best: Option<QueueEntry>)
    ensures best.None? <==> forall e :: e in waiting ==> e.userId == joiner.userId
    ensures best.Some? ==> best.value in waiting && best.value.userId != joiner.userId
    ensures best.Some? ==> exists i :: IsBestOpponent(waiting, joiner, i) && waiting[i] == best.value
  {
    best := None;
    var bestGap := 0;
    ghost var at := 0;
    for k := 0 to |waiting|
      invariant best.None? ==> forall j :: 0 <= j < k ==> waiting[j].userId == joiner.userId
      invariant best.Some? ==> BestSoFar(waiting, joiner, at, k) && waiting[at] == best.value
      invariant best.Some? ==> bestGap == Gap(best.value, joiner)
    {
      var e := waiting[k];
      if e.userId != joiner.userId {
        var gap := Gap(e, joiner);
        if best.None? || gap < bestGap {
          best := Some(e);
          bestGap := gap;
          at := k;
        }
      }
    }
  }

  /** The pairing example: a player rated 1010 is matched with the 1000 entry, not 900 or 1400. */
  method PairingExample()
  {
    var a := QueueEntry(1, "a", 900, "s1", 0);
    var b := QueueEntry(2, "b", 1000, "s2", 1);
    var c := QueueEntry(3, "c", 1400, "s3", 2);
    var joiner := QueueEntry(4, "d", 1010, "s4", 3);
    var best := FindBestOpponent([a, b, c], joiner);
    assert best.Some?;
    var i :| IsBestOpponent([a, b, c], joiner, i) && [a, b, c][i] == best.value;
    assert Gap([a, b, c][1], joiner) == 10;
    assert i == 1;
    assert best == Some(b);
  }
}
