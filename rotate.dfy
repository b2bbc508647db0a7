/**
 * The rotation step of functions/rotate.ts: skip or postpone whoever is at the
 * front of the queue, restarting from the roster once the queue is used up.
 */
module RotationQueue {
  import opened Wrappers
  import opened RotationRecord

  datatype Mode = Skip | Postpone

  /** The `mode` input: only the exact text "skip" skips; every other value postpones. */
  function ModeOf(input: string): (m: Mode)
    ensures m == Skip <==> input == "skip"
  {
    if input == "skip" then Skip else Postpone
  }

  /** The queue written back after one step (`newQueue`). */
  function NextQueue(queue: Option<seq<UserId>>, roster: seq<UserId>, mode: Mode): seq<UserId> {
    if queue.Some? && |queue.value| > 1 then
      var q := queue.value;
      match mode
      case Skip => q[1..]
      case Postpone => [q[1], q[0]] + q[2..]
    else roster
  }

  /** One rotation: only `current_queue` is written back; every other field is kept. */
  function Rotate(r: Rotation, mode: Mode): (r': Rotation)
    ensures r'.currentQueue == Some(NextQueue(r.currentQueue, r.roster, mode))
    ensures r' == r.(currentQueue := r'.currentQueue)
  {
    r.(currentQueue := Some(NextQueue(r.currentQueue, r.roster, mode)))
  }

  /** `k` consecutive rotations in the same mode. */
  function RotateTimes(r: Rotation, mode: Mode, k: nat): Rotation {
    if k == 0 then r else Rotate(RotateTimes(r, mode, k - 1), mode)
  }

  /** Whoever a queue puts on duty: its front, if it has one. */
  function Front(queue: Option<seq<UserId>>): Option<UserId> {
    if queue.Some? && |queue.value| > 0 then Some(queue.value[0]) else None
  }

  /** Skipping a queue of two or more drops its front and keeps the rest in order. */
  lemma SkipDropsFront(queue: seq<UserId>, roster: seq<UserId>)
    requires |queue| > 1
    ensures NextQueue(Some(queue), roster, Skip) == queue[1..]
    ensures |NextQueue(Some(queue), roster, Skip)| == |queue| - 1
  {
  }

  /**
   * Postponing a queue of two or more swaps its first two members and leaves
   * the rest in place, so length and multiset are kept and the front changes hands.
   */
  lemma PostponeSwapsFront(queue: seq<UserId>, roster: seq<UserId>)
    requires |queue| > 1
    ensures var q' := NextQueue(Some(queue), roster, Postpone);
      && |q'| == |queue|
      && q'[0] == queue[1] && q'[1] == queue[0]
      && q'[2..] == queue[2..]
      && multiset(q') == multiset(queue)
  {
    var q' := NextQueue(Some(queue), roster, Postpone);
    assert queue == [queue[0], queue[1]] + queue[2..];
  }

  /**
   * A missing queue, or one with at most one member, restarts from the roster
   * in both modes: at the end of a cycle postponing is the same as skipping.
   */
  lemma ExhaustedQueueResets(queue: Option<seq<UserId>>, roster: seq<UserId>, mode: Mode)
    requires queue.None? || |queue.value| <= 1
    ensures NextQueue(queue, roster, mode) == roster
    ensures NextQueue(queue, roster, Postpone) == NextQueue(queue, roster, Skip)
  {
  }

  /** A queue drawn from the roster stays drawn from the roster after a rotation. */
  lemma RotatePreservesQueueWithinRoster(r: Rotation, mode: Mode)
    requires QueueWithinRoster(r)
    ensures QueueWithinRoster(Rotate(r, mode))
  {
    var q' := NextQueue(r.currentQueue, r.roster, mode);
    if r.currentQueue.Some? && |r.currentQueue.value| > 1 && mode == Postpone {
      var q := r.currentQueue.value;
      assert forall u :: u in q' ==> u in q by {
        assert q == [q[0], q[1]] + q[2..];
      }
    }
  }

  /** Postponing twice restores a queue of two or more. */
  lemma PostponeInvolution(r: Rotation)
    requires r.currentQueue.Some? && |r.currentQueue.value| > 1
    ensures RotateTimes(r, Postpone, 2) == r
  {
    var q := r.currentQueue.value;
    assert NextQueue(Some(NextQueue(Some(q), r.roster, Postpone)), r.roster, Postpone) == q by {
      assert q == [q[0], q[1]] + q[2..];
    }
    assert RotateTimes(r, Postpone, 1) == Rotate(r, Postpone) by {
      assert RotateTimes(r, Postpone, 0) == r;
    }
  }

  /**
   * From a fresh cycle (queue equal to a roster of n members), k < n skips leave
   * the roster without its first k members.
   */
  lemma {:induction false} SkipsWalkRoster(r: Rotation, k: nat)
    requires r.currentQueue == Some(r.roster)
    requires k < |r.roster|
    ensures RotateTimes(r, Skip, k) == r.(currentQueue := Some(r.roster[k..]))
  {
    if k > 0 {
      SkipsWalkRoster(r, k - 1);
      var prev := RotateTimes(r, Skip, k - 1);
      assert prev.currentQueue.value[1..] == r.roster[k..];
    } else {
      assert r.roster[0..] == r.roster;
    }
  }

  /**
   * The skip cycle: starting from queue = roster with n >= 1 members, the fronts
   * seen after 1, 2, ..., n-1 skips are roster[1], ..., roster[n-1], and the n-th
   * skip restores the queue to the whole roster, with roster[0] in front again.
   */
  lemma SkipCycle(r: Rotation)
    requires r.currentQueue == Some(r.roster) && |r.roster| >= 1
    ensures forall k :: 1 <= k < |r.roster| ==> Front(RotateTimes(r, Skip, k).currentQueue) == Some(r.roster[k])
    ensures RotateTimes(r, Skip, |r.roster|) == r
    ensures Front(RotateTimes(r, Skip, |r.roster|).currentQueue) == Some(r.roster[0])
  {
    forall k | 1 <= k < |r.roster| ensures Front(RotateTimes(r, Skip, k).currentQueue) == Some(r.roster[k]) {
      SkipsReach(r, k);
    }
    SkipsRestart(r);
  }

  /** After k < n skips the k-th member is on duty. */
  lemma SkipsReach(r: Rotation, k: nat)
    requires r.currentQueue == Some(r.roster) && k < |r.roster|
    ensures Front(RotateTimes(r, Skip, k).currentQueue) == Some(r.roster[k])
  {
    SkipsWalkRoster(r, k);
  }

  /** The n-th skip restarts the cycle from the roster. */
  lemma SkipsRestart(r: Rotation)
    requires r.currentQueue == Some(r.roster) && |r.roster| >= 1
    ensures RotateTimes(r, Skip, |r.roster|) == r
  {
    var n := |r.roster|;
    SkipsWalkRoster(r, n - 1);
    var last := RotateTimes(r, Skip, n - 1);
    assert last == r.(currentQueue := Some(r.roster[n - 1..]));
    assert NextQueue(last.currentQueue, last.roster, Skip) == r.roster;
    assert RotateTimes(r, Skip, n) == Rotate(last, Skip) == r;
  }
}
