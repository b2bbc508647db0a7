/** Taking a member out of a rotation (functions/remove_user_from_rotation.ts). */
module RemoveUserFromRotation {
  import opened Wrappers
  import opened SeqUtil
  import opened RotationRecord

  /**
   * `current_queue?.filter(roster.has.bind(roster))`: the queue narrowed to roster
   * members, in its own order; a missing queue stays missing.
   */
  function ReconcileQueue(queue: Option<seq<UserId>>, roster: seq<UserId>): (q: Option<seq<UserId>>)
    ensures q.None? <==> queue.None?
    ensures q.Some? ==> forall u :: u in q.value <==> u in queue.value && u in roster
    ensures q.Some? ==> forall u :: multiset(q.value)[u] == if u in roster then multiset(queue.value)[u] else 0
    ensures q.Some? ==> IsSubsequence(q.value, queue.value) && |q.value| <= |queue.value|
  {
    match queue
    case None => None
    case Some(members) => Some(KeepMembers(members, roster))
  }

  /**
   * Removing `user`: the roster loses every copy of `user` and then every repeated
   * member (a Set keeps first occurrences), and the queue is narrowed to the new
   * roster. The other fields are not written.
   */
  function RemoveUser(r: Rotation, user: UserId): (r': Rotation)
    ensures user !in r'.roster
    ensures forall u :: u in r'.roster <==> u in r.roster && u != user
    ensures NoDuplicates(r'.roster)
    ensures forall i, j :: 0 <= i < j < |r'.roster| ==> IndexOf(r.roster, r'.roster[i]) < IndexOf(r.roster, r'.roster[j])
    ensures r'.currentQueue.None? <==> r.currentQueue.None?
    ensures r'.currentQueue.Some? ==>
      && (forall u :: u in r'.currentQueue.value <==> u in r.currentQueue.value && u in r'.roster)
      && IsSubsequence(r'.currentQueue.value, r.currentQueue.value)
      && |r'.currentQueue.value| <= |r.currentQueue.value|
      && forall u :: multiset(r'.currentQueue.value)[u] == if u in r'.roster then multiset(r.currentQueue.value)[u] else 0
    ensures r'.currentQueue == ReconcileQueue(r.currentQueue, r'.roster)
    ensures QueueWithinRoster(r')
    ensures r' == r.(roster := r'.roster, currentQueue := r'.currentQueue)
  {
    var kept := Without(r.roster, user);
    var roster := Dedup(kept);
    assert forall i, j :: 0 <= i < j < |roster| ==> IndexOf(r.roster, roster[i]) < IndexOf(r.roster, roster[j]) by {
      DedupKeepsFirstOccurrenceOrder(kept);
      forall i, j | 0 <= i < j < |roster| ensures IndexOf(r.roster, roster[i]) < IndexOf(r.roster, roster[j]) {
        WithoutKeepsFirstOccurrenceOrder(r.roster, user, roster[i], roster[j]);
      }
    }
    r.(roster := roster, currentQueue := ReconcileQueue(r.currentQueue, roster))
  }

  /** Removing the same user a second time changes nothing. */
  lemma RemoveUserIdempotent(r: Rotation, user: UserId)
    ensures RemoveUser(RemoveUser(r, user), user) == RemoveUser(r, user)
  {
    var once := RemoveUser(r, user);
    DedupOfDistinct(once.roster);
    if once.currentQueue.Some? {
      KeepMembersIdempotent(r.currentQueue.value, once.roster);
    }
  }
}
