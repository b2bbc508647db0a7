/** Saving an edited rotation (functions/update_rotation.ts). */
module UpdateRotation {
  import opened Wrappers
  import opened SeqUtil
  import opened Consts
  import opened RotationRecord
  import opened RemoveUserFromRotation

  /** The edit form's values. */
  datatype UpdateInputs = UpdateInputs(
    triggerId: string,
    name: string,
    channel: string,
    roster: seq<UserId>,
    time: string,
    frequency: string,
    repeatsEvery: int,
    onDays: Option<seq<DayOfWeek>>)

  /** The TypeErrors the write as written can raise. */
  datatype UpdateError =
    | QueueMissing      // `.filter` read from a missing `current_queue`
    | UnboundSetMethod  // `Set.prototype.has` called without its Set

  /**
   * The fields the update writes. A missing `on_days` is not serialized, so the
   * stored value is kept; `trigger_ids` is not written.
   */
  function Overwrite(stored: Rotation, inputs: UpdateInputs, queue: Option<seq<UserId>>): Rotation {
    stored.(
      triggerId := inputs.triggerId,
      channel := inputs.channel,
      name := inputs.name,
      roster := inputs.roster,
      currentQueue := queue,
      frequency := inputs.frequency,
      time := inputs.time,
      repeatsEvery := inputs.repeatsEvery,
      onDays := if inputs.onDays.Some? then inputs.onDays else stored.onDays)
  }

  /**
   * The write as the code has it: `current_queue.filter(roster.has)`. A missing
   * queue has no `filter`, and the detached `has` throws as soon as it is called,
   * which is on the first element; only an empty queue gets through.
   */
  function UpdateAsWritten(stored: Rotation, inputs: UpdateInputs): (r: Result<Rotation, UpdateError>)
    ensures stored.currentQueue.None? ==> r == Err(QueueMissing)
    ensures stored.currentQueue.Some? && |stored.currentQueue.value| > 0 ==> r == Err(UnboundSetMethod)
    ensures r.Ok? <==> stored.currentQueue == Some([])
    ensures r.Ok? ==> r.value.roster == inputs.roster && r.value.currentQueue == Some([])
  {
    match stored.currentQueue
    case None => Err(QueueMissing)
    case Some(q) =>
      if |q| == 0 then Ok(Overwrite(stored, inputs, Some([]))) else Err(UnboundSetMethod)
  }

  /**
   * The write as intended, with the Set method bound and a missing queue left
   * missing as in the removal: the roster is stored exactly as given (repeats
   * included), the queue keeps only members of the new roster in their order,
   * and members new to the roster do not join the current queue.
   */
  function Update(stored: Rotation, inputs: UpdateInputs): (r: Rotation)
    ensures r.roster == inputs.roster
    ensures r.currentQueue.None? <==> stored.currentQueue.None?
    ensures r.currentQueue.Some? ==>
      && (forall u :: u in r.currentQueue.value <==> u in stored.currentQueue.value && u in inputs.roster)
      && IsSubsequence(r.currentQueue.value, stored.currentQueue.value)
      && |r.currentQueue.value| <= |stored.currentQueue.value|
      && forall u :: multiset(r.currentQueue.value)[u] == if u in inputs.roster then multiset(stored.currentQueue.value)[u] else 0
    ensures r.currentQueue == ReconcileQueue(stored.currentQueue, inputs.roster)
    ensures QueueWithinRoster(r)
    ensures r.name == inputs.name && r.channel == inputs.channel && r.triggerId == inputs.triggerId
    ensures r.time == inputs.time && r.frequency == inputs.frequency && r.repeatsEvery == inputs.repeatsEvery
    ensures r.onDays == if inputs.onDays.Some? then inputs.onDays else stored.onDays
    ensures r.triggerIds == stored.triggerIds
  {
    Overwrite(stored, inputs, ReconcileQueue(stored.currentQueue, inputs.roster))
  }

  /**
   * Any non-empty stored queue makes the write as written throw, even when every
   * queued member stays on the roster; the intended write keeps that queue whole.
   */
  lemma UnboundHasRejectsKeptQueue(stored: Rotation, inputs: UpdateInputs)
    requires stored.currentQueue == Some(["U1"]) && inputs.roster == ["U1", "U2"]
    ensures UpdateAsWritten(stored, inputs) == Err(UnboundSetMethod)
    ensures Update(stored, inputs).currentQueue == Some(["U1"])
  {
    assert "U1" in inputs.roster;
    KeepMembersOfSubset(["U1"], inputs.roster);
  }

  /**
   * A rotation saved without a queue makes the write as written throw; the
   * intended write, like the removal, leaves the queue missing.
   */
  lemma MissingQueueRejected(stored: Rotation, inputs: UpdateInputs)
    requires stored.currentQueue.None?
    ensures UpdateAsWritten(stored, inputs) == Err(QueueMissing)
    ensures Update(stored, inputs).currentQueue.None?
  {
  }

  /**
   * Removing a user narrows the queue exactly as saving the roster that the
   * removal produces would.
   */
  lemma RemovalIsRosterUpdate(stored: Rotation, user: UserId, inputs: UpdateInputs)
    requires inputs.roster == RemoveUser(stored, user).roster
    ensures Update(stored, inputs).currentQueue == RemoveUser(stored, user).currentQueue
  {
  }
}
