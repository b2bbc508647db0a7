/** The shape of a stored rotation (datastores/rotation.ts). */
module RotationRecord {
  import opened Wrappers
  import opened Consts

  /** A Slack user id. */
  type UserId = string

  /**
   * One stored rotation. The roster is required; `current_queue`, `on_days` and
   * `trigger_ids` are optional and may be missing from the record.
   */
  datatype Rotation = Rotation(
    triggerId: string,
    name: string,
    channel: string,
    roster: seq<UserId>,
    currentQueue: Option<seq<UserId>>,
    time: string,
    frequency: string,
    repeatsEvery: int,
    onDays: Option<seq<DayOfWeek>>,
    triggerIds: Option<seq<string>>)

  /** The `Schedule` object: what a trigger's recurrence and its summary are built from. */
  datatype Schedule = Schedule(
    frequency: string,
    repeatsEvery: int,
    onDays: Option<seq<DayOfWeek>>,
    time: string)

  /** Every member of the queue is on the roster (a missing queue has no members). */
  predicate QueueWithinRoster(r: Rotation) {
    r.currentQueue.Some? ==> forall u :: u in r.currentQueue.value ==> u in r.roster
  }
}
