/**
 * The message of functions/list_rotations.ts: who is up next in each rotation,
 * the summary of each rotation, and how the summaries, their buttons and the
 * dividers between them are laid out.
 */
module ListRotations {
  import opened Wrappers
  import opened SeqUtil
  import opened RotationRecord
  import opened RotationQueue
  import opened RotationForm

  /**
   * `current_queue?.[1] ?? roster[0]`: the second in the queue when there is one,
   * otherwise the first on the roster (missing when the roster is empty).
   */
  function NextUp(r: Rotation): (u: Option<UserId>)
    ensures r.currentQueue.Some? && |r.currentQueue.value| >= 2 ==> u == Some(r.currentQueue.value[1])
    ensures !(r.currentQueue.Some? && |r.currentQueue.value| >= 2) && |r.roster| > 0 ==> u == Some(r.roster[0])
    ensures u.None? <==> !(r.currentQueue.Some? && |r.currentQueue.value| >= 2) && |r.roster| == 0
  {
    if r.currentQueue.Some? && |r.currentQueue.value| >= 2 then Some(r.currentQueue.value[1])
    else if |r.roster| > 0 then Some(r.roster[0])
    else None
  }

  /** The preview names exactly whoever a skip would put on duty. */
  lemma NextUpAgreesWithSkip(r: Rotation)
    ensures NextUp(r) == Front(Rotate(r, Skip).currentQueue)
  {
    if r.currentQueue.Some? && |r.currentQueue.value| >= 2 {
      SkipDropsFront(r.currentQueue.value, r.roster);
    }
  }

  /** `<@member>`: a user mention. */
  function Mention(u: UserId): string {
    "<@" + u + ">"
  }

  function Mentions(roster: seq<UserId>): (r: seq<string>)
    ensures |r| == |roster|
    ensures forall i :: 0 <= i < |roster| ==> r[i] == Mention(roster[i])
  {
    seq(|roster|, i requires 0 <= i < |roster| => Mention(roster[i]))
  }

  /** A template literal prints a missing value as "undefined". */
  function OrUndefined(u: Option<UserId>): string {
    match u
    case Some(v) => v
    case None => "undefined"
  }

  /**
   * The text of a rotation's summary section. `formatTime` stands for the
   * formatting of the rotation's time, which is outside the model.
   */
  function SummaryText(r: Rotation, formatTime: string -> string): (t: Result<string, FormatError>)
  {
    var schedule := Schedule(r.frequency, r.repeatsEvery, r.onDays, r.time);
    match FormatSchedule(schedule, formatTime(r.time))
    case Err(e) => Err(e)
    case Ok(text) =>
      Ok("*Name:* " + r.name
         + "\n*Channel:* <#" + r.channel
         + ">\n*Schedule:* " + text
         + "\n*Roster:* " + Join(Mentions(r.roster), ", ")
         + "\n*Next up:* " + Mention(OrUndefined(NextUp(r))))
  }

  /** A summary fails exactly when its schedule does. */
  lemma SummaryTextFails(r: Rotation, formatTime: string -> string)
    ensures SummaryText(r, formatTime).Err? <==> HasAnchors(r.frequency) && r.onDays.None?
    ensures SummaryText(r, formatTime).Ok? ==>
      var t := SummaryText(r, formatTime).value;
      var tail := "\n*Next up:* " + Mention(OrUndefined(NextUp(r)));
      |t| >= |tail| && t[|t| - |tail|..] == tail
  {
    var schedule := Schedule(r.frequency, r.repeatsEvery, r.onDays, r.time);
    if SummaryText(r, formatTime).Ok? {
      var text := FormatSchedule(schedule, formatTime(r.time)).value;
      var head := "*Name:* " + r.name
         + "\n*Channel:* <#" + r.channel
         + ">\n*Schedule:* " + text
         + "\n*Roster:* " + Join(Mentions(r.roster), ", ");
      var tail := "\n*Next up:* " + Mention(OrUndefined(NextUp(r)));
      assert SummaryText(r, formatTime).value == head + tail;
    }
  }

  /** The Block Kit blocks of the message. */
  datatype Block =
    | Divider
    | Summary(text: string)
    | Actions(triggerId: string)   // the Edit and Delete buttons, keyed by the trigger
    | NoRotations(channel: string) // the fallback section

  /** What one rotation contributes: a divider first for every rotation but the first. */
  function Piece(summary: string, triggerId: string, index: nat): seq<Block> {
    if index == 0 then [Summary(summary), Actions(triggerId)]
    else [Divider, Summary(summary), Actions(triggerId)]
  }

  /** The summary of every rotation, in order. */
  function SummaryResults(rotations: seq<Rotation>, formatTime: string -> string): (rs: seq<Result<string, FormatError>>)
    ensures |rs| == |rotations|
    ensures forall i :: 0 <= i < |rotations| ==> rs[i] == SummaryText(rotations[i], formatTime)
  {
    seq(|rotations|, i requires 0 <= i < |rotations| => SummaryText(rotations[i], formatTime))
  }

  /** Running the callbacks in order: the first failure aborts, otherwise all the texts. */
  function Collect(results: seq<Result<string, FormatError>>): (r: Result<seq<string>, FormatError>)
    ensures r.Ok? ==> |r.value| == |results|
  {
    if |results| == 0 then Ok([])
    else
      var n := |results| - 1;
      match Collect(results[..n])
      case Err(e) => Err(e)
      case Ok(texts) =>
        match results[n]
        case Err(e) => Err(e)
        case Ok(text) => Ok(texts + [text])
  }

  /** Collecting succeeds exactly when every callback does, and then keeps every text in place. */
  lemma {:induction false} CollectSpec(results: seq<Result<string, FormatError>>)
    ensures Collect(results).Ok? <==> forall i :: 0 <= i < |results| ==> results[i].Ok?
    ensures Collect(results).Ok? ==> forall i :: 0 <= i < |results| ==> Collect(results).value[i] == results[i].value
  {
    if |results| > 0 {
      var n := |results| - 1;
      CollectSpec(results[..n]);
      assert forall i :: 0 <= i < n ==> results[..n][i] == results[i];
    }
  }

  function TriggerIds(rotations: seq<Rotation>): (ids: seq<string>)
    ensures |ids| == |rotations|
    ensures forall i :: 0 <= i < |rotations| ==> ids[i] == rotations[i].triggerId
  {
    seq(|rotations|, i requires 0 <= i < |rotations| => rotations[i].triggerId)
  }

  /** The blocks of the `flatMap`: each rotation's piece, in order. */
  function Interleave(texts: seq<string>, triggerIds: seq<string>): seq<Block>
    requires |texts| == |triggerIds|
  {
    if |texts| == 0 then []
    else
      var n := |texts| - 1;
      Interleave(texts[..n], triggerIds[..n]) + Piece(texts[n], triggerIds[n], n)
  }

  /** The `flatMap` over the rotations. */
  function Layout(rotations: seq<Rotation>, formatTime: string -> string): Result<seq<Block>, FormatError> {
    match Collect(SummaryResults(rotations, formatTime))
    case Err(e) => Err(e)
    case Ok(texts) => Ok(Interleave(texts, TriggerIds(rotations)))
  }

  /** The blocks posted: the layout, or the fallback section when there are no rotations. */
  function MessageBlocks(rotations: seq<Rotation>, channel: string, formatTime: string -> string): Result<seq<Block>, FormatError> {
    match Layout(rotations, formatTime)
    case Err(e) => Err(e)
    case Ok(blocks) => Ok(if |blocks| > 0 then blocks else [NoRotations(channel)])
  }

  /**
   * `n` pieces give 3n - 1 blocks: summary i at 3i and its buttons at 3i + 1,
   * with a divider at 3i - 1 before every piece but the first.
   */
  lemma {:induction false} InterleaveShape(texts: seq<string>, triggerIds: seq<string>)
    requires |texts| == |triggerIds|
    ensures var blocks := Interleave(texts, triggerIds);
      && |blocks| == (if |texts| == 0 then 0 else 3 * |texts| - 1)
      && forall i :: 0 <= i < |texts| ==>
           && blocks[3 * i] == Summary(texts[i])
           && blocks[3 * i + 1] == Actions(triggerIds[i])
           && (i > 0 ==> blocks[3 * i - 1] == Divider)
  {
    if |texts| > 0 {
      var n := |texts| - 1;
      InterleaveShape(texts[..n], triggerIds[..n]);
      var blocks := Interleave(texts, triggerIds);
      var prefix := Interleave(texts[..n], triggerIds[..n]);
      assert blocks == prefix + Piece(texts[n], triggerIds[n], n);
      forall i | 0 <= i < |texts|
        ensures blocks[3 * i] == Summary(texts[i])
        ensures blocks[3 * i + 1] == Actions(triggerIds[i])
        ensures i > 0 ==> blocks[3 * i - 1] == Divider
      {
        if i < n {
          assert texts[..n][i] == texts[i] && triggerIds[..n][i] == triggerIds[i];
          assert blocks[3 * i] == prefix[3 * i];
          assert blocks[3 * i + 1] == prefix[3 * i + 1];
          if i > 0 {
            assert blocks[3 * i - 1] == prefix[3 * i - 1];
          }
        }
      }
    }
  }

  /** The layout is made of summaries, buttons and dividers only. */
  lemma {:induction false} InterleaveHasNoFallback(texts: seq<string>, triggerIds: seq<string>)
    requires |texts| == |triggerIds|
    ensures forall b :: b in Interleave(texts, triggerIds) ==> !b.NoRotations?
  {
    if |texts| > 0 {
      var n := |texts| - 1;
      InterleaveHasNoFallback(texts[..n], triggerIds[..n]);
    }
  }

  /**
   * The layout succeeds exactly when every summary does, and then `n` rotations
   * give 3n - 1 blocks: rotation i's summary at 3i and its buttons at 3i + 1,
   * with a divider at 3i - 1 before every rotation but the first.
   */
  lemma LayoutShape(rotations: seq<Rotation>, formatTime: string -> string)
    ensures Layout(rotations, formatTime).Ok? <==>
      forall i :: 0 <= i < |rotations| ==> SummaryText(rotations[i], formatTime).Ok?
    ensures Layout(rotations, formatTime).Ok? ==>
      var blocks := Layout(rotations, formatTime).value;
      && |blocks| == (if |rotations| == 0 then 0 else 3 * |rotations| - 1)
      && forall i :: 0 <= i < |rotations| ==>
           && blocks[3 * i] == Summary(SummaryText(rotations[i], formatTime).value)
           && blocks[3 * i + 1] == Actions(rotations[i].triggerId)
           && (i > 0 ==> blocks[3 * i - 1] == Divider)
  {
    CollectSpec(SummaryResults(rotations, formatTime));
    var summaries := Collect(SummaryResults(rotations, formatTime));
    if summaries.Ok? {
      InterleaveShape(summaries.value, TriggerIds(rotations));
    }
  }

  /** No rotations: the message is the fallback section alone. */
  lemma NoRotationsFallback(channel: string, formatTime: string -> string)
    ensures MessageBlocks([], channel, formatTime) == Ok([NoRotations(channel)])
  {
  }

  /** Some rotations: the message is the layout itself, and it never holds the fallback. */
  lemma SomeRotationsNoFallback(rotations: seq<Rotation>, channel: string, formatTime: string -> string)
    requires |rotations| > 0
    ensures MessageBlocks(rotations, channel, formatTime) == Layout(rotations, formatTime)
    ensures MessageBlocks(rotations, channel, formatTime).Ok? ==>
      NoRotations(channel) !in MessageBlocks(rotations, channel, formatTime).value
  {
    LayoutShape(rotations, formatTime);
    CollectSpec(SummaryResults(rotations, formatTime));
    var summaries := Collect(SummaryResults(rotations, formatTime));
    if summaries.Ok? {
      InterleaveHasNoFallback(summaries.value, TriggerIds(rotations));
    }
  }
}
