/**
 * `PlaylistConfig`: a playlist's processors combine into one processor with
 * `&`, and a missing description is filled in from the combined name.
 */
module PlaylistConfigs {
  import opened Wrappers
  import opened Tracks
  import opened Operations

  type TrackListTransformer = CombinableListOperation<Track>

  /** The processors applied one after another, first to last. */
  function ApplyInOrder(processors: seq<TrackListTransformer>, tracks: seq<Track>): seq<Track>
    decreases |processors|
  {
    if processors == [] then tracks else ApplyInOrder(processors[1..], processors[0].operation(tracks))
  }

  /** The display names, first to last, joined by `" & "`. */
  function JoinNames(processors: seq<TrackListTransformer>): string
    requires |processors| > 0
    decreases |processors|
  {
    if |processors| == 1 then processors[0].displayName
    else processors[0].displayName + " & " + JoinNames(processors[1..])
  }

  /** `reduce(and_, processors)`: `((p0 & p1) & p2) & ...`. */
  function ReduceAnd(processors: seq<TrackListTransformer>): TrackListTransformer
    requires |processors| > 0
    decreases |processors|
  {
    if |processors| == 1 then processors[0]
    else And(ReduceAnd(processors[..|processors| - 1]), processors[|processors| - 1])
  }

  lemma {:induction false} ApplyInOrderSnoc(processors: seq<TrackListTransformer>, last: TrackListTransformer, tracks: seq<Track>)
    ensures ApplyInOrder(processors + [last], tracks) == last.operation(ApplyInOrder(processors, tracks))
    decreases |processors|
  {
    if processors != [] {
      assert (processors + [last])[1..] == processors[1..] + [last];
      ApplyInOrderSnoc(processors[1..], last, processors[0].operation(tracks));
    }
  }

  lemma {:induction false} JoinNamesSnoc(processors: seq<TrackListTransformer>, last: TrackListTransformer)
    requires |processors| > 0
    ensures JoinNames(processors + [last]) == JoinNames(processors) + " & " + last.displayName
    decreases |processors|
  {
    if |processors| > 1 {
      assert (processors + [last])[1..] == processors[1..] + [last];
      JoinNamesSnoc(processors[1..], last);
    } else {
      assert (processors + [last])[1..] == [last];
    }
  }

  /** The folded processor runs the processors in list order and is named after all of them. */
  lemma {:induction false} ReduceAndIsSequential(processors: seq<TrackListTransformer>)
    requires |processors| > 0
    ensures forall tracks :: ReduceAnd(processors).operation(tracks) == ApplyInOrder(processors, tracks)
    ensures ReduceAnd(processors).displayName == JoinNames(processors)
    decreases |processors|
  {
    if |processors| > 1 {
      var init, last := processors[..|processors| - 1], processors[|processors| - 1];
      assert processors == init + [last];
      ReduceAndIsSequential(init);
      JoinNamesSnoc(init, last);
      forall tracks
        ensures ReduceAnd(processors).operation(tracks) == ApplyInOrder(processors, tracks)
      {
        ApplyInOrderSnoc(init, last, tracks);
      }
    }
  }

  /** `combined_processor`: None without processors, else their `&`-fold. */
  function CombinedProcessorOf(processors: seq<TrackListTransformer>): (r: Option<TrackListTransformer>)
    ensures r.None? <==> processors == []
    ensures r.Some? ==> forall tracks :: r.value.operation(tracks) == ApplyInOrder(processors, tracks)
    ensures r.Some? ==> r.value.displayName == JoinNames(processors)
  {
    if processors == [] then None
    else
      ReduceAndIsSequential(processors);
      Some(ReduceAnd(processors))
  }

  /** The description `fill_in_description` settles on. */
  function FilledDescription(description: Option<string>, processors: seq<TrackListTransformer>): (d: string)
    ensures description.Some? ==> d == description.value
    ensures description.None? && processors == [] ==> d == ""
    ensures description.None? && processors != [] ==> d == JoinNames(processors)
  {
    if description.Some? then description.value
    else match CombinedProcessorOf(processors)
      case None => ""
      case Some(p) => p.displayName
  }

  class PlaylistConfig {
    const id: Option<string>
    const name: string
    var description: Option<string>
    const processors: seq<TrackListTransformer>

    /** Building a config runs the `fill_in_description` validator. */
    constructor (id: Option<string>, name: string, description: Option<string>, processors: seq<TrackListTransformer>)
      ensures this.id == id && this.name == name && this.processors == processors
      ensures this.description == Some(FilledDescription(description, processors))
    {
      this.id := id;
      this.name := name;
      this.description := description;
      this.processors := processors;
      new;
      FillInDescription();
    }

    function CombinedProcessor(): (r: Option<TrackListTransformer>)
      ensures r == CombinedProcessorOf(processors)
    {
      CombinedProcessorOf(processors)
    }

    /** `fill_in_description`: a missing description becomes the combined processor's name, or "". */
    method FillInDescription()
      modifies this
      ensures description == Some(FilledDescription(old(description), processors))
    {
      if description.None? {
        var combined := CombinedProcessor();
        if combined.None? {
          description := Some("");
        } else {
          description := Some(combined.value.displayName);
        }
      }
    }
  }
}
