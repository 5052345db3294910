/** ProcessPathfindingMovementSystem: once per frame each character with a
    successful, unfinished path steers toward the waypoint its cursor
    (NextUnprocessedIndex) names, advances the cursor when it arrives, and marks
    the path finished when the cursor reaches PathLength. The motion itself
    (normalise, integrate, the 0.001 arrival test) is floating point; here
    arrival is a boolean the caller supplies. */
module PathFollower {
  import opened Grid
  import opened TileData

  /** The cursor after the tick's first step: 0 (the character's own start
      position) is skipped. */
  function ReadIndex(result: PathfindingResult): int
  {
    if result.nextUnprocessedIndex == 0 then 1 else result.nextUnprocessedIndex
  }

  /** Whether the tick gets past its two early returns and reads a waypoint. */
  predicate Moves(result: PathfindingResult)
  {
    !result.finishedProcessing && result.success && result.pathLength != 1
  }

  /** The per-entity body of OnUpdate on the result component: `reached` says
      whether the character ended the frame within epsilon of the waypoint. */
  function Step(result: PathfindingResult, reached: bool): (r: PathfindingResult)
  {
    if result.finishedProcessing || !result.success then result
    else
      var bumped := result.(nextUnprocessedIndex := ReadIndex(result));
      if result.pathLength == 1 then bumped
      else
        var cursor := if reached then bumped.nextUnprocessedIndex + 1 else bumped.nextUnprocessedIndex;
        bumped.(nextUnprocessedIndex := cursor,
                finishedProcessing := cursor == result.pathLength)
  }

  /** The tick as the source runs it, returning the waypoint it steered toward
      (None when it returned early). The buffer index must be in range, as
      DynamicBuffer's indexer demands. */
  method Tick(result: PathfindingResult, pathBuffer: seq<PathPointBufferElement>, reached: bool)
    returns (newResult: PathfindingResult, destination: Option<Point>)
    requires Moves(result) ==> 0 <= ReadIndex(result) < |pathBuffer|
    ensures newResult == Step(result, reached)
    ensures Moves(result) <==> destination.Some?
    ensures Moves(result) ==> destination.value == pathBuffer[ReadIndex(result)].position
  {
    newResult := result;
    destination := None;
    if newResult.finishedProcessing || !newResult.success {
      return;
    }
    if newResult.nextUnprocessedIndex == 0 {
      newResult := newResult.(nextUnprocessedIndex := newResult.nextUnprocessedIndex + 1);
    }
    if newResult.pathLength == 1 {
      return;
    }
    destination := Some(pathBuffer[newResult.nextUnprocessedIndex].position);
    if reached {
      newResult := newResult.(nextUnprocessedIndex := newResult.nextUnprocessedIndex + 1);
    }
    if newResult.nextUnprocessedIndex == newResult.pathLength {
      newResult := newResult.(finishedProcessing := true);
    }
  }

  /** A finished path, or a failed request, is left alone. */
  lemma StepIgnoresDoneOrFailed(result: PathfindingResult, reached: bool)
    requires result.finishedProcessing || !result.success
    ensures Step(result, reached) == result
  {}

  /** The tick never rewrites what the planner owns. */
  lemma StepKeepsPlan(result: PathfindingResult, reached: bool)
    ensures Step(result, reached).pathLength == result.pathLength
    ensures Step(result, reached).success == result.success
  {}

  /** A one-point path: the cursor is bumped off 0 but the path is never marked
      finished, however many ticks run. */
  lemma SinglePointNeverFinishes(result: PathfindingResult, reached: bool)
    requires result.success && result.pathLength == 1 && !result.finishedProcessing
    ensures Step(result, reached).nextUnprocessedIndex == ReadIndex(result) != 0
    ensures !Step(result, reached).finishedProcessing
  {}

  /** The cursor moves forward by at most one beyond the 0 -> 1 bump, and only
      on arrival; a moving tick finishes the path exactly when the cursor meets
      PathLength. */
  lemma StepAdvancesByArrival(result: PathfindingResult, reached: bool)
    requires Moves(result)
    ensures var r := Step(result, reached);
      r.nextUnprocessedIndex == ReadIndex(result) + (if reached then 1 else 0) &&
      (r.finishedProcessing <==> r.nextUnprocessedIndex == result.pathLength)
  {}

  /** The follower's invariant over a successful path of at least two points:
      the cursor stays within [0, PathLength] and the path is finished exactly
      when the cursor has reached PathLength. */
  predicate OnPath(result: PathfindingResult)
  {
    result.success && result.pathLength >= 2 &&
    0 <= result.nextUnprocessedIndex <= result.pathLength &&
    (result.finishedProcessing <==> result.nextUnprocessedIndex == result.pathLength)
  }

  /** The invariant makes every buffer read in range and is kept by every tick. */
  lemma StepKeepsOnPath(result: PathfindingResult, reached: bool)
    requires OnPath(result)
    ensures Moves(result) ==> 1 <= ReadIndex(result) < result.pathLength
    ensures OnPath(Step(result, reached))
  {}

  /** The state in which a freshly published path of length `pathLength` is
      followed from its start. */
  function FreshPath(pathLength: int): (r: PathfindingResult)
    ensures pathLength >= 2 ==> OnPath(r)
  {
    PathfindingResult(pathLength, true, 0, false)
  }

  /** `k` ticks in a row on each of which the character arrives. */
  function AllArrive(k: nat): (a: seq<bool>)
    ensures |a| == k && forall i :: 0 <= i < k ==> a[i]
  {
    seq(k, _ => true)
  }

  /** The result after one tick per entry of `arrivals`. */
  function Ticks(result: PathfindingResult, arrivals: seq<bool>): PathfindingResult
    decreases |arrivals|
  {
    if |arrivals| == 0 then result else Ticks(Step(result, arrivals[0]), arrivals[1..])
  }

  /** Arriving at each waypoint in turn, a character on a path of length L
      finishes it after exactly L - 1 arrivals: from cursor c (>= 1), L - c
      arrivals finish it and fewer do not. */
  lemma {:induction false} ArrivalsFinish(result: PathfindingResult, k: nat)
    requires OnPath(result) && 1 <= result.nextUnprocessedIndex
    requires k <= result.pathLength - result.nextUnprocessedIndex
    ensures var r := Ticks(result, AllArrive(k));
      OnPath(r) && r.nextUnprocessedIndex == result.nextUnprocessedIndex + k &&
      (r.finishedProcessing <==> k == result.pathLength - result.nextUnprocessedIndex)
    decreases k
  {
    if k > 0 {
      var next := Step(result, true);
      StepKeepsOnPath(result, true);
      assert next.nextUnprocessedIndex == result.nextUnprocessedIndex + 1;
      assert AllArrive(k)[1..] == AllArrive(k - 1);
      ArrivalsFinish(next, k - 1);
    }
  }

  /** A fresh path of length L >= 2 is finished after L - 1 arrivals (the first
      tick also skips the start point) and not before. */
  lemma {:induction false} FreshPathFinishes(pathLength: int)
    requires pathLength >= 2
    ensures Ticks(FreshPath(pathLength), AllArrive(pathLength - 1)).finishedProcessing
    ensures forall k :: 0 <= k < pathLength - 1 ==> !Ticks(FreshPath(pathLength), AllArrive(k)).finishedProcessing
  {
    var start := FreshPath(pathLength);
    var first := Step(start, true);
    assert first.nextUnprocessedIndex == 2;
    assert first == start.(nextUnprocessedIndex := 2, finishedProcessing := 2 == pathLength);
    ArrivalsFinish(first, pathLength - 2);
    assert AllArrive(pathLength - 1)[1..] == AllArrive(pathLength - 2);
    forall k | 0 <= k < pathLength - 1
      ensures !Ticks(start, AllArrive(k)).finishedProcessing
    {
      if k > 0 {
        assert AllArrive(k)[1..] == AllArrive(k - 1);
        ArrivalsFinish(first, k - 1);
      }
    }
  }

  /** How the planner publishes a new path into the result component: it
      writes PathLength and Success and keeps the follower's cursor and
      finished flag from whatever path came before. */
  function PublishAsWritten(previous: PathfindingResult, pathLength: int): (r: PathfindingResult)
    ensures r.nextUnprocessedIndex == previous.nextUnprocessedIndex
    ensures r.finishedProcessing == previous.finishedProcessing
  {
    previous.(pathLength := pathLength, success := true)
  }

  /** A character that finished its previous path never follows the next one:
      the flag survives the new publication and every tick is a no-op. */
  lemma {:induction false} FinishedCharacterIgnoresNewPath(previous: PathfindingResult, pathLength: int,
                                                          arrivals: seq<bool>)
    requires previous.finishedProcessing
    ensures Ticks(PublishAsWritten(previous, pathLength), arrivals) == PublishAsWritten(previous, pathLength)
    decreases |arrivals|
  {
    if |arrivals| > 0 {
      FinishedCharacterIgnoresNewPath(previous, pathLength, arrivals[1..]);
    }
  }

  /** A concrete case: a character three waypoints into a five-point path gets
      a new two-point path. The tick then reads waypoint 3 of a two-element
      buffer, outside the buffer's range. */
  lemma StaleCursorOverrunsNewPath()
    ensures var r := PublishAsWritten(PathfindingResult(5, true, 3, false), 2);
      Moves(r) && ReadIndex(r) == 3 && ReadIndex(r) >= r.pathLength && !OnPath(r)
  {}

  /** The evidently intended publication: a new path is followed from its start. */
  function PublishFresh(previous: PathfindingResult, pathLength: int): (r: PathfindingResult)
    ensures r.pathLength == pathLength && r.success
    ensures r.nextUnprocessedIndex == 0 && !r.finishedProcessing
  {
    previous.(pathLength := pathLength, success := true, nextUnprocessedIndex := 0, finishedProcessing := false)
  }

  /** Whatever the character did before, a freshly published path of at least
      two points is on the invariant and is finished after its L - 1 arrivals. */
  lemma {:induction false} PublishFreshIsFollowed(previous: PathfindingResult, pathLength: int)
    requires pathLength >= 2
    ensures OnPath(PublishFresh(previous, pathLength))
    ensures Ticks(PublishFresh(previous, pathLength), AllArrive(pathLength - 1)).finishedProcessing
  {
    assert PublishFresh(previous, pathLength) == FreshPath(pathLength);
    FreshPathFinishes(pathLength);
  }
}
