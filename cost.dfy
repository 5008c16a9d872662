/**
 * The travel-distance arithmetic behind `getWorkToGetTo` (src/init.ts and
 * its twin src/init.js): the number of floors an elevator passes when it
 * goes from its current floor through every queued stop and then on to a
 * target floor.
 */
module Cost {

  /** `Math.abs` on integer floor differences. */
  function Abs(x: int): nat {
    if x < 0 then -x else x
  }

  /** The floors passed along a path of stops: the sum of `Abs(to - from)`
      over every pair of consecutive entries. Paths of fewer than two stops
      cost nothing. */
  function PathLength(path: seq<int>): (r: int)
    ensures r >= 0
  {
    if |path| < 2 then 0
    else PathLength(path[..|path| - 1]) + Abs(path[|path| - 2] - path[|path| - 1])
  }

  /** The path that `getWorkToGetTo` walks: the current floor, the queued
      destinations in order, then the target floor. */
  function Targets(currentFloor: int, queue: seq<int>, floorNum: int): (t: seq<int>)
    ensures |t| == |queue| + 2
    ensures t[0] == currentFloor && t[|t| - 1] == floorNum
    ensures t[1..|t| - 1] == queue
  {
    [currentFloor] + queue + [floorNum]
  }

  /** The work an elevator must do to reach `floorNum` after finishing its
      current queue. */
  function WorkToGetTo(currentFloor: int, queue: seq<int>, floorNum: int): int {
    PathLength(Targets(currentFloor, queue, floorNum))
  }

  /** Splitting a path between two stops splits its length: the two parts
      plus the hop that joins them. */
  lemma {:induction false} PathLengthAppend(p: seq<int>, q: seq<int>)
    requires |p| > 0 && |q| > 0
    ensures PathLength(p + q) == PathLength(p) + Abs(p[|p| - 1] - q[0]) + PathLength(q)
  {
    var pq := p + q;
    if |q| == 1 {
      assert pq[..|pq| - 1] == p;
    } else {
      var q' := q[..|q| - 1];
      assert pq[..|pq| - 1] == p + q';
      PathLengthAppend(p, q');
      assert q[..|q| - 1] == q';
    }
  }

  /** Triangle inequality: a path is never shorter than the direct distance
      between its first and last stop. */
  lemma {:induction false} PathLengthAtLeastSpan(path: seq<int>)
    requires |path| > 0
    ensures PathLength(path) >= Abs(path[0] - path[|path| - 1])
  {
    if |path| >= 2 {
      var init := path[..|path| - 1];
      PathLengthAtLeastSpan(init);
      assert init[0] == path[0] && init[|init| - 1] == path[|path| - 2];
    }
  }

  /** With nothing queued, the work is just the distance from the current
      floor to the target. */
  lemma WorkToGetToEmptyQueue(currentFloor: int, floorNum: int)
    ensures WorkToGetTo(currentFloor, [], floorNum) == Abs(currentFloor - floorNum)
  {
    var t := Targets(currentFloor, [], floorNum);
    assert t == [currentFloor, floorNum];
    assert t[..1] == [currentFloor];
    assert PathLength(t) == PathLength([currentFloor]) + Abs(currentFloor - floorNum);
  }

  /** The work to a floor is at least the direct distance to it. */
  lemma WorkToGetToAtLeastDistance(currentFloor: int, queue: seq<int>, floorNum: int)
    ensures WorkToGetTo(currentFloor, queue, floorNum) >= Abs(currentFloor - floorNum)
  {
    PathLengthAtLeastSpan(Targets(currentFloor, queue, floorNum));
  }

  /** The work is the length of the committed route plus the hop from its
      last stop to the target. */
  lemma WorkToGetToSplit(currentFloor: int, queue: seq<int>, floorNum: int)
    ensures WorkToGetTo(currentFloor, queue, floorNum)
         == PathLength([currentFloor] + queue)
            + Abs(([currentFloor] + queue)[|queue|] - floorNum)
  {
    var t := Targets(currentFloor, queue, floorNum);
    assert t[..|t| - 1] == [currentFloor] + queue;
  }

  /** Queuing one more stop never makes an elevator cheaper to send. */
  lemma WorkToGetToMonotone(currentFloor: int, queue: seq<int>, stop: int, floorNum: int)
    ensures WorkToGetTo(currentFloor, queue + [stop], floorNum)
         >= WorkToGetTo(currentFloor, queue, floorNum)
  {
    var route := [currentFloor] + queue;
    WorkToGetToSplit(currentFloor, queue, floorNum);
    WorkToGetToSplit(currentFloor, queue + [stop], floorNum);
    assert [currentFloor] + (queue + [stop]) == route + [stop];
    PathLengthAppend(route, [stop]);
  }
}
