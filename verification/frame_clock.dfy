/** The `setTimeout` fallback for `requestAnimationFrame`
    (js/tiltfx.js:22, 40-49). Times are whole milliseconds from the clock;
    `lastTime` is one module-wide variable shared by every request. */
module FrameClock {

  /** The frame interval the fallback aims for, in milliseconds. */
  const FrameInterval: int := 16

  function Max(a: int, b: int): int {
    if a >= b then a else b
  }

  /** What one request does: the timeout it asks for, the timestamp its
      callback will receive, and the new value of `lastTime`. */
  datatype Request = Request(timeToCall: int, stamp: int, lastTime: int)

  /** The fallback's arithmetic for a request made at `currTime`. */
  function RequestFrame(lastTime: int, currTime: int): (r: Request)
    ensures r.timeToCall >= 0
    ensures r.stamp == currTime + r.timeToCall
    ensures r.lastTime == r.stamp
    ensures r.lastTime == Max(currTime, lastTime + FrameInterval)
    ensures currTime >= lastTime ==> r.timeToCall <= FrameInterval
  {
    var timeToCall := Max(0, FrameInterval - (currTime - lastTime));
    Request(timeToCall, currTime + timeToCall, currTime + timeToCall)
  }

  /** The timestamps handed to the callbacks of a run of requests made at
      the clock readings `clock`, starting from `lastTime`. */
  function Stamps(lastTime: int, clock: seq<int>): (r: seq<int>)
    ensures |r| == |clock|
    ensures forall k :: 0 <= k < |r| ==> r[k] >= clock[k]
    ensures |r| > 0 ==> r[0] >= lastTime + FrameInterval
    ensures forall k :: 0 < k < |r| ==> r[k] >= r[k - 1] + FrameInterval
    ensures |r| > 0 ==> r[0] == clock[0] || r[0] == lastTime + FrameInterval
    ensures forall k :: 0 < k < |r| ==> r[k] == clock[k] || r[k] == r[k - 1] + FrameInterval
    decreases |clock|
  {
    if |clock| == 0 then []
    else
      var next := RequestFrame(lastTime, clock[0]).lastTime;
      [next] + Stamps(next, clock[1..])
  }

  /** Callbacks are never scheduled closer together than one frame
      interval: any two of them, `k1` before `k2`, are at least
      `(k2 - k1) * 16` ms apart. */
  lemma {:induction false} StampsSpread(lastTime: int, clock: seq<int>, k1: nat, k2: nat)
    requires k1 <= k2 < |clock|
    ensures Stamps(lastTime, clock)[k2] >= Stamps(lastTime, clock)[k1] + (k2 - k1) * FrameInterval
    decreases k2 - k1
  {
    if k1 < k2 {
      StampsSpread(lastTime, clock, k1, k2 - 1);
    }
  }
}
