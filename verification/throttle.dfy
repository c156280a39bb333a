/** The leading-edge `throttle` wrapper (js/tiltfx.js:87-97) as a state
    machine over one boolean, `allowSample`. A call passes when the gate is
    open, closes it and schedules a timer; the timer callback re-opens it.
    Real time is abstracted into `Elapse` events: one stands for the
    scheduled callback running. */
module Throttle {

  /** Something that happens to the wrapper: the wrapped handler is called
      with an argument, or the pending timer callback runs. */
  datatype Event<T> = Call(arg: T) | Elapse

  /** The state of a fresh wrapper: `allowSample` starts out true. */
  const Initial: bool := true

  /** One event: the new value of `allowSample` and whether `fn` ran. */
  function Step<T>(allowSample: bool, e: Event<T>): (r: (bool, bool))
    ensures r.1 <==> e.Call? && allowSample
    ensures r.0 <==> e.Elapse?
  {
    match e
    case Elapse => (true, false)
    case Call(_) => if allowSample then (false, true) else (false, false)
  }

  /** The value of `allowSample` after a trace of events. */
  function Gate<T>(events: seq<Event<T>>): bool {
    if |events| == 0 then Initial
    else Step(Gate(events[..|events| - 1]), events[|events| - 1]).0
  }

  /** Whether the call at position `k` of a trace reaches `fn`. */
  predicate Fires<T>(events: seq<Event<T>>, k: nat)
    requires k < |events|
  {
    Step(Gate(events[..k]), events[k]).1
  }

  /** The arguments `fn` receives, in order, over a whole trace. */
  function Delivered<T>(events: seq<Event<T>>): (r: seq<T>)
    ensures |r| <= |events|
  {
    if |events| == 0 then []
    else
      var k := |events| - 1;
      Delivered(events[..k]) + (if Fires(events, k) then [events[k].arg] else [])
  }

  /** The gate is open exactly when every call seen so far has been
      followed by a timer firing. */
  lemma {:induction false} GateOpenIffAllAnswered<T>(events: seq<Event<T>>)
    ensures Gate(events) <==>
      forall j :: 0 <= j < |events| && events[j].Call? ==>
        exists m :: j < m < |events| && events[m].Elapse?
  {
    if |events| > 0 {
      var n := |events|;
      if events[n - 1].Elapse? {
        assert Gate(events);
        forall j | 0 <= j < n && events[j].Call?
          ensures exists m :: j < m < n && events[m].Elapse?
        {
          assert j < n - 1;
        }
      } else {
        assert !Gate(events);
        assert events[n - 1].Call?;
      }
    }
  }

  /** A call reaches `fn` exactly when it is the first event of the trace
      or comes straight after a timer firing, i.e. when it is the first
      call since the last firing. */
  lemma FiresIffFirstSinceElapse<T>(events: seq<Event<T>>, k: nat)
    requires k < |events|
    ensures Fires(events, k) <==>
      events[k].Call? && (k == 0 || events[k - 1].Elapse?)
  {
    if k > 0 {
      assert events[..k][..k - 1] == events[..k - 1];
      assert events[..k][k - 1] == events[k - 1];
    }
  }

  /** The very first call always passes. */
  lemma FirstCallPasses<T>(events: seq<Event<T>>)
    requires |events| > 0 && events[0].Call?
    ensures Fires(events, 0)
  {
  }

  /** Between two timer firings `fn` runs at most once: two calls that both
      pass have a firing between them. */
  lemma AtMostOncePerWindow<T>(events: seq<Event<T>>, k1: nat, k2: nat)
    requires k1 < k2 < |events|
    requires Fires(events, k1) && Fires(events, k2)
    ensures exists m :: k1 < m < k2 && events[m].Elapse?
  {
    FiresIffFirstSinceElapse(events, k2);
    assert events[k2 - 1].Elapse?;
    if k2 - 1 == k1 {
      FiresIffFirstSinceElapse(events, k1);
      assert false;
    }
  }

  /** Only calls that pass are delivered, and the delivered arguments are
      those calls' arguments in order: a burst of calls with no timer
      firing delivers only its first argument. */
  lemma {:induction false} BurstDeliversFirst<T>(prefix: seq<Event<T>>, burst: seq<T>)
    requires |burst| > 0
    requires |prefix| == 0 || prefix[|prefix| - 1].Elapse?
    ensures Delivered(prefix + seq(|burst|, i requires 0 <= i < |burst| => Call(burst[i])))
         == Delivered(prefix) + [burst[0]]
  {
    BurstInduction(prefix, burst, |burst|);
    assert burst[..|burst|] == burst;
  }

  lemma {:induction false} BurstInduction<T>(prefix: seq<Event<T>>, burst: seq<T>, n: nat)
    requires 0 < n <= |burst|
    requires |prefix| == 0 || prefix[|prefix| - 1].Elapse?
    ensures Delivered(prefix + seq(n, i requires 0 <= i < n => Call(burst[i])))
         == Delivered(prefix) + [burst[0]]
  {
    var calls := seq(n, i requires 0 <= i < n => Call(burst[i]));
    var evs := prefix + calls;
    var k := |evs| - 1;
    FiresIffFirstSinceElapse(evs, k);
    if n == 1 {
      assert evs[..k] == prefix;
    } else {
      var shorter := seq(n - 1, i requires 0 <= i < n - 1 => Call(burst[i]));
      assert evs[..k] == prefix + shorter;
      BurstInduction(prefix, burst, n - 1);
      assert evs[k - 1].Call?;
    }
  }
}
