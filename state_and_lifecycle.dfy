/**
 * The state and lifecycle demo (src/tutorials/week1/StateAndLifecycle.tsx):
 * the class-component timer `ClassTimer`, whose one resource is the
 * periodic interval it registers with the host, and the function-component
 * counter `FunctionCounter`.
 *
 * Time is an abstract clock value (a `nat`) handed in by the caller. An
 * interval handle is an opaque positive number minted by the host's
 * interval registry (browsers hand out positive ids, so a held handle is
 * always truthy). One update cycle is: the event's state update, then
 * `componentDidUpdate` with the previous `isRunning`.
 */
module StateAndLifecycle {
  import opened Wrappers

  // ---------------------------------------------------------------------
  // The timer as a value: the specification of ClassTimer

  /**
   * The component's state (`time`, `isRunning`), its `timerID` field, and
   * the host's registry: the handles of live intervals and the next handle
   * it will hand out.
   */
  datatype TimerState = TimerState(
    time: nat,
    isRunning: bool,
    timerID: Option<nat>,
    live: set<nat>,
    nextHandle: nat)

  /** The handles `id` holds. */
  function Held(id: Option<nat>): set<nat> {
    if id.Some? then {id.value} else {}
  }

  /**
   * The resource discipline: a handle is held exactly while running, the
   * only live interval is the held one, and every live handle is positive
   * and below the next handle the host will mint.
   */
  ghost predicate Disciplined(s: TimerState) {
    && (s.timerID.Some? <==> s.isRunning)
    && s.live == Held(s.timerID)
    && 0 < s.nextHandle
    && forall h :: h in s.live ==> 0 < h < s.nextHandle
  }

  /** The constructor's state: not running, no handle, nothing registered. */
  function Initial(now: nat): (s: TimerState)
    ensures Disciplined(s) && !s.isRunning && s.timerID == None && s.time == now
  {
    TimerState(now, false, None, {}, 1)
  }

  /** `toggleTimer`: flips `isRunning` and changes nothing else. */
  function AfterToggle(s: TimerState): (r: TimerState)
    ensures r.isRunning == !s.isRunning
    ensures r.(isRunning := s.isRunning) == s
  {
    s.(isRunning := !s.isRunning)
  }

  /**
   * `startTimer` as written: registers a fresh interval and stores its
   * handle in `timerID`, overwriting whatever handle was there.
   */
  function AfterStart(s: TimerState): (r: TimerState)
    ensures r.timerID.Some? && r.timerID.value == s.nextHandle
    ensures r.live == s.live + {s.nextHandle} && r.nextHandle > s.nextHandle
    ensures r.time == s.time && r.isRunning == s.isRunning
  {
    s.(timerID := Some(s.nextHandle), live := s.live + {s.nextHandle}, nextHandle := s.nextHandle + 1)
  }

  /**
   * `stopTimer`: when a handle is held, clears that interval and drops the
   * handle; otherwise does nothing. Afterwards no handle is held.
   */
  function AfterStop(s: TimerState): (r: TimerState)
    ensures r.timerID == None
    ensures r.live == s.live - Held(s.timerID)
    ensures s.timerID == None ==> r == s
    ensures r.time == s.time && r.isRunning == s.isRunning && r.nextHandle == s.nextHandle
  {
    if s.timerID.Some? then s.(live := s.live - {s.timerID.value}, timerID := None) else s
  }

  /** The interval callback: `setState({time: now})`. */
  function AfterTick(s: TimerState, now: nat): (r: TimerState)
    ensures r.time == now
    ensures r.(time := s.time) == s
  {
    s.(time := now)
  }

  /**
   * `componentDidUpdate(prevProps, prevState)`: an interval is registered
   * exactly on a false-to-true change of `isRunning`, the handle is dropped
   * on a true-to-false change, and nothing happens when `isRunning` did not
   * change. The component state itself is never touched.
   */
  function AfterDidUpdate(prevRunning: bool, s: TimerState): (r: TimerState)
    ensures r.time == s.time && r.isRunning == s.isRunning
    ensures r.nextHandle != s.nextHandle <==> !prevRunning && s.isRunning
    ensures !prevRunning && s.isRunning ==> r.timerID == Some(s.nextHandle) && r.live == s.live + {s.nextHandle}
    ensures prevRunning && !s.isRunning ==> r.timerID == None && r.live == s.live - Held(s.timerID)
    ensures prevRunning == s.isRunning ==> r == s
  {
    if prevRunning != s.isRunning then
      if s.isRunning then AfterStart(s) else AfterStop(s)
    else s
  }

  /** `componentWillUnmount`: stops the timer. */
  function Unmounted(s: TimerState): (r: TimerState)
    ensures r.timerID == None
    ensures Disciplined(s) ==> r.live == {}
  {
    AfterStop(s)
  }

  /** The events that start an update cycle: a click on the toggle button, or one interval tick. */
  datatype Event = ToggleClick | IntervalTick(now: nat)

  /**
   * One update cycle: the event's state update, then `componentDidUpdate`
   * with the `isRunning` from before it. The host delivers a tick only while
   * some interval is live: a tick arriving when none is live is no event at
   * all and leaves the state as it is. Only a toggle click changes
   * `isRunning`.
   */
  function Cycle(s: TimerState, e: Event): (r: TimerState)
    ensures r.isRunning == if e.ToggleClick? then !s.isRunning else s.isRunning
    ensures e.IntervalTick? && s.live == {} ==> r == s
    ensures e.IntervalTick? && s.live != {} ==> r.time == e.now
  {
    match e
    case ToggleClick => AfterDidUpdate(s.isRunning, AfterToggle(s))
    case IntervalTick(now) => if s.live == {} then s else AfterDidUpdate(s.isRunning, AfterTick(s, now))
  }

  /** The number of toggle clicks among `events`. */
  function ToggleCount(events: seq<Event>): nat {
    if events == [] then 0
    else (if events[0].ToggleClick? then 1 else 0) + ToggleCount(events[1..])
  }

  /**
   * A sequence of update cycles. `isRunning` ends flipped exactly when an odd
   * number of toggle clicks occurred: ticks never change it.
   */
  function Run(s: TimerState, events: seq<Event>): (r: TimerState)
    ensures r.isRunning == (s.isRunning != (ToggleCount(events) % 2 == 1))
    decreases |events|
  {
    if events == [] then s else Run(Cycle(s, events[0]), events[1..])
  }

  /**
   * Every update cycle keeps the discipline. A toggle click flips
   * `isRunning` and acquires or releases the one handle with it; a tick
   * updates `time` only while running and never touches `isRunning` or the
   * handle.
   */
  lemma CycleKeepsDiscipline(s: TimerState, e: Event)
    requires Disciplined(s)
    ensures Disciplined(Cycle(s, e))
    ensures e.ToggleClick? ==> Cycle(s, e).isRunning == !s.isRunning
    ensures e.IntervalTick? ==> Cycle(s, e).isRunning == s.isRunning && Cycle(s, e).timerID == s.timerID &&
                                Cycle(s, e).live == s.live
    ensures e.IntervalTick? ==> Cycle(s, e).time == if s.isRunning then e.now else s.time
  {
  }

  /** However many update cycles run, a handle is held exactly while running, and it is the only live interval. */
  lemma {:induction false} RunKeepsDiscipline(s: TimerState, events: seq<Event>)
    requires Disciplined(s)
    ensures Disciplined(Run(s, events))
    ensures Run(s, events).timerID.Some? <==> Run(s, events).isRunning
    ensures |Run(s, events).live| <= 1
    decreases |events|
  {
    if events != [] {
      CycleKeepsDiscipline(s, events[0]);
      RunKeepsDiscipline(Cycle(s, events[0]), events[1..]);
    }
  }

  /** Once stopped, ticks change nothing: the displayed time is frozen until the next toggle. */
  lemma {:induction false} StoppedTimeIsFrozen(s: TimerState, events: seq<Event>)
    requires Disciplined(s) && !s.isRunning
    requires forall i :: 0 <= i < |events| ==> events[i].IntervalTick?
    ensures Run(s, events) == s
    decreases |events|
  {
    if events != [] {
      assert Cycle(s, events[0]) == s;
      StoppedTimeIsFrozen(s, events[1..]);
    }
  }

  /** `stopTimer` is idempotent. */
  lemma StopIdempotent(s: TimerState)
    ensures AfterStop(AfterStop(s)) == AfterStop(s)
  {
  }

  /**
   * Why `startTimer` needs `timerID == null`: starting while a handle is
   * held leaves the old interval live with no handle left to clear it.
   */
  lemma StartWhileHeldLeaks(s: TimerState)
    requires Disciplined(s) && s.isRunning
    ensures var r := AfterStart(s);
            s.timerID.value in r.live && r.timerID != s.timerID && |r.live| == 2
  {
  }

  // ---------------------------------------------------------------------
  // The component and its host

  /** The host's interval registry (`setInterval` and `clearInterval`). */
  class IntervalHost {
    var live: set<nat>
    var next: nat

    constructor ()
      ensures live == {} && next == 1
    {
      live, next := {}, 1;
    }

    /** `setInterval`: registers a new interval under a fresh handle. */
    method SetInterval() returns (h: nat)
      modifies this
      ensures h == old(next) && live == old(live) + {h} && next == old(next) + 1
    {
      h := next;
      live := live + {h};
      next := next + 1;
    }

    /** `clearInterval(h)`: the interval `h` no longer fires. */
    method ClearInterval(h: nat)
      modifies this
      ensures live == old(live) - {h} && next == old(next)
    {
      live := live - {h};
    }
  }

  /** `ClassTimer`: its state, its `timerID` field and the registry it talks to. */
  class ClassTimer {
    const host: IntervalHost
    var time: nat
    var isRunning: bool
    var timerID: Option<nat>

    /** The abstract value of the component and its host. */
    function State(): TimerState
      reads this, host
    {
      TimerState(time, isRunning, timerID, host.live, host.next)
    }

    ghost predicate Valid()
      reads this, host
    {
      Disciplined(State())
    }

    /** The constructor: not running, no handle. */
    constructor (now: nat)
      ensures Valid() && fresh(host)
      ensures State() == Initial(now)
    {
      host := new IntervalHost();
      time := now;
      isRunning := false;
      timerID := None;
    }

    /** `startTimer`, callable only while no handle is held. */
    method StartTimer()
      requires timerID == None
      modifies this, host
      ensures State() == AfterStart(old(State()))
    {
      var h := host.SetInterval();
      timerID := Some(h);
    }

    /** `stopTimer`. */
    method StopTimer()
      modifies this, host
      ensures State() == AfterStop(old(State()))
    {
      if timerID.Some? {
        host.ClearInterval(timerID.value);
        timerID := None;
      }
    }

    /** `toggleTimer`. */
    method ToggleTimer()
      modifies this
      ensures State() == AfterToggle(old(State()))
    {
      isRunning := !isRunning;
    }

    /** The interval callback, which fires only while this component holds its interval. */
    method Tick(now: nat)
      requires timerID.Some?
      modifies this
      ensures State() == AfterTick(old(State()), now)
    {
      time := now;
    }

    /**
     * `componentDidUpdate`, called right after a state update that left the
     * discipline intact except, perhaps, for `isRunning`.
     */
    method ComponentDidUpdate(prevRunning: bool)
      requires Disciplined(State().(isRunning := prevRunning))
      modifies this, host
      ensures Valid()
      ensures State() == AfterDidUpdate(prevRunning, old(State()))
    {
      if prevRunning != isRunning {
        if isRunning {
          StartTimer();
        } else {
          StopTimer();
        }
      }
    }

    /** `componentWillUnmount`: the interval is released. */
    method ComponentWillUnmount()
      requires Valid()
      modifies this, host
      ensures State() == Unmounted(old(State()))
      ensures timerID == None && host.live == {}
    {
      StopTimer();
    }

    /** One update cycle started by a click on the toggle button. */
    method OnToggleClick()
      requires Valid()
      modifies this, host
      ensures Valid()
      ensures State() == Cycle(old(State()), ToggleClick)
    {
      var prev := isRunning;
      ToggleTimer();
      ComponentDidUpdate(prev);
    }

    /** One update cycle started by a tick of the held interval. */
    method OnIntervalTick(now: nat)
      requires Valid() && timerID.Some?
      modifies this, host
      ensures Valid()
      ensures State() == Cycle(old(State()), IntervalTick(now))
    {
      var prev := isRunning;
      Tick(now);
      ComponentDidUpdate(prev);
    }
  }

  // ---------------------------------------------------------------------
  // FunctionCounter

  /** `FunctionCounter`: the `count` and `lastUpdate` cells. */
  class FunctionCounter {
    var count: nat
    var lastUpdate: nat

    /** Mount: `count` is 0; the `[count]` effect runs once and stamps `lastUpdate`. */
    constructor (now: nat)
      ensures count == 0 && lastUpdate == now
    {
      count := 0;
      lastUpdate := now;
    }

    /** The effect on `[count]`: refreshes `lastUpdate` exactly when `count` changed since the last render. */
    method CountEffect(prevCount: nat, now: nat)
      modifies this
      ensures count == old(count)
      ensures lastUpdate == if count != prevCount then now else old(lastUpdate)
    {
      if count != prevCount {
        lastUpdate := now;
      }
    }

    /** A click on the increase button (`setCount(count + 1)`) and the render that follows. */
    method OnIncrementClick(now: nat)
      modifies this
      ensures count == old(count) + 1
      ensures lastUpdate == now
    {
      var prev := count;
      count := count + 1;
      CountEffect(prev, now);
    }
  }
}
