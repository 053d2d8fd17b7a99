/** `LightweightSemaphore`: a user-space count over a kernel semaphore, with one signalling thread and
    one waiting thread. Every access to the count and every kernel call is one step; the kernel may
    fail a wait, or let it time out, at any moment. */
module Semaphore {
  import opened Options

  const SPIN_COUNT: nat := 1024

  /** The timeout argument of `wait`: negative, zero or positive. */
  datatype Timeout = Forever | Immediate | After

  /** The waiting thread's program counter. `TryLoad(None)` belongs to `tryWait` called by itself,
      `TryLoad(Some(t))` to the `tryWait` at the start of `wait(t)`. */
  datatype Waiter =
    | WIdle
    | WDone(ok: bool)
    | TryLoad(thenWait: Option<Timeout>)
    | TryTake
    | SpinLoad(t: Timeout, left: nat)
    | SpinTake
    | Drop(t: Timeout)
    | Sleep(t: Timeout)
    | Undo
    | Redo
    | TryKernel
  {
    predicate Active() { !WIdle? && !WDone? }
  }

  /** `posting` holds between the signaller's `fetch_add` and its post to the kernel semaphore. The
      last three fields are the books: what was there at first, signalled so far and acquired so far. */
  datatype State = State(count: int, tokens: nat, waiter: Waiter, posting: bool,
                         initial: nat, signalled: nat, acquired: nat)

  function Init(initial: nat): State {
    State(initial, 0, WIdle, false, initial, 0, 0)
  }

  datatype Event =
    | CallTryWait
    | CallWait(timeout: Timeout)
    | WaiterStep
    | KernelTake       // the kernel wait succeeds
    | KernelGivesUp    // the kernel wait fails or times out
    | Signal(n: nat)   // the fetch_add of `signal(n)`
    | Post             // the kernel post that follows it

  predicate Enabled(s: State, e: Event) {
    match e
    case CallTryWait => !s.waiter.Active()
    case CallWait(_) => !s.waiter.Active()
    case WaiterStep => s.waiter.Active() && !s.waiter.Sleep?
    case KernelTake => s.waiter.Sleep? && s.tokens > 0
    case KernelGivesUp => s.waiter.Sleep?
    case Signal(_) => !s.posting
    case Post => s.posting
  }

  /** The waiter returns true. */
  function Acquire(s: State): State {
    s.(waiter := WDone(true), acquired := s.acquired + 1)
  }

  function StepWaiter(s: State): State
    requires Enabled(s, WaiterStep)
  {
    match s.waiter
    case TryLoad(next) =>
      if s.count > 0 then s.(waiter := TryTake)
      else if next.None? then s.(waiter := WDone(false))
      else s.(waiter := SpinLoad(next.value, SPIN_COUNT))
    case TryTake => Acquire(s.(count := s.count - 1))
    case SpinLoad(t, left) =>
      if s.count > 0 then s.(waiter := SpinTake)
      else s.(waiter := if left <= 1 then Drop(t) else SpinLoad(t, left - 1))
    case SpinTake => Acquire(s.(count := s.count - 1))
    case Drop(t) =>
      var dropped := s.(count := s.count - 1);
      if s.count > 0 then Acquire(dropped)
      else dropped.(waiter := if t == Immediate then Undo else Sleep(t))
    case Undo =>
      s.(count := s.count + 1, waiter := if s.count < 0 then WDone(false) else Redo)
    case Redo =>
      s.(count := s.count - 1, waiter := if s.count > 0 then TryKernel else Undo)
    case TryKernel =>
      if s.tokens > 0 then Acquire(s.(tokens := s.tokens - 1)) else s.(waiter := Undo)
  }

  function Next(s: State, e: Event): State
    requires Enabled(s, e)
  {
    match e
    case CallTryWait => s.(waiter := TryLoad(None))
    case CallWait(t) => s.(waiter := TryLoad(Some(t)))
    case WaiterStep => StepWaiter(s)
    case KernelTake => Acquire(s.(tokens := s.tokens - 1))
    case KernelGivesUp => s.(waiter := Undo)
    case Signal(n) => s.(count := s.count + n, signalled := s.signalled + n, posting := s.count < 0)
    case Post => s.(tokens := s.tokens + 1, posting := false)
  }

  // ---- the conservation law --------------------------------------------------

  /** What is left to acquire by the books. */
  function Net(s: State): int {
    s.initial + s.signalled - s.acquired
  }

  /** The waiter has subtracted itself from the count. */
  predicate Counted(w: Waiter) {
    w.Sleep? || w.Undo? || w.TryKernel?
  }

  /** The count is what is left, less one while the waiter is counted in; and exactly one kernel token
      is posted or about to be, from the moment such a waiter has something to acquire. */
  predicate Inv(s: State) {
    && Net(s) >= 0
    && s.count == Net(s) - (if Counted(s.waiter) then 1 else 0)
    && s.tokens + (if s.posting then 1 else 0)
       == (if (Counted(s.waiter) || s.waiter.Redo?) && Net(s) >= 1 then 1 else 0)
    && (s.waiter.TryTake? || s.waiter.SpinTake? || s.waiter.Redo? || s.waiter.TryKernel? ==> Net(s) >= 1)
  }

  lemma InitInv(initial: nat)
    ensures Inv(Init(initial))
  {
  }

  /** The source's promise at rest: the count is exact, nothing is overdrawn and the kernel semaphore is empty. */
  predicate Settled(s: State) {
    0 <= s.count == Net(s) && s.tokens == 0 && !s.posting
  }

  predicate IsRun(initial: nat, states: seq<State>, events: seq<Event>) {
    && |states| == |events| + 1 && states[0] == Init(initial)
    && forall i {:trigger events[i]} :: 0 <= i < |events| ==>
         Enabled(states[i], events[i]) && states[i + 1] == Next(states[i], events[i])
  }

  /** No `signal(0)`. */
  predicate Proper(events: seq<Event>) {
    forall i :: 0 <= i < |events| && events[i].Signal? ==> events[i].n >= 1
  }

  /** One step keeps the invariant exactly unless it is a `signal(0)` while the waiter is counted in and
      nothing is left: that posts a kernel token that nothing stands behind. */
  lemma StepKeepsInv(s: State, e: Event)
    requires Inv(s) && Enabled(s, e)
    ensures Inv(Next(s, e)) <==> !(e == Signal(0) && s.count < 0)
  {
  }

  lemma {:induction false} RunKeepsInv(initial: nat, states: seq<State>, events: seq<Event>, i: nat)
    requires IsRun(initial, states, events) && Proper(events) && i < |states|
    ensures Inv(states[i]) && states[i].initial == initial
  {
    if i > 0 {
      RunKeepsInv(initial, states, events, i - 1);
      assert events[i - 1].Signal? ==> events[i - 1].n >= 1;
      StepKeepsInv(states[i - 1], events[i - 1]);
    }
  }

  /** In every run `m_count` never goes below -1 (so the signaller's assert holds), nothing is acquired
      that was not there or signalled, and whenever the waiter is between calls the count is exactly
      what is left and no kernel token is left over or still to be posted. */
  lemma Conservation(initial: nat, states: seq<State>, events: seq<Event>, i: nat)
    requires IsRun(initial, states, events) && Proper(events) && i < |states|
    ensures states[i].count >= -1
    ensures states[i].acquired <= initial + states[i].signalled
    ensures !states[i].waiter.Active() ==> Settled(states[i])
  {
    RunKeepsInv(initial, states, events, i);
  }

  /** No lost wake-up: a sleeping waiter with something to acquire has a kernel token waiting for it,
      unless the signaller is just about to post it. */
  lemma NoLostWakeup(initial: nat, states: seq<State>, events: seq<Event>, i: nat)
    requires IsRun(initial, states, events) && Proper(events) && i < |states|
    requires states[i].waiter.Sleep? && Net(states[i]) >= 1
    ensures if states[i].posting then Enabled(states[i], Post) && states[i].tokens == 0
            else Enabled(states[i], KernelTake) && states[i].tokens == 1
  {
    RunKeepsInv(initial, states, events, i);
  }

  /** A waiter that gives up restores the count: a timed-out `wait` leaves what is left untouched and
      was refused at an instant when nothing was left. */
  lemma GivingUpIsHonest(initial: nat, states: seq<State>, events: seq<Event>, i: nat)
    requires IsRun(initial, states, events) && Proper(events) && i < |events|
    requires states[i].waiter.Active() && states[i + 1].waiter == WDone(false)
    ensures Net(states[i]) == 0 == states[i + 1].count && Settled(states[i + 1])
  {
    RunKeepsInv(initial, states, events, i);
    RunKeepsInv(initial, states, events, i + 1);
    assert states[i + 1] == Next(states[i], events[i]);
  }

  // ---- whole calls --------------------------------------------------------------

  /** A call begins with event `i` and has not returned before instant `j`. */
  ghost predicate WaiterCall(states: seq<State>, events: seq<Event>, i: nat, j: nat) {
    && i < j < |states| == |events| + 1 && (events[i].CallTryWait? || events[i].CallWait?)
    && forall m :: i < m < j ==> states[m].waiter.Active()
  }

  predicate IsOwnStep(e: Event) {
    e.WaiterStep? || e.KernelTake? || e.KernelGivesUp?
  }

  /** Where a call may be after `steps` steps of its own, `gaveUp` saying whether the kernel let it down.
      A wait looks at the count once, then 1024 times, before it subtracts itself; only a wait with time to
      spare sleeps; and such a wait turns back only because the kernel gave up. */
  predicate OnItsWay(call: Event, w: Waiter, steps: nat, gaveUp: bool) {
    if call.CallTryWait? then
      match w
      case TryLoad(next) => next.None? && steps == 0
      case TryTake => steps == 1
      case WDone(ok) => steps == if ok then 2 else 1
      case _ => false
    else if call.CallWait? then
      var mayTurnBack := call.timeout == Immediate || gaveUp;
      match w
      case TryLoad(next) => next == Some(call.timeout) && steps == 0
      case TryTake => steps == 1
      case SpinLoad(t, left) => t == call.timeout && 1 <= left <= 1024 && steps + left == 1025
      case SpinTake => 2 <= steps <= 1025
      case Drop(t) => t == call.timeout && steps == 1025
      case Sleep(t) => t == call.timeout != Immediate && steps == 1026
      case Undo => mayTurnBack && steps >= 1026
      case Redo => mayTurnBack && steps >= 1027
      case TryKernel => mayTurnBack && steps >= 1028
      case WDone(ok) => ok || (mayTurnBack && steps >= 1027)
      case WIdle => false
    else false
  }

  lemma StepOnItsWay(s: State, e: Event, call: Event, steps: nat, gaveUp: bool)
    requires Enabled(s, e) && s.waiter.Active() && OnItsWay(call, s.waiter, steps, gaveUp)
    ensures var s' := Next(s, e);
            && OnItsWay(call, s'.waiter, steps + (if IsOwnStep(e) then 1 else 0), gaveUp || e == KernelGivesUp)
            && s'.acquired == s.acquired + (if s'.waiter == WDone(true) then 1 else 0)
  {
  }

  lemma CallBegins(s: State, call: Event)
    requires Enabled(s, call) && (call.CallTryWait? || call.CallWait?)
    ensures OnItsWay(call, Next(s, call).waiter, 0, false) && Next(s, call).waiter.TryLoad?
    ensures Next(s, call).acquired == s.acquired
  {
  }

  /** The number of own steps between event `i` and instant `m`. */
  function OwnSteps(events: seq<Event>, i: nat, m: nat): nat
    requires m <= |events|
    decreases m
  {
    if m <= i + 1 then 0 else OwnSteps(events, i, m - 1) + (if IsOwnStep(events[m - 1]) then 1 else 0)
  }

  predicate GaveUpWithin(events: seq<Event>, i: nat, m: nat) {
    exists g :: i < g < m && g < |events| && events[g] == KernelGivesUp
  }

  lemma {:induction false} CallProceeds(initial: nat, states: seq<State>, events: seq<Event>, i: nat, m: nat)
    requires IsRun(initial, states, events) && WaiterCall(states, events, i, m)
    ensures OnItsWay(events[i], states[m].waiter, OwnSteps(events, i, m), GaveUpWithin(events, i, m))
    ensures states[m].acquired == states[i].acquired + (if states[m].waiter == WDone(true) then 1 else 0)
    decreases m
  {
    hide Next, Enabled, OnItsWay;
    assert Enabled(states[m - 1], events[m - 1]) && states[m] == Next(states[m - 1], events[m - 1]);
    if m == i + 1 {
      CallBegins(states[i], events[i]);
      assert !GaveUpWithin(events, i, m);
    } else {
      CallProceeds(initial, states, events, i, m - 1);
      StepOnItsWay(states[m - 1], events[m - 1], events[i], OwnSteps(events, i, m - 1), GaveUpWithin(events, i, m - 1));
      assert GaveUpWithin(events, i, m) <==> GaveUpWithin(events, i, m - 1) || events[m - 1] == KernelGivesUp;
    }
  }

  /** In every run, whatever the signaller does: `tryWait` never sleeps and returns after at most two steps. */
  lemma TryWaitReturns(initial: nat, states: seq<State>, events: seq<Event>, i: nat, j: nat)
    requires IsRun(initial, states, events) && WaiterCall(states, events, i, j) && events[i] == CallTryWait
    ensures !states[j].waiter.Sleep? && OwnSteps(events, i, j) <= 2
    ensures OwnSteps(events, i, j) == 2 ==> states[j].waiter == WDone(true)
    ensures states[j].waiter.WDone? ==>
              states[j].acquired == states[i].acquired + (if states[j].waiter.ok then 1 else 0)
  {
    hide IsRun, WaiterCall;
    CallProceeds(initial, states, events, i, j);
  }

  /** In every run, whatever the signaller does: `wait(0)` never sleeps, and any other wait only with the
      timeout it was given; such a wait returns false only after the kernel wait has failed or timed out within the call; and no wait returns false, or sleeps,
      before it has looked 1025 times. */
  lemma WaitReturns(initial: nat, states: seq<State>, events: seq<Event>, i: nat, j: nat)
    requires IsRun(initial, states, events) && WaiterCall(states, events, i, j) && events[i].CallWait?
    ensures states[j].waiter.Sleep? ==> states[j].waiter.t == events[i].timeout != Immediate
    ensures states[j].waiter == WDone(false) && events[i].timeout != Immediate ==> GaveUpWithin(events, i, j)
    ensures states[j].waiter == WDone(false) || states[j].waiter.Sleep? ==> OwnSteps(events, i, j) > 1025
    ensures states[j].waiter.WDone? ==>
              states[j].acquired == states[i].acquired + (if states[j].waiter.ok then 1 else 0)
  {
    hide IsRun, WaiterCall, GaveUpWithin;
    CallProceeds(initial, states, events, i, j);
  }

  /** A look that finds something takes it with the next step. */
  lemma LookTakes(s: State)
    requires s.waiter.TryLoad? || s.waiter.SpinLoad?
    requires s.count > 0
    ensures var s' := Next(s, WaiterStep);
            Enabled(s', WaiterStep) && Next(s', WaiterStep) == s.(count := s.count - 1, acquired := s.acquired + 1, waiter := WDone(true))
  {
  }

  /** A waiter that turns back does not go on for ever: once nothing is being posted it returns false at once
      if nothing is left, and otherwise has taken the kernel's token after three steps. */
  lemma TurningBackEnds(s: State)
    requires Inv(s) && s.waiter.Undo? && !s.posting
    ensures var s1 := Next(s, WaiterStep);
            if Net(s) == 0 then s1.waiter == WDone(false)
            else && Enabled(s1, WaiterStep) && Enabled(Next(s1, WaiterStep), WaiterStep)
                 && var s3 := Next(Next(s1, WaiterStep), WaiterStep);
                    s3.waiter == WDone(true) && s3.acquired == s.acquired + 1 && s3.tokens == 0
  {
  }

  // ---- signal(0) ---------------------------------------------------------------

  /** A continuation from an arbitrary state. */
  predicate IsContinuation(s: State, states: seq<State>, events: seq<Event>) {
    && |states| == |events| + 1 && states[0] == s
    && forall i {:trigger events[i]} :: 0 <= i < |events| ==>
         Enabled(states[i], events[i]) && states[i + 1] == Next(states[i], events[i])
  }

  /** Whatever happens next, the waiter comes to rest only in settled states. */
  ghost predicate SettlesFrom(s: State) {
    forall states: seq<State>, events: seq<Event> :: IsContinuation(s, states, events) && Proper(events) ==>
      !states[|events|].waiter.Active() ==> Settled(states[|events|])
  }

  lemma {:induction false} ContinuationKeepsInv(s: State, states: seq<State>, events: seq<Event>, i: nat)
    requires Inv(s) && IsContinuation(s, states, events) && Proper(events) && i < |states|
    ensures Inv(states[i])
  {
    if i > 0 {
      ContinuationKeepsInv(s, states, events, i - 1);
      assert events[i - 1].Signal? ==> events[i - 1].n >= 1;
      StepKeepsInv(states[i - 1], events[i - 1]);
    }
  }

  /** After `signal(n)` the law goes on holding, whatever follows, exactly unless `n` is 0 and the count
      was negative. */
  lemma SignalKeepsLaw(s: State, n: nat)
    requires Inv(s) && Enabled(s, Signal(n))
    ensures SettlesFrom(Next(s, Signal(n))) <==> !(n == 0 && s.count < 0)
  {
    var s' := Next(s, Signal(n));
    if n == 0 && s.count < 0 {
      var states, events := UnbackedToken(s);
      assert !Settled(states[|events|]);
    } else {
      StepKeepsInv(s, Signal(n));
      forall states: seq<State>, events: seq<Event> | IsContinuation(s', states, events) && Proper(events)
        ensures !states[|events|].waiter.Active() ==> Settled(states[|events|])
      {
        ContinuationKeepsInv(s', states, events, |events|);
      }
    }
  }

  /** The token posted by `signal(0)` lets a sleeping waiter through, or is left behind by one that has
      given up. */
  lemma UnbackedToken(s: State) returns (states: seq<State>, events: seq<Event>)
    requires Inv(s) && s.count < 0 && !s.posting
    ensures IsContinuation(Next(s, Signal(0)), states, events) && Proper(events)
    ensures !states[|events|].waiter.Active() && !Settled(states[|events|])
  {
    var s0 := Next(s, Signal(0));
    var s1 := Next(s0, Post);
    if s.waiter.Sleep? {
      var s2 := Next(s1, KernelTake);
      states, events := [s0, s1, s2], [Post, KernelTake];
    } else {
      var s2 := Next(s1, WaiterStep);
      states, events := [s0, s1, s2], [Post, WaiterStep];
    }
  }

  lemma Extend(s: State, states: seq<State>, events: seq<Event>, e: Event)
    returns (states': seq<State>, events': seq<Event>)
    requires IsContinuation(s, states, events) && Enabled(states[|events|], e)
    ensures IsContinuation(s, states', events') && states' == states + [Next(states[|events|], e)]
    ensures events' == events + [e]
  {
    states', events' := states + [Next(states[|events|], e)], events + [e];
    forall i | 0 <= i < |events'|
      ensures Enabled(states'[i], events'[i]) && states'[i + 1] == Next(states'[i], events'[i])
    {
      if i < |events| {
        assert events'[i] == events[i] && states'[i] == states[i] && states'[i + 1] == states[i + 1];
      }
    }
  }

  /** An untimed `wait` on an empty semaphore spins down to the last look. */
  lemma {:induction false} SpinDown(left: nat) returns (states: seq<State>, events: seq<Event>)
    requires 1 <= left <= SPIN_COUNT
    ensures IsContinuation(Init(0), states, events)
    ensures states[|events|] == Init(0).(waiter := SpinLoad(Forever, left))
    decreases SPIN_COUNT - left
  {
    if left == SPIN_COUNT {
      states, events := Extend(Init(0), [Init(0)], [], CallWait(Forever));
      states, events := Extend(Init(0), states, events, WaiterStep);
    } else {
      states, events := SpinDown(left + 1);
      states, events := Extend(Init(0), states, events, WaiterStep);
    }
  }

  /** A run with one `signal(0)` in which the waiter acquires what was never there. */
  lemma ZeroSignalAcquiresFromNothing() returns (states: seq<State>, events: seq<Event>)
    ensures IsRun(0, states, events)
    ensures var last := states[|events|];
            last.waiter == WDone(true) && last.acquired == 1 && last.signalled == 0 && last.initial == 0
  {
    states, events := SpinDown(1);
    states, events := Extend(Init(0), states, events, WaiterStep);
    states, events := Extend(Init(0), states, events, WaiterStep);
    states, events := Extend(Init(0), states, events, Signal(0));
    states, events := Extend(Init(0), states, events, Post);
    states, events := Extend(Init(0), states, events, KernelTake);
  }
}
