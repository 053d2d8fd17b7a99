/** The relay's ring of slots between the radio's callback (`broadcastAudio`) and the sender thread
    (`dataSenderThread`). Each access to a ready flag or counter and each element copied is one step. */
module RelayRing {
  const POOL_SIZE: nat := 64
  const SLOT_SAMPLES: nat := 16384

  datatype Slot = Slot(data: seq<int>, numSamples: nat, ready: bool)

  /** The number of I/Q pairs kept of a buffer, and the frame they make. */
  function Pairs(buf: seq<int>): (n: nat)
    ensures 2 * n <= |buf| && n <= SLOT_SAMPLES
  {
    if |buf| / 2 > SLOT_SAMPLES then SLOT_SAMPLES else |buf| / 2
  }

  function Frame(buf: seq<int>): seq<int> {
    buf[..2 * Pairs(buf)]
  }

  datatype Callback =
    | CIdle
    | CCheck(buf: seq<int>)
    | CCopy(buf: seq<int>, k: nat)
    | CSetCount(buf: seq<int>)
    | CSetReady(buf: seq<int>)
    | CBump

  datatype Sender =
    | SCheck
    | SReadCount
    | SCopy(numSamples: nat, frame: seq<int>)
    | SBump

  /** `accepted` are the frames whose ready flag was set and `taken` those whose flag was cleared by the
      sender, in order. */
  datatype State = State(slots: seq<Slot>, write: nat, read: nat, callback: Callback, sender: Sender,
                         accepted: seq<seq<int>>, taken: seq<seq<int>>)

  ghost predicate Init(s: State) {
    && |s.slots| == POOL_SIZE && s.write == 0 && s.read == 0 && s.callback == CIdle && s.sender == SCheck
    && s.accepted == [] && s.taken == []
    && forall j :: 0 <= j < POOL_SIZE ==> |s.slots[j].data| == 2 * SLOT_SAMPLES && !s.slots[j].ready
  }

  datatype Event =
    | Deliver(buf: seq<int>, scanning: bool)
    | CallbackStep
    | SenderStep

  predicate Enabled(s: State, e: Event) {
    match e
    case Deliver(_, _) => s.callback == CIdle
    case CallbackStep => s.callback != CIdle
    case SenderStep => true
  }

  predicate Shaped(s: State) {
    |s.slots| == POOL_SIZE && forall j :: 0 <= j < POOL_SIZE ==> |s.slots[j].data| == 2 * SLOT_SAMPLES
  }

  function Update(s: State, j: nat, slot: Slot): State
    requires j < |s.slots|
  {
    s.(slots := s.slots[j := slot])
  }

  function StepCallback(s: State): State
    requires Shaped(s) && s.callback != CIdle
  {
    var j := s.write % POOL_SIZE;
    var slot := s.slots[j];
    match s.callback
    case CCheck(buf) => s.(callback := if slot.ready then CIdle else CCopy(buf, 0))
    case CCopy(buf, k) =>
      if k < 2 * Pairs(buf) then Update(s, j, slot.(data := slot.data[k := buf[k]])).(callback := CCopy(buf, k + 1))
      else s.(callback := CSetCount(buf))
    case CSetCount(buf) => Update(s, j, slot.(numSamples := Pairs(buf))).(callback := CSetReady(buf))
    case CSetReady(buf) =>
      Update(s, j, slot.(ready := true)).(callback := CBump, accepted := s.accepted + [Frame(buf)])
    case CBump => s.(write := s.write + 1, callback := CIdle)
  }

  function StepSender(s: State): State
    requires Shaped(s)
  {
    var j := s.read % POOL_SIZE;
    var slot := s.slots[j];
    match s.sender
    case SCheck => if slot.ready then s.(sender := SReadCount) else s
    case SReadCount => s.(sender := SCopy(slot.numSamples, []))
    case SCopy(n, frame) =>
      if |frame| < 2 * n && |frame| < |slot.data| then s.(sender := SCopy(n, frame + [slot.data[|frame|]]))
      else Update(s, j, slot.(ready := false)).(sender := SBump, taken := s.taken + [frame])
    case SBump => s.(read := s.read + 1, sender := SCheck)
  }

  function Next(s: State, e: Event): State
    requires Shaped(s) && Enabled(s, e)
  {
    match e
    case Deliver(buf, scanning) => if scanning || buf == [] then s else s.(callback := CCheck(buf))
    case CallbackStep => StepCallback(s)
    case SenderStep => StepSender(s)
  }

  // ---- the invariant ----------------------------------------------------------------

  /** How far round the ring slot `j` is from slot `from`. */
  function Around(from: int, j: int): int {
    (j - from) % POOL_SIZE
  }

  function Holding(c: Callback): bool {
    c.CCopy? || c.CSetCount? || c.CSetReady?
  }

  predicate Counters(s: State) {
    && |s.accepted| == s.write + (if s.callback.CBump? then 1 else 0)
    && |s.taken| == s.read + (if s.sender.SBump? then 1 else 0)
    && |s.taken| <= |s.accepted| <= |s.taken| + POOL_SIZE
    && (Holding(s.callback) ==> |s.accepted| < |s.taken| + POOL_SIZE)
    && (s.sender.SReadCount? || s.sender.SCopy? ==> |s.taken| < |s.accepted|)
  }

  /** The ready slots are those of the accepted frames not yet taken. */
  predicate Flags(s: State)
    requires Shaped(s)
  {
    forall j :: 0 <= j < POOL_SIZE ==>
      (s.slots[j].ready <==> Around(|s.taken|, j) < |s.accepted| - |s.taken|)
  }

  predicate Holds(slot: Slot, frame: seq<int>) {
    2 * slot.numSamples == |frame| <= |slot.data| && slot.data[..|frame|] == frame
  }

  predicate Waiting(s: State)
    requires Shaped(s)
  {
    forall m {:trigger s.accepted[m]} :: |s.taken| <= m < |s.accepted| ==> Holds(s.slots[m % POOL_SIZE], s.accepted[m])
  }

  predicate CallbackInv(s: State)
    requires Shaped(s)
  {
    var slot := s.slots[s.write % POOL_SIZE];
    match s.callback
    case CCopy(buf, k) => k <= 2 * Pairs(buf) && slot.data[..k] == buf[..k]
    case CSetCount(buf) => slot.data[..2 * Pairs(buf)] == Frame(buf)
    case CSetReady(buf) => Holds(slot, Frame(buf))
    case _ => true
  }

  predicate SenderInv(s: State)
    requires Shaped(s)
  {
    match s.sender
    case SCopy(n, frame) =>
      |s.taken| < |s.accepted| && 2 * n == |s.accepted[|s.taken|]| && frame <= s.accepted[|s.taken|]
    case _ => true
  }

  predicate Inv(s: State) {
    && Shaped(s) && Counters(s) && Flags(s) && Waiting(s) && CallbackInv(s) && SenderInv(s)
    && s.taken <= s.accepted
  }

  // ---- one step -----------------------------------------------------------------------

  lemma SlotOf(from: nat, m: nat, j: nat)
    requires from <= m < from + POOL_SIZE && j < POOL_SIZE
    ensures Around(from, j) == m - from <==> j == m % POOL_SIZE
  {
  }

  lemma NextAround(from: nat, j: nat)
    requires j < POOL_SIZE
    ensures Around(from + 1, j) == if Around(from, j) == 0 then POOL_SIZE - 1 else Around(from, j) - 1
  {
  }

  /** The slot the callback is filling is no accepted frame's, and the sender's slot is the oldest's. */
  lemma OtherSlot(from: nat, m: nat, other: nat)
    requires from <= m < other < from + POOL_SIZE
    ensures m % POOL_SIZE != other % POOL_SIZE
  {
  }

  /** A change to a slot that holds no waiting frame. */
  lemma SameWaiting(s: State, s': State, j: nat)
    requires Shaped(s) && Shaped(s') && Waiting(s) && j < POOL_SIZE
    requires s'.slots == s.slots[j := s'.slots[j]] && s'.accepted == s.accepted && s'.taken == s.taken
    requires forall m :: |s.taken| <= m < |s.accepted| ==> m % POOL_SIZE != j
    ensures Waiting(s')
  {
  }

  lemma FreeSlot(s: State)
    requires Counters(s) && Holding(s.callback)
    ensures forall m :: |s.taken| <= m < |s.accepted| ==> m % POOL_SIZE != s.write % POOL_SIZE
  {
    forall m | |s.taken| <= m < |s.accepted| ensures m % POOL_SIZE != s.write % POOL_SIZE {
      OtherSlot(|s.taken|, m, |s.accepted|);
    }
  }

  lemma CallbackKeeps(s: State)
    requires Inv(s) && s.callback != CIdle
    ensures Inv(StepCallback(s))
  {
    var s' := StepCallback(s);
    var j := s.write % POOL_SIZE;
    match s.callback
    case CCheck(buf) =>
      SlotOf(|s.taken|, |s.taken|, j);
      CheckKeeps(s);
    case CCopy(buf, k) => CopyKeeps(s);
    case CSetCount(buf) => SetCountKeeps(s);
    case CSetReady(buf) => SetReadyKeeps(s);
    case CBump =>
  }

  /** The check finds the slot taken exactly when the ring is full. */
  lemma ReadyMeansFull(s: State)
    requires Shaped(s) && Counters(s) && Flags(s) && s.callback.CCheck?
    ensures s.slots[s.write % POOL_SIZE].ready <==> |s.accepted| - |s.taken| == POOL_SIZE
  {
    var j := s.write % POOL_SIZE;
    assert s.slots[j].ready <==> Around(|s.taken|, j) < |s.accepted| - |s.taken|;
    if |s.accepted| < |s.taken| + POOL_SIZE {
      SlotOf(|s.taken|, |s.accepted|, j);
    }
  }

  lemma CheckKeeps(s: State)
    requires Inv(s) && s.callback.CCheck?
    ensures Inv(StepCallback(s))
  {
    ReadyMeansFull(s);
    hide Flags, Waiting, Around;
  }

  lemma CopyKeeps(s: State)
    requires Inv(s) && s.callback.CCopy?
    ensures Inv(StepCallback(s))
  {
    FreeSlot(s);
    var (s', j, k) := (StepCallback(s), s.write % POOL_SIZE, s.callback.k);
    var buf := s.callback.buf;
    if k < 2 * Pairs(buf) {
      SameWaiting(s, s', j);
      assert s'.slots[j].data[..k + 1] == s.slots[j].data[..k] + [buf[k]];
      assert buf[..k + 1] == buf[..k] + [buf[k]];
    }
    hide Waiting, Around;
  }

  lemma SetCountKeeps(s: State)
    requires Inv(s) && s.callback.CSetCount?
    ensures Inv(StepCallback(s))
  {
    FreeSlot(s);
    SameWaiting(s, StepCallback(s), s.write % POOL_SIZE);
    hide Waiting, Around;
  }

  lemma SetReadyKeeps(s: State)
    requires Inv(s) && s.callback.CSetReady?
    ensures Inv(StepCallback(s))
  {
    FreeSlot(s);
    var (s', j) := (StepCallback(s), s.write % POOL_SIZE);
    SetReadyFlags(s, s', j);
    assert Waiting(s') by {
      forall m | |s'.taken| <= m < |s'.accepted| ensures Holds(s'.slots[m % POOL_SIZE], s'.accepted[m]) {
        if m < |s.accepted| {
          assert Holds(s.slots[m % POOL_SIZE], s.accepted[m]);
        }
      }
    }
    hide Waiting, Flags, Around;
  }

  lemma SetReadyFlags(s: State, s': State, j: nat)
    requires Shaped(s) && Shaped(s') && Flags(s) && |s.taken| <= |s.accepted| < |s.taken| + POOL_SIZE
    requires j == |s.accepted| % POOL_SIZE && s'.slots == s.slots[j := s.slots[j].(ready := true)]
    requires |s'.accepted| == |s.accepted| + 1 && |s'.taken| == |s.taken|
    ensures Flags(s')
  {
    hide Around;
    forall i | 0 <= i < POOL_SIZE
      ensures s'.slots[i].ready <==> Around(|s'.taken|, i) < |s'.accepted| - |s'.taken|
    {
      SlotOf(|s.taken|, |s.accepted|, i);
    }
  }

  lemma SenderKeeps(s: State)
    requires Inv(s)
    ensures Inv(StepSender(s))
  {
    var j := s.read % POOL_SIZE;
    match s.sender
    case SCheck =>
      SlotOf(|s.taken|, |s.taken|, j);
      assert s.slots[j].ready <==> 0 < |s.accepted| - |s.taken|;
      hide Flags, Waiting, Around;
    case SReadCount =>
      assert Holds(s.slots[j], s.accepted[|s.taken|]);
      hide Flags, Waiting, Around;
    case SCopy(n, frame) => SendKeeps(s);
    case SBump => hide Flags, Waiting, Around;
  }

  lemma SendKeeps(s: State)
    requires Inv(s) && s.sender.SCopy?
    ensures Inv(StepSender(s))
  {
    var (s', j) := (StepSender(s), s.read % POOL_SIZE);
    var (n, frame, whole) := (s.sender.numSamples, s.sender.frame, s.accepted[|s.taken|]);
    assert Holds(s.slots[j], whole);
    if |frame| < 2 * n {
      assert s.slots[j].data[|frame|] == s.slots[j].data[..|whole|][|frame|] == whole[|frame|];
      hide Flags, Waiting, Around;
    } else {
      assert frame == whole;
      ReleaseFlags(s, s', j);
      ReleaseWaiting(s, s', j);
      ReleaseCallback(s, s', j);
      hide Flags, Waiting, Around, CallbackInv;
    }
  }

  lemma ReleaseFlags(s: State, s': State, j: nat)
    requires Shaped(s) && Shaped(s') && Flags(s) && |s.taken| < |s.accepted| <= |s.taken| + POOL_SIZE
    requires j == |s.taken| % POOL_SIZE && s'.slots == s.slots[j := s.slots[j].(ready := false)]
    requires |s'.accepted| == |s.accepted| && |s'.taken| == |s.taken| + 1
    ensures Flags(s')
  {
    hide Around;
    forall i | 0 <= i < POOL_SIZE
      ensures s'.slots[i].ready <==> Around(|s'.taken|, i) < |s'.accepted| - |s'.taken|
    {
      SlotOf(|s.taken|, |s.taken|, i);
      NextAround(|s.taken|, i);
    }
  }

  lemma ReleaseWaiting(s: State, s': State, j: nat)
    requires Shaped(s) && Shaped(s') && Waiting(s) && |s.accepted| <= |s.taken| + POOL_SIZE
    requires j == |s.taken| % POOL_SIZE && s'.slots == s.slots[j := s'.slots[j]]
    requires s'.accepted == s.accepted && |s'.taken| == |s.taken| + 1
    ensures Waiting(s')
  {
    forall m | |s'.taken| <= m < |s'.accepted| ensures Holds(s'.slots[m % POOL_SIZE], s'.accepted[m]) {
      OtherSlot(|s.taken|, |s.taken|, m);
      assert Holds(s.slots[m % POOL_SIZE], s.accepted[m]);
    }
  }

  lemma ReleaseCallback(s: State, s': State, j: nat)
    requires Shaped(s) && Shaped(s') && CallbackInv(s) && Counters(s) && |s.taken| < |s.accepted|
    requires j == |s.taken| % POOL_SIZE && s'.slots == s.slots[j := s.slots[j].(ready := false)]
    requires s'.callback == s.callback && s'.write == s.write
    ensures CallbackInv(s')
  {
    if Holding(s.callback) {
      OtherSlot(|s.taken|, |s.taken|, |s.accepted|);
    }
  }

  lemma StepKeepsInv(s: State, e: Event)
    requires Inv(s) && Enabled(s, e)
    ensures Inv(Next(s, e))
  {
    match e
    case Deliver(_, _) => hide Around;
    case CallbackStep => hide Inv, StepCallback; CallbackKeeps(s);
    case SenderStep => hide Inv, StepSender; SenderKeeps(s);
  }

  // ---- runs ---------------------------------------------------------------------------

  ghost predicate IsRun(states: seq<State>, events: seq<Event>) {
    && |states| == |events| + 1 && Init(states[0])
    && forall i {:trigger events[i]} :: 0 <= i < |events| ==>
         Shaped(states[i]) && Enabled(states[i], events[i]) && states[i + 1] == Next(states[i], events[i])
  }

  lemma {:induction false} RunKeepsInv(states: seq<State>, events: seq<Event>, i: nat)
    requires IsRun(states, events) && i < |states|
    ensures Inv(states[i])
  {
    hide Inv, Next;
    if i == 0 {
      InitInv(states[0]);
    } else {
      RunKeepsInv(states, events, i - 1);
      assert states[i] == Next(states[i - 1], events[i - 1]);
      StepKeepsInv(states[i - 1], events[i - 1]);
    }
  }

  lemma InitInv(s: State)
    requires Init(s)
    ensures Inv(s)
  {
    hide Around;
    forall j | 0 <= j < POOL_SIZE ensures Around(0, j) >= 0 { SlotOf(0, j, j); }
  }

  /** In every run the frames taken by the sender are the accepted frames, in order, each once, whole and
      untorn. */
  lemma TakenAreAccepted(states: seq<State>, events: seq<Event>, i: nat)
    requires IsRun(states, events) && i < |states|
    ensures states[i].taken <= states[i].accepted
    ensures |states[i].accepted| - |states[i].taken| <= 64
  {
    RunKeepsInv(states, events, i);
    hide Flags, Waiting, IsRun;
  }

  /** The callback's check drops its buffer exactly when 64 accepted frames are not yet released, and
      otherwise goes on to fill the slot. */
  lemma DroppedExactlyWhenFull(states: seq<State>, events: seq<Event>, i: nat)
    requires IsRun(states, events) && i < |events| && events[i] == CallbackStep && states[i].callback.CCheck?
    ensures states[i + 1].callback == CIdle <==> |states[i].accepted| - |states[i].taken| == 64
    ensures states[i + 1].callback != CIdle ==> states[i + 1].callback == CCopy(states[i].callback.buf, 0)
    ensures states[i + 1].accepted == states[i].accepted
  {
    RunKeepsInv(states, events, i);
    ReadyMeansFull(states[i]);
    assert states[i + 1] == Next(states[i], events[i]);
    hide Flags, Waiting, IsRun;
  }

  /** The callback is working on a buffer. */
  predicate InCall(c: Callback) {
    c.CCheck? || Holding(c)
  }

  lemma {:induction false} CallInProgress(states: seq<State>, events: seq<Event>, i: nat, k: nat, buf: seq<int>)
    requires IsRun(states, events) && i < |events| && events[i] == Deliver(buf, false) && buf != []
    requires i < k < |states| && forall m :: i < m <= k ==> InCall(states[m].callback)
    ensures InCall(states[k].callback) && states[k].callback.buf == buf && states[k].accepted == states[i].accepted
    decreases k
  {
    hide Shaped;
    if k == i + 1 {
      assert states[i + 1] == Next(states[i], events[i]);
    } else {
      CallInProgress(states, events, i, k - 1, buf);
      assert states[k] == Next(states[k - 1], events[k - 1]);
    }
  }

  /** What is kept of a buffer: its start, whole pairs only and at most 16384 of them. */
  predicate Kept(buf: seq<int>, frame: seq<int>) {
    && frame <= buf
    && |frame| == if |buf| > 32768 then 32768 else if |buf| % 2 == 0 then |buf| else |buf| - 1
  }

  lemma FrameIsKept(buf: seq<int>)
    ensures Kept(buf, Frame(buf))
  {
  }

  /** The whole life of a non-empty buffer delivered outside scanning, whatever the sender does meanwhile:
      when the callback is done with it, either 64 accepted frames were unreleased at the check and it was
      dropped, or they were not and one more frame is accepted, all of the buffer but a half pair at its end
      or what is beyond 16384 pairs. */
  lemma BufferOutcome(states: seq<State>, events: seq<Event>, i: nat, j: nat, buf: seq<int>)
    requires IsRun(states, events) && i < |events| && events[i] == Deliver(buf, false) && buf != []
    requires i + 1 < j < |states| && (forall m :: i < m < j ==> InCall(states[m].callback)) && !InCall(states[j].callback)
    ensures if states[j].callback == CIdle
            then states[j - 1].callback == CCheck(buf) && |states[j - 1].accepted| - |states[j - 1].taken| == 64
                 && states[j].accepted == states[i].accepted
            else |states[j].accepted| == |states[i].accepted| + 1 && states[i].accepted <= states[j].accepted
                 && Kept(buf, states[j].accepted[|states[i].accepted|])
  {
    CallInProgress(states, events, i, j - 1, buf);
    assert states[j] == Next(states[j - 1], events[j - 1]);
    if states[j - 1].callback.CCheck? {
      DroppedExactlyWhenFull(states, events, j - 1);
    }
    FrameIsKept(buf);
    hide Shaped, IsRun, Kept, Frame;
  }

  /** Only buffers that are not empty and come outside scanning start the callback off; any other leaves the
      relay as it was. */
  lemma NothingWhileScanning(states: seq<State>, events: seq<Event>, i: nat)
    requires IsRun(states, events) && i < |events| && events[i].Deliver?
    ensures states[i + 1] == states[i] <==> events[i].scanning || events[i].buf == []
    ensures states[i + 1] != states[i] ==> InCall(states[i + 1].callback) && states[i + 1].callback.buf == events[i].buf
  {
    assert states[i + 1] == Next(states[i], events[i]);
    hide Shaped;
  }
}
