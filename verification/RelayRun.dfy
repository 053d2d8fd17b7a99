/** The relay as a whole: the callback, the sender with its ring and its send loop, and the clients, all in
    one run. The sender takes a frame from the ring, broadcasts it, and only then looks at the ring again. */
module RelayRun {
  import C = ClientStreams
  import F = IqFraming
  import R = RelayRing

  datatype State = State(r: R.State, c: C.State)

  datatype Event =
    | Callback(step: R.Event)    // a delivery or a step of the callback
    | Take                       // a step of the sender at the ring
    | Broadcast                  // the sender starts on the frame it has taken
    | Clients(change: C.Event)   // a client joins, or a step of the send loop or of the removals

  /** The sender holds a frame it has not broadcast yet. */
  predicate Holds(s: State) {
    |s.c.frames| < |s.r.taken|
  }

  predicate Enabled(s: State, e: Event) {
    match e
    case Callback(step) => !step.SenderStep? && R.Enabled(s.r, step) && (step.Deliver? ==> F.IsSamples(step.buf))
    case Take => s.c.phase.Ready? && (s.r.sender.SCheck? ==> !Holds(s))
    case Broadcast => s.c.phase.Ready? && s.r.sender.SCheck? && Holds(s)
    case Clients(change) => !change.TakeFrame? && C.Enabled(s.c, change)
  }

  function Next(s: State, e: Event): State
    requires R.Shaped(s.r) && Enabled(s, e)
  {
    match e
    case Callback(step) => s.(r := R.Next(s.r, step))
    case Take => s.(r := R.Next(s.r, R.SenderStep))
    case Broadcast => s.(c := C.Next(s.c, C.TakeFrame(F.FrameBytes(s.r.taken[|s.c.frames|]))))
    case Clients(change) => s.(c := C.Next(s.c, change))
  }

  /** Everything accepted, and what the callback is working on, are blocks the framing can carry. */
  ghost predicate Blocks(r: R.State) {
    && (forall k :: 0 <= k < |r.accepted| ==> F.IsBlock(r.accepted[k]))
    && (R.InCall(r.callback) ==> F.IsSamples(r.callback.buf))
  }

  /** The frames broadcast are those of the blocks taken, but for one the sender may still hold. */
  ghost predicate InStep(s: State) {
    && |s.c.frames| <= |s.r.taken| <= |s.c.frames| + 1 && s.r.taken <= s.r.accepted
    && F.FramesOf(s.c.frames, s.r.taken[..|s.c.frames|])
    && (Holds(s) ==> s.c.phase.Ready? && (s.r.sender.SBump? || s.r.sender.SCheck?))
    && (s.r.sender.SBump? ==> Holds(s))
  }

  ghost predicate Inv(s: State) {
    R.Inv(s.r) && C.Inv(s.c) && Blocks(s.r) && InStep(s)
  }

  lemma CallbackBlocks(r: R.State, e: R.Event)
    requires R.Shaped(r) && R.Enabled(r, e) && !e.SenderStep? && (e.Deliver? ==> F.IsSamples(e.buf)) && Blocks(r)
    ensures Blocks(R.Next(r, e)) && r.accepted <= R.Next(r, e).accepted
    ensures R.Next(r, e).taken == r.taken && R.Next(r, e).sender == r.sender
  {
    if e.CallbackStep? && r.callback.CSetReady? {
      F.EmptyBlockExactly(r.callback.buf);
    }
    hide F.IsBlock, R.Frame, F.IsSamples;
  }

  lemma TakeBlocks(r: R.State)
    requires R.Shaped(r) && Blocks(r)
    ensures var r' := R.StepSender(r);
            && Blocks(r') && r'.accepted == r.accepted && r.taken <= r'.taken && |r'.taken| <= |r.taken| + 1
            && (|r'.taken| > |r.taken| <==> r'.sender.SBump?)
            && (r.sender.SBump? ==> r'.sender.SCheck?)
  {
    hide F.IsBlock, F.IsSamples, R.Shaped;
  }

  lemma StepKeepsInv(s: State, e: Event)
    requires Inv(s) && Enabled(s, e)
    ensures Inv(Next(s, e))
  {
    assert R.Shaped(s.r);
    match e
    case Callback(step) => CallbackKeeps(s, step);
    case Take => TakeKeeps(s);
    case Broadcast => BroadcastKeeps(s);
    case Clients(change) => ClientsKeep(s, change);
  }

  lemma CallbackKeeps(s: State, e: R.Event)
    requires Inv(s) && Enabled(s, Callback(e)) && R.Shaped(s.r)
    ensures Inv(Next(s, Callback(e)))
  {
    hide R.Inv, C.Inv, R.Next, F.FramesOf, Blocks, R.Shaped;
    R.StepKeepsInv(s.r, e);
    CallbackBlocks(s.r, e);
  }

  lemma TakeKeeps(s: State)
    requires Inv(s) && Enabled(s, Take) && R.Shaped(s.r)
    ensures Inv(Next(s, Take))
  {
    hide R.Inv, C.Inv, R.StepSender, F.FramesOf, Blocks, R.Shaped;
    R.StepKeepsInv(s.r, R.SenderStep);
    TakeBlocks(s.r);
    TakenPrefix(Next(s, Take).r);
    var (n, r') := (|s.c.frames|, Next(s, Take).r);
    assert r'.taken[..n] == s.r.taken[..n];
  }

  lemma TakenPrefix(r: R.State)
    requires R.Inv(r)
    ensures r.taken <= r.accepted
  {
  }

  lemma BroadcastKeeps(s: State)
    requires Inv(s) && Enabled(s, Broadcast) && R.Shaped(s.r)
    ensures Inv(Next(s, Broadcast))
  {
    hide R.Inv, C.Inv, F.FrameBytes, F.IsBlock, R.Shaped;
    var n := |s.c.frames|;
    var block := s.r.taken[n];
    assert block == s.r.accepted[n] && F.IsBlock(block);
    C.StepKeepsInv(s.c, C.TakeFrame(F.FrameBytes(block)));
    assert s.r.taken[..n + 1] == s.r.taken[..n] + [block];
  }

  lemma ClientsKeep(s: State, e: C.Event)
    requires Inv(s) && Enabled(s, Clients(e)) && R.Shaped(s.r)
    ensures Inv(Next(s, Clients(e)))
  {
    hide R.Inv, C.Inv, F.FramesOf, Blocks, R.Shaped, C.Deliver, C.Without;
    C.StepKeepsInv(s.c, e);
  }

  // ---- runs ----------------------------------------------------------------------------

  ghost predicate IsRun(states: seq<State>, events: seq<Event>) {
    && |states| == |events| + 1 && R.Init(states[0].r) && states[0].c == C.Init()
    && forall i {:trigger events[i]} :: 0 <= i < |events| ==>
         R.Shaped(states[i].r) && Enabled(states[i], events[i]) && states[i + 1] == Next(states[i], events[i])
  }

  lemma {:induction false} RunKeepsInv(states: seq<State>, events: seq<Event>, i: nat)
    requires IsRun(states, events) && i < |states|
    ensures Inv(states[i])
  {
    hide R.Inv, C.Inv, Next, Enabled;
    if i == 0 {
      R.InitInv(states[0].r);
      C.InitInv();
    } else {
      RunKeepsInv(states, events, i - 1);
      hide Inv;
      assert states[i] == Next(states[i - 1], events[i - 1]);
      StepKeepsInv(states[i - 1], events[i - 1]);
    }
  }

  /** From the radio to the clients, in every run: whatever the callback, the sender, joining clients and
      failing sends do, each client's bytes parse back to the accepted frames from its join point on, in
      order and untorn, and a daemon reading them delivers all of them if and only if none is empty. A client
      that was not cut short is behind by at most the ring and the frame in hand. */
  lemma EndToEnd(states: seq<State>, events: seq<Event>, i: nat, c: nat)
    requires IsRun(states, events) && i < |states| && c < |states[i].c.conns|
    ensures F.Parses(states[i].c.conns[c], states[i].r.accepted)
    ensures var conn := states[i].c.conns[c];
            !conn.cut ==> |states[i].r.accepted| - (conn.joined + conn.whole) <= 65
  {
    RunKeepsInv(states, events, i);
    var s := states[i];
    var (conn, n) := (s.c.conns[c], |s.c.frames|);
    assert C.Stream(conn, s.c.frames) && C.Current(s.c, c);
    hide IsRun, F.FramesOf, C.Stream;
    F.ConnectionParses(conn, s.c.frames, s.r.taken[..n]);
    SamePrefix(conn, s.r.taken[..n], s.r.accepted);
  }

  lemma SamePrefix(conn: C.Connection, blocks: seq<seq<int>>, more: seq<seq<int>>)
    requires F.Parses(conn, blocks) && blocks <= more
    ensures F.Parses(conn, more)
  {
    hide F.Parse, F.Read;
    var end := conn.joined + conn.whole;
    assert more[conn.joined..end] == blocks[conn.joined..end];
  }

  // ---- whole pairs ---------------------------------------------------------------------

  /** No frame accepted, or being worked on, is shorter than a pair. */
  ghost predicate Full(r: R.State) {
    && (forall k :: 0 <= k < |r.accepted| ==> r.accepted[k] != [])
    && (R.InCall(r.callback) ==> |r.callback.buf| >= 2)
  }

  predicate SinglesIn(e: Event) {
    e.Callback? && e.step.Deliver? && |e.step.buf| == 1
  }

  lemma StepFull(s: State, e: Event)
    requires Inv(s) && Enabled(s, e) && Full(s.r) && !SinglesIn(e)
    ensures Full(Next(s, e).r)
  {
    assert R.Shaped(s.r);
    hide R.Inv, C.Inv, InStep, F.IsBlock, F.IsSamples, C.Next, R.Frame;
    if e.Callback? && e.step.CallbackStep? && s.r.callback.CSetReady? {
      F.EmptyBlockExactly(s.r.callback.buf);
    }
  }

  lemma {:induction false} RunFull(states: seq<State>, events: seq<Event>, i: nat)
    requires IsRun(states, events) && i < |states| && forall m :: 0 <= m < i ==> !SinglesIn(events[m])
    ensures Full(states[i].r)
  {
    hide R.Inv, C.Inv, Next, Enabled, SinglesIn;
    if i > 0 {
      RunFull(states, events, i - 1);
      RunKeepsInv(states, events, i - 1);
      hide Inv, Full;
      assert states[i] == Next(states[i - 1], events[i - 1]);
      StepFull(states[i - 1], events[i - 1]);
    }
  }

  /** As long as the radio delivers no buffer of a single sample, the daemon of every client gets every
      frame accepted since the client joined, up to the one in hand or cut. */
  lemma DaemonGetsAll(states: seq<State>, events: seq<Event>, i: nat, c: nat)
    requires IsRun(states, events) && i < |states| && c < |states[i].c.conns|
    requires forall m :: 0 <= m < i ==> !SinglesIn(events[m])
    ensures var conn := states[i].c.conns[c];
            var end := conn.joined + conn.whole;
            end <= |states[i].r.accepted| && F.Read(conn.received) == states[i].r.accepted[conn.joined..end]
  {
    hide F.Read, F.Parse, R.Inv, C.Inv, Inv, IsRun, SinglesIn;
    EndToEnd(states, events, i, c);
    RunFull(states, events, i);
  }
}
