/** The relay's TCP clients: frames are sent to every client in the list under a lock, a client whose send
    failed or stopped short is removed afterwards, and clients may join whenever the lock is free. A
    connection is identified by its number in order of joining. */
module ClientStreams {
  import opened Bytes

  /** One connection: how many frames had been broadcast when it joined, the bytes it has received, and,
      as observations, how many sends to it were complete and whether one was cut short. */
  datatype Connection = Connection(joined: nat, received: seq<byte>, whole: nat, cut: bool)

  /** The sender is between frames, in the locked loop over the clients still `todo`, or removing the
      dead ones one at a time. */
  datatype Phase =
    | Ready
    | Sending(todo: seq<nat>, dead: seq<nat>)
    | Removing(dead: seq<nat>)

  /** `frames` are the frames broadcast so far, the current one last. */
  datatype State = State(conns: seq<Connection>, clients: seq<nat>, phase: Phase, frames: seq<seq<byte>>)

  function Init(): State {
    State([], [], Ready, [])
  }

  datatype Event =
    | Join
    | TakeFrame(frame: seq<byte>)
    | Send(sent: int)
    | EndLoop
    | Remove
    | EndRemoval

  predicate Enabled(s: State, e: Event) {
    match e
    case Join => !s.phase.Sending?
    case TakeFrame(frame) => s.phase.Ready? && frame != []
    case Send(sent) =>
      s.phase.Sending? && s.phase.todo != [] && s.phase.todo[0] < |s.conns| && s.frames != []
      && -1 <= sent <= |s.frames[|s.frames| - 1]|
    case EndLoop => s.phase.Sending? && s.phase.todo == []
    case Remove => s.phase.Removing? && s.phase.dead != []
    case EndRemoval => s.phase.Removing? && s.phase.dead == []
  }

  /** Erase-remove of one client. */
  function Without(clients: seq<nat>, c: nat): seq<nat> {
    if clients == [] then []
    else if clients[0] == c then Without(clients[1..], c)
    else [clients[0]] + Without(clients[1..], c)
  }

  /** `send` returns -1 with nothing delivered, or the number of bytes delivered. */
  function Deliver(conn: Connection, frame: seq<byte>, sent: int): Connection
    requires -1 <= sent <= |frame|
  {
    var n := if sent < 0 then 0 else sent;
    if sent == |frame| then conn.(received := conn.received + frame, whole := conn.whole + 1)
    else conn.(received := conn.received + frame[..n], cut := true)
  }

  function Next(s: State, e: Event): State
    requires Enabled(s, e)
  {
    match e
    case Join =>
      s.(conns := s.conns + [Connection(|s.frames|, [], 0, false)], clients := s.clients + [|s.conns|])
    case TakeFrame(frame) => s.(frames := s.frames + [frame], phase := Sending(s.clients, []))
    case Send(sent) =>
      var (c, frame) := (s.phase.todo[0], s.frames[|s.frames| - 1]);
      s.(conns := s.conns[c := Deliver(s.conns[c], frame, sent)],
         phase := Sending(s.phase.todo[1..], if sent == |frame| then s.phase.dead else s.phase.dead + [c]))
    case EndLoop => s.(phase := Removing(s.phase.dead))
    case Remove =>
      s.(clients := Without(s.clients, s.phase.dead[0]), phase := Removing(s.phase.dead[1..]))
    case EndRemoval => s.(phase := Ready)
  }

  // ---- the invariant ------------------------------------------------------------------

  /** The frames from number `lo` up to `hi`, one after another. */
  function Joined(frames: seq<seq<byte>>, lo: nat, hi: nat): seq<byte>
    decreases hi
  {
    if hi <= lo || hi > |frames| then [] else Joined(frames, lo, hi - 1) + frames[hi - 1]
  }

  /** What the connection has received: whole consecutive frames from its join point and, if it was cut,
      then a part of the next that is not all of it. */
  ghost predicate Stream(conn: Connection, frames: seq<seq<byte>>) {
    var end := conn.joined + conn.whole;
    && end <= |frames|
    && (!conn.cut ==> conn.received == Joined(frames, conn.joined, end))
    && (conn.cut ==> exists n :: EndsInPart(conn, frames, n))
  }

  /** After the whole frames come the first `n` bytes of the next, and not all of it. */
  predicate EndsInPart(conn: Connection, frames: seq<seq<byte>>, n: int) {
    var end := conn.joined + conn.whole;
    && end < |frames| && 0 <= n < |frames[end]|
    && conn.received == Joined(frames, conn.joined, end) + frames[end][..n]
  }

  predicate Distinct(xs: seq<nat>) {
    forall i, j :: 0 <= i < j < |xs| ==> xs[i] != xs[j]
  }

  function Todo(p: Phase): seq<nat> {
    if p.Sending? then p.todo else []
  }

  function Dead(p: Phase): seq<nat> {
    if p.Ready? then [] else p.dead
  }

  /** A connection is cut exactly when it is dead or removed, and otherwise has received every frame since
      it joined, but for the current one if it is still to be sent. */
  predicate Current(s: State, c: nat)
    requires c < |s.conns|
  {
    var conn := s.conns[c];
    && (conn.cut <==> c !in s.clients || c in Dead(s.phase))
    && (!conn.cut ==> conn.joined + conn.whole == |s.frames| - (if c in Todo(s.phase) then 1 else 0))
  }

  /** The lists of clients are in order. */
  ghost predicate Lists(s: State) {
    && Distinct(Todo(s.phase)) && (forall c :: c in Todo(s.phase) ==> c in s.clients && c !in Dead(s.phase))
    && Distinct(s.clients) && (forall c :: c in s.clients || c in Dead(s.phase) ==> c < |s.conns|)
    && (s.phase.Sending? ==> s.frames != []) && (forall k :: 0 <= k < |s.frames| ==> s.frames[k] != [])
  }

  ghost predicate Inv(s: State) {
    Lists(s) && forall c :: 0 <= c < |s.conns| ==> Stream(s.conns[c], s.frames) && Current(s, c)
  }

  lemma {:induction false} JoinedKept(frames: seq<seq<byte>>, frame: seq<byte>, lo: nat, hi: nat)
    requires hi <= |frames|
    ensures Joined(frames + [frame], lo, hi) == Joined(frames, lo, hi)
    decreases hi
  {
    if lo < hi {
      JoinedKept(frames, frame, lo, hi - 1);
    }
  }

  lemma StreamKept(conn: Connection, frames: seq<seq<byte>>, frame: seq<byte>)
    requires Stream(conn, frames)
    ensures Stream(conn, frames + [frame])
  {
    var end := conn.joined + conn.whole;
    JoinedKept(frames, frame, conn.joined, end);
    hide Joined;
    if conn.cut {
      var n :| EndsInPart(conn, frames, n);
      assert EndsInPart(conn, frames + [frame], n);
    }
  }

  lemma Delivered(conn: Connection, frames: seq<seq<byte>>, sent: int)
    requires frames != [] && Stream(conn, frames) && !conn.cut && conn.joined + conn.whole == |frames| - 1
    requires -1 <= sent <= |frames[|frames| - 1]| && frames[|frames| - 1] != []
    ensures Stream(Deliver(conn, frames[|frames| - 1], sent), frames)
  {
    var (end, frame) := (|frames| - 1, frames[|frames| - 1]);
    var conn' := Deliver(conn, frame, sent);
    if sent == |frame| {
      assert Joined(frames, conn.joined, end + 1) == Joined(frames, conn.joined, end) + frame;
    } else {
      hide Joined;
      var n := if sent < 0 then 0 else sent;
      assert EndsInPart(conn', frames, n);
    }
  }

  lemma {:induction false} WithoutMembers(clients: seq<nat>, c: nat)
    ensures forall x :: x in Without(clients, c) <==> x in clients && x != c
  {
    if clients != [] {
      WithoutMembers(clients[1..], c);
      assert forall x :: x in clients <==> x == clients[0] || x in clients[1..];
    }
  }

  lemma {:induction false} WithoutDistinct(clients: seq<nat>, c: nat)
    requires Distinct(clients)
    ensures Distinct(Without(clients, c))
  {
    if clients != [] {
      assert Distinct(clients[1..]);
      WithoutDistinct(clients[1..], c);
      WithoutMembers(clients[1..], c);
      var rest := Without(clients[1..], c);
      assert clients[0] !in clients[1..];
      assert forall i :: 0 <= i < |rest| ==> rest[i] in clients[1..];
    }
  }

  // ---- one step -------------------------------------------------------------------------

  lemma JoinKeeps(s: State)
    requires Inv(s) && Enabled(s, Join)
    ensures Inv(Next(s, Join))
  {
    var s' := Next(s, Join);
    assert Stream(s'.conns[|s.conns|], s'.frames);
    hide Stream;
    forall c | 0 <= c < |s'.conns| ensures Current(s', c) && Stream(s'.conns[c], s'.frames) {
      if c < |s.conns| {
        assert Current(s, c) && s'.conns[c] == s.conns[c];
      } else {
        assert c in s'.clients && c !in Dead(s.phase);
      }
    }
  }

  lemma TakeFrameKeeps(s: State, frame: seq<byte>)
    requires Inv(s) && Enabled(s, TakeFrame(frame))
    ensures Inv(Next(s, TakeFrame(frame)))
  {
    var s' := Next(s, TakeFrame(frame));
    forall c | 0 <= c < |s'.conns| ensures Current(s', c) && Stream(s'.conns[c], s'.frames) {
      StreamKept(s.conns[c], s.frames, frame);
      assert Current(s, c);
    }
    hide Stream;
  }

  lemma SendLists(s: State, sent: int)
    requires Lists(s) && Enabled(s, Send(sent))
    ensures Lists(Next(s, Send(sent)))
  {
    hide Distinct, Deliver;
    var (s', todo) := (Next(s, Send(sent)), s.phase.todo);
    assert Todo(s'.phase) == todo[1..] && s'.clients == s.clients && |s'.conns| == |s.conns|;
    RestOfTodo(todo);
    assert forall d :: d in Dead(s'.phase) ==> d in Dead(s.phase) || d == todo[0];
  }

  lemma RestOfTodo(todo: seq<nat>)
    requires Distinct(todo) && todo != []
    ensures todo[0] in todo && todo[0] !in todo[1..] && Distinct(todo[1..])
    ensures forall d :: d in todo[1..] ==> d in todo
  {
  }

  lemma SendCurrent(s: State, sent: int, d: nat)
    requires Lists(s) && Enabled(s, Send(sent)) && d < |s.conns| && Current(s, d) && !s.conns[s.phase.todo[0]].cut
    ensures Current(Next(s, Send(sent)), d)
  {
    var (s', todo) := (Next(s, Send(sent)), s.phase.todo);
    assert todo[0] in todo && todo[0] !in todo[1..];
    hide Lists, Distinct;
    assert d in todo <==> d == todo[0] || d in todo[1..];
    assert d != todo[0] ==> s'.conns[d] == s.conns[d] && (d in Dead(s'.phase) <==> d in Dead(s.phase));
  }

  lemma SendKeeps(s: State, sent: int)
    requires Inv(s) && Enabled(s, Send(sent))
    ensures Inv(Next(s, Send(sent)))
  {
    var s' := Next(s, Send(sent));
    var c := s.phase.todo[0];
    assert c in s.phase.todo && Current(s, c) && Stream(s.conns[c], s.frames);
    hide Stream, Current;
    SendLists(s, sent);
    NotYetCut(s);
    Delivered(s.conns[c], s.frames, sent);
    hide Lists;
    forall d | 0 <= d < |s'.conns| ensures Current(s', d) && Stream(s'.conns[d], s'.frames) {
      SendCurrent(s, sent, d);
      assert d != c ==> s'.conns[d] == s.conns[d];
    }
  }

  lemma NotYetCut(s: State)
    requires Lists(s) && s.phase.Sending? && s.phase.todo != [] && s.phase.todo[0] < |s.conns| && Current(s, s.phase.todo[0])
    ensures var conn := s.conns[s.phase.todo[0]]; !conn.cut && conn.joined + conn.whole == |s.frames| - 1
  {
    assert s.phase.todo[0] in s.phase.todo;
  }

  lemma RemoveKeeps(s: State)
    requires Inv(s) && Enabled(s, Remove)
    ensures Inv(Next(s, Remove))
  {
    hide Stream;
    var s' := Next(s, Remove);
    var gone := s.phase.dead[0];
    WithoutMembers(s.clients, gone);
    WithoutDistinct(s.clients, gone);
    hide Without;
    assert Dead(s'.phase) == s.phase.dead[1..] && Todo(s'.phase) == [];
    assert forall c :: c in s.phase.dead <==> c == gone || c in s.phase.dead[1..];
    forall c | c in s'.clients || c in Dead(s'.phase) ensures c < |s'.conns| {
      assert c in s.clients || c in Dead(s.phase);
    }
    forall c | 0 <= c < |s'.conns| ensures Current(s', c) && Stream(s'.conns[c], s'.frames) {
      assert Current(s, c) && Stream(s.conns[c], s.frames);
    }
  }

  lemma StepKeepsInv(s: State, e: Event)
    requires Inv(s) && Enabled(s, e)
    ensures Inv(Next(s, e))
  {
    match e
    case Join => JoinKeeps(s);
    case TakeFrame(frame) => TakeFrameKeeps(s, frame);
    case Send(sent) => SendKeeps(s, sent);
    case Remove => RemoveKeeps(s);
    case EndLoop => PhaseKeeps(s, e);
    case EndRemoval => PhaseKeeps(s, e);
  }

  lemma PhaseKeeps(s: State, e: Event)
    requires Inv(s) && Enabled(s, e) && (e.EndLoop? || e.EndRemoval?)
    ensures Inv(Next(s, e))
  {
    hide Stream;
    var s' := Next(s, e);
    assert Todo(s'.phase) == [] && Dead(s'.phase) == Dead(s.phase);
    forall c | 0 <= c < |s'.conns| ensures Current(s', c) && Stream(s'.conns[c], s'.frames) {
      assert Current(s, c) && Stream(s.conns[c], s.frames);
    }
  }

  // ---- runs -------------------------------------------------------------------------------

  ghost predicate IsRun(states: seq<State>, events: seq<Event>) {
    && |states| == |events| + 1 && states[0] == Init()
    && forall i {:trigger events[i]} :: 0 <= i < |events| ==>
         Enabled(states[i], events[i]) && states[i + 1] == Next(states[i], events[i])
  }

  lemma {:induction false} RunKeepsInv(states: seq<State>, events: seq<Event>, i: nat)
    requires IsRun(states, events) && i < |states|
    ensures Inv(states[i])
  {
    hide Inv, Next;
    if i == 0 {
      InitInv();
    } else {
      RunKeepsInv(states, events, i - 1);
      assert states[i] == Next(states[i - 1], events[i - 1]);
      StepKeepsInv(states[i - 1], events[i - 1]);
    }
  }

  lemma InitInv()
    ensures Inv(Init())
  {
  }

  /** In every run, with clients joining and sends failing or stopping short at any point, what each
      client has received is whole consecutive frames from its join point on, followed by at most one
      truncated frame; between frames, a client not cut short has received every frame since it joined. */
  lemma StreamIntegrity(states: seq<State>, events: seq<Event>, i: nat, c: nat)
    requires IsRun(states, events) && i < |states| && c < |states[i].conns|
    ensures Stream(states[i].conns[c], states[i].frames)
    ensures states[i].phase.Ready? && !states[i].conns[c].cut ==>
              states[i].conns[c].joined + states[i].conns[c].whole == |states[i].frames|
  {
    RunKeepsInv(states, events, i);
    assert Current(states[i], c);
    hide IsRun, Stream;
  }

  lemma CutIsFinal(s: State, e: Event, c: nat)
    requires Inv(s) && Enabled(s, e) && c < |s.conns| && s.conns[c].cut
    ensures c < |Next(s, e).conns| && Next(s, e).conns[c] == s.conns[c]
  {
    hide Stream;
    assert Current(s, c);
  }

  /** After a truncated frame a client receives nothing more. */
  lemma {:induction false} NothingAfterCut(states: seq<State>, events: seq<Event>, i: nat, j: nat, c: nat)
    requires IsRun(states, events) && i <= j < |states| && c < |states[i].conns| && states[i].conns[c].cut
    ensures c < |states[j].conns| && states[j].conns[c] == states[i].conns[c]
    decreases j - i
  {
    if i < j {
      NothingAfterCut(states, events, i, j - 1, c);
      RunKeepsInv(states, events, j - 1);
      assert states[j] == Next(states[j - 1], events[j - 1]);
      CutIsFinal(states[j - 1], events[j - 1], c);
      hide Inv, Next, IsRun;
    }
  }
}
