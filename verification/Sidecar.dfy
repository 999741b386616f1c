/** The request and response multiplexer in front of the core process.

    Callers, the reader and the exit waiter of every process ever started, and whoever stops and restarts
    it are interleaved. What happens under the mutex is one step where it ends there, and several steps with
    the mutex held where the caller writes to the pipe or the waiter sends to channels. Timeouts, the end of
    a process and what it prints come at any time: every step may also be taken late. */
module Sidecar {
  import opened Wrappers

  /** What arrives on the channel of a call: the result or the error that a line says, or the end of its process. */
  datatype Response = Answer(id: nat, body: Result<string, string>) | Exited | Unreadable

  datatype Pc =
    | Writing              // registered, holding the mutex, about to write the request
    | Waiting              // in the select
    | Expiring             // the timer won, about to take the mutex and leave the table
    | Returned(response: Response)
    | TimedOut
    | WriteFailed
    | NotSent

  /** A call that got an id, and its one-slot channel. */
  datatype Call = Call(id: nat, to: nat, pc: Pc, channel: seq<Response>)

  datatype Reader =
    | Scanning
    | Carrying(call: nat, response: Response)  // took it from the table, about to send
    | Failing                                  // has set `readFailed`, about to take the mutex
    | Dropping(owed: set<nat>)                 // replaced the table, about to send to these
    | Ended

  datatype Waiter = Alive | Draining | Gone

  /** Where requests are written to: room for some more, or the process at the other end is gone. */
  datatype Pipe = Open(room: nat) | Broken

  /** Where a Restart stands: it stops the process it found, if any, waits for its end, clears a failed
      transport and starts anew. */
  datatype Restart =
    | Closing(target: Option<nat>)
    | Awaiting(target: Option<nat>)
    | Clearing
    | Starting
    | Over

  datatype Holder = Free | ByCall(call: nat) | ByWaiter(process: nat)

  datatype State = State(
    started: bool,
    readFailed: bool,
    nextId: nat,
    pending: map<nat, nat>,
    calls: seq<Call>,
    readers: seq<Reader>,
    waiters: seq<Waiter>,
    pipes: seq<Pipe>,
    restarts: seq<Restart>,
    mutex: Holder)

  const INITIAL := State(false, false, 0, map[], [], [], [], [], [], Free)

  /** What touches neither the table nor a call: the processes themselves, and those who restart them. */
  datatype Outer =
    | Take(process: nat)     // the process reads a request
    | Break(process: nat)    // it dies, or is killed
    | Cancel(process: nat)   // a reader that failed has it killed
    | BeginRestart
    | CloseFor(restart: nat)
    | Awaited(restart: nat)
    | Clear(restart: nat)
    | GiveUp(restart: nat)   // the time is up, or the start turned out not to be needed or possible

  datatype Action =
    | Start(restart: Option<nat>, room: nat)
    | Register
    | Unmarshalable(call: nat)
    | Write(call: nat)
    | FailWrite(call: nat)
    | Receive(call: nat)
    | Expire(call: nat)
    | Leave(call: nat)
    | ReadLine(process: nat, id: nat, body: Result<string, string>)
    | Deliver(process: nat)
    | EndRead(process: nat)
    | FailRead(process: nat)
    | Swap(process: nat)
    | Drop(process: nat, call: nat)
    | Dropped(process: nat)
    | Exit(process: nat)
    | Drain(process: nat, id: nat)
    | Drained(process: nat)
    | Close
    | Outside(outer: Outer)

  predicate IsCall(s: State, c: nat, pc: Pc) {
    c < |s.calls| && s.calls[c].pc == pc
  }

  predicate IsReader(s: State, p: nat, reader: Reader) {
    p < |s.readers| && s.readers[p] == reader
  }

  predicate HasRoom(s: State, c: nat) {
    c < |s.calls| && s.calls[c].channel == []
  }

  /** A send is enabled only where it does not block, and a write only where the pipe lets it go on. */
  predicate Enabled(s: State, a: Action) {
    match a
    case Start(r, _) => s.mutex == Free && !s.readFailed && !s.started && (r.Some? ==> IsRestart(s, r.value, Starting))
    case Register => s.mutex == Free && s.started && !s.readFailed
    case Unmarshalable(c) => s.mutex == ByCall(c) && IsCall(s, c, Writing)
    case Write(c) => s.mutex == ByCall(c) && IsCall(s, c, Writing) && TakesMore(s, s.calls[c].to)
    case FailWrite(c) => s.mutex == ByCall(c) && IsCall(s, c, Writing) && IsBroken(s, s.calls[c].to)
    case Receive(c) => IsCall(s, c, Waiting) && s.calls[c].channel != []
    case Expire(c) => IsCall(s, c, Waiting)
    case Leave(c) => s.mutex == Free && IsCall(s, c, Expiring)
    case ReadLine(p, _, _) => s.mutex == Free && IsReader(s, p, Scanning)
    case Deliver(p) => p < |s.readers| && s.readers[p].Carrying? && HasRoom(s, s.readers[p].call)
    case EndRead(p) => IsReader(s, p, Scanning)
    case FailRead(p) => IsReader(s, p, Scanning)
    case Swap(p) => s.mutex == Free && IsReader(s, p, Failing)
    case Drop(p, c) => p < |s.readers| && s.readers[p].Dropping? && c in s.readers[p].owed && HasRoom(s, c)
    case Dropped(p) => IsReader(s, p, Dropping({}))
    case Exit(p) => s.mutex == Free && p < |s.waiters| && s.waiters[p] == Alive && IsBroken(s, p + 1)
    case Drain(p, id) => s.mutex == ByWaiter(p) && id in s.pending && HasRoom(s, s.pending[id])
    case Drained(p) => s.mutex == ByWaiter(p) && p < |s.waiters| && s.pending == map[]
    case Close => s.mutex == Free
    case Outside(o) => OuterEnabled(s, o)
  }

  predicate OuterEnabled(s: State, o: Outer) {
    match o
    case Take(p) => p < |s.pipes| && s.pipes[p].Open?
    case Break(p) => p < |s.pipes|
    case Cancel(p) => p < |s.pipes| && IsReader(s, p, Failing)
    case BeginRestart => s.mutex == Free
    case CloseFor(r) => s.mutex == Free && r < |s.restarts| && s.restarts[r].Closing?
    case Awaited(r) => r < |s.restarts| && s.restarts[r].Awaiting? && HasEnded(s, s.restarts[r].target)
    case Clear(r) => IsRestart(s, r, Clearing)
    case GiveUp(r) => r < |s.restarts|
  }

  predicate IsRestart(s: State, r: nat, restart: Restart) {
    r < |s.restarts| && s.restarts[r] == restart
  }

  /** The process has exited and its output has been read to the end. */
  predicate HasEnded(s: State, target: Option<nat>) {
    target.Some? ==> target.value < |s.waiters| && s.waiters[target.value] == Gone && IsReader(s, target.value, Ended)
  }

  /** A write to the process started as the `n`-th does not block. */
  predicate TakesMore(s: State, n: nat) {
    1 <= n <= |s.pipes| && s.pipes[n - 1].Open? && s.pipes[n - 1].room > 0
  }

  predicate IsBroken(s: State, n: nat) {
    1 <= n <= |s.pipes| && s.pipes[n - 1].Broken?
  }

  function Goes(s: State, c: nat, pc: Pc): State
    requires c < |s.calls|
  {
    s.(calls := s.calls[c := s.calls[c].(pc := pc)])
  }

  function Sent(s: State, c: nat, response: Response): State
    requires c < |s.calls|
  {
    s.(calls := s.calls[c := s.calls[c].(channel := s.calls[c].channel + [response])])
  }

  function Reads(s: State, p: nat, reader: Reader): State
    requires p < |s.readers|
  {
    s.(readers := s.readers[p := reader])
  }

  function Waits(s: State, p: nat, waiter: Waiter): State
    requires p < |s.waiters|
  {
    s.(waiters := s.waiters[p := waiter])
  }

  function Without(s: State, id: nat): State {
    s.(pending := s.pending - {id})
  }

  function Registered(s: State): State {
    s.(nextId := s.nextId + 1,
       pending := s.pending[s.nextId + 1 := |s.calls|],
       calls := s.calls + [Call(s.nextId + 1, |s.readers|, Writing, [])],
       mutex := ByCall(|s.calls|))
  }

  function Next(s: State, a: Action): State
    requires Enabled(s, a)
  {
    match a
    case Start(r, room) => Begun(s, r, room)
    case Register => Registered(s)
    case Unmarshalable(c) => Goes(Without(s, s.calls[c].id), c, NotSent).(mutex := Free)
    case Write(c) => Piped(Goes(s, c, Waiting), s.calls[c].to - 1, Open(s.pipes[s.calls[c].to - 1].room - 1)).(mutex := Free)
    case FailWrite(c) => Goes(s, c, WriteFailed).(mutex := Free)
    case Receive(c) =>
      s.(calls := s.calls[c := s.calls[c].(pc := Returned(s.calls[c].channel[0]), channel := s.calls[c].channel[1..])])
    case Expire(c) => Goes(s, c, Expiring)
    case Leave(c) => Goes(Without(s, s.calls[c].id), c, TimedOut)
    case ReadLine(p, id, body) =>
      if id in s.pending then Reads(Without(s, id), p, Carrying(s.pending[id], Answer(id, body))) else s
    case Deliver(p) => Reads(Sent(s, s.readers[p].call, s.readers[p].response), p, Scanning)
    case EndRead(p) => Reads(s, p, Ended)
    case FailRead(p) => Reads(s, p, Failing).(readFailed := true)
    case Swap(p) => Reads(s, p, Dropping(s.pending.Values)).(started := false, pending := map[])
    case Drop(p, c) => Reads(Sent(s, c, Unreadable), p, Dropping(s.readers[p].owed - {c}))
    case Dropped(p) => Reads(s, p, Ended)
    case Exit(p) => Waits(s, p, Draining).(started := false, mutex := ByWaiter(p))
    case Drain(p, id) => Without(Sent(s, s.pending[id], Exited), id)
    case Drained(p) => Waits(s, p, Gone).(mutex := Free)
    case Close => s.(started := false)
    case Outside(o) => OuterNext(s, o)
  }

  function OuterNext(s: State, o: Outer): State
    requires OuterEnabled(s, o)
  {
    match o
    case Take(p) => Piped(s, p, Open(s.pipes[p].room + 1))
    case Break(p) => Piped(s, p, Broken)
    case Cancel(p) => Piped(s, p, Broken)
    case BeginRestart => s.(restarts := s.restarts + [Closing(if s.readers == [] then None else Some(|s.readers| - 1))])
    case CloseFor(r) => Restarts(s, r, Awaiting(s.restarts[r].target)).(started := false)
    case Awaited(r) => Restarts(s, r, Clearing)
    case Clear(r) => Restarts(s, r, Starting).(readFailed := false)
    case GiveUp(r) => Restarts(s, r, Over)
  }

  /** Such a step leaves the table, the calls, the readers and the waiters alone, and starts nothing. */
  lemma OuterLeaves(s: State, o: Outer)
    requires OuterEnabled(s, o)
    ensures var t := OuterNext(s, o);
            && t == s.(pipes := t.pipes, restarts := t.restarts, started := t.started, readFailed := t.readFailed)
            && |t.pipes| == |s.pipes| && (t.started ==> s.started)
            && (forall p | 0 <= p < |s.pipes| :: s.pipes[p].Broken? ==> t.pipes[p].Broken?)
  {}

  function Piped(s: State, p: nat, pipe: Pipe): State
    requires p < |s.pipes|
  {
    s.(pipes := s.pipes[p := pipe])
  }

  function Restarts(s: State, r: nat, restart: Restart): State
    requires r < |s.restarts|
  {
    s.(restarts := s.restarts[r := restart])
  }

  function Begun(s: State, r: Option<nat>, room: nat): State
    requires r.Some? ==> r.value < |s.restarts|
  {
    s.(started := true, readers := s.readers + [Scanning], waiters := s.waiters + [Alive], pipes := s.pipes + [Open(room)],
       restarts := if r.Some? then s.restarts[r.value := Over] else s.restarts)
  }

  /** The state after an interleaving, if each of its steps was possible. */
  function Run(s: State, actions: seq<Action>): Option<State>
    decreases |actions|
  {
    if actions == [] then Some(s)
    else if Enabled(s, actions[0]) then Run(Next(s, actions[0]), actions[1..])
    else None
  }

  ghost predicate Reachable(s: State) {
    exists actions :: Run(INITIAL, actions) == Some(s)
  }

  /** The reader took this call from the table and owes it a value. */
  predicate Owes(reader: Reader, c: nat) {
    (reader.Carrying? && reader.call == c) || (reader.Dropping? && c in reader.owed)
  }

  predicate Owed(s: State, c: nat) {
    exists p :: 0 <= p < |s.readers| && Owes(s.readers[p], c)
  }

  /** No value was ever sent to this call. */
  predicate Unanswered(s: State, c: nat) {
    c < |s.calls| && s.calls[c].channel == [] && !s.calls[c].pc.Returned?
  }

  ghost predicate Ids(s: State) {
    && s.nextId == |s.calls| && |s.readers| == |s.waiters| == |s.pipes|
    && (forall c | 0 <= c < |s.calls| :: s.calls[c].id == c + 1)
    && (forall id | id in s.pending :: 1 <= id <= |s.calls| && s.pending[id] == id - 1)
  }

  predicate OutOfTable(s: State, c: nat) {
    Unanswered(s, c) && c + 1 !in s.pending
  }

  ghost predicate PendingUnanswered(s: State) {
    forall id | id in s.pending :: Unanswered(s, s.pending[id])
  }

  ghost predicate OwedUnanswered(s: State) {
    forall p, c: nat {:trigger Owes(s.readers[p], c)} | 0 <= p < |s.readers| && Owes(s.readers[p], c) :: OutOfTable(s, c)
  }

  ghost predicate OwedOnce(s: State) {
    forall p, q, c: nat | 0 <= p < |s.readers| && 0 <= q < |s.readers| && Owes(s.readers[p], c) && Owes(s.readers[q], c) ::
      p == q
  }

  ghost predicate OneSlot(s: State) {
    forall c | 0 <= c < |s.calls| :: |s.calls[c].channel| <= (if s.calls[c].pc.Returned? then 0 else 1)
  }

  /** A call has at most one value: to come from the table, owed by one reader, in the channel or received. */
  ghost predicate OneValue(s: State) {
    PendingUnanswered(s) && OwedUnanswered(s) && OwedOnce(s) && OneSlot(s)
  }

  /** While a caller waits, it has one. */
  ghost predicate SomeValue(s: State) {
    forall c: nat | c < |s.calls| && s.calls[c].pc in {Writing, Waiting} :: HasValue(s, c)
  }

  predicate HasValue(s: State, c: nat)
    requires c < |s.calls|
  {
    c + 1 in s.pending || Owed(s, c) || s.calls[c].channel != []
  }

  predicate IsFor(response: Response, call: Call) {
    response.Answer? ==> response.id == call.id
  }

  ghost predicate OwnCarried(s: State) {
    forall p | 0 <= p < |s.readers| && s.readers[p].Carrying? && s.readers[p].call < |s.calls| ::
      IsFor(s.readers[p].response, s.calls[s.readers[p].call])
  }

  ghost predicate Heard(call: Call) {
    && (forall i | 0 <= i < |call.channel| :: IsFor(call.channel[i], call))
    && (call.pc.Returned? ==> IsFor(call.pc.response, call))
  }

  ghost predicate OwnHeard(s: State) {
    forall c | 0 <= c < |s.calls| :: Heard(s.calls[c])
  }

  /** Answers are on the way only to the call they name. */
  ghost predicate OwnAnswers(s: State) {
    OwnCarried(s) && OwnHeard(s)
  }

  ghost predicate CallerLock(s: State) {
    && (s.mutex.ByCall? ==> IsCall(s, s.mutex.call, Writing))
    && (forall c | 0 <= c < |s.calls| && s.calls[c].pc == Writing :: s.mutex == ByCall(c) && c + 1 in s.pending)
  }

  ghost predicate WaiterLock(s: State) {
    && (s.mutex.ByWaiter? ==> s.mutex.process < |s.waiters| && s.waiters[s.mutex.process] == Draining && !s.started)
    && (forall p | 0 <= p < |s.waiters| && s.waiters[p] == Draining :: s.mutex == ByWaiter(p))
  }

  ghost predicate Lock(s: State) {
    CallerLock(s) && WaiterLock(s)
  }

  predicate AllGone(s: State) {
    forall p :: 0 <= p < |s.waiters| ==> s.waiters[p] == Gone
  }

  /** Who is in the table has not given up, unless the write failed. */
  ghost predicate Ungiven(s: State) {
    forall id | id in s.pending :: 1 <= id <= |s.calls| && s.calls[id - 1].pc in {Writing, Waiting, Expiring, WriteFailed}
  }

  /** Without a process to end nobody is in the table. */
  ghost predicate Orphanless(s: State) {
    AllGone(s) ==> !s.started && s.pending == map[]
  }

  ghost predicate Table(s: State) {
    Ungiven(s) && Orphanless(s)
  }

  /** Every call was written to a process that was started. */
  ghost predicate Addressed(s: State) {
    forall c | 0 <= c < |s.calls| :: 1 <= s.calls[c].to <= |s.readers|
  }

  ghost predicate Inv(s: State) {
    Ids(s) && Addressed(s) && OneValue(s) && SomeValue(s) && OwnAnswers(s) && Lock(s) && Table(s)
  }

  // What one step does, part by part.

  /** The step sends a value to this call. */
  predicate Sends(s: State, a: Action, c: nat)
    requires Enabled(s, a)
  {
    match a
    case Deliver(p) => s.readers[p].call == c
    case Drop(_, d) => d == c
    case Drain(_, id) => s.pending[id] == c
    case _ => false
  }

  lemma SizesStep(s: State, a: Action)
    requires Enabled(s, a)
    ensures var t := Next(s, a);
            && |t.readers| - |s.readers| == |t.waiters| - |s.waiters| == |t.pipes| - |s.pipes| >= 0
            && |t.calls| == (if a.Register? then |s.calls| + 1 else |s.calls|)
            && t.nextId - s.nextId == |t.calls| - |s.calls|
  {
    if a.Outside? {
      OuterLeaves(s, a.outer);
      hide OuterNext, OuterEnabled;
    }
  }

  lemma RegisterStep(s: State)
    requires Enabled(s, Register)
    ensures Next(s, Register) == Registered(s)
  {}

  /** Only Register adds to the table. */
  lemma PendingStep(s: State, a: Action, id: nat)
    requires Enabled(s, a)
    ensures id in Next(s, a).pending ==>
              if a.Register? && id == s.nextId + 1 then Next(s, a).pending[id] == |s.calls|
              else id in s.pending && Next(s, a).pending[id] == s.pending[id]
  {
    if a.Outside? {
      OuterLeaves(s, a.outer);
      hide OuterNext, OuterEnabled;
    }
  }

  /** How a call that is there already moves on. */
  predicate Moves(s: State, c: nat, t: State)
    requires c < |s.calls| && c < |t.calls|
  {
    var from, to := s.calls[c], t.calls[c];
    && from.id == to.id && from.to == to.to
    && (|| from.pc == to.pc
        || (from.pc == Writing && to.pc in {Waiting, WriteFailed} && s.mutex == ByCall(c) && t.mutex == Free)
        || (from.pc == Writing && to.pc == NotSent && s.mutex == ByCall(c) && t.mutex == Free && from.id !in t.pending)
        || (from.pc == Waiting && to.pc == Expiring)
        || (from.pc == Expiring && to.pc == TimedOut && from.id !in t.pending)
        || (from.pc == Waiting && Receives(from, to)))
  }

  predicate Receives(from: Call, to: Call) {
    from.channel != [] && to.pc == Returned(from.channel[0]) && to.channel == from.channel[1..]
  }

  /** And what happens to its channel. */
  predicate Fills(s: State, a: Action, c: nat, t: State)
    requires c < |s.calls| && c < |t.calls| && Enabled(s, a)
  {
    var from, to := s.calls[c], t.calls[c];
    if Sends(s, a, c) then from.channel == [] && |to.channel| == 1
    else from.channel == to.channel || Receives(from, to)
  }

  lemma MovesStep(s: State, a: Action, c: nat)
    requires Enabled(s, a) && c < |s.calls|
    ensures c < |Next(s, a).calls| && Moves(s, c, Next(s, a))
  {
    if a.Outside? {
      OuterLeaves(s, a.outer);
      hide OuterNext, OuterEnabled;
    }
  }

  lemma FillsStep(s: State, a: Action, c: nat)
    requires Enabled(s, a) && c < |s.calls|
    ensures c < |Next(s, a).calls| && Fills(s, a, c, Next(s, a))
  {
    if a.Outside? {
      OuterLeaves(s, a.outer);
      hide OuterNext, OuterEnabled;
    }
  }

  lemma CallStep(s: State, a: Action, c: nat)
    requires Enabled(s, a) && c < |s.calls|
    ensures c < |Next(s, a).calls| && Moves(s, c, Next(s, a)) && Fills(s, a, c, Next(s, a))
  {
    MovesStep(s, a, c);
    FillsStep(s, a, c);
  }

  /** Who is sent to was owed it, or was in the table. */
  lemma SentWasOwed(s: State, a: Action, c: nat)
    requires Ids(s) && Enabled(s, a) && Sends(s, a, c)
    ensures c < |s.calls| && s.calls[c].channel == []
    ensures if a.Drain? then c + 1 in s.pending && s.pending[c + 1] == c && c + 1 !in Next(s, a).pending
            else a.process < |s.readers| && Owes(s.readers[a.process], c) && !Owes(Next(s, a).readers[a.process], c)
  {}

  lemma SentWasUnanswered(s: State, a: Action, c: nat)
    requires Ids(s) && PendingUnanswered(s) && OwedUnanswered(s) && Enabled(s, a) && Sends(s, a, c)
    ensures Unanswered(s, c) && c + 1 !in Next(s, a).pending
  {
    SentWasOwed(s, a, c);
    hide Sends, Owes, Unanswered, Enabled, Next;
    if !a.Drain? {
      assert OutOfTable(s, c);
      PendingStep(s, a, c + 1);
      RegisterSends(s, a, c);
    }
  }

  lemma RegisterSends(s: State, a: Action, c: nat)
    requires Enabled(s, a) && Sends(s, a, c)
    ensures !a.Register?
  {}

  /** Who was never sent a value stays so unless this step sends one. */
  lemma UnansweredStep(s: State, a: Action, c: nat)
    requires Enabled(s, a) && Unanswered(s, c)
    ensures c < |Next(s, a).calls|
    ensures Unanswered(Next(s, a), c) <==> !Sends(s, a, c)
  {
    CallStep(s, a, c);
    hide Sends, Enabled, Next;
  }

  lemma NewIsUnanswered(s: State, a: Action, c: nat)
    requires Enabled(s, a) && |s.calls| <= c < |Next(s, a).calls|
    ensures a.Register? && c == |s.calls| && Next(s, a).calls[c] == Call(s.nextId + 1, |s.readers|, Writing, [])
  {
    if a.Outside? {
      OuterLeaves(s, a.outer);
      hide OuterNext, OuterEnabled;
    }
  }

  lemma NextKeepsIds(s: State, a: Action)
    requires Ids(s) && Enabled(s, a)
    ensures Ids(Next(s, a))
  {
    var t := Next(s, a);
    SizesStep(s, a);
    hide Next, Enabled, Sends;
    forall c: nat | c < |t.calls| ensures t.calls[c].id == c + 1 {
      if c < |s.calls| { CallStep(s, a, c); } else { NewIsUnanswered(s, a, c); }
    }
    forall id | id in t.pending ensures 1 <= id <= |t.calls| && t.pending[id] == id - 1 {
      PendingStep(s, a, id);
    }
  }

  lemma NextKeepsAddressed(s: State, a: Action)
    requires Inv(s) && Enabled(s, a)
    ensures Addressed(Next(s, a))
  {
    var t := Next(s, a);
    SizesStep(s, a);
    if a.Register? { SomeProcess(s, a); }
    hide OneValue, SomeValue, OwnAnswers, Lock, Table, Next, Enabled, Sends;
    forall c: nat | c < |t.calls| ensures 1 <= t.calls[c].to <= |t.readers| {
      if c < |s.calls| { MovesStep(s, a, c); } else { NewIsUnanswered(s, a, c); }
    }
  }

  /** Who registers finds a process. */
  lemma SomeProcess(s: State, a: Action)
    requires Ids(s) && Orphanless(s) && Enabled(s, a) && a.Register?
    ensures |s.readers| >= 1
  {}

  lemma NextKeepsPendingUnanswered(s: State, a: Action)
    requires Inv(s) && Enabled(s, a)
    ensures PendingUnanswered(Next(s, a))
  {
    hide OwedOnce, SomeValue, OwnAnswers, Lock, Table, Next, Enabled, Sends, OneSlot;
    var t := Next(s, a);
    SizesStep(s, a);
    forall id | id in t.pending ensures Unanswered(t, t.pending[id]) {
      PendingStep(s, a, id);
      var c := t.pending[id];
      if c < |s.calls| {
        assert id in s.pending && id == c + 1;
        assert Unanswered(s, s.pending[id]);
        UnansweredStep(s, a, c);
        if Sends(s, a, c) { SentWasUnanswered(s, a, c); }
      } else {
        NewIsUnanswered(s, a, c);
      }
    }
  }

  /** What a reader goes on owing was not sent in this step. */
  lemma OwedIsNotSent(s: State, a: Action, p: nat, c: nat)
    requires Ids(s) && OwedUnanswered(s) && OwedOnce(s) && Enabled(s, a)
    requires p < |s.readers| && p < |Next(s, a).readers| && Owes(s.readers[p], c) && Owes(Next(s, a).readers[p], c)
    ensures !Sends(s, a, c)
  {
    assert OutOfTable(s, c);
    if Sends(s, a, c) {
      SentWasOwed(s, a, c);
      hide Sends, Enabled, Next, Owes;
    }
  }

  lemma TakesSendNothing(s: State, a: Action, c: nat)
    requires (a.ReadLine? || a.Swap?) && Enabled(s, a)
    ensures !Sends(s, a, c)
  {}

  lemma NextKeepsOwedUnanswered(s: State, a: Action)
    requires Inv(s) && Enabled(s, a)
    ensures OwedUnanswered(Next(s, a))
  {
    hide SomeValue, OwnAnswers, Lock, Table, OneSlot, Next, Enabled, Sends, Owes;
    var t := Next(s, a);
    forall p, c: nat | 0 <= p < |t.readers| && Owes(t.readers[p], c) ensures OutOfTable(t, c) {
      NewlyOwed(s, a, p, c);
      if Owes(s.readers[p], c) {
        assert OutOfTable(s, c);
        OwedIsNotSent(s, a, p, c);
        PendingStep(s, a, c + 1);
      } else {
        assert Unanswered(s, s.pending[c + 1]);
        TakesSendNothing(s, a, c);
      }
      UnansweredStep(s, a, c);
    }
  }

  /** A reader owes only what it owed before or just took from the table. */
  lemma NewlyOwed(s: State, a: Action, p: nat, c: nat)
    requires Ids(s) && Enabled(s, a)
    requires p < |Next(s, a).readers| && Owes(Next(s, a).readers[p], c)
    ensures p < |s.readers|
    ensures Owes(s.readers[p], c) || ((a.ReadLine? || a.Swap?) && a.process == p && c + 1 in s.pending && c + 1 !in Next(s, a).pending)
  {
    if a.Outside? {
      OuterLeaves(s, a.outer);
      hide OuterNext, OuterEnabled;
    }
  }

  lemma NextKeepsOwedOnce(s: State, a: Action)
    requires Inv(s) && Enabled(s, a)
    ensures OwedOnce(Next(s, a))
  {
    hide SomeValue, OwnAnswers, Lock, Table, OneSlot, PendingUnanswered, Next, Enabled;
    var t := Next(s, a);
    forall p, q, c: nat | 0 <= p < |t.readers| && 0 <= q < |t.readers| && Owes(t.readers[p], c) && Owes(t.readers[q], c)
      ensures p == q
    {
      NewlyOwed(s, a, p, c);
      NewlyOwed(s, a, q, c);
      assert Owes(s.readers[p], c) ==> OutOfTable(s, c);
      assert Owes(s.readers[q], c) ==> OutOfTable(s, c);
    }
  }

  lemma NextKeepsOneSlot(s: State, a: Action)
    requires Inv(s) && Enabled(s, a)
    ensures OneSlot(Next(s, a))
  {
    hide SomeValue, OwnAnswers, Lock, Table, OwedOnce, PendingUnanswered, OwedUnanswered, Next, Enabled, Sends;
    var t := Next(s, a);
    forall c: nat | c < |t.calls| ensures |t.calls[c].channel| <= (if t.calls[c].pc.Returned? then 0 else 1) {
      if c < |s.calls| {
        CallStep(s, a, c);
        if Sends(s, a, c) { SentWasUnanswered(s, a, c); }
      } else {
        NewIsUnanswered(s, a, c);
      }
    }
  }

  /** What a waiting caller counts on stays, or has become a value in its channel. */
  lemma StillOwed(s: State, a: Action, p: nat, c: nat)
    requires Enabled(s, a) && c < |s.calls|
    requires p < |s.readers| && Owes(s.readers[p], c) && s.calls[c].channel == []
    ensures p < |Next(s, a).readers| && c < |Next(s, a).calls|
    ensures Owes(Next(s, a).readers[p], c) || Next(s, a).calls[c].channel != []
  {
    OwedStays(s, a, p, c);
    FillsStep(s, a, c);
    hide Next, Enabled, Sends, Owes;
  }

  lemma OwedStays(s: State, a: Action, p: nat, c: nat)
    requires Enabled(s, a) && p < |s.readers| && Owes(s.readers[p], c)
    ensures p < |Next(s, a).readers| && (Owes(Next(s, a).readers[p], c) || Sends(s, a, c))
  {
    if a.Outside? {
      OuterLeaves(s, a.outer);
      hide OuterNext, OuterEnabled;
    }
  }

  lemma StillPending(s: State, a: Action, c: nat)
    requires Ids(s) && Enabled(s, a) && c < |s.calls| && c + 1 in s.pending
    ensures c < |Next(s, a).calls|
    ensures Next(s, a).calls[c].pc in {Writing, Waiting} ==> HasValue(Next(s, a), c)
  {
    if a.Outside? { OuterLeaves(s, a.outer); }
    hide OuterNext, OuterEnabled;
    var t := Next(s, a);
    if a.Swap? || a.ReadLine? {
      assert s.pending[c + 1] == c;
      assert c + 1 in t.pending || Owes(t.readers[a.process], c);
    }
  }

  lemma StillInChannel(s: State, a: Action, c: nat)
    requires Enabled(s, a) && c < |s.calls| && s.calls[c].channel != []
    ensures c < |Next(s, a).calls|
    ensures Next(s, a).calls[c].channel != [] || Next(s, a).calls[c].pc.Returned?
  {
    CallStep(s, a, c);
    hide Next, Enabled, Sends;
  }

  lemma WasWaiting(s: State, a: Action, c: nat)
    requires Ids(s) && Enabled(s, a) && c < |Next(s, a).calls| && Next(s, a).calls[c].pc in {Writing, Waiting}
    ensures c < |s.calls| ==> s.calls[c].pc in {Writing, Waiting}
    ensures c >= |s.calls| ==> c + 1 in Next(s, a).pending
  {
    if c < |s.calls| {
      CallStep(s, a, c);
      hide Next, Enabled, Sends;
    }
  }

  lemma NextKeepsSomeValue(s: State, a: Action)
    requires Inv(s) && Enabled(s, a)
    ensures SomeValue(Next(s, a))
  {
    hide OwnAnswers, OneValue, Lock, Table, Next, Enabled;
    var t := Next(s, a);
    forall c: nat | c < |t.calls| && t.calls[c].pc in {Writing, Waiting} ensures HasValue(t, c) {
      WasWaiting(s, a, c);
      if c < |s.calls| {
        assert HasValue(s, c);
        if c + 1 in s.pending {
          StillPending(s, a, c);
        } else if s.calls[c].channel != [] {
          StillInChannel(s, a, c);
        } else {
          var p :| 0 <= p < |s.readers| && Owes(s.readers[p], c);
          StillOwed(s, a, p, c);
          assert p < |t.readers|;
        }
      }
    }
  }

  /** What a reader carries it carried before, or has just read and taken from the table. */
  lemma CarriedStep(s: State, a: Action, p: nat)
    requires Ids(s) && Enabled(s, a)
    requires p < |Next(s, a).readers| && Next(s, a).readers[p].Carrying?
    ensures p < |s.readers|
    ensures var r := Next(s, a).readers[p];
            s.readers[p] == r || (r.response.Answer? && r.call < |s.calls| && r.response.id == r.call + 1)
  {
    if a.Outside? {
      OuterLeaves(s, a.outer);
      hide OuterNext, OuterEnabled;
    }
  }

  lemma NextKeepsOwnCarried(s: State, a: Action)
    requires Inv(s) && Enabled(s, a)
    ensures OwnCarried(Next(s, a))
  {
    hide SomeValue, OwedOnce, Lock, Table, OneSlot, PendingUnanswered, Next, Enabled, Sends;
    var t := Next(s, a);
    forall p: nat | p < |t.readers| && t.readers[p].Carrying? && t.readers[p].call < |t.calls|
      ensures IsFor(t.readers[p].response, t.calls[t.readers[p].call])
    {
      CarriedStep(s, a, p);
      var c := t.readers[p].call;
      if s.readers[p] == t.readers[p] {
        assert Owes(s.readers[p], c);
        assert OutOfTable(s, c);
      }
      MovesStep(s, a, c);
    }
  }

  lemma NextKeepsOwnHeard(s: State, a: Action)
    requires Inv(s) && Enabled(s, a)
    ensures OwnHeard(Next(s, a))
  {
    hide SomeValue, OwedOnce, Lock, Table, OuterNext, OuterEnabled;
    if a.Outside? { OuterLeaves(s, a.outer); }
    var t := Next(s, a);
    forall c: nat | c < |t.calls| ensures Heard(t.calls[c]) {
      if c < |s.calls| { assert Heard(s.calls[c]); }
    }
  }

  lemma NextKeepsOwnAnswers(s: State, a: Action)
    requires Inv(s) && Enabled(s, a)
    ensures OwnAnswers(Next(s, a))
  {
    NextKeepsOwnCarried(s, a);
    NextKeepsOwnHeard(s, a);
  }

  /** The mutex is taken by a call only as it registers, and by a waiter only as its process ends. */
  lemma MutexStep(s: State, a: Action)
    requires Enabled(s, a)
    ensures var t := Next(s, a);
            || t.mutex == s.mutex
            || t.mutex == Free
            || (a.Register? && s.mutex == Free && t.mutex == ByCall(|s.calls|))
            || (a.Exit? && s.mutex == Free && t.mutex == ByWaiter(a.process))
  {
    if a.Outside? {
      OuterLeaves(s, a.outer);
      hide OuterNext, OuterEnabled;
    }
  }

  /** Nothing leaves the table while a call holds the mutex, except that call. */
  lemma HeldTable(s: State, a: Action, c: nat)
    requires Ids(s) && Enabled(s, a) && s.mutex == ByCall(c) && Next(s, a).mutex == ByCall(c) && c + 1 in s.pending
    ensures c + 1 in Next(s, a).pending
  {
    if a.Outside? {
      OuterLeaves(s, a.outer);
      hide OuterNext, OuterEnabled;
    }
  }

  /** A call that goes on holding the mutex goes on writing. */
  lemma HeldWriting(s: State, a: Action, c: nat)
    requires Enabled(s, a) && IsCall(s, c, Writing) && s.mutex == ByCall(c) && Next(s, a).mutex == ByCall(c)
    ensures IsCall(Next(s, a), c, Writing)
  {
    CallStep(s, a, c);
    hide Next, Enabled, Sends;
  }

  lemma StillWriting(s: State, a: Action, c: nat)
    requires Enabled(s, a) && c < |s.calls| && IsCall(s, c, Writing) && IsCall(Next(s, a), c, Writing) && s.mutex == ByCall(c)
    ensures Next(s, a).mutex == ByCall(c)
  {
    if a.Outside? {
      OuterLeaves(s, a.outer);
      hide OuterNext, OuterEnabled;
    }
  }

  lemma NextKeepsCallerLock(s: State, a: Action)
    requires Ids(s) && CallerLock(s) && Enabled(s, a)
    ensures CallerLock(Next(s, a))
  {
    var t := Next(s, a);
    MutexStep(s, a);
    SizesStep(s, a);
    if a.Register? {
      RegisterStep(s);
    }
    hide Next, Enabled, Sends;
    forall c: nat | c < |t.calls| && t.calls[c].pc == Writing ensures t.mutex == ByCall(c) && c + 1 in t.pending {
      if c < |s.calls| {
        CallStep(s, a, c);
        assert s.calls[c].pc == Writing;
        StillWriting(s, a, c);
        HeldTable(s, a, c);
      } else {
        NewIsUnanswered(s, a, c);
      }
    }
    if t.mutex.ByCall? && t.mutex == s.mutex {
      HeldWriting(s, a, s.mutex.call);
    }
  }

  lemma NextKeepsWaiterLock(s: State, a: Action)
    requires |s.readers| == |s.waiters| && WaiterLock(s) && Enabled(s, a)
    ensures WaiterLock(Next(s, a))
  {
    if a.Outside? {
      OuterLeaves(s, a.outer);
      hide OuterNext, OuterEnabled;
    }
  }

  lemma NextKeepsLock(s: State, a: Action)
    requires Inv(s) && Enabled(s, a)
    ensures Lock(Next(s, a))
  {
    hide Next, Enabled, CallerLock, WaiterLock;
    NextKeepsCallerLock(s, a);
    NextKeepsWaiterLock(s, a);
  }

  lemma NextKeepsUngiven(s: State, a: Action)
    requires Inv(s) && Enabled(s, a)
    ensures Ungiven(Next(s, a))
  {
    hide SomeValue, OwedOnce, OwedUnanswered, OneSlot, OwnAnswers, Lock, Orphanless, Next, Enabled, Sends;
    var t := Next(s, a);
    SizesStep(s, a);
    forall id | id in t.pending ensures 1 <= id <= |t.calls| && t.calls[id - 1].pc in {Writing, Waiting, Expiring, WriteFailed} {
      PendingStep(s, a, id);
      var c: nat := t.pending[id];
      if id in s.pending {
        assert Unanswered(s, s.pending[id]);
        assert s.pending[id] == id - 1;
        CallStep(s, a, id - 1);
      } else {
        NewIsUnanswered(s, a, c);
      }
    }
  }

  lemma WaitersStay(s: State, a: Action)
    requires |s.readers| == |s.waiters| && Enabled(s, a)
    ensures a.Drained? || !AllGone(Next(s, a)) || Next(s, a).waiters == s.waiters
  {
    var w := Next(s, a).waiters;
    match a
    case Start(_, _) => assert w[|s.waiters|] == Alive;
    case Exit(p) => assert w[p] == Draining;
    case Outside(o) => OuterLeaves(s, o);
    case _ =>
  }

  lemma NextKeepsOrphanless(s: State, a: Action)
    requires Inv(s) && Enabled(s, a)
    ensures Orphanless(Next(s, a))
  {
    hide SomeValue, OneValue, OwnAnswers, Ungiven, OuterNext, OuterEnabled;
    if a.Outside? { OuterLeaves(s, a.outer); }
    var t := Next(s, a);
    if AllGone(t) && !a.Drained? {
      WaitersStay(s, a);
      assert AllGone(s);
    }
  }

  lemma NextKeepsInv(s: State, a: Action)
    requires Inv(s) && Enabled(s, a)
    ensures Inv(Next(s, a))
  {
    hide Next, Enabled, Ids, Addressed, PendingUnanswered, OwedUnanswered, OwedOnce, OneSlot, SomeValue, OwnAnswers, Lock, Ungiven, Orphanless;
    NextKeepsIds(s, a);
    NextKeepsAddressed(s, a);
    NextKeepsPendingUnanswered(s, a);
    NextKeepsOwedUnanswered(s, a);
    NextKeepsOwedOnce(s, a);
    NextKeepsOneSlot(s, a);
    NextKeepsSomeValue(s, a);
    NextKeepsOwnAnswers(s, a);
    NextKeepsLock(s, a);
    NextKeepsUngiven(s, a);
    NextKeepsOrphanless(s, a);
  }

  lemma {:induction false} RunKeepsInv(s: State, actions: seq<Action>)
    requires Inv(s) && Run(s, actions).Some?
    ensures Inv(Run(s, actions).value)
    decreases |actions|
  {
    hide Inv, Next, Enabled;
    if actions != [] {
      NextKeepsInv(s, actions[0]);
      RunKeepsInv(Next(s, actions[0]), actions[1..]);
    }
  }

  lemma ReachableIsInv(s: State)
    requires Reachable(s)
    ensures Inv(s)
  {
    var actions :| Run(INITIAL, actions) == Some(s);
    RunKeepsInv(INITIAL, actions);
  }

  /** No send ever blocks: the channel of whoever is owed a value has room, also while the mutex is held. */
  lemma SendsNeverBlock(s: State)
    requires Reachable(s)
    ensures forall p | 0 <= p < |s.readers| && s.readers[p].Carrying? :: Enabled(s, Deliver(p))
    ensures forall p, c: nat | 0 <= p < |s.readers| && s.readers[p].Dropping? && c in s.readers[p].owed :: Enabled(s, Drop(p, c))
    ensures forall p, id: nat | s.mutex == ByWaiter(p) && id in s.pending :: Enabled(s, Drain(p, id))
  {
    ReachableIsInv(s);
    hide SomeValue, OwnAnswers, Lock, Table, OwedOnce;
    forall p | 0 <= p < |s.readers| && s.readers[p].Carrying? ensures Enabled(s, Deliver(p)) {
      assert Owes(s.readers[p], s.readers[p].call);
    }
    forall p, c: nat | 0 <= p < |s.readers| && s.readers[p].Dropping? && c in s.readers[p].owed ensures Enabled(s, Drop(p, c)) {
      assert Owes(s.readers[p], c);
    }
  }

  /** An answer that a caller returns names the id of that call, and no other call has it, restarted or not. */
  lemma AnswersReachTheirCall(s: State, c: nat, id: nat, body: Result<string, string>)
    requires Reachable(s) && c < |s.calls| && s.calls[c].pc == Returned(Answer(id, body))
    ensures s.calls[c].id == id
    ensures forall d | 0 <= d < |s.calls| && s.calls[d].id == id :: d == c
  {
    ReachableIsInv(s);
    assert Heard(s.calls[c]);
  }

  function Values(s: State, actions: seq<Action>, c: nat): nat
    requires Run(s, actions).Some?
    decreases |actions|
  {
    if actions == [] then 0
    else (if Sends(s, actions[0], c) then 1 else 0) + Values(Next(s, actions[0]), actions[1..], c)
  }

  /** What is sent goes to a call that had no value and has one then; that stays so. */
  lemma SendAnswers(s: State, a: Action, c: nat)
    requires Inv(s) && Enabled(s, a)
    ensures Sends(s, a, c) ==> Unanswered(s, c) && c < |Next(s, a).calls| && !Unanswered(Next(s, a), c)
    ensures c < |s.calls| && !Unanswered(s, c) ==> c < |Next(s, a).calls| && !Unanswered(Next(s, a), c)
  {
    hide SomeValue, OwnAnswers, Lock, Table, OwedOnce, PendingUnanswered, OwedUnanswered, Next, Enabled, Sends;
    if Sends(s, a, c) {
      SentWasUnanswered(s, a, c);
      UnansweredStep(s, a, c);
    } else if c < |s.calls| {
      CallStep(s, a, c);
    }
  }

  lemma {:induction false} ValuesFrom(s: State, actions: seq<Action>, c: nat)
    requires Inv(s) && Run(s, actions).Some?
    ensures Values(s, actions, c) <= 1
    ensures c < |s.calls| && !Unanswered(s, c) ==> Values(s, actions, c) == 0
    decreases |actions|
  {
    hide Inv, Next, Enabled, Sends, Unanswered;
    if actions != [] {
      NextKeepsInv(s, actions[0]);
      SendAnswers(s, actions[0], c);
      ValuesFrom(Next(s, actions[0]), actions[1..], c);
    }
  }

  /** Over every interleaving each call is sent at most one value. */
  lemma OneValuePerCall(actions: seq<Action>, c: nat)
    requires Run(INITIAL, actions).Some?
    ensures Values(INITIAL, actions, c) <= 1
  {
    ValuesFrom(INITIAL, actions, c);
  }

  /** Once every process has ended and the readers owe nothing, whoever waits finds a value without the timer. */
  lemma NobodyIsLeftWaiting(s: State, c: nat)
    requires Reachable(s) && AllGone(s)
    requires forall p | 0 <= p < |s.readers| :: !s.readers[p].Carrying? && !s.readers[p].Dropping?
    requires IsCall(s, c, Waiting)
    ensures s.pending == map[] && Enabled(s, Receive(c))
  {
    ReachableIsInv(s);
    assert HasValue(s, c);
  }

  predicate NoStart(actions: seq<Action>) {
    forall i :: 0 <= i < |actions| ==> !actions[i].Start?
  }

  /** From the end of the waiter's drain to the next start nobody is in the table, and no call is let in. */
  lemma {:induction false} TableStaysEmpty(s: State, actions: seq<Action>)
    requires s.pending == map[] && !s.started
    requires Run(s, actions).Some? && NoStart(actions)
    ensures Run(s, actions).value.pending == map[] && !Run(s, actions).value.started
    ensures Run(s, actions).value.nextId == s.nextId
    decreases |actions|
  {
    if actions != [] {
      if actions[0].Outside? { OuterLeaves(s, actions[0].outer); }
      hide OuterNext, OuterEnabled;
      TableStaysEmpty(Next(s, actions[0]), actions[1..]);
    }
  }

  lemma DrainEmptiesTheTable(s: State, p: nat, actions: seq<Action>)
    requires Reachable(s) && Enabled(s, Drained(p))
    requires Run(Next(s, Drained(p)), actions).Some? && NoStart(actions)
    ensures var t := Run(Next(s, Drained(p)), actions).value;
            t.pending == map[] && !t.started && !Enabled(t, Register)
  {
    ReachableIsInv(s);
    TableStaysEmpty(Next(s, Drained(p)), actions);
  }

  // Who gets the mutex back. A waiter always does. A caller that writes does exactly if the pipe takes more or
  // is broken; otherwise it waits for the process to read or to go.

  predicate ByHolder(a: Action, holder: Holder) {
    || ((a.Write? || a.FailWrite? || a.Unmarshalable?) && ByCall(a.call) == holder)
    || ((a.Drain? || a.Drained?) && ByWaiter(a.process) == holder)
  }

  /** The holder of the mutex is not stuck in a write. */
  predicate CanGoOn(s: State) {
    s.mutex.ByCall? && s.mutex.call < |s.calls| ==>
      TakesMore(s, s.calls[s.mutex.call].to) || IsBroken(s, s.calls[s.mutex.call].to)
  }

  /** A waiter gives the mutex back by itself, within one step more than there are entries. */
  lemma {:induction false} WaiterReleases(s: State) returns (actions: seq<Action>)
    requires Inv(s) && s.mutex.ByWaiter?
    ensures Run(s, actions).Some? && Run(s, actions).value.mutex == Free
    ensures forall i | 0 <= i < |actions| :: (actions[i].Drain? || actions[i].Drained?) && ByHolder(actions[i], s.mutex)
    ensures |actions| <= |s.pending| + 1
    decreases |s.pending|
  {
    hide Next, Enabled, Run, OneValue, OwnAnswers, SomeValue, Table;
    if s.pending == map[] {
      actions := [Drained(s.mutex.process)];
      HolderStep(s, actions[0]);
      LastStep(s, actions[0]);
    } else {
      var id: nat :| id in s.pending;
      var a := Drain(s.mutex.process, id);
      DrainStep(s, s.mutex.process, id);
      OneFewer(s.pending, id);
      NextKeepsInv(s, a);
      var rest := WaiterReleases(Next(s, a));
      RunFirst(s, a, rest);
      actions := [a] + rest;
    }
  }

  /** Past marshalling, the mutex can be given back by its holder alone exactly if the holder is not stuck. */
  lemma MutexIsReleased(s: State)
    requires Inv(s) && s.mutex != Free
    ensures CanGoOn(s) <==> exists actions :: OwnRelease(s, actions)
  {
    hide Inv, Next, Run, Enabled, TakesMore, IsBroken;
    if CanGoOn(s) {
      if s.mutex.ByWaiter? {
        var actions := WaiterReleases(s);
        assert OwnRelease(s, actions);
      } else {
        HolderWrites(s);
        var a := if TakesMore(s, s.calls[s.mutex.call].to) then Write(s.mutex.call) else FailWrite(s.mutex.call);
        LastStep(s, a);
        assert OwnRelease(s, [a]);
      }
    } else if actions :| OwnRelease(s, actions) {
      StuckHolder(s, actions);
      assert false;
    }
  }

  /** Steps of the holder alone, none of them a request that cannot be marshalled, that give the mutex back. */
  ghost predicate OwnRelease(s: State, actions: seq<Action>) {
    && Run(s, actions).Some? && Run(s, actions).value.mutex == Free
    && forall i | 0 <= i < |actions| :: ByHolder(actions[i], s.mutex) && !actions[i].Unmarshalable?
  }

  lemma StuckHolderStep(s: State, a: Action)
    requires s.mutex != Free && !CanGoOn(s)
    ensures !(Enabled(s, a) && ByHolder(a, s.mutex) && !a.Unmarshalable?)
  {}

  lemma StuckHolder(s: State, actions: seq<Action>)
    requires s.mutex != Free && !CanGoOn(s) && Run(s, actions).Some?
    requires forall i | 0 <= i < |actions| :: ByHolder(actions[i], s.mutex) && !actions[i].Unmarshalable?
    ensures Run(s, actions).value.mutex != Free
  {
    if actions != [] { StuckHolderStep(s, actions[0]); }
  }

  lemma HolderWrites(s: State)
    requires Inv(s) && s.mutex.ByCall? && CanGoOn(s)
    ensures var c := s.mutex.call;
            c < |s.calls| && if TakesMore(s, s.calls[c].to) then Enabled(s, Write(c)) else Enabled(s, FailWrite(c))
  {
    hide OneValue, OwnAnswers, SomeValue, Table;
  }

  /** A caller stuck in a write keeps the mutex whatever anybody else does, until the process it writes to
      reads or its pipe breaks. */
  lemma {:induction false} StuckUntilThePipeMoves(s: State, actions: seq<Action>)
    requires s.mutex.ByCall? && !CanGoOn(s) && Run(s, actions).Some?
    requires Stays(actions, s.mutex.call, s.calls[s.mutex.call].to)
    ensures Run(s, actions).value.mutex == s.mutex && !CanGoOn(Run(s, actions).value)
    decreases |actions|
  {
    if actions != [] {
      StuckStep(s, actions[0]);
      hide Next, Enabled;
      StuckUntilThePipeMoves(Next(s, actions[0]), actions[1..]);
    }
  }

  /** The pipe of the `n`-th process does not move, and the call has passed marshalling. */
  predicate Stays(actions: seq<Action>, call: nat, n: nat) {
    forall i :: 0 <= i < |actions| ==> StaysIn(actions[i], call, n)
  }

  predicate StaysIn(a: Action, call: nat, n: nat) {
    && a != Unmarshalable(call)
    && (a.Outside? && (a.outer.Take? || a.outer.Break? || a.outer.Cancel?) ==> a.outer.process + 1 != n)
  }

  lemma StuckStep(s: State, a: Action)
    requires s.mutex.ByCall? && !CanGoOn(s) && Enabled(s, a) && StaysIn(a, s.mutex.call, s.calls[s.mutex.call].to)
    ensures var t, c := Next(s, a), s.mutex.call;
            t.mutex == s.mutex && !CanGoOn(t) && c < |t.calls| && t.calls[c].to == s.calls[c].to
  {
    MovesStep(s, a, s.mutex.call);
    if a.Outside? { OuterPipes(s, a.outer, s.calls[s.mutex.call].to); }
    hide Moves;
  }

  lemma OuterPipes(s: State, o: Outer, n: nat)
    requires OuterEnabled(s, o)
    requires o.Take? || o.Break? || o.Cancel? ==> o.process + 1 != n
    ensures var t := OuterNext(s, o);
            && t.mutex == s.mutex && t.calls == s.calls && (TakesMore(t, n) <==> TakesMore(s, n)) && (IsBroken(t, n) <==> IsBroken(s, n))
  {}

  /** Meanwhile nobody can close, start, register, give up waiting, end or have an answer read. */
  lemma StuckBlocks(s: State, a: Action)
    requires s.mutex.ByCall? && Enabled(s, a)
    ensures !a.Close? && !a.Start? && !a.Register? && !a.Leave? && !a.ReadLine? && !a.Exit? && !a.Swap?
    ensures a.Outside? ==> !a.outer.BeginRestart? && !a.outer.CloseFor?
  {}

  /** That is why a reader that fails cancels before it takes the mutex: it then breaks the pipe. */
  lemma CancelReleases(s: State, p: nat)
    requires Inv(s) && s.mutex.ByCall? && s.calls[s.mutex.call].to == p + 1 && IsReader(s, p, Failing)
    ensures Enabled(s, Outside(Cancel(p)))
    ensures Enabled(Next(s, Outside(Cancel(p))), FailWrite(s.mutex.call))
    ensures Next(Next(s, Outside(Cancel(p))), FailWrite(s.mutex.call)).mutex == Free
  {
    hide OneValue, OwnAnswers, SomeValue, Table;
  }

  // A call stuck in its write: the pipe takes one request, and the process has not read the first.
  const ONE := State(true, false, 0, map[], [], [Scanning], [Alive], [Open(1)], [], Free)
  const FIRST_CALL := ONE.(nextId := 1, pending := map[1 := 0], calls := [Call(1, 1, Writing, [])], mutex := ByCall(0))
  const FIRST_SENT := FIRST_CALL.(calls := [Call(1, 1, Waiting, [])], pipes := [Open(0)], mutex := Free)
  const SECOND_STUCK := FIRST_SENT.(nextId := 2, pending := map[1 := 0, 2 := 1],
                                    calls := [Call(1, 1, Waiting, []), Call(2, 1, Writing, [])], mutex := ByCall(1))

  predicate Leads(s: State, a: Action, t: State) {
    Enabled(s, a) && Next(s, a) == t
  }

  lemma FirstIsCalled()
    ensures Leads(INITIAL, Start(None, 1), ONE) && Leads(ONE, Register, FIRST_CALL)
  {}

  lemma SecondIsStuck()
    ensures Leads(FIRST_CALL, Write(0), FIRST_SENT) && Leads(FIRST_SENT, Register, SECOND_STUCK)
  {}

  lemma RunLeads(s: State, a: Action, t: State, rest: seq<Action>)
    requires Leads(s, a, t)
    ensures Run(s, [a] + rest) == Run(t, rest)
  {
    hide Next, Enabled;
    assert ([a] + rest)[1..] == rest;
  }

  lemma StuckIsReached()
    ensures Reachable(SECOND_STUCK) && SECOND_STUCK.mutex.ByCall? && !CanGoOn(SECOND_STUCK)
  {
    FirstIsCalled();
    SecondIsStuck();
    hide Leads;
    assert Run(SECOND_STUCK, []) == Some(SECOND_STUCK);
    hide Run;
    RunLeads(FIRST_SENT, Register, SECOND_STUCK, []);
    RunLeads(FIRST_CALL, Write(0), FIRST_SENT, [Register] + []);
    RunLeads(ONE, Register, FIRST_CALL, [Write(0)] + ([Register] + []));
    RunLeads(INITIAL, Start(None, 1), ONE, [Register] + ([Write(0)] + ([Register] + [])));
  }

  lemma HolderStep(s: State, a: Action)
    requires Lock(s) && a.Drained? && s.mutex == ByWaiter(a.process) && s.pending == map[]
    ensures Enabled(s, a)
  {}

  lemma LastStep(s: State, a: Action)
    requires Enabled(s, a) && (a.Write? || a.FailWrite? || a.Drained?)
    ensures Run(s, [a]).Some? && Run(s, [a]).value.mutex == Free
  {
    assert Run(Next(s, a), []) == Some(Next(s, a));
    assert [a][1..] == [];
  }

  lemma RunFirst(s: State, a: Action, rest: seq<Action>)
    requires Enabled(s, a)
    ensures Run(s, [a] + rest) == Run(Next(s, a), rest)
  {
    assert ([a] + rest)[1..] == rest;
  }

  /** The table as its object holds it; each method is a critical section. */
  class Multiplexer {
    var started: bool
    var readFailed: bool
    var nextId: nat
    var pending: map<nat, nat>
    var calls: seq<Call>
    var readers: seq<Reader>
    var waiters: seq<Waiter>
    var pipes: seq<Pipe>
    var restarts: seq<Restart>
    var mutex: Holder

    constructor ()
      ensures View() == INITIAL
    {
      started, readFailed, nextId, pending, mutex := false, false, 0, map[], Free;
      calls, readers, waiters, pipes, restarts := [], [], [], [], [];
    }

    function View(): State
      reads this
    {
      State(started, readFailed, nextId, pending, calls, readers, waiters, pipes, restarts, mutex)
    }

    /** Whether the system could start the process, and how much its pipe takes, comes from outside. */
    method Start(spawned: bool, room: nat) returns (ok: bool)
      requires mutex == Free
      modifies this
      ensures ok <==> !old(readFailed) && (old(started) || spawned)
      ensures View() == if ok && !old(started) then Next(old(View()), Action.Start(None, room)) else old(View())
    {
      if readFailed {
        return false;
      }
      if started {
        return true;
      }
      if !spawned {
        return false;
      }
      started := true;
      readers, waiters, pipes := readers + [Scanning], waiters + [Alive], pipes + [Open(room)];
      return true;
    }

    /** The first half of Call. Whether the request marshals comes from outside. If the pipe is full, the write
        waits, and with it the mutex. */
    method Send(marshals: bool) returns (call: Option<nat>)
      requires Inv(View()) && mutex == Free
      modifies this
      ensures call.Some? <==> old(started) && !old(readFailed)
      ensures call.None? ==> View() == old(View())
      ensures call.Some? ==>
                && Enabled(old(View()), Register) && call.value == |old(calls)|
                && var s, c, to := Next(old(View()), Register), |old(calls)|, |old(readers)|;
                   if !marshals then Enabled(s, Unmarshalable(c)) && View() == Next(s, Unmarshalable(c))
                   else if TakesMore(s, to) then Enabled(s, Write(c)) && View() == Next(s, Write(c))
                   else if IsBroken(s, to) then Enabled(s, FailWrite(c)) && View() == Next(s, FailWrite(c))
                   else View() == s && !CanGoOn(s)
    {
      if !started || readFailed {
        return None;
      }
      SomeProcess(View(), Register);
      hide Inv;
      nextId := nextId + 1;
      var id, c := nextId, |calls|;
      calls := calls + [Call(id, |readers|, Writing, [])];
      pending := pending[id := c];
      mutex := ByCall(c);
      if !marshals {
        pending := pending - {id};
        calls := calls[c := calls[c].(pc := NotSent)];
        mutex := Free;
        return Some(c);
      }
      if TakesMore(View(), calls[c].to) || IsBroken(View(), calls[c].to) {
        Written(c);
      }
      return Some(c);
    }

    /** The write ends, well or not, as the pipe lets it. */
    method Written(c: nat)
      requires mutex == ByCall(c) && IsCall(View(), c, Writing)
      requires TakesMore(View(), calls[c].to) || IsBroken(View(), calls[c].to)
      modifies this
      ensures TakesMore(old(View()), old(calls)[c].to) ==> Enabled(old(View()), Write(c)) && View() == Next(old(View()), Write(c))
      ensures IsBroken(old(View()), old(calls)[c].to) ==> Enabled(old(View()), FailWrite(c)) && View() == Next(old(View()), FailWrite(c))
    {
      var p := calls[c].to - 1;
      if pipes[p].Open? {
        pipes := pipes[p := Open(pipes[p].room - 1)];
        calls := calls[c := calls[c].(pc := Waiting)];
      } else {
        calls := calls[c := calls[c].(pc := WriteFailed)];
      }
      mutex := Free;
    }

    method Leave(c: nat)
      requires Enabled(View(), Action.Leave(c))
      modifies this
      ensures View() == Next(old(View()), Action.Leave(c))
    {
      pending := pending - {calls[c].id};
      calls := calls[c := calls[c].(pc := TimedOut)];
    }

    method TakeLine(p: nat, id: nat, body: Result<string, string>)
      requires Enabled(View(), ReadLine(p, id, body))
      modifies this
      ensures View() == Next(old(View()), ReadLine(p, id, body))
      ensures id in old(pending) ==> id !in pending && readers[p] == Carrying(old(pending)[id], Answer(id, body))
      ensures id !in old(pending) ==> readers == old(readers) && pending == old(pending)
    {
      if id !in pending {
        return;
      }
      var c := pending[id];
      pending := pending - {id};
      readers := readers[p := Carrying(c, Answer(id, body))];
    }

    /** What a reader does that can read no further: the sends come after the mutex is free again. */
    method Fail(p: nat) returns (ghost steps: seq<Action>)
      requires Inv(View()) && Enabled(View(), FailRead(p)) && mutex == Free
      modifies this
      ensures !started && readFailed && pending == map[] && waiters == old(waiters) && mutex == Free
      ensures readers == old(readers)[p := Ended]
      ensures calls == Answered(old(calls), old(pending).Values, Unreadable)
      ensures Run(old(View()), steps) == Some(View())
    {
      hide Inv, Next, Enabled, Run, Answered, Failed, Within;
      ghost var before := View();
      steps := FailSteps(before, p);
      readFailed := true;
      started := false;
      var dropped := pending;
      pending := map[];
      readers := readers[p := Dropping(dropped.Values)];
      while dropped != map[]
        invariant View() == Failed(before, p, dropped)
        invariant Inv(View()) && Run(before, steps) == Some(View()) && Within(dropped, before.pending)
        decreases |dropped|
      {
        var id: nat :| id in dropped;
        var c := dropped[id];
        steps := DropRound(before, p, dropped, id, steps);
        dropped := dropped - {id};
        calls := calls[c := calls[c].(channel := calls[c].channel + [Unreadable])];
        readers := readers[p := Dropping(dropped.Values)];
      }
      steps := DropEnd(before, p, steps);
      readers := readers[p := Ended];
    }

    /** What the waiter of a process does once it has exited, all of it holding the mutex. */
    method EndProcess(p: nat) returns (ghost steps: seq<Action>)
      requires Inv(View()) && Enabled(View(), Exit(p))
      modifies this
      ensures !started && pending == map[] && readers == old(readers) && readFailed == old(readFailed)
      ensures waiters == old(waiters)[p := Gone] && mutex == Free
      ensures calls == Answered(old(calls), old(pending).Values, Exited)
      ensures Run(old(View()), steps) == Some(View())
    {
      hide Inv, Next, Enabled, Run, Answered, Ending, Within;
      ghost var before := View();
      steps := ExitSteps(before, p);
      mutex := ByWaiter(p);
      started := false;
      waiters := waiters[p := Draining];
      while pending != map[]
        invariant View() == Ending(before, p, pending)
        invariant Inv(View()) && Run(before, steps) == Some(View()) && Within(pending, before.pending)
        decreases |pending|
      {
        var id: nat :| id in pending;
        var c := pending[id];
        steps := DrainRound(before, p, pending, id, steps);
        pending := pending - {id};
        calls := calls[c := calls[c].(channel := calls[c].channel + [Exited])];
      }
      steps := DrainEnd(before, p, steps);
      waiters := waiters[p := Gone];
      mutex := Free;
    }

    method Close()
      requires mutex == Free
      modifies this
      ensures View() == Next(old(View()), Action.Close)
    {
      started := false;
    }
  }

  lemma SwapStep(s: State, p: nat)
    requires Enabled(s, FailRead(p)) && s.mutex == Free
    ensures p < |s.readers|
    ensures var t := Next(s, FailRead(p));
            && Enabled(t, Swap(p))
            && Next(t, Swap(p)) == Reads(s, p, Dropping(s.pending.Values)).(readFailed := true, started := false, pending := map[])
  {
    assert s.readers[p := Failing][p := Dropping(s.pending.Values)] == s.readers[p := Dropping(s.pending.Values)];
  }

  function Nobody(): map<nat, nat> {
    map[]
  }

  /** A failed reader that still has to answer `left`. */
  function Failed(s: State, p: nat, left: map<nat, nat>): State
    requires p < |s.readers|
  {
    s.(readFailed := true, started := false, pending := map[],
       readers := s.readers[p := Dropping(left.Values)],
       calls := Answered(s.calls, s.pending.Values - left.Values, Unreadable))
  }

  /** A waiter that still has to answer `left`. */
  function Ending(s: State, p: nat, left: map<nat, nat>): State
    requires p < |s.waiters|
  {
    s.(started := false, mutex := ByWaiter(p), waiters := s.waiters[p := Draining], pending := left,
       calls := Answered(s.calls, s.pending.Values - left.Values, Exited))
  }

  lemma NobodyAnswered(s: State, response: Response)
    ensures Answered(s.calls, s.pending.Values - s.pending.Values, response) == s.calls
  {}

  lemma FailSteps(s: State, p: nat) returns (steps: seq<Action>)
    requires Inv(s) && Enabled(s, FailRead(p)) && s.mutex == Free
    ensures p < |s.readers|
    ensures Inv(Failed(s, p, s.pending)) && Run(s, steps) == Some(Failed(s, p, s.pending)) && Within(s.pending, s.pending)
    ensures Failed(s, p, s.pending) == Reads(s, p, Dropping(s.pending.Values)).(readFailed := true, started := false, pending := map[])
  {
    SwapStep(s, p);
    NobodyAnswered(s, Unreadable);
    hide Inv, Next, Enabled, Answered;
    var t := Next(s, FailRead(p));
    NextKeepsInv(s, FailRead(p));
    NextKeepsInv(t, Swap(p));
    assert Run(s, []) == Some(s);
    hide Run;
    RunThen(s, [], s, FailRead(p));
    RunThen(s, [] + [FailRead(p)], t, Swap(p));
    steps := [] + [FailRead(p)] + [Swap(p)];
  }

  /** One more call is answered, as one entry leaves what is left of the table. */
  lemma OneMoreAnswered(s: State, left: map<nat, nat>, id: nat, response: Response)
    requires Inv(s) && Within(left, s.pending) && id in left
    ensures left[id] < |s.calls| && left.Values - {left[id]} == (left - {id}).Values
    ensures var calls := Answered(s.calls, s.pending.Values - left.Values, response);
            Answered(s.calls, s.pending.Values - (left - {id}).Values, response)
            == calls[left[id] := calls[left[id]].(channel := calls[left[id]].channel + [response])]
  {
    ValuesWithout(s, left, id);
    assert left[id] < |s.calls| by { assert s.pending[id] < |s.calls|; }
    hide Inv, Answered;
    assert s.pending.Values - (left - {id}).Values == (s.pending.Values - left.Values) + {left[id]};
    AnsweredNext(s.calls, s.pending.Values - left.Values, left[id], response);
  }

  lemma DropRound(s: State, p: nat, left: map<nat, nat>, id: nat, steps: seq<Action>) returns (more: seq<Action>)
    requires p < |s.readers| && Inv(s) && Within(left, s.pending) && id in left
    requires Inv(Failed(s, p, left)) && Run(s, steps) == Some(Failed(s, p, left))
    ensures Within(left - {id}, s.pending) && |left - {id}| < |left|
    ensures var t := Failed(s, p, left - {id});
            && Inv(t) && Run(s, more) == Some(t)
            && left[id] < |Failed(s, p, left).calls| && p < |Failed(s, p, left).readers|
            && t == Reads(Sent(Failed(s, p, left), left[id], Unreadable), p, Dropping((left - {id}).Values))
  {
    hide Inv, Enabled, Next, Run, Answered;
    var c := left[id];
    OneFewer(left, id);
    OneMoreAnswered(s, left, id, Unreadable);
    var before, after := Failed(s, p, left), Failed(s, p, left - {id});
    DropStep(before, p, c);
    assert before.readers[p := Dropping(left.Values - {c})] == after.readers;
    assert Next(before, Drop(p, c)) == after;
    NextKeepsInv(before, Drop(p, c));
    RunThen(s, steps, before, Drop(p, c));
    more := steps + [Drop(p, c)];
  }

  lemma DropEnd(s: State, p: nat, steps: seq<Action>) returns (more: seq<Action>)
    requires p < |s.readers| && Run(s, steps) == Some(Failed(s, p, map[]))
    ensures p < |Failed(s, p, map[]).readers| && Run(s, more) == Some(Reads(Failed(s, p, map[]), p, Ended))
    ensures Reads(Failed(s, p, map[]), p, Ended)
         == Reads(s, p, Ended).(readFailed := true, started := false, pending := map[], calls := Answered(s.calls, s.pending.Values, Unreadable))
  {
    hide Enabled, Next, Run, Answered;
    var t := Failed(s, p, map[]);
    assert t.readers[p].owed == {};
    assert s.pending.Values - Nobody().Values == s.pending.Values;
    DroppedStep(t, p);
    RunThen(s, steps, t, Dropped(p));
    more := steps + [Dropped(p)];
  }

  lemma ExitSteps(s: State, p: nat) returns (steps: seq<Action>)
    requires Inv(s) && Enabled(s, Exit(p))
    ensures p < |s.waiters|
    ensures Inv(Ending(s, p, s.pending)) && Run(s, steps) == Some(Ending(s, p, s.pending))
    ensures Within(s.pending, s.pending)
    ensures Ending(s, p, s.pending) == Waits(s, p, Draining).(started := false, mutex := ByWaiter(p))
  {
    NobodyAnswered(s, Exited);
    hide Inv, Answered;
    assert Next(s, Exit(p)) == Ending(s, p, s.pending);
    NextKeepsInv(s, Exit(p));
    hide Next, Enabled;
    assert Run(s, []) == Some(s);
    RunThen(s, [], s, Exit(p));
    steps := [] + [Exit(p)];
  }

  lemma DrainRound(s: State, p: nat, left: map<nat, nat>, id: nat, steps: seq<Action>) returns (more: seq<Action>)
    requires p < |s.waiters| && Inv(s) && Within(left, s.pending) && id in left
    requires Inv(Ending(s, p, left)) && Run(s, steps) == Some(Ending(s, p, left))
    ensures Within(left - {id}, s.pending) && |left - {id}| < |left|
    ensures var t := Ending(s, p, left - {id});
            && Inv(t) && Run(s, more) == Some(t) && left[id] < |Ending(s, p, left).calls|
            && t == Sent(Ending(s, p, left), left[id], Exited).(pending := left - {id})
  {
    hide Inv, Enabled, Next, Run, Answered;
    OneFewer(left, id);
    OneMoreAnswered(s, left, id, Exited);
    var before, after := Ending(s, p, left), Ending(s, p, left - {id});
    DrainStep(before, p, id);
    assert Next(before, Drain(p, id)) == after;
    NextKeepsInv(before, Drain(p, id));
    RunThen(s, steps, before, Drain(p, id));
    more := steps + [Drain(p, id)];
  }

  lemma DrainEnd(s: State, p: nat, steps: seq<Action>) returns (more: seq<Action>)
    requires p < |s.waiters| && Run(s, steps) == Some(Ending(s, p, map[]))
    ensures p < |Ending(s, p, map[]).waiters| && Run(s, more) == Some(Waits(Ending(s, p, map[]), p, Gone).(mutex := Free))
    ensures Waits(Ending(s, p, map[]), p, Gone).(mutex := Free)
         == Waits(s, p, Gone).(started := false, mutex := Free, pending := map[], calls := Answered(s.calls, s.pending.Values, Exited))
  {
    hide Enabled, Next, Run, Answered;
    var t := Ending(s, p, map[]);
    assert s.pending.Values - Nobody().Values == s.pending.Values;
    DrainedStep(t, p);
    RunThen(s, steps, t, Drained(p));
    more := steps + [Drained(p)];
  }

  lemma DropStep(s: State, p: nat, c: nat)
    requires Inv(s) && p < |s.readers| && s.readers[p].Dropping? && c in s.readers[p].owed
    ensures c < |s.calls| && Enabled(s, Drop(p, c))
    ensures Next(s, Drop(p, c)) == Reads(Sent(s, c, Unreadable), p, Dropping(s.readers[p].owed - {c}))
  {
    assert Owes(s.readers[p], c);
  }

  lemma DroppedStep(s: State, p: nat)
    requires IsReader(s, p, Dropping({}))
    ensures Enabled(s, Dropped(p)) && Next(s, Dropped(p)) == Reads(s, p, Ended)
  {}

  lemma DrainStep(s: State, p: nat, id: nat)
    requires Inv(s) && s.mutex == ByWaiter(p) && id in s.pending
    ensures s.pending[id] < |s.calls| && Enabled(s, Drain(p, id))
    ensures Next(s, Drain(p, id)) == Without(Sent(s, s.pending[id], Exited), id)
  {}

  lemma DrainedStep(s: State, p: nat)
    requires s.mutex == ByWaiter(p) && p < |s.waiters| && s.pending == map[]
    ensures Enabled(s, Drained(p)) && Next(s, Drained(p)) == Waits(s, p, Gone).(mutex := Free)
  {}

  predicate Within(some: map<nat, nat>, all: map<nat, nat>) {
    forall id :: id in some ==> id in all && some[id] == all[id]
  }

  lemma OneFewer(m: map<nat, nat>, id: nat)
    requires id in m
    ensures |m - {id}| < |m|
  {
    assert (m - {id}).Keys == m.Keys - {id};
    assert |m.Keys - {id}| == |m.Keys| - 1;
  }

  /** No two ids of a table stand for the same call. */
  lemma ValuesWithout(s: State, m: map<nat, nat>, id: nat)
    requires Ids(s) && id in m && Within(m, s.pending)
    ensures m[id] !in (m - {id}).Values && m.Values == (m - {id}).Values + {m[id]}
    ensures m[id] in s.pending.Values
  {
    forall v | v in m.Values ensures v in (m - {id}).Values + {m[id]} {
      var i :| i in m && m[i] == v;
      assert i != id ==> i in m - {id};
    }
  }

  lemma {:induction false} RunThen(s: State, actions: seq<Action>, t: State, a: Action)
    requires Run(s, actions) == Some(t) && Enabled(t, a)
    ensures Run(s, actions + [a]) == Some(Next(t, a))
    decreases |actions|
  {
    if actions == [] {
      assert Run(Next(t, a), []) == Some(Next(t, a));
      assert [a][1..] == [];
    } else {
      assert (actions + [a])[1..] == actions[1..] + [a];
      hide Next, Enabled;
      RunThen(Next(s, actions[0]), actions[1..], t, a);
    }
  }

  /** Every call of the set has been sent the same value, once. */
  function Answered(calls: seq<Call>, to: set<nat>, response: Response): (after: seq<Call>)
    ensures |after| == |calls|
    ensures forall c | 0 <= c < |calls| :: after[c] == if c in to then calls[c].(channel := calls[c].channel + [response]) else calls[c]
  {
    seq(|calls|, c requires 0 <= c < |calls| => if c in to then calls[c].(channel := calls[c].channel + [response]) else calls[c])
  }

  lemma AnsweredNext(calls: seq<Call>, to: set<nat>, c: nat, response: Response)
    requires c < |calls| && c !in to
    ensures var after := Answered(calls, to, response);
            Answered(calls, to + {c}, response) == after[c := after[c].(channel := after[c].channel + [response])]
  {}
}
