/** Whose process answers a call: when a start is safe, and that restarts one after the other start safely. */
module SidecarRestart {
  import opened Wrappers
  import opened Sidecar

  /** Nothing that is left of the processes before can reach a call to come: the waiters are gone, and no reader
      reads, delivers or is about to empty the table. One that still answers the calls it took may be left. */
  predicate Safe(s: State) {
    AllGone(s) && forall p :: 0 <= p < |s.readers| ==> s.readers[p] == Ended || s.readers[p].Dropping?
  }

  /** Every start of the run is safe. */
  predicate Orderly(s: State, actions: seq<Action>)
    requires Run(s, actions).Some?
    decreases |actions|
  {
    actions == [] || ((actions[0].Start? ==> Safe(s)) && Orderly(Next(s, actions[0]), actions[1..]))
  }

  ghost predicate Alone(s: State) {
    && |s.readers| == |s.waiters|
    && (forall p | 0 <= p < |s.waiters| - 1 :: s.waiters[p] == Gone)
    && (forall p | 0 <= p < |s.readers| - 1 :: s.readers[p] == Ended || s.readers[p].Dropping?)
  }

  ghost predicate OwnTable(s: State, n: nat) {
    forall id | id in s.pending && n <= s.pending[id] < |s.calls| :: s.calls[s.pending[id]].to == |s.readers|
  }

  ghost predicate OwnDebts(s: State, n: nat) {
    forall p: nat, c: nat {:trigger Owes(s.readers[p], c)} | p < |s.readers| && n <= c < |s.calls| && Owes(s.readers[p], c) ::
      s.calls[c].to == p + 1
  }

  /** Only the last process is there, and of the calls from the `n`-th on, what is in the table or owed was written
      to whoever will answer it. */
  ghost predicate Own(s: State, n: nat) {
    Inv(s) && Alone(s) && OwnTable(s, n) && OwnDebts(s, n)
  }

  lemma NextKeepsAlone(s: State, a: Action)
    requires Alone(s) && Enabled(s, a) && (a.Start? ==> Safe(s))
    requires a.Exit? || a.Drained? ==> s.waiters[a.process] != Gone
    ensures Alone(Next(s, a))
  {
    if a.Outside? { OuterLeaves(s, a.outer); }
    hide OuterNext, OuterEnabled;
  }

  lemma NextKeepsOwnTable(s: State, a: Action, n: nat)
    requires Inv(s) && OwnTable(s, n) && Enabled(s, a) && (a.Start? ==> Safe(s))
    ensures OwnTable(Next(s, a), n)
  {
    var t := Next(s, a);
    SizesStep(s, a);
    ReadersStep(s, a);
    hide OneValue, SomeValue, OwnAnswers, Lock, Next, Enabled, Sends, AllGone;
    forall id | id in t.pending && n <= t.pending[id] < |t.calls| ensures t.calls[t.pending[id]].to == |t.readers| {
      PendingStep(s, a, id);
      if t.pending[id] < |s.calls| {
        CallStep(s, a, t.pending[id]);
      } else {
        NewIsUnanswered(s, a, t.pending[id]);
      }
    }
  }

  lemma ReadersStep(s: State, a: Action)
    requires Enabled(s, a)
    ensures a.Start? ==> Next(s, a).pending == s.pending
    ensures !a.Start? ==> |Next(s, a).readers| == |s.readers|
  {
    if a.Outside? { OuterLeaves(s, a.outer); }
    hide OuterNext, OuterEnabled;
  }

  lemma TakerReads(s: State, a: Action)
    requires (a.ReadLine? || a.Swap?) && Enabled(s, a)
    ensures a.process < |s.readers| && s.readers[a.process] != Ended && !s.readers[a.process].Dropping?
  {}

  lemma NextKeepsOwnDebts(s: State, a: Action, n: nat)
    requires Own(s, n) && Enabled(s, a)
    ensures OwnDebts(Next(s, a), n)
  {
    hide SomeValue, OwnAnswers, Lock, Table, OwedOnce, PendingUnanswered, OneSlot, Next, Enabled, Sends;
    var t := Next(s, a);
    forall p: nat, c: nat | p < |t.readers| && n <= c < |t.calls| && Owes(t.readers[p], c) ensures t.calls[c].to == p + 1 {
      NewlyOwed(s, a, p, c);
      if Owes(s.readers[p], c) {
        assert OutOfTable(s, c);
      } else {
        assert s.pending[c + 1] == c;
        TakerReads(s, a);
      }
      MovesStep(s, a, c);
    }
  }

  lemma WaitersThatMove(s: State, a: Action)
    requires Lock(s) && Enabled(s, a)
    ensures a.Exit? || a.Drained? ==> s.waiters[a.process] != Gone
  {}

  lemma NextKeepsOwn(s: State, a: Action, n: nat)
    requires Own(s, n) && Enabled(s, a) && (a.Start? ==> Safe(s))
    ensures Own(Next(s, a), n)
  {
    WaitersThatMove(s, a);
    hide Next, Enabled, Safe, Alone, OwnTable, OwnDebts;
    NextKeepsInv(s, a);
    NextKeepsOwnTable(s, a, n);
    NextKeepsOwnDebts(s, a, n);
    hide Inv;
    NextKeepsAlone(s, a);
  }

  lemma {:induction false} RunKeepsOwn(s: State, actions: seq<Action>, n: nat)
    requires Own(s, n) && Run(s, actions).Some? && Orderly(s, actions)
    ensures Own(Run(s, actions).value, n)
    decreases |actions|
  {
    hide Own, Next, Enabled, Safe;
    if actions != [] {
      NextKeepsOwn(s, actions[0], n);
      RunKeepsOwn(Next(s, actions[0]), actions[1..], n);
    }
  }

  /** The step sends a value to a call that was written to another process. */
  predicate Foreign(s: State, a: Action, c: nat) {
    Enabled(s, a) && Sends(s, a, c) && !(c < |s.calls| && s.calls[c].to == a.process + 1)
  }

  lemma OwnSends(s: State, a: Action, c: nat, n: nat)
    requires Own(s, n) && c >= n
    ensures !Foreign(s, a, c)
  {
    if Enabled(s, a) && Sends(s, a, c) {
      hide SomeValue, OwnAnswers, Table, OwedOnce;
      SendAnswers(s, a, c);
      if !a.Drain? {
        assert Owes(s.readers[a.process], c);
      }
    }
  }

  /** If every start is safe, every value a call gets comes from the process its request was written to. */
  lemma OnlyItsProcessAnswers(actions: seq<Action>, a: Action, c: nat)
    requires Run(INITIAL, actions).Some? && Orderly(INITIAL, actions)
    ensures !Foreign(Run(INITIAL, actions).value, a, c)
  {
    RunKeepsOwn(INITIAL, actions, 0);
    OwnSends(Run(INITIAL, actions).value, a, c, 0);
  }

  // The other way round: a start that is not safe can be followed, without another start, by a value from a
  // process the call was not written to.

  /** Until the next start no call from the `n`-th on gets a value from a process it was not written to. */
  ghost predicate OnlyOwn(s: State, n: nat) {
    forall actions, a, c :: NoStart(actions) && Run(s, actions).Some? && c >= n ==> !Foreign(Run(s, actions).value, a, c)
  }

  /** A call is written to the process just started. */
  function Asked(s: State, r: Option<nat>, room: nat): State
    requires r.Some? ==> r.value < |s.restarts|
  {
    var t, c := Begun(s, r, room), |s.calls|;
    t.(nextId := s.nextId + 1, pending := s.pending[s.nextId + 1 := c], calls := s.calls + [Call(s.nextId + 1, |t.readers|, Waiting, [])])
  }

  function Asking(s: State): seq<Action> {
    [Outside(Take(|s.readers|)), Register, Write(|s.calls|)]
  }

  lemma TakenIs(s: State, r: Option<nat>, room: nat)
    requires Enabled(s, Start(r, room)) && |s.readers| == |s.pipes|
    ensures Leads(Begun(s, r, room), Outside(Take(|s.readers|)), Begun(s, r, room + 1))
  {}

  lemma WrittenIs(s: State, r: Option<nat>, room: nat)
    requires Enabled(s, Start(r, room)) && |s.readers| == |s.pipes|
    ensures var t, c := Begun(s, r, room + 1), |s.calls|;
            Leads(t, Register, Registered(t)) && Leads(Registered(t), Write(c), Asked(s, r, room))
  {
    var t, c := Registered(Begun(s, r, room + 1)), |s.calls|;
    assert t.calls[c := t.calls[c].(pc := Waiting)] == Asked(s, r, room).calls;
  }

  lemma AskedIs(s: State, r: Option<nat>, room: nat)
    requires Enabled(s, Start(r, room)) && |s.readers| == |s.pipes|
    ensures Run(Begun(s, r, room), Asking(s)) == Some(Asked(s, r, room))
  {
    var t, c := Begun(s, r, room + 1), |s.calls|;
    TakenIs(s, r, room);
    WrittenIs(s, r, room);
    assert Run(Asked(s, r, room), []) == Some(Asked(s, r, room));
    hide Leads, Run, Begun, Asked, Registered;
    RunLeads(Registered(t), Write(c), Asked(s, r, room), []);
    RunLeads(t, Register, Registered(t), [Write(c)] + []);
    RunLeads(Begun(s, r, room), Outside(Take(|s.readers|)), t, [Register] + ([Write(c)] + []));
    assert Asking(s) == [Outside(Take(|s.readers|))] + ([Register] + ([Write(c)] + []));
  }

  lemma TwoMore(s: State, before: seq<Action>, t: State, a: Action, u: State, b: Action, v: State)
    requires Run(s, before) == Some(t) && Leads(t, a, u) && Leads(u, b, v)
    ensures Run(s, before + [a] + [b]) == Some(v)
  {
    hide Next, Enabled, Run;
    RunThen(s, before, t, a);
    RunThen(s, before + [a], u, b);
  }

  lemma BreakAndExit(t: State, p: nat)
    requires t.mutex == Free && p < |t.waiters| && t.waiters[p] == Alive && |t.pipes| == |t.waiters|
    ensures var u := t.(pipes := t.pipes[p := Broken]);
            Leads(t, Outside(Break(p)), u)
            && Leads(u, Exit(p), u.(waiters := u.waiters[p := Draining], started := false, mutex := ByWaiter(p)))
  {}

  /** An old waiter drains the new call. */
  lemma WaiterLeaks(s: State, r: Option<nat>, room: nat, p: nat)
    requires Ids(s) && Enabled(s, Start(r, room)) && p < |s.waiters| && s.waiters[p] == Alive
    ensures !OnlyOwn(Begun(s, r, room), |s.calls|)
  {
    var t, c := Asked(s, r, room), |s.calls|;
    var u := t.(pipes := t.pipes[p := Broken]);
    var v := u.(waiters := u.waiters[p := Draining], started := false, mutex := ByWaiter(p));
    AskedIs(s, r, room);
    BreakAndExit(t, p);
    assert v.pending[c + 1] == c && Foreign(v, Drain(p, c + 1), c);
    hide Leads, Foreign, Run, Begun, Asked;
    TwoMore(Begun(s, r, room), Asking(s), t, Outside(Break(p)), u, Exit(p), v);
    var actions := Asking(s) + [Outside(Break(p))] + [Exit(p)];
    assert NoStart(actions);
  }

  /** A reader that names in a line a call of another process answers it. */
  lemma ReadsForeign(t: State, p: nat, c: nat)
    requires t.mutex == Free && IsReader(t, p, Scanning) && c + 1 in t.pending && t.pending[c + 1] == c
    requires HasRoom(t, c) && t.calls[c].to != p + 1
    ensures var v := Reads(Without(t, c + 1), p, Carrying(c, Answer(c + 1, Ok(""))));
            Leads(t, ReadLine(p, c + 1, Ok("")), v) && Foreign(v, Deliver(p), c)
  {}

  lemma DeliversFirst(s: State, r: Option<nat>, room: nat, p: nat)
    requires Inv(s) && Enabled(s, Start(r, room)) && p < |s.readers| && s.readers[p].Carrying?
    ensures var t, x := Asked(s, r, room), s.readers[p].call;
            x < |s.calls| && Leads(t, Deliver(p), Reads(Sent(t, x, s.readers[p].response), p, Scanning))
  {
    assert Owes(s.readers[p], s.readers[p].call);
    assert OutOfTable(s, s.readers[p].call);
    hide SomeValue, OwnAnswers, Lock, Table;
  }

  /** An old reader reads an answer to the new call, once it has delivered what it carries. */
  lemma ReaderLeaks(s: State, r: Option<nat>, room: nat, p: nat)
    requires Inv(s) && Enabled(s, Start(r, room)) && p < |s.readers| && (s.readers[p] == Scanning || s.readers[p].Carrying?)
    ensures !OnlyOwn(Begun(s, r, room), |s.calls|)
  {
    var t, c := Asked(s, r, room), |s.calls|;
    AskedIs(s, r, room);
    var line := ReadLine(p, c + 1, Ok(""));
    if s.readers[p].Carrying? {
      DeliversFirst(s, r, room, p);
      hide Inv, Enabled, Next, Foreign, OnlyOwn;
      var x := s.readers[p].call;
      var u := Reads(Sent(t, x, s.readers[p].response), p, Scanning);
      ReadsForeign(u, p, c);
      hide *;
      TwoMore(Begun(s, r, room), Asking(s), t, Deliver(p), u, line, Reads(Without(u, c + 1), p, Carrying(c, Answer(c + 1, Ok("")))));
      Leaked(Begun(s, r, room), Asking(s) + [Deliver(p)] + [line], p, c, c);
    } else {
      hide Inv, Enabled, Next, Foreign, OnlyOwn;
      ReadsForeign(t, p, c);
      hide *;
      ThenLeads(Begun(s, r, room), Asking(s), t, line, Reads(Without(t, c + 1), p, Carrying(c, Answer(c + 1, Ok("")))));
      Leaked(Begun(s, r, room), Asking(s) + [line], p, c, c);
    }
  }

  lemma ThenLeads(s: State, before: seq<Action>, t: State, a: Action, u: State)
    requires Run(s, before) == Some(t) && Leads(t, a, u)
    ensures Run(s, before + [a]) == Some(u)
  {
    hide Next, Enabled, Run;
    RunThen(s, before, t, a);
  }

  lemma Leaked(s: State, actions: seq<Action>, p: nat, c: nat, n: nat)
    requires Run(s, actions).Some? && Foreign(Run(s, actions).value, Deliver(p), c)
    requires NoStart(actions) && c >= n
    ensures !OnlyOwn(s, n)
  {
    hide Run, Foreign;
  }

  /** An old reader that failed empties the table of the new call. */
  lemma FailureLeaks(s: State, r: Option<nat>, room: nat, p: nat)
    requires Ids(s) && Enabled(s, Start(r, room)) && IsReader(s, p, Failing)
    ensures !OnlyOwn(Begun(s, r, room), |s.calls|)
  {
    var t, c := Asked(s, r, room), |s.calls|;
    var v := Reads(t, p, Dropping(t.pending.Values)).(started := false, pending := map[]);
    AskedIs(s, r, room);
    assert t.pending[c + 1] == c;
    assert Leads(t, Swap(p), v) && Foreign(v, Drop(p, c), c);
    hide Foreign, Run, Begun, Asked, Next, Enabled;
    RunThen(Begun(s, r, room), Asking(s), t, Swap(p));
    var actions := Asking(s) + [Swap(p)];
    assert NoStart(actions);
  }

  lemma {:induction false} QuietRunIsOrderly(s: State, actions: seq<Action>)
    requires Run(s, actions).Some? && NoStart(actions)
    ensures Orderly(s, actions)
    decreases |actions|
  {
    hide Next, Enabled, Safe;
    if actions != [] {
      assert !actions[0].Start?;
      QuietRunIsOrderly(Next(s, actions[0]), actions[1..]);
    }
  }

  /** Right after a safe start there is nothing to come for calls that are not there yet. */
  lemma SafeStartIsOwn(s: State, a: Action)
    requires Inv(s) && Enabled(s, a) && a.Start? && Safe(s)
    ensures Own(Next(s, a), |s.calls|)
  {
    NextKeepsInv(s, a);
    SizesStep(s, a);
    StartLeavesOneAlone(s, a);
    hide Inv, Next, Enabled, Safe;
  }

  lemma StartLeavesOneAlone(s: State, a: Action)
    requires |s.readers| == |s.waiters| && Enabled(s, a) && a.Start? && Safe(s)
    ensures Alone(Next(s, a))
  {}

  /** Whatever happened before: until the next one, a start is followed by values for the calls to come from the
      processes they were asked of only, exactly if it is safe. */
  lemma SafeStartIff(s: State, r: Option<nat>, room: nat)
    requires Inv(s) && Enabled(s, Start(r, room))
    ensures Safe(s) <==> OnlyOwn(Next(s, Start(r, room)), |s.calls|)
  {
    var t, n := Next(s, Start(r, room)), |s.calls|;
    if Safe(s) {
      SafeStartIsOwn(s, Start(r, room));
      hide Own, Next, Enabled, Foreign;
      forall actions, a, c | NoStart(actions) && Run(t, actions).Some? && c >= n ensures !Foreign(Run(t, actions).value, a, c) {
        QuietRunIsOrderly(t, actions);
        RunKeepsOwn(t, actions, n);
        OwnSends(Run(t, actions).value, a, c, n);
      }
    } else {
      NoDrainInStart(s, r, room);
      hide OnlyOwn, Inv;
      assert t == Begun(s, r, room);
      if p :| 0 <= p < |s.waiters| && s.waiters[p] == Alive {
        WaiterLeaks(s, r, room, p);
      } else {
        assert AllGone(s);
        var p :| 0 <= p < |s.readers| && s.readers[p] != Ended && !s.readers[p].Dropping?;
        if s.readers[p] == Failing { FailureLeaks(s, r, room, p); } else { ReaderLeaks(s, r, room, p); }
      }
    }
  }

  lemma NoDrainInStart(s: State, r: Option<nat>, room: nat)
    requires Inv(s) && Enabled(s, Start(r, room))
    ensures Ids(s) && forall p | 0 <= p < |s.waiters| :: s.waiters[p] == Alive || s.waiters[p] == Gone
  {}

  // Restart. As long as one of them is under way at a time, and the first start comes before any, it starts
  // only after all processes before have exited and have been read to the end.

  predicate Last(s: State, target: Option<nat>) {
    target == if s.readers == [] then None else Some(|s.readers| - 1)
  }

  predicate AllOver(s: State) {
    forall r :: 0 <= r < |s.restarts| ==> s.restarts[r] == Over
  }

  /** A restart begins only when none is under way; any other start comes first of all. */
  predicate OneAtATime(s: State, a: Action) {
    && (a == Outside(BeginRestart) ==> AllOver(s))
    && (a.Start? && a.restart.None? ==> AllOver(s) && s.readers == [])
  }

  predicate InTurn(s: State, actions: seq<Action>)
    requires Run(s, actions).Some?
    decreases |actions|
  {
    actions == [] || (OneAtATime(s, actions[0]) && InTurn(Next(s, actions[0]), actions[1..]))
  }

  /** Where a restart under way stands. */
  predicate Stands(s: State, restart: Restart) {
    match restart
    case Closing(target) => Last(s, target)
    case Awaiting(target) => Last(s, target)
    case Over => true
    case _ => s.readers != [] ==> HasEnded(s, Some(|s.readers| - 1))
  }

  ghost predicate Turns(s: State) {
    && |s.readers| == |s.waiters|
    && (forall q, r | 0 <= q < r < |s.restarts| :: s.restarts[q] == Over || s.restarts[r] == Over)
    && (forall r | 0 <= r < |s.restarts| :: Stands(s, s.restarts[r]))
    && (forall p: nat | p + 1 < |s.readers| :: HasEnded(s, Some(p)))
  }

  lemma EndedStays(s: State, a: Action, p: nat)
    requires Lock(s) && Enabled(s, a) && HasEnded(s, Some(p))
    ensures HasEnded(Next(s, a), Some(p))
  {
    if a.Outside? { OuterLeaves(s, a.outer); }
    hide OuterNext, OuterEnabled;
  }

  lemma StandsStill(s: State, a: Action, restart: Restart)
    requires Lock(s) && Enabled(s, a) && Stands(s, restart) && |Next(s, a).readers| == |s.readers|
    ensures Stands(Next(s, a), restart)
  {
    if s.readers != [] && HasEnded(s, Some(|s.readers| - 1)) { EndedStays(s, a, |s.readers| - 1); }
    hide Next, Enabled, HasEnded;
  }

  /** Only those who restart move their own restart on, and stand rightly then. */
  lemma RestartsStep(s: State, a: Action, r: nat)
    requires Turns(s) && Enabled(s, a) && OneAtATime(s, a) && !a.Start? && r < |Next(s, a).restarts|
    ensures var t := Next(s, a);
            || (r < |s.restarts| && t.restarts[r] == s.restarts[r])
            || Stands(t, t.restarts[r])
    ensures r < |s.restarts| && s.restarts[r] == Over ==> Next(s, a).restarts[r] == Over || a == Outside(GiveUp(r))
    ensures r >= |s.restarts| ==> AllOver(s) && r == |s.restarts|
    ensures |Next(s, a).restarts| >= |s.restarts|
  {
    if a.Outside? { OuterLeaves(s, a.outer); }
  }

  lemma OverStays(s: State, a: Action, r: nat)
    requires Enabled(s, a) && r < |s.restarts| && s.restarts[r] == Over
    ensures r < |Next(s, a).restarts| && Next(s, a).restarts[r] == Over
  {}

  lemma StartTurns(s: State, a: Action)
    requires Turns(s) && Enabled(s, a) && OneAtATime(s, a) && a.Start?
    ensures forall p: nat | p < |s.readers| :: HasEnded(s, Some(p))
    ensures Safe(s) && AllOver(Next(s, a))
  {
    if a.restart.Some? {
      var r := a.restart.value;
      assert Stands(s, s.restarts[r]);
      forall q | 0 <= q < |s.restarts| && q != r ensures s.restarts[q] == Over {
        assert s.restarts[if q < r then q else r] == Over || s.restarts[if q < r then r else q] == Over;
      }
    }
    forall p: nat | p < |s.readers| ensures HasEnded(s, Some(p)) {
      if p + 1 == |s.readers| { assert s.readers != []; }
    }
    forall p | 0 <= p < |s.waiters| ensures s.waiters[p] == Gone && s.readers[p] == Ended {
      assert HasEnded(s, Some(p));
    }
  }

  lemma NextKeepsTurns(s: State, a: Action)
    requires Inv(s) && Turns(s) && Enabled(s, a) && OneAtATime(s, a)
    ensures Turns(Next(s, a))
    ensures a.Start? ==> Safe(s)
  {
    var t := Next(s, a);
    SizesStep(s, a);
    ReadersStep(s, a);
    if a.Start? {
      StartTurns(s, a);
      hide Inv, Stands, HasEnded;
      assert Lock(s);
      StartedTurns(s, a);
    } else {
      assert Lock(s);
      hide Inv, Lock, Next, Enabled, Stands, HasEnded, OneAtATime;
      forall r: nat | r < |t.restarts| ensures Stands(t, t.restarts[r]) {
        RestartsStep(s, a, r);
        if r < |s.restarts| && t.restarts[r] == s.restarts[r] { StandsStill(s, a, s.restarts[r]); }
      }
      forall q, r | 0 <= q < r < |t.restarts| ensures t.restarts[q] == Over || t.restarts[r] == Over {
        RestartsStep(s, a, r);
        RestartsStep(s, a, q);
        if q < |s.restarts| && s.restarts[q] == Over { OverStays(s, a, q); }
        if r < |s.restarts| && s.restarts[r] == Over { OverStays(s, a, r); }
      }
      forall p: nat | p + 1 < |t.readers| ensures HasEnded(t, Some(p)) { EndedStays(s, a, p); }
    }
  }

  lemma StartedTurns(s: State, a: Action)
    requires Lock(s) && Turns(s) && Enabled(s, a) && a.Start?
    requires forall p: nat | p < |s.readers| :: HasEnded(s, Some(p))
    requires AllOver(Next(s, a))
    ensures Turns(Next(s, a))
  {
    var t := Next(s, a);
    forall p: nat | p + 1 < |t.readers| ensures HasEnded(t, Some(p)) { EndedStays(s, a, p); }
    forall r | 0 <= r < |t.restarts| ensures Stands(t, t.restarts[r]) { assert t.restarts[r] == Over; }
  }

  lemma {:induction false} InTurnIsOrderly(s: State, actions: seq<Action>)
    requires Inv(s) && Turns(s) && Run(s, actions).Some? && InTurn(s, actions)
    ensures Orderly(s, actions)
    decreases |actions|
  {
    hide Inv, Turns, Next, Enabled, Safe, OneAtATime;
    if actions != [] {
      NextKeepsInv(s, actions[0]);
      NextKeepsTurns(s, actions[0]);
      InTurnIsOrderly(Next(s, actions[0]), actions[1..]);
    }
  }

  /** Restarts one after the other: a call gets values only from the process its request was written to. */
  lemma RestartsInTurn(actions: seq<Action>, a: Action, c: nat)
    requires Run(INITIAL, actions).Some? && InTurn(INITIAL, actions)
    ensures Orderly(INITIAL, actions) && !Foreign(Run(INITIAL, actions).value, a, c)
  {
    InTurnIsOrderly(INITIAL, actions);
    OnlyItsProcessAnswers(actions, a, c);
  }

  /** So does a start right after Close, without waiting, from any state with a process: its waiter is there. */
  lemma EarlyStartIsNotSafe(s: State, room: nat)
    requires Inv(s) && s.mutex == Free && s.started && !s.readFailed
    ensures var t := Next(s, Close);
            Enabled(t, Start(None, room)) && !Safe(t) && !OnlyOwn(Next(t, Start(None, room)), |t.calls|)
  {
    var t := Next(s, Close);
    var p :| 0 <= p < |s.waiters| && s.waiters[p] != Gone;
    assert t.waiters[p] == Alive;
    hide OnlyOwn;
    WaiterLeaks(t, None, room, p);
  }

  // Two restarts at once: the second waits for the process that both found, not for the one the first started.
  const BOTH := ONE.(restarts := [Closing(Some(0)), Closing(Some(0))])
  const STOPPED := BOTH.(started := false, restarts := [Awaiting(Some(0)), Closing(Some(0))], pipes := [Broken], readers := [Ended])
  const EXITED := STOPPED.(waiters := [Gone], restarts := [Starting, Closing(Some(0))])
  const ANEW := EXITED.(started := true, readers := [Ended, Scanning], waiters := [Gone, Alive], pipes := [Broken, Open(1)],
                        restarts := [Over, Closing(Some(0))])
  const AGAIN := ANEW.(started := false, restarts := [Over, Starting])

  lemma BothBegin()
    ensures Leads(ONE, Outside(BeginRestart), ONE.(restarts := [Closing(Some(0))]))
    ensures Leads(ONE.(restarts := [Closing(Some(0))]), Outside(BeginRestart), BOTH)
  {}

  lemma FirstStops()
    ensures var closed := BOTH.(started := false, restarts := [Awaiting(Some(0)), Closing(Some(0))]);
            && Leads(BOTH, Outside(CloseFor(0)), closed)
            && Leads(closed, Outside(Break(0)), closed.(pipes := [Broken]))
            && Leads(closed.(pipes := [Broken]), EndRead(0), STOPPED)
  {}

  lemma FirstExits()
    ensures var draining := STOPPED.(waiters := [Draining], mutex := ByWaiter(0));
            && Leads(STOPPED, Exit(0), draining) && Leads(draining, Drained(0), STOPPED.(waiters := [Gone]))
  {}

  lemma FirstRestarts()
    ensures var gone := STOPPED.(waiters := [Gone]);
            var cleared := gone.(restarts := [Clearing, Closing(Some(0))]);
            && Leads(gone, Outside(Awaited(0)), cleared) && Leads(cleared, Outside(Clear(0)), EXITED)
            && Leads(EXITED, Start(Some(0), 1), ANEW)
  {}

  lemma SecondRestarts()
    ensures var closed := ANEW.(started := false, restarts := [Over, Awaiting(Some(0))]);
            var cleared := closed.(restarts := [Over, Clearing]);
            && Leads(ANEW, Outside(CloseFor(1)), closed)
            && Leads(closed, Outside(Awaited(1)), cleared) && Leads(cleared, Outside(Clear(1)), AGAIN)
  {}

  lemma ReachedBy(s: State, a: Action, t: State)
    requires Reachable(s) && Leads(s, a, t)
    ensures Reachable(t)
  {
    var actions :| Run(INITIAL, actions) == Some(s);
    hide Run, Next, Enabled;
    RunThen(INITIAL, actions, s, a);
  }

  lemma AgainIsReached()
    ensures Reachable(AGAIN)
  {
    FirstIsCalled();
    BothBegin();
    FirstStops();
    FirstExits();
    FirstRestarts();
    SecondRestarts();
    assert Run(INITIAL, []) == Some(INITIAL);
    hide Leads, Run;
    var closed := BOTH.(started := false, restarts := [Awaiting(Some(0)), Closing(Some(0))]);
    ReachedBy(INITIAL, Start(None, 1), ONE);
    ReachedBy(ONE, Outside(BeginRestart), ONE.(restarts := [Closing(Some(0))]));
    ReachedBy(ONE.(restarts := [Closing(Some(0))]), Outside(BeginRestart), BOTH);
    ReachedBy(BOTH, Outside(CloseFor(0)), closed);
    ReachedBy(closed, Outside(Break(0)), closed.(pipes := [Broken]));
    ReachedBy(closed.(pipes := [Broken]), EndRead(0), STOPPED);
    ReachedBy(STOPPED, Exit(0), STOPPED.(waiters := [Draining], mutex := ByWaiter(0)));
    ReachedBy(STOPPED.(waiters := [Draining], mutex := ByWaiter(0)), Drained(0), STOPPED.(waiters := [Gone]));
    var gone := STOPPED.(waiters := [Gone]);
    ReachedBy(gone, Outside(Awaited(0)), gone.(restarts := [Clearing, Closing(Some(0))]));
    ReachedBy(gone.(restarts := [Clearing, Closing(Some(0))]), Outside(Clear(0)), EXITED);
    ReachedBy(EXITED, Start(Some(0), 1), ANEW);
    var waited := ANEW.(started := false, restarts := [Over, Awaiting(Some(0))]);
    ReachedBy(ANEW, Outside(CloseFor(1)), waited);
    ReachedBy(waited, Outside(Awaited(1)), waited.(restarts := [Over, Clearing]));
    ReachedBy(waited.(restarts := [Over, Clearing]), Outside(Clear(1)), AGAIN);
  }

  /** Two restarts at once lead to a start that is not safe, and from it to a value from the wrong process. */
  lemma RestartsAtOnce()
    ensures Reachable(AGAIN) && Enabled(AGAIN, Start(Some(1), 1)) && !Safe(AGAIN)
    ensures !OnlyOwn(Next(AGAIN, Start(Some(1), 1)), |AGAIN.calls|)
  {
    AgainIsReached();
    ReachableIsInv(AGAIN);
    assert AGAIN.waiters[1] == Alive;
    hide Inv, Reachable, OnlyOwn;
    assert Ids(AGAIN) by { IdsOfInv(AGAIN); }
    WaiterLeaks(AGAIN, Some(1), 1, 1);
  }

  lemma IdsOfInv(s: State)
    requires Inv(s)
    ensures Ids(s)
  {}
}
