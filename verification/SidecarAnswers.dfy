/** What an answer says: it is the line the core printed, the first for that id since the call registered. */
module SidecarAnswers {
  import opened Wrappers
  import opened Sidecar

  function Registers(history: seq<Action>): nat {
    if history == [] then 0
    else Registers(history[..|history| - 1]) + (if history[|history| - 1].Register? then 1 else 0)
  }

  /** The step at `r` registers the call that is the `c`-th, counted from 0. */
  predicate RegisteredAt(history: seq<Action>, r: nat, c: nat) {
    r < |history| && history[r].Register? && Registers(history[..r]) == c
  }

  predicate Names(a: Action, id: nat) {
    a.ReadLine? && a.id == id
  }

  /** From just after `from` to just before `to` no line names the id. */
  predicate Unread(history: seq<Action>, from: nat, to: nat, id: nat) {
    forall m :: from < m < to && m < |history| ==> !Names(history[m], id)
  }

  /** The call is registered, and no line has named it since. */
  ghost predicate Open(history: seq<Action>, c: nat, id: nat) {
    exists r: nat :: RegisteredAt(history, r, c) && Unread(history, r, |history|, id)
  }

  /** At `k` a line was read that says `body`, the first that names the id since the call registered at `r`. */
  predicate ReadAt(history: seq<Action>, c: nat, r: nat, k: nat, id: nat, body: Result<string, string>) {
    && RegisteredAt(history, r, c) && r < k < |history|
    && history[k].ReadLine? && history[k].id == id && history[k].body == body
    && Unread(history, r, k, id)
  }

  ghost predicate FirstRead(history: seq<Action>, c: nat, id: nat, body: Result<string, string>) {
    exists r: nat, k: nat :: ReadAt(history, c, r, k, id, body)
  }

  lemma Longer(history: seq<Action>, a: Action, c: nat, id: nat, body: Result<string, string>)
    ensures FirstRead(history, c, id, body) ==> FirstRead(history + [a], c, id, body)
    ensures Open(history, c, id) && !Names(a, id) ==> Open(history + [a], c, id)
    ensures Open(history, c, id) && a.ReadLine? && a.id == id && a.body == body ==> FirstRead(history + [a], c, id, body)
  {
    var more := history + [a];
    assert forall m | 0 <= m < |history| :: more[m] == history[m];
    assert forall m | 0 <= m <= |history| :: more[..m] == history[..m];
    if FirstRead(history, c, id, body) {
      var r: nat, k: nat :| ReadAt(history, c, r, k, id, body);
      assert ReadAt(more, c, r, k, id, body);
    }
    if Open(history, c, id) {
      var r: nat :| RegisteredAt(history, r, c) && Unread(history, r, |history|, id);
      assert RegisteredAt(more, r, c);
      if !Names(a, id) { assert Unread(more, r, |more|, id); }
      if a.ReadLine? && a.id == id && a.body == body { assert ReadAt(more, c, r, |history|, id, body); }
    }
  }

  lemma JustRegistered(history: seq<Action>, a: Action, id: nat)
    requires a.Register?
    ensures Open(history + [a], Registers(history), id)
  {
    var more := history + [a];
    assert more[..|history|] == history;
    assert RegisteredAt(more, |history|, Registers(history)) && Unread(more, |history|, |more|, id);
  }

  ghost predicate Says(response: Response, history: seq<Action>, c: nat) {
    response.Answer? ==> FirstRead(history, c, response.id, response.body)
  }

  /** What is on its way to a call, or has reached it, was read; who is in the table has not been named yet. */
  ghost predicate TableOpen(s: State, history: seq<Action>) {
    forall id | id in s.pending :: Open(history, s.pending[id], id)
  }

  ghost predicate CarriedRead(s: State, history: seq<Action>) {
    forall p | 0 <= p < |s.readers| && s.readers[p].Carrying? :: Says(s.readers[p].response, history, s.readers[p].call)
  }

  ghost predicate HeardRead(s: State, history: seq<Action>) {
    forall c: nat | c < |s.calls| :: CallRead(s.calls[c], history, c)
  }

  ghost predicate CallRead(call: Call, history: seq<Action>, c: nat) {
    && (forall i | 0 <= i < |call.channel| :: Says(call.channel[i], history, c))
    && (call.pc.Returned? ==> Says(call.pc.response, history, c))
  }

  ghost predicate Recorded(s: State, history: seq<Action>) {
    |s.calls| == Registers(history) && TableOpen(s, history) && CarriedRead(s, history) && HeardRead(s, history)
  }

  lemma SaysLonger(response: Response, history: seq<Action>, a: Action, c: nat)
    requires Says(response, history, c)
    ensures Says(response, history + [a], c)
  {
    if response.Answer? { Longer(history, a, c, response.id, response.body); }
  }

  lemma NextKeepsTableOpen(s: State, history: seq<Action>, a: Action)
    requires Ids(s) && Recorded(s, history) && Enabled(s, a)
    ensures TableOpen(Next(s, a), history + [a])
  {
    var t := Next(s, a);
    forall id | id in t.pending ensures Open(history + [a], t.pending[id], id) {
      PendingStep(s, a, id);
      if id in s.pending && t.pending[id] == s.pending[id] {
        StaysUnnamed(s, a, id);
        Longer(history, a, s.pending[id], id, Ok(""));
      } else {
        JustRegistered(history, a, id);
      }
    }
  }

  /** A line that names an entry takes it out. */
  lemma StaysUnnamed(s: State, a: Action, id: nat)
    requires Enabled(s, a) && id in Next(s, a).pending
    ensures !Names(a, id)
  {}

  /** What a reader carries it carried before, or it is what the line says. */
  lemma CarriesTheLine(s: State, a: Action, p: nat)
    requires Enabled(s, a) && p < |Next(s, a).readers| && Next(s, a).readers[p].Carrying?
    ensures p < |s.readers|
    ensures var r := Next(s, a).readers[p];
            || s.readers[p] == r
            || (a.ReadLine? && a.id in s.pending && r.call == s.pending[a.id] && r.response == Answer(a.id, a.body))
  {
    if a.Outside? { OuterLeaves(s, a.outer); }
    hide OuterNext, OuterEnabled;
  }

  lemma NextKeepsCarriedRead(s: State, history: seq<Action>, a: Action)
    requires Recorded(s, history) && Enabled(s, a)
    ensures CarriedRead(Next(s, a), history + [a])
  {
    var t := Next(s, a);
    hide Next, Enabled;
    forall p: nat | p < |t.readers| && t.readers[p].Carrying? ensures Says(t.readers[p].response, history + [a], t.readers[p].call) {
      CarriesTheLine(s, a, p);
      if s.readers[p] == t.readers[p] {
        SaysLonger(t.readers[p].response, history, a, t.readers[p].call);
      } else {
        assert Open(history, s.pending[a.id], a.id);
        Longer(history, a, s.pending[a.id], a.id, a.body);
      }
    }
  }

  /** What is in a channel was there, or comes from a reader that carries it to this call, or is no answer. */
  lemma HearsWhatIsCarried(s: State, a: Action, c: nat, i: nat)
    requires Enabled(s, a) && c < |s.calls| && c < |Next(s, a).calls| && i < |Next(s, a).calls[c].channel|
    ensures var r := Next(s, a).calls[c].channel[i];
            || r in s.calls[c].channel
            || !r.Answer?
            || (a.Deliver? && a.process < |s.readers| && s.readers[a.process] == Carrying(c, r))
  {
    if a.Outside? { OuterLeaves(s, a.outer); }
    hide OuterNext, OuterEnabled;
  }

  /** What a caller returns it had returned, or it was in its channel. */
  lemma ReturnsWhatIsHeard(s: State, a: Action, c: nat)
    requires Enabled(s, a) && c < |s.calls| && c < |Next(s, a).calls| && Next(s, a).calls[c].pc.Returned?
    ensures s.calls[c].pc == Next(s, a).calls[c].pc || Next(s, a).calls[c].pc.response in s.calls[c].channel
  {
    if a.Outside? { OuterLeaves(s, a.outer); }
    hide OuterNext, OuterEnabled;
  }

  lemma NextKeepsHeardRead(s: State, history: seq<Action>, a: Action)
    requires Recorded(s, history) && Enabled(s, a)
    ensures HeardRead(Next(s, a), history + [a])
  {
    var t := Next(s, a);
    hide Next, Enabled, TableOpen, Says;
    forall c: nat | c < |t.calls| ensures CallRead(t.calls[c], history + [a], c) {
      if c < |s.calls| {
        assert CallRead(s.calls[c], history, c);
        forall i | 0 <= i < |t.calls[c].channel| ensures Says(t.calls[c].channel[i], history + [a], c) {
          var r := t.calls[c].channel[i];
          HearsWhatIsCarried(s, a, c, i);
          NoAnswerSaysNothing(r, history, c);
          SaysLonger(r, history, a, c);
        }
        if t.calls[c].pc.Returned? {
          ReturnsWhatIsHeard(s, a, c);
          SaysLonger(t.calls[c].pc.response, history, a, c);
        }
      } else {
        NewIsUnanswered(s, a, c);
      }
    }
  }

  lemma NoAnswerSaysNothing(r: Response, history: seq<Action>, c: nat)
    ensures !r.Answer? ==> Says(r, history, c)
  {}

  lemma RegistersOneMore(history: seq<Action>, a: Action)
    ensures Registers(history + [a]) == Registers(history) + (if a.Register? then 1 else 0)
  {
    assert (history + [a])[..|history|] == history;
  }

  lemma {:induction false} RunKeepsRecorded(s: State, history: seq<Action>, actions: seq<Action>)
    requires Inv(s) && Recorded(s, history) && Run(s, actions).Some?
    ensures Recorded(Run(s, actions).value, history + actions)
    decreases |actions|
  {
    if actions == [] {
      assert history + actions == history;
    } else {
      var a := actions[0];
      IdsHold(s);
      hide Inv, Next, Enabled, TableOpen, CarriedRead, HeardRead;
      NextKeepsInv(s, a);
      SizesStep(s, a);
      RegistersOneMore(history, a);
      NextKeepsTableOpen(s, history, a);
      NextKeepsCarriedRead(s, history, a);
      NextKeepsHeardRead(s, history, a);
      RunKeepsRecorded(Next(s, a), history + [a], actions[1..]);
      assert history + actions == (history + [a]) + actions[1..];
    }
  }

  lemma IdsHold(s: State)
    requires Inv(s)
    ensures Ids(s)
  {}

  /** An answer a caller returns, or finds in its channel, says what the first line said that named its id since
      the call registered. */
  lemma AnswersSayWhatWasRead(actions: seq<Action>, c: nat, id: nat, body: Result<string, string>)
    requires Run(INITIAL, actions).Some? && c < |Run(INITIAL, actions).value.calls|
    requires var call := Run(INITIAL, actions).value.calls[c];
             call.pc == Returned(Answer(id, body)) || Answer(id, body) in call.channel
    ensures exists r: nat, k: nat :: ReadAt(actions, c, r, k, id, body)
  {
    var s := Run(INITIAL, actions).value;
    assert Recorded(INITIAL, []);
    RunKeepsRecorded(INITIAL, [], actions);
    assert [] + actions == actions;
    hide Run, Inv;
    assert CallRead(s.calls[c], actions, c);
    assert Says(Answer(id, body), actions, c);
  }
}
