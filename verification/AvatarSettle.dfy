/** Coalescing background runs: any number of requests, a dirty flag and a running flag.

    Requesters and workers are interleaved one atomic operation at a time. A state holds the two flags and
    how many threads stand before each operation; requests also record how many runs had begun when they
    set the dirty flag. */
module AvatarSettle {
  import opened Wrappers

  /** The operation a thread is about to make. */
  datatype Pc =
    | Claiming    // a requester, about to compare-and-swap `running`
    | Sleeping    // a worker, waiting out the delay
    | Checking    // about to swap `dirty` for false
    | Starting    // found it dirty, about to call run
    | Running     // inside run
    | Clearing    // found it clean, about to store `running` false
    | Rechecking  // about to load `dirty` once more
    | Reclaiming  // saw it dirty, about to compare-and-swap `running`

  datatype State = State(dirty: bool, running: bool, threads: multiset<Pc>, runs: nat, stamps: seq<nat>)

  const INITIAL := State(false, false, multiset{}, 0, [])

  datatype Action = Request | Claim | Wake | Check | Begin | Finish | Clear | Recheck | Reclaim

  function At(action: Action): Pc
    requires !action.Request?
  {
    match action
    case Claim => Claiming
    case Wake => Sleeping
    case Check => Checking
    case Begin => Starting
    case Finish => Running
    case Clear => Clearing
    case Recheck => Rechecking
    case Reclaim => Reclaiming
  }

  function Goes(s: State, to: Pc, from: Pc): State
    requires from in s.threads && from != to
  {
    Ends(s, from).(threads := Ends(s, from).threads[to := s.threads[to] + 1])
  }

  function Ends(s: State, from: Pc): State
    requires from in s.threads
  {
    s.(threads := s.threads[from := s.threads[from] - 1])
  }

  predicate Enabled(s: State, action: Action) {
    action.Request? || At(action) in s.threads
  }

  /** One atomic operation of one thread. */
  function Next(s: State, action: Action): State
    requires Enabled(s, action)
  {
    match action
    case Request => s.(dirty := true, threads := s.threads[Claiming := s.threads[Claiming] + 1], stamps := s.stamps + [s.runs])
    case Claim => if s.running then Ends(s, Claiming) else Goes(s, Sleeping, Claiming).(running := true)
    case Wake => Goes(s, Checking, Sleeping)
    case Check => if s.dirty then Goes(s, Starting, Checking).(dirty := false) else Goes(s, Clearing, Checking)
    case Begin => Goes(s, Running, Starting).(runs := s.runs + 1)
    case Finish => Goes(s, Checking, Running)
    case Clear => Goes(s, Rechecking, Clearing).(running := false)
    case Recheck => if s.dirty then Goes(s, Reclaiming, Rechecking) else Ends(s, Rechecking)
    case Reclaim => if s.running then Ends(s, Reclaiming) else Goes(s, Sleeping, Reclaiming).(running := true)
  }

  /** The state after an interleaving, if each of its operations was possible. */
  function Run(s: State, actions: seq<Action>): Option<State>
    decreases |actions|
  {
    if actions == [] then Some(s)
    else if Enabled(s, actions[0]) then Run(Next(s, actions[0]), actions[1..])
    else None
  }

  ghost predicate Reachable(s: State) {
    exists actions :: Run(INITIAL, actions) == Some(s)
  }

  /** How many workers hold the claim on running. */
  function Holders(s: State): nat {
    s.threads[Sleeping] + s.threads[Checking] + s.threads[Starting] + s.threads[Running] + s.threads[Clearing]
  }

  predicate OneHolder(s: State) {
    Holders(s) == (if s.running then 1 else 0)
  }

  /** A request has been followed by the beginning of a run, or that is still to come. */
  ghost predicate Stamped(s: State) {
    forall i | 0 <= i < |s.stamps| :: s.stamps[i] <= s.runs && (s.stamps[i] < s.runs || s.dirty || s.threads[Starting] > 0)
  }

  ghost predicate Inv(s: State) {
    && OneHolder(s)
    // A dirty flag has somebody who will still look at it.
    && (s.dirty ==> s.running || s.threads[Claiming] + s.threads[Rechecking] + s.threads[Reclaiming] > 0)
    && Stamped(s)
    // Each run takes at least one request with it.
    && s.runs + s.threads[Starting] + (if s.dirty then 1 else 0) <= |s.stamps|
  }

  lemma NextKeepsInv(s: State, action: Action)
    requires Inv(s) && Enabled(s, action)
    ensures Inv(Next(s, action))
  {
    NextKeepsStamps(s, action);
    NextKeepsOneHolder(s, action);
    hide Stamped, OneHolder;
  }

  lemma NextKeepsOneHolder(s: State, action: Action)
    requires Inv(s) && Enabled(s, action)
    ensures OneHolder(Next(s, action))
  {
    hide Stamped;
  }

  lemma NextKeepsStamps(s: State, action: Action)
    requires Inv(s) && Enabled(s, action)
    ensures Stamped(Next(s, action))
  {
    hide OneHolder;
    var t := Next(s, action);
    forall i | 0 <= i < |t.stamps|
      ensures t.stamps[i] <= t.runs && (t.stamps[i] < t.runs || t.dirty || t.threads[Starting] > 0)
    {
      if i < |s.stamps| { assert t.stamps[i] == s.stamps[i]; }
    }
  }

  lemma {:induction false} RunKeepsInv(s: State, actions: seq<Action>)
    requires Inv(s) && Run(s, actions).Some?
    ensures Inv(Run(s, actions).value)
    decreases |actions|
  {
    if actions != [] {
      NextKeepsInv(s, actions[0]);
      RunKeepsInv(Next(s, actions[0]), actions[1..]);
    }
  }

  /** Over every interleaving, run is never inside itself, and a burst of requests is not a queue of runs. */
  lemma NeverTwiceAtOnce(s: State)
    requires Reachable(s)
    ensures s.threads[Running] <= 1
    ensures s.threads[Running] == 1 ==> s.running && s.threads[Starting] == 0
    ensures s.runs <= |s.stamps|
  {
    var actions :| Run(INITIAL, actions) == Some(s);
    RunKeepsInv(INITIAL, actions);
  }

  /** Once every requester has returned and no worker is left, nothing is dirty and each request was
      followed by the beginning of a run. */
  lemma NoLostRequest(s: State)
    requires Reachable(s) && s.threads == multiset{}
    ensures !s.dirty && !s.running
    ensures forall i | 0 <= i < |s.stamps| :: s.stamps[i] < s.runs
  {
    var actions :| Run(INITIAL, actions) == Some(s);
    RunKeepsInv(INITIAL, actions);
  }

  /** The number of steps a thread before an operation can still cost. */
  function Weight(pc: Pc, dirty: bool): nat {
    match pc
    case Claiming => 7
    case Reclaiming => 7
    case Starting => 7
    case Sleeping => 6
    case Running => 6
    case Checking => 5
    case Clearing => if dirty then 9 else 4
    case Rechecking => if dirty then 8 else 3
  }

  function Weighed(threads: multiset<Pc>, pc: Pc, dirty: bool): nat {
    if dirty then Weight(pc, true) * threads[pc] else Weight(pc, false) * threads[pc]
  }

  function Load(threads: multiset<Pc>, dirty: bool): nat {
    Weighed(threads, Claiming, dirty) + Weighed(threads, Sleeping, dirty) + Weighed(threads, Checking, dirty)
    + Weighed(threads, Starting, dirty) + Weighed(threads, Running, dirty) + Weighed(threads, Clearing, dirty)
    + Weighed(threads, Rechecking, dirty) + Weighed(threads, Reclaiming, dirty)
  }

  /** How far a state is from rest when nobody asks any more. */
  function Distance(s: State): nat {
    Load(s.threads, s.dirty) + (if s.dirty then 3 else 0)
  }

  lemma LoadAfter(threads: multiset<Pc>, pc: Pc, n: nat, dirty: bool)
    ensures Load(threads[pc := n], dirty) == Load(threads, dirty) + Weight(pc, dirty) * n - Weight(pc, dirty) * threads[pc]
  {
    hide Weight;
    var after := threads[pc := n];
    forall other | other != pc ensures Weighed(after, other, dirty) == Weighed(threads, other, dirty) {}
  }

  lemma LoadShrinksWhenClean(threads: multiset<Pc>)
    ensures Load(threads, false) <= Load(threads, true)
  {}

  lemma LoadAfterStep(s: State, from: Pc, to: Pc, dirty: bool)
    requires from in s.threads && from != to
    ensures Load(Ends(s, from).threads, dirty) == Load(s.threads, dirty) - Weight(from, dirty)
    ensures Load(Goes(s, to, from).threads, dirty) == Load(s.threads, dirty) - Weight(from, dirty) + Weight(to, dirty)
  {
    hide Load, Weight;
    LoadAfter(s.threads, from, s.threads[from] - 1, dirty);
    LoadAfter(Ends(s, from).threads, to, s.threads[to] + 1, dirty);
    assert Ends(s, from).threads[to] == s.threads[to];
    assert Weight(to, dirty) * (s.threads[to] + 1) == Weight(to, dirty) * s.threads[to] + Weight(to, dirty);
    assert Weight(from, dirty) * (s.threads[from] - 1) == Weight(from, dirty) * s.threads[from] - Weight(from, dirty);
  }

  lemma NextIsCloser(s: State, action: Action)
    requires Enabled(s, action) && !action.Request?
    ensures Distance(Next(s, action)) < Distance(s)
  {
    hide Load;
    match action
    case Claim => LoadAfterStep(s, Claiming, Sleeping, s.dirty);
    case Wake => LoadAfterStep(s, Sleeping, Checking, s.dirty);
    case Check =>
      LoadShrinksWhenClean(s.threads);
      LoadAfterStep(s, Checking, Starting, false);
      LoadAfterStep(s, Checking, Clearing, false);
    case Begin => LoadAfterStep(s, Starting, Running, s.dirty);
    case Finish => LoadAfterStep(s, Running, Checking, s.dirty);
    case Clear => LoadAfterStep(s, Clearing, Rechecking, s.dirty);
    case Recheck => LoadAfterStep(s, Rechecking, Reclaiming, s.dirty);
    case Reclaim => LoadAfterStep(s, Reclaiming, Sleeping, s.dirty);
  }

  /** Without new requests no schedule, fair or not, goes on for longer than the distance. */
  lemma {:induction false} QuietRunsEnd(s: State, actions: seq<Action>)
    requires Run(s, actions).Some? && Request !in actions
    ensures |actions| <= Distance(s)
    decreases |actions|
  {
    if actions != [] {
      NextIsCloser(s, actions[0]);
      QuietRunsEnd(Next(s, actions[0]), actions[1..]);
    }
  }

  /** A schedule can stop only at rest: as long as a thread is left, it can take its step. */
  lemma OnlyRestIsFinal(s: State)
    requires forall action: Action | !action.Request? :: !Enabled(s, action)
    ensures s.threads == multiset{}
  {
    forall pc ensures pc !in s.threads {
      var action := match pc
        case Claiming => Claim
        case Sleeping => Wake
        case Checking => Check
        case Starting => Begin
        case Running => Finish
        case Clearing => Clear
        case Rechecking => Recheck
        case Reclaiming => Reclaim;
      assert At(action) == pc && !Enabled(s, action);
    }
  }

  /** Every schedule from a reachable state, once the requests are over, comes to rest within the distance,
      and then a run has begun after each of them. */
  lemma EveryRequestIsServed(s: State, actions: seq<Action>)
    requires Reachable(s) && Request !in actions && Run(s, actions).Some?
    ensures |actions| <= Distance(s)
    ensures var t := Run(s, actions).value;
            (forall action: Action | !action.Request? :: !Enabled(t, action)) ==>
              !t.dirty && !t.running && forall i | 0 <= i < |t.stamps| :: t.stamps[i] < t.runs
  {
    QuietRunsEnd(s, actions);
    var t := Run(s, actions).value;
    var before :| Run(INITIAL, before) == Some(s);
    RunAppends(INITIAL, before, actions);
    if forall action: Action | !action.Request? :: !Enabled(t, action) {
      OnlyRestIsFinal(t);
      assert Reachable(t);
      NoLostRequest(t);
    }
  }

  lemma {:induction false} RunAppends(s: State, a: seq<Action>, b: seq<Action>)
    requires Run(s, a).Some?
    ensures Run(s, a + b) == Run(Run(s, a).value, b)
    decreases |a|
  {
    if a == [] {
      assert a + b == b;
    } else {
      assert (a + b)[0] == a[0] && (a + b)[1..] == a[1..] + b;
      RunAppends(Next(s, a[0]), a[1..], b);
    }
  }
}
