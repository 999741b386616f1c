/** Holding a notice of missed reminders until it may be shown (ADR 0056): at start until the frontend has
    spoken or a limit passes, then until quiet hours end. */
module MissedRelease {
  import opened Wrappers
  import opened NotifyMissed
  import opened NotifyQuiet

  const STARTUP_WAIT := 30_000

  /** What the bridge remembers, under one lock. */
  datatype Hold = Hold(held: Option<Held>, labelsKnown: bool, quietKnown: bool, waitBegun: bool, waitOver: bool,
                       quietCheck: Option<int>)

  /** What a release leads to: nothing, a timer, or the notice to show. */
  datatype Effect = Nothing | StartWait | CheckAt(end: int) | Show(notice: Held)

  function Accepted(h: Hold, notice: Notice): Hold {
    h.(held := Some(Merge(if h.held.Some? then h.held.value else NOTHING, notice)))
  }

  /** Still waiting for the language and the quiet plan. */
  predicate AtStart(h: Hold) {
    !(h.labelsKnown && h.quietKnown) && !h.waitOver
  }

  function EffectOf(h: Hold, plan: Plan, now: int): Effect {
    if h.held.None? then Nothing
    else if AtStart(h) then (if h.waitBegun then Nothing else StartWait)
    else if Suppressed(plan, Reminder, now) then
      var end := Until(plan, Reminder, now);
      if end.Some? && end != h.quietCheck then CheckAt(end.value) else Nothing
    else Show(h.held.value)
  }

  function Released(h: Hold, effect: Effect): Hold {
    match effect
    case Nothing => h
    case StartWait => h.(waitBegun := true)
    case CheckAt(end) => h.(quietCheck := Some(end))
    case Show(_) => h.(held := None)
  }

  /** The critical sections of the bridge, each under the lock. */
  class MissedReminders {
    var held: Option<Held>
    var labelsKnown: bool
    var quietKnown: bool
    var waitBegun: bool
    var waitOver: bool
    var quietCheck: Option<int>

    constructor ()
      ensures View() == Hold(None, false, false, false, false, None)
    {
      held, labelsKnown, quietKnown, waitBegun, waitOver, quietCheck := None, false, false, false, false, None;
    }

    function View(): Hold
      reads this
    {
      Hold(held, labelsKnown, quietKnown, waitBegun, waitOver, quietCheck)
    }

    /** A notice without reminders is not taken. */
    method Accept(notice: Notice) returns (taken: bool)
      modifies this
      ensures taken <==> notice.reminders != []
      ensures View() == if taken then Accepted(old(View()), notice) else old(View())
    {
      if |notice.reminders| == 0 {
        return false;
      }
      var merged := MergeMissedNotices(held, notice);
      held := Some(merged);
      return true;
    }

    /** Shows the held notice if nothing holds it any more, or says for when to set a check. */
    method Release(plan: Plan, now: int) returns (effect: Effect)
      modifies this
      ensures effect == EffectOf(old(View()), plan, now)
      ensures View() == Released(old(View()), effect)
    {
      if held.None? {
        return Nothing;
      }
      if !(labelsKnown && quietKnown) && !waitOver {
        if !waitBegun {
          waitBegun := true;
          return StartWait;
        }
        return Nothing;
      }
      var suppressed := Suppresses(plan, Reminder, now);
      if suppressed {
        var end := SuppressedUntil(plan, Reminder, now);
        if end.Some? && end != quietCheck {
          quietCheck := end;
          return CheckAt(end.value);
        }
        return Nothing;
      }
      var notice := held.value;
      held := None;
      return Show(notice);
    }
  }

  // ---- The machine ----

  /** A timer runs on the monotonic clock. */
  datatype Timer = WaitEnds(due: int) | QuietEnds(due: int, end: int)

  /** `mono` only grows; the wall clock is `mono + offset`. `releases` and `tellings` count the callers that
      are about to release, and about to note that a quiet plan is known. `batch` is what the held notice was
      merged from, and `shown` the notices shown with what they were merged from, in order. */
  datatype State = State(hold: Hold, plan: Plan, mono: int, offset: int, timers: multiset<Timer>,
                         releases: nat, tellings: nat,
                         batch: seq<Notice>, shown: seq<(Held, seq<Notice>)>, accepted: seq<Notice>)
  {
    function Now(): int { mono + offset }
  }

  datatype Action =
    | Say(notice: Notice)        // the core says a notice
    | Speak                      // the frontend said the reader's language
    | SetPlan(plan: Plan)        // the frontend pushed a quiet plan
    | Tell                       // and that is noted
    | Release                    // a caller releases
    | Fire(timer: Timer)         // a due timer fires
    | Pass(time: nat)            // time passes
    | SetClock(forward: int)     // the wall clock is set

  function Initial(plan: Plan, offset: int): State {
    State(Hold(None, false, false, false, false, None), plan, 0, offset, multiset{}, 0, 0, [], [], [])
  }

  predicate Enabled(s: State, action: Action) {
    match action
    case Say(notice) => notice.reminders != []
    case Tell => s.tellings > 0
    case Release => s.releases > 0
    case Fire(timer) => timer in s.timers && timer.due <= s.mono
    case _ => true
  }

  function Next(s: State, action: Action): State
    requires Enabled(s, action)
  {
    match action
    case Say(notice) =>
      s.(hold := Accepted(s.hold, notice), releases := s.releases + 1,
         batch := s.batch + [notice], accepted := s.accepted + [notice])
    case Speak => s.(hold := s.hold.(labelsKnown := true), releases := s.releases + 1)
    case SetPlan(plan) => s.(plan := plan, tellings := s.tellings + 1)
    case Tell => s.(hold := s.hold.(quietKnown := true), tellings := s.tellings - 1, releases := s.releases + 1)
    case Release => AfterRelease(s.(releases := s.releases - 1))
    case Fire(timer) =>
      var t := s.(timers := s.timers[timer := s.timers[timer] - 1], releases := s.releases + 1);
      if timer.WaitEnds? then t.(hold := t.hold.(waitOver := true)) else t
    case Pass(time) => s.(mono := s.mono + time)
    case SetClock(forward) => s.(offset := s.offset + forward)
  }

  function AfterRelease(s: State): State {
    var effect := EffectOf(s.hold, s.plan, s.Now());
    var t := s.(hold := Released(s.hold, effect));
    match effect
    case Nothing => t
    case StartWait => WithTimer(t, WaitEnds(s.mono + STARTUP_WAIT))
    case CheckAt(end) => WithTimer(t, QuietEnds(s.mono + (end - s.Now()), end))
    case Show(notice) => t.(batch := [], shown := s.shown + [(notice, s.batch)])
  }

  function WithTimer(s: State, timer: Timer): State {
    s.(timers := s.timers[timer := s.timers[timer] + 1])
  }

  function Run(s: State, actions: seq<Action>): Option<State>
    decreases |actions|
  {
    if actions == [] then Some(s)
    else if Enabled(s, actions[0]) then Run(Next(s, actions[0]), actions[1..])
    else None
  }

  /** The wall clock is never set back. */
  predicate Forward(actions: seq<Action>) {
    forall i | 0 <= i < |actions| && actions[i].SetClock? :: actions[i].forward >= 0
  }

  predicate HasTimer(s: State, end: int) {
    exists timer :: timer in s.timers && timer.QuietEnds? && timer.end == end
  }

  predicate HasWait(s: State) {
    exists timer :: timer in s.timers && timer.WaitEnds?
  }

  /** The plan held reminders back at some moment `from` not after now, until `end`. */
  ghost predicate HeldSince(s: State, from: int, end: int) {
    from <= s.Now() && Suppressed(s.plan, Reminder, from) && !s.plan.indefinite && end == QuietEnd(s.plan.intervals, from)
  }

  /** A held notice that something will release. */
  ghost predicate Awaited(s: State) {
    if AtStart(s.hold) then HasWait(s)
    else
      || (s.plan.indefinite && !s.plan.remindersWhileQuiet)
      || (s.hold.quietCheck.Some? && HasTimer(s, s.hold.quietCheck.value)
          && exists from :: HeldSince(s, from, s.hold.quietCheck.value))
  }

  ghost predicate Inv(s: State) {
    && (s.hold.held.Some? && s.releases == 0 && s.tellings == 0 ==> Awaited(s))
    && (s.hold.waitBegun && !s.hold.waitOver ==> HasWait(s))
    && (s.hold.quietCheck.Some? && s.hold.quietCheck.value > s.Now() ==> HasTimer(s, s.hold.quietCheck.value))
    && (forall timer | timer in s.timers && timer.QuietEnds? :: timer.due + s.offset >= timer.end)
  }

  lemma SayKeepsInv(s: State, action: Action)
    requires Inv(s) && Enabled(s, action) && (action.Say? || action.Speak? || action.SetPlan? || action.Tell?)
    ensures Inv(Next(s, action))
  {
    var t := Next(s, action);
    assert t.timers == s.timers && t.Now() == s.Now();
    assert HasWait(s) ==> HasWait(t);
    if s.hold.quietCheck.Some? && HasTimer(s, s.hold.quietCheck.value) { assert HasTimer(t, s.hold.quietCheck.value); }
  }

  lemma ClockKeepsInv(s: State, action: Action)
    requires Inv(s) && (action.Pass? || (action.SetClock? && action.forward >= 0))
    ensures Inv(Next(s, action))
  {
    var t := Next(s, action);
    assert t.timers == s.timers && t.Now() >= s.Now();
    assert HasWait(s) ==> HasWait(t);
    if s.hold.quietCheck.Some? && HasTimer(s, s.hold.quietCheck.value) { assert HasTimer(t, s.hold.quietCheck.value); }
    if s.hold.held.Some? && s.releases == 0 && s.tellings == 0 && !AtStart(s.hold)
       && !(s.plan.indefinite && !s.plan.remindersWhileQuiet) {
      var from :| HeldSince(s, from, s.hold.quietCheck.value);
      assert HeldSince(t, from, t.hold.quietCheck.value);
    }
  }

  lemma FireKeepsInv(s: State, timer: Timer)
    requires Inv(s) && Enabled(s, Fire(timer))
    ensures Inv(Next(s, Fire(timer)))
  {
    var t := Next(s, Fire(timer));
    forall other | other != timer ensures t.timers[other] == s.timers[other] {}
    forall other | other in t.timers ensures other in s.timers {}
    if s.hold.waitBegun && !t.hold.waitOver {
      var other :| other in s.timers && other.WaitEnds?;
      assert other in t.timers;
    }
    if s.hold.quietCheck.Some? && s.hold.quietCheck.value > s.Now() {
      var other :| other in s.timers && other.QuietEnds? && other.end == s.hold.quietCheck.value;
      assert other in t.timers;
    }
  }

  lemma WithTimerHas(s: State, timer: Timer)
    ensures timer in WithTimer(s, timer).timers
    ensures forall other :: other in WithTimer(s, timer).timers <==> other == timer || other in s.timers
  {}

  /** A release that sets no timer. */
  lemma StillKeepsInv(s: State)
    requires Inv(s) && s.releases > 0
    requires var effect := EffectOf(s.hold, s.plan, s.Now()); effect.Nothing? || effect.Show?
    ensures Inv(AfterRelease(s.(releases := s.releases - 1)))
  {
    hide Quiet, QuietEnd;
    var t := AfterRelease(s.(releases := s.releases - 1));
    assert t.timers == s.timers && t.Now() == s.Now();
    assert HasWait(s) ==> HasWait(t);
    if s.hold.quietCheck.Some? && HasTimer(s, s.hold.quietCheck.value) { assert HasTimer(t, s.hold.quietCheck.value); }
    if t.hold.held.Some? && !AtStart(s.hold) && !s.plan.indefinite {
      assert HeldSince(t, s.Now(), t.hold.quietCheck.value);
      assert Suppressed(s.plan, Reminder, s.Now()) && s.hold.quietCheck.value > s.Now();
    }
  }

  /** A release that sets a timer for the end of the start-up wait, or for the end of quiet. */
  lemma StartWaitKeepsInv(s: State)
    requires Inv(s) && s.releases > 0 && AtStart(s.hold)
    ensures Inv(WithTimer(s.(hold := s.hold.(waitBegun := true), releases := s.releases - 1), WaitEnds(s.mono + STARTUP_WAIT)))
  {
    hide HeldSince;
    var u := s.(hold := s.hold.(waitBegun := true), releases := s.releases - 1);
    var timer := WaitEnds(s.mono + STARTUP_WAIT);
    WithTimerHas(u, timer);
    var t := WithTimer(u, timer);
    assert HasWait(t);
    if s.hold.quietCheck.Some? && HasTimer(s, s.hold.quietCheck.value) { assert HasTimer(t, s.hold.quietCheck.value); }
  }

  lemma CheckAtKeepsInv(s: State, end: int)
    requires Inv(s) && s.releases > 0 && !AtStart(s.hold) && HeldSince(s, s.Now(), end)
    ensures Inv(WithTimer(s.(hold := s.hold.(quietCheck := Some(end)), releases := s.releases - 1),
                          QuietEnds(s.mono + (end - s.Now()), end)))
  {
    var u := s.(hold := s.hold.(quietCheck := Some(end)), releases := s.releases - 1);
    var timer := QuietEnds(s.mono + (end - s.Now()), end);
    WithTimerHas(u, timer);
    var t := WithTimer(u, timer);
    assert HeldSince(t, s.Now(), end) by { assert t.Now() == s.Now() && t.plan == s.plan; }
    hide HeldSince;
    assert HasTimer(t, end);
    if HasWait(s) { assert HasWait(t); }
  }

  lemma ReleaseKeepsInv(s: State)
    requires Inv(s) && Enabled(s, Release)
    ensures Inv(Next(s, Release))
  {
    hide Inv, WithTimer, QuietEnd, Quiet;
    match EffectOf(s.hold, s.plan, s.Now())
    case Nothing => StillKeepsInv(s);
    case Show(_) => StillKeepsInv(s);
    case StartWait => StartWaitKeepsInv(s);
    case CheckAt(end) => CheckAtKeepsInv(s, end);
  }

  lemma NextKeepsInv(s: State, action: Action)
    requires Inv(s) && Enabled(s, action) && (action.SetClock? ==> action.forward >= 0)
    ensures Inv(Next(s, action))
  {
    hide Inv, Next;
    match action
    case Release => ReleaseKeepsInv(s);
    case Fire(timer) => FireKeepsInv(s, timer);
    case Pass(_) => ClockKeepsInv(s, action);
    case SetClock(_) => ClockKeepsInv(s, action);
    case _ => SayKeepsInv(s, action);
  }

  lemma {:induction false} RunKeepsInv(s: State, actions: seq<Action>)
    requires Inv(s) && Forward(actions) && Run(s, actions).Some?
    ensures Inv(Run(s, actions).value)
    decreases |actions|
  {
    hide Inv, Next, Enabled;
    if actions != [] {
      assert actions[0].SetClock? ==> actions[0].forward >= 0;
      NextKeepsInv(s, actions[0]);
      assert forall i | 0 <= i < |actions[1..]| :: actions[1..][i] == actions[i + 1];
      RunKeepsInv(Next(s, actions[0]), actions[1..]);
    }
  }

  /** No lost wake-up: whenever nobody is about to release, a held notice waits for the start-up timer, for a
      pause without end, or for a timer; and while the end that timer is set for has not come, it is the
      current end of quiet. */
  lemma NoLostWakeUp(plan: Plan, offset: int, actions: seq<Action>)
    requires Forward(actions) && Run(Initial(plan, offset), actions).Some?
    ensures var s := Run(Initial(plan, offset), actions).value;
            s.hold.held.Some? && s.releases == 0 && s.tellings == 0 ==>
              if AtStart(s.hold) then HasWait(s)
              else
                || (s.plan.indefinite && Suppressed(s.plan, Reminder, s.Now()))
                || (s.hold.quietCheck.Some? && HasTimer(s, s.hold.quietCheck.value)
                    && (s.Now() < s.hold.quietCheck.value ==> Until(s.plan, Reminder, s.Now()) == s.hold.quietCheck))
  {
    RunKeepsInv(Initial(plan, offset), actions);
    var s := Run(Initial(plan, offset), actions).value;
    if s.hold.held.Some? && s.releases == 0 && s.tellings == 0 && !AtStart(s.hold)
       && !(s.plan.indefinite && !s.plan.remindersWhileQuiet) {
      var from :| HeldSince(s, from, s.hold.quietCheck.value);
      if s.Now() < s.hold.quietCheck.value {
        QuietEndFromLater(s.plan.intervals, from, s.Now());
      }
    }
  }

  lemma RunCons(s: State, action: Action, rest: seq<Action>)
    requires Enabled(s, action)
    ensures Run(s, [action] + rest) == Run(Next(s, action), rest)
  {
    assert ([action] + rest)[1..] == rest;
  }

  lemma RunEmpty(s: State)
    ensures Run(s, []) == Some(s)
  {}

  /** A night of quiet until 100, on a clock that says 50 when the reminder comes. */
  function Night(): Plan {
    Plan([Interval(0, 100)], false, false)
  }

  lemma NightEnds(t: int)
    requires 0 <= t < 100
    ensures Suppressed(Night(), Reminder, t) && Until(Night(), Reminder, t) == Some(100)
  {
    var intervals := Night().intervals;
    forall u ensures Quiet(intervals, u) <==> 0 <= u < 100 {
      assert Quiet(intervals, u) <==> Covers(intervals[0], u);
    }
    var end := QuietEnd(intervals, t);
    assert end > 100 ==> Quiet(intervals, 100);
  }

  /** The reminder held, with one timer set for the end of the night. */
  function HeldAtNight(): State {
    var notice := Notice(None, None, [Item("a", "k", 0, "")], "", "");
    var hold := Hold(Some(Merge(NOTHING, notice)), true, true, false, false, Some(100));
    State(hold, Night(), 0, 50, multiset{QuietEnds(50, 100)}, 0, 0, [notice], [], [notice])
  }

  lemma {:induction false} RunAppends(s: State, a: seq<Action>, b: seq<Action>)
    requires Run(s, a).Some?
    ensures Run(s, a + b) == Run(Run(s, a).value, b)
    decreases |a|
  {
    hide Next, Enabled;
    if a == [] {
      assert a + b == b;
    } else {
      assert (a + b)[0] == a[0] && (a + b)[1..] == a[1..] + b;
      RunAppends(Next(s, a[0]), a[1..], b);
    }
  }

  /** Before the release: the language said, the plan pushed, that noted, the reminder said. */
  function Spoken(): State {
    State(Hold(None, true, false, false, false, None), Night(), 0, 50, multiset{}, 1, 0, [], [], [])
  }

  function Planned(): State {
    State(Hold(None, true, false, false, false, None), Night(), 0, 50, multiset{}, 1, 1, [], [], [])
  }

  function Told(): State {
    State(Hold(None, true, true, false, false, None), Night(), 0, 50, multiset{}, 2, 0, [], [], [])
  }

  function Said(notice: Notice): State {
    State(Hold(Some(Merge(NOTHING, notice)), true, true, false, false, None), Night(), 0, 50, multiset{}, 3, 0, [notice], [], [notice])
  }

  predicate Leads(s: State, action: Action, t: State) {
    Enabled(s, action) && Next(s, action) == t
  }

  lemma StepsToTold()
    ensures Leads(Initial(Night(), 50), Speak, Spoken())
    ensures Leads(Spoken(), SetPlan(Night()), Planned())
    ensures Leads(Planned(), Tell, Told())
  {
    hide Night;
  }

  lemma StepToSaid(notice: Notice)
    requires notice.reminders != []
    ensures Leads(Told(), Say(notice), Said(notice))
  {
    hide Night, Merge;
    assert [] + [notice] == [notice];
  }

  lemma RunLeads(s: State, action: Action, t: State, rest: seq<Action>)
    requires Leads(s, action, t)
    ensures Run(s, [action] + rest) == Run(t, rest)
  {
    hide Next, Enabled;
    RunCons(s, action, rest);
  }

  lemma ReminderIsSaid(notice: Notice) returns (actions: seq<Action>)
    requires notice.reminders != []
    ensures Forward(actions) && Run(Initial(Night(), 50), actions) == Some(Said(notice))
  {
    StepsToTold();
    StepToSaid(notice);
    hide Run, Leads, Night, Initial, Spoken, Planned, Told, Said;
    RunEmpty(Said(notice));
    RunLeads(Told(), Say(notice), Said(notice), []);
    RunLeads(Planned(), Tell, Told(), [Say(notice)] + []);
    RunLeads(Spoken(), SetPlan(Night()), Planned(), [Tell] + ([Say(notice)] + []));
    RunLeads(Initial(Night(), 50), Speak, Spoken(), [SetPlan(Night())] + ([Tell] + ([Say(notice)] + [])));
    actions := [Speak] + ([SetPlan(Night())] + ([Tell] + ([Say(notice)] + [])));
  }

  function SaidAtNight(): State {
    HeldAtNight().(hold := HeldAtNight().hold.(quietCheck := None), timers := multiset{}, releases := 3)
  }

  lemma FirstReleaseAtNight()
    ensures Next(SaidAtNight(), Release) == HeldAtNight().(releases := 2)
  {
    hide Merge, Suppressed, Until, Night;
    NightEnds(50);
    var s := SaidAtNight();
    assert EffectOf(s.hold, s.plan, 50) == CheckAt(100);
  }

  lemma LaterReleaseAtNight(n: nat)
    ensures Next(HeldAtNight().(releases := n + 1), Release) == HeldAtNight().(releases := n)
  {
    hide Merge, Suppressed, Until, Night;
    NightEnds(50);
    var s := HeldAtNight();
    assert EffectOf(s.hold, s.plan, 50) == Nothing;
  }

  lemma ReleasesAtNight()
    ensures Run(SaidAtNight(), [Release] + ([Release] + ([Release] + []))) == Some(HeldAtNight())
  {
    FirstReleaseAtNight();
    LaterReleaseAtNight(1);
    LaterReleaseAtNight(0);
    var s, two, one, last := SaidAtNight(), HeldAtNight().(releases := 2), HeldAtNight().(releases := 1), HeldAtNight();
    assert last.(releases := 0) == last;
    assert s.releases == 3;
    hide Next, Run, SaidAtNight, HeldAtNight;
    RunEmpty(last);
    RunCons(one, Release, []);
    RunCons(two, Release, [Release] + []);
    RunCons(s, Release, [Release] + ([Release] + []));
  }

  lemma ReminderIsHeldAtNight() returns (actions: seq<Action>)
    ensures Forward(actions) && Run(Initial(Night(), 50), actions) == Some(HeldAtNight())
  {
    hide Run, Merge, Night;
    var notice := Notice(None, None, [Item("a", "k", 0, "")], "", "");
    var said := ReminderIsSaid(notice);
    assert Said(notice) == SaidAtNight();
    hide *;
    ReleasesAtNight();
    RunAppends(Initial(Night(), 50), said, [Release] + ([Release] + ([Release] + [])));
    actions := said + ([Release] + ([Release] + ([Release] + [])));
    ForwardAppends(said);
  }

  lemma ForwardAppends(actions: seq<Action>)
    requires Forward(actions)
    ensures Forward(actions + ([Release] + ([Release] + ([Release] + []))))
  {}

  // The wall clock must not be set back: then the timer fires before the end it was set for, the same end is
  // not set again, and a held notice is left with nothing to release it.

  /** At rest, a notice is held and waits for one timer only, set for the end of a quiet that covers `from`. */
  ghost predicate WaitsForEnd(s: State, timer: Timer, from: int) {
    && s.hold.held.Some? && !AtStart(s.hold) && s.releases == 0 && s.tellings == 0
    && timer.QuietEnds? && s.timers == multiset{timer}
    && s.hold.quietCheck == Some(timer.end) && HeldSince(s, from, timer.end)
  }

  /** A notice is held back for now, and nothing will ever release it unless somebody says something. */
  ghost predicate Lost(s: State) {
    && s.hold.held.Some? && !AtStart(s.hold) && s.releases == 0 && s.tellings == 0 && s.timers == multiset{}
    && Suppressed(s.plan, Reminder, s.Now()) && !s.plan.indefinite
  }

  /** How long it takes until a timer is due. */
  function Wait(s: State, timer: Timer): nat {
    if timer.due > s.mono then timer.due - s.mono else 0
  }

  function SetBack(s: State, timer: Timer, back: int): seq<Action> {
    [SetClock(-back), Pass(Wait(s, timer)), Fire(timer), Release]
  }

  function Fired(s: State, timer: Timer, back: int): State {
    s.(offset := s.offset - back, mono := s.mono + Wait(s, timer), timers := multiset{}, releases := s.releases + 1)
  }

  lemma FiredIs(s: State, timer: Timer, back: int)
    requires timer.QuietEnds? && s.timers == multiset{timer} && s.releases == 0
    ensures Run(s, SetBack(s, timer, back)) == Some(AfterRelease(Fired(s, timer, back).(releases := 0)))
  {
    var s1 := s.(offset := s.offset - back);
    var s2 := s1.(mono := s1.mono + Wait(s, timer));
    var s3 := Fired(s, timer, back);
    var s4 := AfterRelease(s3.(releases := 0));
    assert s2.timers[timer := s2.timers[timer] - 1] == multiset{};
    assert Leads(s, SetClock(-back), s1) && Leads(s1, Pass(Wait(s, timer)), s2) && Leads(s2, Fire(timer), s3) && Leads(s3, Release, s4);
    hide Next, Enabled, Run, Leads, AfterRelease;
    RunEmpty(s4);
    RunLeads(s3, Release, s4, []);
    RunLeads(s2, Fire(timer), s3, [Release] + []);
    RunLeads(s1, Pass(Wait(s, timer)), s2, [Fire(timer)] + ([Release] + []));
    RunLeads(s, SetClock(-back), s1, [Pass(Wait(s, timer))] + ([Fire(timer)] + ([Release] + [])));
    assert SetBack(s, timer, back) == [SetClock(-back)] + ([Pass(Wait(s, timer))] + ([Fire(timer)] + ([Release] + [])));
  }

  /** What a release does with a notice that waits for `end`. */
  lemma EffectWhenFired(h: Hold, plan: Plan, now: int, end: int)
    requires h.held.Some? && !AtStart(h) && h.quietCheck == Some(end) && !plan.indefinite
    ensures EffectOf(h, plan, now) == Nothing <==> Until(plan, Reminder, now) == Some(end)
    ensures EffectOf(h, plan, now) == Nothing ==> Suppressed(plan, Reminder, now)
    ensures !EffectOf(h, plan, now).StartWait?
  {
    hide Quiet, QuietEnd;
  }

  /** However the clock is set, the notice is held for good exactly if, by the wall clock when the timer fires, the
      plan holds it back until the very end that the timer was set for. */
  lemma SetBackLosesIff(s: State, timer: Timer, from: int, back: int)
    requires WaitsForEnd(s, timer, from)
    ensures Run(s, SetBack(s, timer, back)).Some?
    ensures Lost(Run(s, SetBack(s, timer, back)).value) <==>
              Until(s.plan, Reminder, s.Now() + Wait(s, timer) - back) == Some(timer.end)
  {
    var fired := Fired(s, timer, back).(releases := 0);
    FiredIs(s, timer, back);
    EffectWhenFired(s.hold, s.plan, fired.Now(), timer.end);
    var effect := EffectOf(s.hold, s.plan, fired.Now());
    hide Run, SetBack, HeldSince, Suppressed, Until, EffectOf;
    assert fired.hold == s.hold && fired.plan == s.plan && fired.Now() == s.Now() + Wait(s, timer) - back;
    assert effect.CheckAt? ==> QuietEnds(fired.mono + (effect.end - fired.Now()), effect.end) in AfterRelease(fired).timers;
  }

  /** Within the quiet that the timer was set in, that is exactly if it fires before the end. */
  lemma SetBackWithinQuiet(s: State, timer: Timer, from: int, back: int)
    requires WaitsForEnd(s, timer, from) && from <= s.Now() + Wait(s, timer) - back
    ensures Run(s, SetBack(s, timer, back)).Some?
    ensures Lost(Run(s, SetBack(s, timer, back)).value) <==> s.Now() + Wait(s, timer) - back < timer.end
  {
    SetBackLosesIff(s, timer, from, back);
    var now := s.Now() + Wait(s, timer) - back;
    hide Run, SetBack, Lost;
    if now < timer.end { QuietEndFromLater(s.plan.intervals, from, now); }
  }

  /** So wherever a notice waits for a timer that is due just at the end of quiet, setting the clock back by
      no more than the quiet lasted loses the wake-up. */
  lemma ClockSetBackLosesTheWakeUp(s: State, timer: Timer, from: int, back: int)
    requires WaitsForEnd(s, timer, from) && timer.due >= s.mono && timer.due + s.offset == timer.end
    requires 0 < back <= timer.end - from
    ensures Run(s, SetBack(s, timer, back)).Some? && Lost(Run(s, SetBack(s, timer, back)).value)
  {
    hide HeldSince, Run, SetBack, Lost;
    SetBackWithinQuiet(s, timer, from, back);
  }

  /** Such a state is reached, and there both happen: set back by 40 the notice is lost, by 120 it is shown. */
  lemma NightIsWaitedFor() returns (actions: seq<Action>)
    ensures Forward(actions) && Run(Initial(Night(), 50), actions) == Some(HeldAtNight())
    ensures var timer := QuietEnds(50, 100);
            && WaitsForEnd(HeldAtNight(), timer, 0)
            && Run(HeldAtNight(), SetBack(HeldAtNight(), timer, 40)).Some?
            && Lost(Run(HeldAtNight(), SetBack(HeldAtNight(), timer, 40)).value)
            && Run(HeldAtNight(), SetBack(HeldAtNight(), timer, 120)).Some?
            && !Lost(Run(HeldAtNight(), SetBack(HeldAtNight(), timer, 120)).value)
  {
    var s, timer := HeldAtNight(), QuietEnds(50, 100);
    NightWaits(0);
    NightUntil(60);
    NotYetNight(-20);
    hide Merge, Until, Run, SetBack, Lost, WaitsForEnd, Night;
    SetBackLosesIff(s, timer, 0, 40);
    SetBackLosesIff(s, timer, 0, 120);
    actions := ReminderIsHeldAtNight();
  }

  lemma NightWaits(from: int)
    requires 0 <= from <= 50
    ensures WaitsForEnd(HeldAtNight(), QuietEnds(50, 100), from)
    ensures HeldAtNight().Now() == 50 && Wait(HeldAtNight(), QuietEnds(50, 100)) == 50 && HeldAtNight().plan == Night()
  {
    hide Merge, QuietEnd, Quiet;
    NightEnds(from);
  }

  lemma NotYetNight(t: int)
    requires t < 0
    ensures Until(Night(), Reminder, t) == None
  {
    assert forall i | 0 <= i < |Night().intervals| :: !Covers(Night().intervals[i], t);
    hide QuietEnd;
  }

  lemma NightUntil(t: int)
    requires 0 <= t < 100
    ensures Until(Night(), Reminder, t) == Some(100)
  {
    NightEnds(t);
    hide QuietEnd;
  }

  // ---- Nothing is shown too early ----

  predicate Spoke(actions: seq<Action>) {
    exists i :: 0 <= i < |actions| && actions[i] == Speak
  }

  predicate ToldOf(actions: seq<Action>) {
    exists i :: 0 <= i < |actions| && actions[i] == Tell
  }

  /** The limit at start has passed: half a minute, by a timer. */
  predicate WaitedLong(actions: seq<Action>) {
    exists i :: 0 <= i < |actions| && actions[i].Fire? && actions[i].timer.WaitEnds? && actions[i].timer.due >= 30_000
  }

  /** The plan the frontend pushed last. */
  function LastPlan(plan: Plan, actions: seq<Action>): Plan {
    if actions == [] then plan
    else if actions[|actions| - 1].SetPlan? then actions[|actions| - 1].plan
    else LastPlan(plan, actions[..|actions| - 1])
  }

  ghost predicate TimersAreLate(s: State) {
    forall timer | timer in s.timers && timer.WaitEnds? :: timer.due >= 30_000
  }

  /** What is remembered is what has happened. */
  ghost predicate Remembers(s: State, plan: Plan, history: seq<Action>) {
    && (s.hold.labelsKnown <==> Spoke(history))
    && (s.hold.quietKnown <==> ToldOf(history))
    && (s.hold.waitOver <==> WaitedLong(history))
    && s.plan == LastPlan(plan, history)
    && s.mono >= 0 && TimersAreLate(s)
  }

  lemma HistoryStep(plan: Plan, history: seq<Action>, a: Action)
    ensures Spoke(history + [a]) <==> Spoke(history) || a == Speak
    ensures ToldOf(history + [a]) <==> ToldOf(history) || a == Tell
    ensures WaitedLong(history + [a]) <==> WaitedLong(history) || (a.Fire? && a.timer.WaitEnds? && a.timer.due >= 30_000)
    ensures LastPlan(plan, history + [a]) == if a.SetPlan? then a.plan else LastPlan(plan, history)
  {
    var more := history + [a];
    assert more[..|history|] == history && more[|history|] == a;
    assert forall i | 0 <= i < |history| :: more[i] == history[i];
  }

  lemma NextKeepsLate(s: State, a: Action)
    requires TimersAreLate(s) && s.mono >= 0 && Enabled(s, a)
    ensures TimersAreLate(Next(s, a)) && Next(s, a).mono >= 0
  {
    hide Suppressed, Until;
  }

  lemma NextKeepsFlags(s: State, a: Action)
    requires Enabled(s, a)
    ensures var h, t := s.hold, Next(s, a);
            && (t.hold.labelsKnown <==> h.labelsKnown || a == Speak)
            && (t.hold.quietKnown <==> h.quietKnown || a == Tell)
            && (t.hold.waitOver <==> h.waitOver || (a.Fire? && a.timer.WaitEnds?))
            && t.plan == if a.SetPlan? then a.plan else s.plan
  {
    hide Suppressed, Until;
  }

  lemma NextKeepsRemembers(s: State, plan: Plan, history: seq<Action>, a: Action)
    requires Remembers(s, plan, history) && Enabled(s, a)
    ensures Remembers(Next(s, a), plan, history + [a])
  {
    HistoryStep(plan, history, a);
    NextKeepsFlags(s, a);
    NextKeepsLate(s, a);
    assert a.Fire? && a.timer.WaitEnds? ==> a.timer.due >= 30_000;
    hide Next, Spoke, ToldOf, WaitedLong, LastPlan, TimersAreLate;
  }

  lemma {:induction false} RunRemembers(s: State, plan: Plan, history: seq<Action>, actions: seq<Action>)
    requires Remembers(s, plan, history) && Run(s, actions).Some?
    ensures Remembers(Run(s, actions).value, plan, history + actions)
    decreases |actions|
  {
    hide Remembers, Next, Enabled;
    if actions == [] {
      assert history + actions == history;
    } else {
      NextKeepsRemembers(s, plan, history, actions[0]);
      RunRemembers(Next(s, actions[0]), plan, history + [actions[0]], actions[1..]);
      assert history + actions == (history + [actions[0]]) + actions[1..];
    }
  }

  /** The first notice held at start sets the limit half a minute from then, once. */
  lemma LimitAtStart(s: State)
    requires Enabled(s, Release) && s.hold.held.Some? && !(s.hold.labelsKnown && s.hold.quietKnown) && !s.hold.waitOver
    ensures var t := Next(s, Release);
            && t.hold.held == s.hold.held && t.shown == s.shown && t.hold.waitBegun
            && t.timers == s.timers + (if s.hold.waitBegun then multiset{} else multiset{WaitEnds(s.mono + 30_000)})
  {
    hide Suppressed, Until;
  }

  /** At this moment nothing holds reminders back: no open-ended pause and no quiet hours, or they are let through. */
  predicate LetsThrough(plan: Plan, now: int) {
    || plan.remindersWhileQuiet
    || (!plan.indefinite && forall i :: 0 <= i < |plan.intervals| ==> !(plan.intervals[i].start <= now < plan.intervals[i].end))
  }

  lemma StepShows(s: State, a: Action)
    requires Enabled(s, a)
    ensures (|Next(s, a).shown| > |s.shown| <==>
               && a == Release && s.hold.held.Some?
               && ((s.hold.labelsKnown && s.hold.quietKnown) || s.hold.waitOver)
               && LetsThrough(s.plan, s.Now()))
    ensures |Next(s, a).shown| >= |s.shown|
  {
    if !LetsThrough(s.plan, s.Now()) && !s.plan.indefinite {
      var i :| 0 <= i < |s.plan.intervals| && s.plan.intervals[i].start <= s.Now() < s.plan.intervals[i].end;
      assert Covers(s.plan.intervals[i], s.Now());
    }
  }

  /** Over every run, whatever the clock does: a step shows the held notice exactly if it is a release after the
      frontend said the language and a quiet plan was noted, or after the limit at start, and the plan pushed last
      lets reminders through at that moment. */
  lemma ShowsExactlyWhen(plan: Plan, offset: int, actions: seq<Action>, a: Action)
    requires Run(Initial(plan, offset), actions).Some? && Enabled(Run(Initial(plan, offset), actions).value, a)
    ensures var s := Run(Initial(plan, offset), actions).value;
            |Next(s, a).shown| > |s.shown| <==>
              && a == Release && s.hold.held.Some?
              && ((Spoke(actions) && ToldOf(actions)) || WaitedLong(actions))
              && LetsThrough(LastPlan(plan, actions), s.Now())
  {
    var s := Run(Initial(plan, offset), actions).value;
    assert Remembers(Initial(plan, offset), plan, []);
    RunRemembers(Initial(plan, offset), plan, [], actions);
    assert [] + actions == actions;
    StepShows(s, a);
    hide Next, Enabled, Spoke, ToldOf, WaitedLong, LastPlan, LetsThrough, TimersAreLate, Run;
  }

  // ---- Nothing said is lost ----

  function Sources(shown: seq<(Held, seq<Notice>)>): seq<Notice> {
    if shown == [] then [] else Sources(shown[..|shown| - 1]) + shown[|shown| - 1].1
  }

  /** Every notice accepted went into exactly one notice shown, or is in the one held; each is the merge of
      what went into it. */
  ghost predicate Conserved(s: State) {
    && s.accepted == Sources(s.shown) + s.batch
    && s.hold.held == (if s.batch == [] then None else Some(MergeAll(s.batch)))
    && (forall i | 0 <= i < |s.shown| :: s.shown[i].1 != [] && s.shown[i].0 == MergeAll(s.shown[i].1))
  }

  lemma NextConserves(s: State, action: Action)
    requires Conserved(s) && Enabled(s, action)
    ensures Conserved(Next(s, action))
  {
    hide MergeAll, Merge, EffectOf, Sources;
    if action.Say? {
      SayConserves(s, action.notice);
    } else if action.Release? {
      ReleaseConserves(s);
    }
  }

  lemma SayConserves(s: State, notice: Notice)
    requires Conserved(s) && Enabled(s, Say(notice))
    ensures Conserved(Next(s, Say(notice)))
  {
    hide MergeAll, Merge, EffectOf, Sources;
    MergeAllNext(s.batch, notice);
    var t := Next(s, Say(notice));
    assert t.accepted == Sources(t.shown) + t.batch;
  }

  lemma ReleaseConserves(s: State)
    requires Conserved(s) && Enabled(s, Release)
    ensures Conserved(Next(s, Release))
  {
    EffectIs(s.hold, s.plan, s.Now());
    hide MergeAll, Merge, EffectOf, Sources;
    var effect := EffectOf(s.hold, s.plan, s.Now());
    if effect.Show? {
      SourcesSnoc(s.shown, (effect.notice, s.batch));
      var t := Next(s, Release);
      assert t.accepted == Sources(t.shown) + t.batch;
    }
  }

  lemma EffectIs(h: Hold, plan: Plan, now: int)
    ensures EffectOf(h, plan, now).Show? ==> h.held == Some(EffectOf(h, plan, now).notice)
  {}

  lemma SourcesSnoc(shown: seq<(Held, seq<Notice>)>, one: (Held, seq<Notice>))
    ensures Sources(shown + [one]) == Sources(shown) + one.1
  {
    assert (shown + [one])[..|shown|] == shown;
  }

  lemma MergeAllNext(batch: seq<Notice>, notice: Notice)
    ensures MergeAll(batch + [notice]) == Merge(if batch == [] then NOTHING else MergeAll(batch), notice)
  {
    assert (batch + [notice])[..|batch|] == batch;
  }

  lemma {:induction false} RunConserves(s: State, actions: seq<Action>)
    requires Conserved(s) && Run(s, actions).Some?
    ensures Conserved(Run(s, actions).value)
    decreases |actions|
  {
    hide Conserved, Next, Enabled;
    if actions != [] {
      NextConserves(s, actions[0]);
      RunConserves(Next(s, actions[0]), actions[1..]);
    }
  }

  lemma NothingSaidIsLost(plan: Plan, offset: int, actions: seq<Action>)
    requires Run(Initial(plan, offset), actions).Some?
    ensures Conserved(Run(Initial(plan, offset), actions).value)
  {
    RunConserves(Initial(plan, offset), actions);
  }

  /** Every reminder said is named by the held notice or by one that was shown. */
  lemma EveryKeyIsHeldOrShown(plan: Plan, offset: int, actions: seq<Action>, notice: Notice, item: Item)
    requires Run(Initial(plan, offset), actions).Some?
    requires var s := Run(Initial(plan, offset), actions).value;
             notice in s.accepted && item in KeysOf(notice) && MissedKey(item) != ""
    ensures var s := Run(Initial(plan, offset), actions).value;
            || (s.hold.held.Some? && Known(s.hold.held.value.keys, item))
            || (exists i :: 0 <= i < |s.shown| && Known(s.shown[i].0.keys, item))
  {
    hide MergeAll;
    var s := Run(Initial(plan, offset), actions).value;
    NothingSaidIsLost(plan, offset, actions);
    if notice in s.batch {
      MergedKnows(s.batch, notice, item);
    } else {
      assert notice in Sources(s.shown);
      var i := SourceOf(s.shown, notice);
      MergedKnows(s.shown[i].1, notice, item);
    }
  }

  lemma {:induction false} SourceOf(shown: seq<(Held, seq<Notice>)>, notice: Notice) returns (i: nat)
    requires notice in Sources(shown)
    ensures i < |shown| && notice in shown[i].1
  {
    var n := |shown| - 1;
    if notice in shown[n].1 { return n; }
    i := SourceOf(shown[..n], notice);
  }

  lemma MergedKnows(batch: seq<Notice>, notice: Notice, item: Item)
    requires notice in batch && item in KeysOf(notice) && MissedKey(item) != ""
    ensures Known(MergeAll(batch).keys, item)
  {
    MergedRest(batch);
    AllKeysHas(batch, notice, item);
    var all := AllKeys(batch);
    var k :| 0 <= k < |all| && all[k] == item;
    DistinctKnows(all, item);
  }

  lemma {:induction false} AllKeysHas(batch: seq<Notice>, notice: Notice, item: Item)
    requires notice in batch && item in KeysOf(notice)
    ensures item in AllKeys(batch)
  {
    var n := |batch| - 1;
    if notice != batch[n] {
      assert notice in batch[..n];
      AllKeysHas(batch[..n], notice, item);
    }
  }
}
