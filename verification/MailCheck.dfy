/** The periodic mail check (ADR 0071): when each account is due, over runs of ticks with any clock. */
module MailCheck {
  import opened Wrappers

  const MANUAL := 0
  const MIN_INTERVAL_MINUTES := 5
  const MAX_INTERVAL_MINUTES := 1440

  const I64_MAX := 0x7fff_ffff_ffff_ffff
  const I64_MIN := -0x8000_0000_0000_0000

  type I64 = i: int | I64_MIN <= i <= I64_MAX
  type U64 = u: int | 0 <= u <= 0xffff_ffff_ffff_ffff

  function Normalize(minutes: U64): U64 {
    if minutes == MANUAL then MANUAL
    else if minutes < MIN_INTERVAL_MINUTES then MIN_INTERVAL_MINUTES
    else if minutes > MAX_INTERVAL_MINUTES then MAX_INTERVAL_MINUTES
    else minutes
  }

  /** What an account's preferences can hold. */
  predicate Normal(interval: U64) {
    interval == MANUAL || MIN_INTERVAL_MINUTES <= interval <= MAX_INTERVAL_MINUTES
  }

  lemma NormalizeIs(minutes: U64)
    ensures Normal(Normalize(minutes))
    ensures Normalize(minutes) == minutes <==> Normal(minutes)
    ensures Normalize(minutes) == MANUAL <==> minutes == MANUAL
    ensures forall other: U64 :: Normal(other) && other != MANUAL && minutes != MANUAL ==>
              Abs(Normalize(minutes) - minutes) <= Abs(other - minutes)
  {}

  function Abs(x: int): nat {
    if x < 0 then -x else x
  }

  function Saturated(x: int): I64 {
    if x > I64_MAX then I64_MAX else if x < I64_MIN then I64_MIN else x
  }

  /** The cast of an unsigned 64-bit number to a signed one. */
  function AsI64(u: U64): I64 {
    if u > I64_MAX then u - 0x1_0000_0000_0000_0000 else u
  }

  /** How long ago counts as an interval ago, in seconds. */
  function Threshold(interval: U64): I64 {
    Saturated(AsI64(interval) * 60)
  }

  /** It is the interval in seconds exactly while that fits; from 2^63 minutes on it is negative. */
  lemma ThresholdIs(interval: U64)
    ensures Threshold(interval) == 60 * interval <==> 60 * interval <= I64_MAX
    ensures Threshold(interval) < 0 <==> interval > I64_MAX
    ensures Normal(interval) ==> Threshold(interval) == 60 * interval
  {}

  datatype Delivery = Imap | Pop3 | Unpushed | Local

  /** One account as the scheduler sees it on a tick; the interval may not be readable. */
  datatype Candidate = Candidate(account: string, delivery: Delivery, paused: bool, interval: Result<U64, string>)

  /** When each account was last checked, and which checks are running. */
  datatype State = State(last: map<string, I64>, running: set<string>)

  function Seen(s: State, account: string, now: I64): State {
    s.(last := s.last[account := if account in s.last && s.last[account] <= now then s.last[account] else now])
  }

  predicate Due(s: State, account: string, interval: U64, now: I64) {
    && interval != MANUAL && account !in s.running
    && account in s.last && Saturated(now - s.last[account]) >= Threshold(interval)
  }

  function Started(s: State, account: string, now: I64): State {
    State(s.last[account := now], s.running + {account})
  }

  function Forgotten(s: State, account: string): State {
    if account in s.running then s else s.(last := s.last - {account})
  }

  function Retained(s: State, accounts: set<string>): State {
    State(map a | a in s.last && a in accounts :: s.last[a], s.running * accounts)
  }

  function Accounts(candidates: seq<Candidate>): set<string> {
    set c | c in candidates :: c.account
  }

  /** A candidate the scheduler may check at all. */
  predicate Checkable(c: Candidate) {
    !c.delivery.Local? && !c.paused && c.interval.Ok?
  }

  /** What one candidate does to the schedule, and whether its check starts. */
  function Visit(s: State, c: Candidate, now: I64): (State, bool) {
    if !Checkable(c) then (s, false)
    else if c.interval.value == MANUAL then (Forgotten(s, c.account), false)
    else
      var t := Seen(s, c.account, now);
      if Due(t, c.account, c.interval.value, now) then (Started(t, c.account, now), true) else (t, false)
  }

  function VisitAll(s: State, candidates: seq<Candidate>, now: I64): (State, seq<(string, Delivery)>) {
    if candidates == [] then (s, [])
    else
      var n := |candidates| - 1;
      var (t, due) := VisitAll(s, candidates[..n], now);
      var (u, starts) := Visit(t, candidates[n], now);
      (u, if starts then due + [(candidates[n].account, candidates[n].delivery)] else due)
  }

  function Unreadable(candidates: seq<Candidate>): seq<string> {
    if candidates == [] then []
    else
      var c := candidates[|candidates| - 1];
      Unreadable(candidates[..|candidates| - 1])
      + (if !c.delivery.Local? && !c.paused && c.interval.Err? then [c.account + ": " + c.interval.error] else [])
  }

  function Planned(s: State, candidates: seq<Candidate>, now: I64): (State, seq<(string, Delivery)>) {
    VisitAll(Retained(s, Accounts(candidates)), candidates, now)
  }

  class Schedule {
    var last: map<string, I64>
    var running: set<string>

    constructor ()
      ensures View() == State(map[], {})
    {
      last, running := map[], {};
    }

    function View(): State
      reads this
    {
      State(last, running)
    }

    method See(account: string, now: I64)
      modifies this
      ensures View() == Seen(old(View()), account, now)
      ensures account in last && running == old(running) && last == old(last)[account := last[account]]
      ensures last[account] == if account in old(last) && old(last)[account] < now then old(last)[account] else now
    {
      if account !in last {
        last := last[account := now];
      }
      if last[account] > now {
        last := last[account := now];
      }
      assert last == Seen(old(View()), account, now).last;
    }

    method IsDue(account: string, interval: U64, now: I64) returns (due: bool)
      ensures due <==> Due(View(), account, interval, now)
    {
      if interval == MANUAL || account in running {
        return false;
      }
      if account !in last {
        return false;
      }
      return Saturated(now - last[account]) >= Saturated(AsI64(interval) * 60);
    }

    method Start(account: string, now: I64)
      modifies this
      ensures View() == Started(old(View()), account, now)
    {
      last := last[account := now];
      running := running + {account};
    }

    method Finish(account: string)
      modifies this
      ensures View() == old(View()).(running := old(View()).running - {account})
    {
      running := running - {account};
    }

    method Forget(account: string)
      modifies this
      ensures View() == Forgotten(old(View()), account)
      ensures running == old(running) && last == if account in running then old(last) else old(last) - {account}
    {
      if account !in running {
        last := last - {account};
      }
    }

    method Retain(accounts: set<string>)
      modifies this
      ensures View() == Retained(old(View()), accounts)
      ensures running == old(running) * accounts && last == old(last) - (old(last).Keys - accounts)
    {
      last := map a | a in last && a in accounts :: last[a];
      running := running * accounts;
    }

    method PlanTick(candidates: seq<Candidate>, now: I64) returns (due: seq<(string, Delivery)>, unreadable: seq<string>)
      modifies this
      ensures (View(), due) == Planned(old(View()), candidates, now)
      ensures unreadable == Unreadable(candidates)
    {
      var present := set c | c in candidates :: c.account;
      Retain(present);
      ghost var before := View();
      due, unreadable := [], [];
      for i := 0 to |candidates|
        invariant (View(), due) == VisitAll(before, candidates[..i], now)
        invariant unreadable == Unreadable(candidates[..i])
      {
        assert candidates[..i + 1][..i] == candidates[..i];
        var c := candidates[i];
        if c.delivery.Local? || c.paused {
          continue;
        }
        if c.interval.Err? {
          unreadable := unreadable + [c.account + ": " + c.interval.error];
          continue;
        }
        if c.interval.value == MANUAL {
          Forget(c.account);
          continue;
        }
        See(c.account, now);
        var isDue := IsDue(c.account, c.interval.value, now);
        if isDue {
          Start(c.account, now);
          due := due + [(c.account, c.delivery)];
        }
      }
      assert candidates[..|candidates|] == candidates;
    }
  }

  // Whole runs: ticks of the scheduler with whatever accounts and clock they find, and checks that finish.

  datatype Event = Tick(candidates: seq<Candidate>, now: I64) | Finish(account: string)

  function Next(s: State, e: Event): State {
    match e
    case Tick(candidates, now) => Planned(s, candidates, now).0
    case Finish(account) => s.(running := s.running - {account})
  }

  function After(s: State, events: seq<Event>): State
    decreases |events|
  {
    if events == [] then s else Next(After(s, events[..|events| - 1]), events[|events| - 1])
  }

  predicate Names(due: seq<(string, Delivery)>, account: string) {
    exists i :: 0 <= i < |due| && due[i].0 == account
  }

  /** The event at `at` is a tick that starts a check of `account`. */
  predicate StartsAt(s: State, events: seq<Event>, at: nat, account: string)
    requires at < |events|
  {
    && events[at].Tick?
    && Names(Planned(After(s, events[..at]), events[at].candidates, events[at].now).1, account)
  }

  predicate Lists(candidates: seq<Candidate>, account: string) {
    exists i :: 0 <= i < |candidates| && candidates[i].account == account
  }

  /** Every tick from `from` to just before `to` lists the account. */
  predicate Present(events: seq<Event>, from: nat, to: nat, account: string) {
    forall i :: from <= i < to && i < |events| && events[i].Tick? ==> Lists(events[i].candidates, account)
  }

  predicate FinishedWithin(events: seq<Event>, from: nat, to: nat, account: string) {
    exists i :: from <= i < to && i < |events| && events[i] == Finish(account)
  }

  /** The clock of every tick from `from` to just before `to` shows `since` or later. */
  predicate ClockFrom(events: seq<Event>, from: nat, to: nat, since: int) {
    forall i :: from <= i < to && i < |events| && events[i].Tick? ==> since <= events[i].now
  }

  lemma AfterOne(s: State, events: seq<Event>, at: nat)
    requires at < |events|
    ensures After(s, events[..at + 1]) == Next(After(s, events[..at]), events[at])
  {
    assert events[..at + 1][..at] == events[..at];
  }

  lemma NamesAppends(due: seq<(string, Delivery)>, one: (string, Delivery), account: string)
    ensures Names(due + [one], account) <==> Names(due, account) || one.0 == account
  {
    var all := due + [one];
    assert all[|due|] == one;
    assert forall i :: 0 <= i < |due| ==> all[i] == due[i];
  }

  lemma ListsIs(candidates: seq<Candidate>, account: string)
    ensures account in Accounts(candidates) <==> Lists(candidates, account)
  {
    if Lists(candidates, account) {
      var i :| 0 <= i < |candidates| && candidates[i].account == account;
      assert candidates[i] in candidates;
    }
  }

  /** A tick leaves a running check running and does not start it again; what it starts is running after it. */
  lemma {:induction false} VisitsRespectRunning(s: State, candidates: seq<Candidate>, now: I64, account: string)
    ensures var (t, due) := VisitAll(s, candidates, now);
            && (account in s.running ==> account in t.running && !Names(due, account))
            && (Names(due, account) ==> account in t.running)
            && (account in t.running ==> account in s.running || Names(due, account))
  {
    if candidates != [] {
      var n := |candidates| - 1;
      VisitsRespectRunning(s, candidates[..n], now, account);
      NamesAppends(VisitAll(s, candidates[..n], now).1, (candidates[n].account, candidates[n].delivery), account);
    }
  }

  /** One tick starts each account at most once, however often the account is listed. */
  lemma {:induction false} OneStartPerTick(s: State, candidates: seq<Candidate>, now: I64)
    ensures var due := VisitAll(s, candidates, now).1;
            forall i, j :: 0 <= i < j < |due| ==> due[i].0 != due[j].0
  {
    if candidates != [] {
      var n := |candidates| - 1;
      OneStartPerTick(s, candidates[..n], now);
      VisitsRespectRunning(s, candidates[..n], now, candidates[n].account);
    }
  }

  lemma {:induction false} RunningLasts(s: State, events: seq<Event>, from: nat, to: nat, account: string)
    requires from <= to <= |events|
    requires account in After(s, events[..from]).running
    requires Present(events, from, to, account) && !FinishedWithin(events, from, to, account)
    ensures account in After(s, events[..to]).running
    decreases (to)
  {
    if from < to {
      RunningLasts(s, events, from, to - 1, account);
      AfterOne(s, events, to - 1);
      var t, e := After(s, events[..to - 1]), events[to - 1];
      if e.Tick? {
        ListsIs(e.candidates, account);
        VisitsRespectRunning(Retained(t, Accounts(e.candidates)), e.candidates, e.now, account);
      }
    }
  }

  /**
   * An account that stays listed is never started while its check runs: between any two of its
   * starts the first check has finished.
   */
  lemma NeverStartedWhileRunning(s: State, events: seq<Event>, first: nat, second: nat, account: string)
    requires first < second < |events|
    requires StartsAt(s, events, first, account) && StartsAt(s, events, second, account)
    requires Present(events, first + 1, second + 1, account)
    ensures FinishedWithin(events, first + 1, second, account)
  {
    var e := events[first];
    var t := Retained(After(s, events[..first]), Accounts(e.candidates));
    VisitsRespectRunning(t, e.candidates, e.now, account);
    AfterOne(s, events, first);
    if !FinishedWithin(events, first + 1, second, account) {
      RunningLasts(s, events, first + 1, second, account);
      var f := events[second];
      ListsIs(f.candidates, account);
      VisitsRespectRunning(Retained(After(s, events[..second]), Accounts(f.candidates)), f.candidates, f.now, account);
      assert false;
    }
  }

  /** If the account is remembered at all, it is as checked at `since` or later. */
  predicate NotBefore(s: State, account: string, since: int) {
    account in s.last ==> since <= s.last[account]
  }

  /** The candidate asks for an interval that has passed since then. */
  predicate Ripe(c: Candidate, account: string, since: I64, now: I64) {
    && c.account == account && Checkable(c) && c.interval.value != MANUAL
    && Saturated(now - since) >= Threshold(c.interval.value)
  }

  predicate AnyRipe(candidates: seq<Candidate>, account: string, since: I64, now: I64) {
    exists i :: 0 <= i < |candidates| && Ripe(candidates[i], account, since, now)
  }

  lemma {:induction false} VisitsKeepNotBefore(s: State, candidates: seq<Candidate>, now: I64, account: string, since: I64)
    requires NotBefore(s, account, since) && since <= now
    ensures NotBefore(VisitAll(s, candidates, now).0, account, since)
    ensures Names(VisitAll(s, candidates, now).1, account) ==> AnyRipe(candidates, account, since, now)
  {
    if candidates != [] {
      var n := |candidates| - 1;
      var c := candidates[n];
      VisitsKeepNotBefore(s, candidates[..n], now, account, since);
      var (t, due) := VisitAll(s, candidates[..n], now);
      NamesAppends(due, (c.account, c.delivery), account);
      if Names(due, account) {
        var i :| 0 <= i < n && Ripe(candidates[..n][i], account, since, now);
        assert Ripe(candidates[i], account, since, now);
      } else if Visit(t, c, now).1 && c.account == account {
        assert Ripe(candidates[n], account, since, now);
      }
    }
  }

  lemma {:induction false} NotBeforeLasts(s: State, events: seq<Event>, from: nat, to: nat, account: string, since: I64)
    requires from <= to <= |events|
    requires NotBefore(After(s, events[..from]), account, since) && ClockFrom(events, from, to, since)
    ensures NotBefore(After(s, events[..to]), account, since)
    decreases (to)
  {
    if from < to {
      NotBeforeLasts(s, events, from, to - 1, account, since);
      AfterOne(s, events, to - 1);
      var t, e := After(s, events[..to - 1]), events[to - 1];
      if e.Tick? {
        VisitsKeepNotBefore(Retained(t, Accounts(e.candidates)), e.candidates, e.now, account, since);
      }
    }
  }

  /** What a tick starts is remembered as checked at that tick, or was by it already. */
  lemma {:induction false} StartIsRemembered(s: State, candidates: seq<Candidate>, now: I64, account: string)
    requires Names(VisitAll(s, candidates, now).1, account)
    ensures NotBefore(VisitAll(s, candidates, now).0, account, now)
  {
    var n := |candidates| - 1;
    var c := candidates[n];
    var (t, due) := VisitAll(s, candidates[..n], now);
    NamesAppends(due, (c.account, c.delivery), account);
    if Names(due, account) {
      StartIsRemembered(s, candidates[..n], now, account);
    }
  }

  /**
   * While the clock is not set back behind the first of them, two starts of an account are at least
   * the interval asked for at the second apart, whatever happens in between: pauses, "manual only",
   * other intervals, the account removed and added again.
   */
  lemma StartsAreAnIntervalApart(s: State, events: seq<Event>, first: nat, second: nat, account: string)
    requires first < second < |events|
    requires StartsAt(s, events, first, account) && StartsAt(s, events, second, account)
    requires ClockFrom(events, first, second + 1, events[first].now)
    ensures AnyRipe(events[second].candidates, account, events[first].now, events[second].now)
    ensures exists i :: 0 <= i < |events[second].candidates| &&
              var c := events[second].candidates[i];
              && c.account == account && Checkable(c) && c.interval.value != MANUAL
              && (60 * c.interval.value <= I64_MAX ==> events[second].now >= events[first].now + 60 * c.interval.value)
  {
    var e, f := events[first], events[second];
    StartIsRemembered(Retained(After(s, events[..first]), Accounts(e.candidates)), e.candidates, e.now, account);
    AfterOne(s, events, first);
    NotBeforeLasts(s, events, first + 1, second, account, e.now);
    VisitsKeepNotBefore(Retained(After(s, events[..second]), Accounts(f.candidates)), f.candidates, f.now, account, e.now);
    var i :| 0 <= i < |f.candidates| && Ripe(f.candidates[i], account, e.now, f.now);
    var c := f.candidates[i];
    ThresholdIs(c.interval.value);
  }

  // The other way round: an account is not held off longer than its interval.

  /** The account is listed once, and asks to be checked at an interval of at most `most` minutes. */
  predicate Wants(candidates: seq<Candidate>, account: string, most: U64) {
    exists i :: 0 <= i < |candidates| && WantsAt(candidates, i, account, most)
  }

  predicate WantsAt(candidates: seq<Candidate>, at: nat, account: string, most: U64)
    requires at < |candidates|
  {
    var c := candidates[at];
    && c.account == account && Checkable(c) && c.interval.value != MANUAL
    && Normal(c.interval.value) && c.interval.value <= most
    && forall j :: 0 <= j < |candidates| && j != at ==> candidates[j].account != account
  }

  predicate WantsThroughout(events: seq<Event>, from: nat, to: nat, account: string, most: U64) {
    forall i :: from <= i < to && i < |events| && events[i].Tick? ==> Wants(events[i].candidates, account, most)
  }

  lemma {:induction false} OthersLeaveIt(s: State, candidates: seq<Candidate>, now: I64, account: string)
    requires forall j :: 0 <= j < |candidates| ==> candidates[j].account != account
    ensures var (t, due) := VisitAll(s, candidates, now);
            && !Names(due, account) && Recorded(t, account) == Recorded(s, account)
            && (account in t.running <==> account in s.running)
  {
    hide Visit;
    if candidates != [] {
      var n := |candidates| - 1;
      OthersLeaveIt(s, candidates[..n], now, account);
      VisitsOnlyItsOwn(VisitAll(s, candidates[..n], now).0, candidates[n], now, account);
      NamesAppends(VisitAll(s, candidates[..n], now).1, (candidates[n].account, candidates[n].delivery), account);
    }
  }

  lemma VisitsOnlyItsOwn(s: State, c: Candidate, now: I64, account: string)
    requires c.account != account
    ensures Alike(Visit(s, c, now).0, s, account)
  {}

  predicate Alike(s: State, t: State, account: string) {
    Recorded(s, account) == Recorded(t, account) && (account in s.running <==> account in t.running)
  }

  /** A visit depends on nothing but its own account. */
  lemma VisitsAlike(s: State, t: State, c: Candidate, now: I64)
    requires Alike(s, t, c.account)
    ensures Visit(s, c, now).1 == Visit(t, c, now).1 && Alike(Visit(s, c, now).0, Visit(t, c, now).0, c.account)
  {}

  function Recorded(s: State, account: string): Option<I64> {
    if account in s.last then Some(s.last[account]) else None
  }

  lemma {:induction false} VisitsAgree(s: State, candidates: seq<Candidate>, at: nat, now: I64, account: string)
    requires at < |candidates| && candidates[at].account == account
    requires forall j :: 0 <= j < |candidates| && j != at ==> candidates[j].account != account
    ensures var (t, due) := VisitAll(s, candidates, now);
            var (u, starts) := Visit(s, candidates[at], now);
            && (Names(due, account) <==> starts) && Recorded(t, account) == Recorded(u, account)
            && (account in t.running <==> account in u.running)
    decreases |candidates|
  {
    hide Visit, Names;
    var n := |candidates| - 1;
    var (t, due) := VisitAll(s, candidates[..n], now);
    NamesAppends(due, (candidates[n].account, candidates[n].delivery), account);
    if at == n {
      OthersLeaveIt(s, candidates[..n], now, account);
      VisitsAlike(s, t, candidates[n], now);
    } else {
      VisitsAgree(s, candidates[..n], at, now, account);
      VisitsOnlyItsOwn(t, candidates[n], now, account);
    }
  }

  /** Exactly when a tick starts an account that is listed once and asks to be checked. */
  lemma StartsWhen(s: State, candidates: seq<Candidate>, at: nat, now: I64, account: string, most: U64)
    requires at < |candidates| && WantsAt(candidates, at, account, most)
    ensures var (t, due) := Planned(s, candidates, now);
            && (Names(due, account) <==>
                  && account !in s.running && account in s.last
                  && now - s.last[account] >= 60 * candidates[at].interval.value)
            && account in t.last && t.last[account] <= now
            && (account in t.running <==> account in s.running || Names(due, account))
            && (!Names(due, account) && account in s.last ==> t.last[account] <= s.last[account])
  {
    var kept := Retained(s, Accounts(candidates));
    ListsIs(candidates, account);
    assert candidates[at].account == account;
    VisitsAgree(kept, candidates, at, now, account);
    ThresholdIs(candidates[at].interval.value);
  }

  lemma StartsWhenWanted(s: State, candidates: seq<Candidate>, now: I64, account: string, most: U64)
    requires Wants(candidates, account, most)
    ensures var (t, due) := Planned(s, candidates, now);
            && (account !in s.running && account in s.last && now - s.last[account] >= 60 * most ==> Names(due, account))
            && account in t.last && t.last[account] <= now
            && (account in t.running <==> account in s.running || Names(due, account))
            && (!Names(due, account) && account in s.last ==> t.last[account] <= s.last[account])
  {
    var at :| 0 <= at < |candidates| && WantsAt(candidates, at, account, most);
    StartsWhen(s, candidates, at, now, account, most);
  }

  predicate StartedWithin(s: State, events: seq<Event>, from: nat, to: nat, account: string) {
    exists i :: from <= i < to && i < |events| && StartsAt(s, events, i, account)
  }

  /** Without a start, the time remembered does not grow, and what runs has been running all along. */
  lemma {:induction false} WaitingSince(s: State, events: seq<Event>, from: nat, to: nat, account: string, most: U64, since: int)
    requires from <= to <= |events|
    requires account in After(s, events[..from]).last && After(s, events[..from]).last[account] <= since
    requires WantsThroughout(events, from, to, account, most) && !StartedWithin(s, events, from, to, account)
    ensures account in After(s, events[..to]).last && After(s, events[..to]).last[account] <= since
    ensures account in After(s, events[..to]).running <==>
              account in After(s, events[..from]).running && !FinishedWithin(events, from, to, account)
    decreases (to)
  {
    if from < to {
      WaitingSince(s, events, from, to - 1, account, most, since);
      AfterOne(s, events, to - 1);
      var t, e := After(s, events[..to - 1]), events[to - 1];
      if e.Tick? {
        assert !StartsAt(s, events, to - 1, account);
        StartsWhenWanted(t, e.candidates, e.now, account, most);
      }
    }
  }

  /**
   * However the clock moved before, by the first tick that shows an interval after a tick that saw
   * the account it is started, or a check of it has been running without end since then.
   */
  lemma DelayedAtMostOneInterval(s: State, events: seq<Event>, noticed: nat, later: nat, account: string, most: U64)
    requires noticed < later < |events| && events[noticed].Tick? && events[later].Tick?
    requires WantsThroughout(events, noticed, later + 1, account, most)
    requires events[later].now - events[noticed].now >= 60 * most
    ensures StartedWithin(s, events, noticed + 1, later + 1, account)
            || (account in After(s, events[..noticed + 1]).running && !FinishedWithin(events, noticed + 1, later, account))
  {
    AfterOne(s, events, noticed);
    var e, f := events[noticed], events[later];
    StartsWhenWanted(After(s, events[..noticed]), e.candidates, e.now, account, most);
    if !StartedWithin(s, events, noticed + 1, later + 1, account) {
      assert !StartsAt(s, events, later, account);
      WaitingSince(s, events, noticed + 1, later, account, most, e.now);
      StartsWhenWanted(After(s, events[..later]), f.candidates, f.now, account, most);
    }
  }

  // What a check refreshes.

  const POP3_INBOX := "INBOX"

  /** A known folder, and whether it is trash, junk or all mail. */
  datatype Folder = Folder(name: string, excluded: bool)

  predicate Eligible(delivery: Delivery, f: Folder, live: set<string>, watched: set<string>) {
    f.name != "" && f.name in live && !f.excluded && (delivery.Imap? ==> f.name !in watched)
  }

  /** The eligible names, each where it is first. */
  function EligibleNames(delivery: Delivery, cached: seq<Folder>, live: set<string>, watched: set<string>): seq<string> {
    if cached == [] then []
    else
      var n := |cached| - 1;
      var names := EligibleNames(delivery, cached[..n], live, watched);
      if Eligible(delivery, cached[n], live, watched) && cached[n].name !in names then names + [cached[n].name] else names
  }

  function FoldersToCheck(delivery: Delivery, cached: seq<Folder>, live: set<string>, watched: set<string>): seq<string> {
    match delivery
    case Local => []
    case Pop3 => [POP3_INBOX]
    case _ => EligibleNames(delivery, cached, live, watched)
  }

  predicate EligibleAs(delivery: Delivery, cached: seq<Folder>, live: set<string>, watched: set<string>, at: nat, name: string) {
    at < |cached| && cached[at].name == name && Eligible(delivery, cached[at], live, watched)
  }

  ghost predicate Wanted(delivery: Delivery, cached: seq<Folder>, live: set<string>, watched: set<string>, name: string) {
    exists at: nat :: EligibleAs(delivery, cached, live, watched, at, name)
  }

  /** `name` is eligible before any eligible `other` is. */
  ghost predicate FirstBefore(delivery: Delivery, cached: seq<Folder>, live: set<string>, watched: set<string>, name: string, other: string) {
    exists at: nat :: EligibleAs(delivery, cached, live, watched, at, name)
                      && forall k: nat | k <= at :: !EligibleAs(delivery, cached, live, watched, k, other)
  }

  lemma EligibleOneMore(delivery: Delivery, cached: seq<Folder>, live: set<string>, watched: set<string>, at: nat, name: string)
    requires cached != []
    ensures var n := |cached| - 1;
            EligibleAs(delivery, cached, live, watched, at, name) <==>
            EligibleAs(delivery, cached[..n], live, watched, at, name)
            || (at == n && cached[n].name == name && Eligible(delivery, cached[n], live, watched))
  {}

  lemma WantedOneMore(delivery: Delivery, cached: seq<Folder>, live: set<string>, watched: set<string>, name: string)
    requires cached != []
    ensures var n := |cached| - 1;
            Wanted(delivery, cached, live, watched, name) <==>
            Wanted(delivery, cached[..n], live, watched, name)
            || (cached[n].name == name && Eligible(delivery, cached[n], live, watched))
  {
    var n := |cached| - 1;
    hide EligibleAs, Eligible;
    EligibleOneMore(delivery, cached, live, watched, n, name);
    forall at: nat ensures EligibleAs(delivery, cached, live, watched, at, name) <==>
                           EligibleAs(delivery, cached[..n], live, watched, at, name)
                           || (at == n && cached[n].name == name && Eligible(delivery, cached[n], live, watched))
    {
      EligibleOneMore(delivery, cached, live, watched, at, name);
    }
  }

  /** Exactly the eligible folders are checked. */
  lemma {:induction false} EligibleNamesAre(delivery: Delivery, cached: seq<Folder>, live: set<string>, watched: set<string>, name: string)
    ensures name in EligibleNames(delivery, cached, live, watched) <==> Wanted(delivery, cached, live, watched, name)
  {
    if cached != [] {
      EligibleNamesAre(delivery, cached[..|cached| - 1], live, watched, name);
      WantedOneMore(delivery, cached, live, watched, name);
      hide Wanted, Eligible;
    }
  }

  lemma FirstBeforeOneMore(delivery: Delivery, cached: seq<Folder>, live: set<string>, watched: set<string>, name: string, other: string)
    requires cached != []
    requires var front := cached[..|cached| - 1];
             || FirstBefore(delivery, front, live, watched, name, other)
             || (Wanted(delivery, front, live, watched, name) && !Wanted(delivery, front, live, watched, other))
    ensures FirstBefore(delivery, cached, live, watched, name, other)
  {
    var front := cached[..|cached| - 1];
    var at: nat :| EligibleAs(delivery, front, live, watched, at, name)
                   && forall k: nat | k <= at :: !EligibleAs(delivery, front, live, watched, k, other);
    assert at < |front| by { assert EligibleAs(delivery, front, live, watched, at, name); }
    hide EligibleAs;
    EligibleOneMore(delivery, cached, live, watched, at, name);
    forall k: nat | k <= at ensures !EligibleAs(delivery, cached, live, watched, k, other) {
      EligibleOneMore(delivery, cached, live, watched, k, other);
    }
  }

  /** Each is checked once, in the order in which the folders are known. */
  lemma {:induction false} EligibleNamesInOrder(delivery: Delivery, cached: seq<Folder>, live: set<string>, watched: set<string>, i: nat, j: nat)
    requires i < j < |EligibleNames(delivery, cached, live, watched)|
    ensures var names := EligibleNames(delivery, cached, live, watched);
            names[i] != names[j] && FirstBefore(delivery, cached, live, watched, names[i], names[j])
  {
    var front := cached[..|cached| - 1];
    var before, names := EligibleNames(delivery, front, live, watched), EligibleNames(delivery, cached, live, watched);
    hide Eligible, Wanted, FirstBefore;
    if j < |before| {
      EligibleNamesInOrder(delivery, front, live, watched, i, j);
    } else {
      assert names[i] in before;
      EligibleNamesAre(delivery, front, live, watched, names[i]);
      EligibleNamesAre(delivery, front, live, watched, names[j]);
    }
    FirstBeforeOneMore(delivery, cached, live, watched, names[i], names[j]);
  }

  /** What is checked, for every kind of account. */
  lemma FoldersToCheckAre(delivery: Delivery, cached: seq<Folder>, live: set<string>, watched: set<string>, name: string)
    ensures name in FoldersToCheck(delivery, cached, live, watched) <==>
              match delivery
              case Local => false
              case Pop3 => name == POP3_INBOX
              case _ => Wanted(delivery, cached, live, watched, name)
  {
    EligibleNamesAre(delivery, cached, live, watched, name);
    hide Wanted, EligibleNames;
  }

  /** And nothing twice, in the order in which the folders are known. */
  lemma FoldersToCheckInOrder(delivery: Delivery, cached: seq<Folder>, live: set<string>, watched: set<string>, i: nat, j: nat)
    requires i < j < |FoldersToCheck(delivery, cached, live, watched)|
    ensures var names := FoldersToCheck(delivery, cached, live, watched);
            names[i] != names[j] && FirstBefore(delivery, cached, live, watched, names[i], names[j])
  {
    EligibleNamesInOrder(delivery, cached, live, watched, i, j);
    hide FirstBefore, EligibleNames;
  }

  // In numbers, and in a candidate's own fields.

  lemma NormalizeIn(minutes: U64)
    ensures minutes == 0 ==> Normalize(minutes) == 0
    ensures 1 <= minutes <= 5 ==> Normalize(minutes) == 5
    ensures 5 <= minutes <= 1440 ==> Normalize(minutes) == minutes
    ensures 1440 <= minutes ==> Normalize(minutes) == 1440
  {}

  /** The candidate has mail to check, is not paused, and asks for an interval. */
  predicate Asks(c: Candidate, account: string) {
    c.account == account && c.delivery != Local && !c.paused && c.interval.Ok? && c.interval.value != 0
  }

  ghost predicate AnyAsks(candidates: seq<Candidate>, account: string) {
    exists i :: 0 <= i < |candidates| && Asks(candidates[i], account)
  }

  lemma {:induction false} VisitsStartWhatAsks(s: State, candidates: seq<Candidate>, now: I64, account: string)
    ensures Names(VisitAll(s, candidates, now).1, account) ==> AnyAsks(candidates, account) && account !in s.running
  {
    if candidates != [] {
      var n := |candidates| - 1;
      var (t, due) := VisitAll(s, candidates[..n], now);
      VisitsStartWhatAsks(s, candidates[..n], now, account);
      VisitsRespectRunning(s, candidates[..n], now, account);
      NamesAppends(due, (candidates[n].account, candidates[n].delivery), account);
      if AnyAsks(candidates[..n], account) {
        var i :| 0 <= i < n && Asks(candidates[..n][i], account);
        assert Asks(candidates[i], account);
      }
      if Visit(t, candidates[n], now).1 { assert candidates[n].account == account ==> Asks(candidates[n], account); }
    }
  }

  /** A tick starts no local, paused, unreadable or manual account, and none whose check runs. */
  lemma StartedWasAsked(s: State, candidates: seq<Candidate>, now: I64, account: string)
    requires Names(Planned(s, candidates, now).1, account)
    ensures AnyAsks(candidates, account) && account !in s.running
  {
    VisitsStartWhatAsks(Retained(s, Accounts(candidates)), candidates, now, account);
    var i :| 0 <= i < |candidates| && Asks(candidates[i], account);
    assert candidates[i] in candidates;
  }
}
