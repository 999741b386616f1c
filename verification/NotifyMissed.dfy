/** Merging notices of missed reminders: each reminder once by its identity, the newest details up to a cap,
    and the days they span. */
module NotifyMissed {
  import opened Wrappers
  import opened Order

  /** A reminder as a notice names it. `at` is when its event starts where the reader is. */
  datatype Item = Item(account: string, key: string, at: int, text: string)

  /** A notice from the core. One from an older core has no keys, only a count. */
  datatype Notice = Notice(keys: Option<seq<Item>>, count: Option<int>, reminders: seq<Item>, day: string, firstDay: string)

  /** The notice held: everything said since the last one was shown. */
  datatype Held = Held(keys: seq<Item>, unkeyed: int, reminders: seq<Item>, day: string, firstDay: string)
  {
    function Count(): int { |keys| + unkeyed }
  }

  const KEPT: nat := 20

  const NOTHING := Held([], 0, [], "", "")

  /** A reminder's identity; empty from a core that does not say it. */
  function MissedKey(item: Item): string {
    if item.key == "" then "" else item.account + "\0" + item.key
  }

  predicate Known(s: seq<Item>, item: Item) {
    MissedKey(item) != "" && exists i :: 0 <= i < |s| && MissedKey(s[i]) == MissedKey(item)
  }

  /** Each identity the first time it is said; what has none, every time. */
  function Distinct(s: seq<Item>): (r: seq<Item>)
    ensures |r| <= |s|
  {
    if s == [] then []
    else
      var rest := Distinct(s[..|s| - 1]);
      if Known(rest, s[|s| - 1]) then rest else rest + [s[|s| - 1]]
  }

  predicate NewestFirst(a: Item, b: Item) {
    a.at >= b.at
  }

  function Take(s: seq<Item>, n: nat): (r: seq<Item>)
    ensures |r| == if |s| <= n then |s| else n
  {
    if |s| <= n then s else s[..n]
  }

  /** What is detailed of everything said: each once, newest first, as many as are kept. */
  function Details(s: seq<Item>): seq<Item> {
    Take(Sort(Distinct(s), NewestFirst), KEPT)
  }

  function KeysOf(notice: Notice): seq<Item> {
    if notice.keys.Some? then notice.keys.value else []
  }

  /** What a notice without keys counts for: as it says, and at least its details. */
  function UnkeyedOf(notice: Notice): int {
    if notice.keys.Some? then 0
    else if notice.count.None? || notice.count.value < |notice.reminders| then |notice.reminders|
    else notice.count.value
  }

  function DaysOf(notice: Notice): seq<string> {
    [notice.day, notice.firstDay]
  }

  /** `day` taken in with another: the empty day stands for none. */
  function Later(day: string, other: string): string {
    if other != "" && (day == "" || !StringLe(other, day)) then other else day
  }

  function Earlier(day: string, other: string): string {
    if other != "" && (day == "" || !StringLe(day, other)) then other else day
  }

  function Merge(held: Held, notice: Notice): Held {
    Held(Distinct(held.keys + KeysOf(notice)),
         held.unkeyed + UnkeyedOf(notice),
         Take(Sort(Distinct(held.reminders + notice.reminders), NewestFirst), KEPT),
         Later(Later(held.day, notice.day), notice.firstDay),
         Earlier(Earlier(held.firstDay, notice.day), notice.firstDay))
  }

  /** One after the other, as the bridge merges them. */
  function MergeAll(notices: seq<Notice>): Held {
    if notices == [] then NOTHING
    else Merge(MergeAll(notices[..|notices| - 1]), notices[|notices| - 1])
  }

  // ---- The methods ----

  method Union(a: seq<Item>, b: seq<Item>) returns (out: seq<Item>)
    ensures out == Distinct(a + b)
  {
    hide Distinct, Known, Keys, MissedKey;
    out := [];
    var seen: set<string> := {};
    var all := a + b;
    NothingDistinct();
    for i := 0 to |all|
      invariant out == Distinct(all[..i]) && seen == Keys(out)
    {
      assert all[..i + 1] == all[..i] + [all[i]];
      DistinctSnoc(all[..i], all[i]);
      KnownIs(out, all[i]);
      KeysSnoc(out, all[i]);
      var id := MissedKey(all[i]);
      if id == "" || id !in seen {
        seen := seen + {id};
        out := out + [all[i]];
      }
    }
    assert all[..|all|] == all;
  }

  function Keys(s: seq<Item>): set<string> {
    set i | 0 <= i < |s| :: MissedKey(s[i])
  }

  lemma KnownIs(s: seq<Item>, item: Item)
    ensures Known(s, item) <==> MissedKey(item) != "" && MissedKey(item) in Keys(s)
  {}

  lemma KeysSnoc(s: seq<Item>, item: Item)
    ensures Keys(s + [item]) == Keys(s) + {MissedKey(item)}
  {
    var t := s + [item];
    assert t[|s|] == item;
    assert forall i | 0 <= i < |s| :: t[i] == s[i];
  }

  lemma NothingDistinct()
    ensures Distinct([]) == [] && Keys([]) == {}
  {}

  lemma DistinctSnoc(s: seq<Item>, item: Item)
    ensures Distinct(s + [item]) == if Known(Distinct(s), item) then Distinct(s) else Distinct(s) + [item]
  {
    assert (s + [item])[..|s|] == s;
  }

  method MergeMissedNotices(held: Option<Held>, notice: Notice) returns (r: Held)
    ensures r == Merge(if held.Some? then held.value else NOTHING, notice)
  {
    var before := if held.Some? then held.value else NOTHING;
    var keys := Union(before.keys, KeysOf(notice));
    var unkeyed := before.unkeyed;
    if notice.keys.None? {
      var c := if notice.count.Some? then notice.count.value else 0;
      if notice.count.None? || c < |notice.reminders| {
        c := |notice.reminders|;
      }
      unkeyed := unkeyed + c;
    }
    var reminders := Union(before.reminders, notice.reminders);
    reminders := Sort(reminders, NewestFirst);
    reminders := Take(reminders, KEPT);
    var latest, first := before.day, before.firstDay;
    var candidates := DaysOf(notice);
    for i := 0 to 2
      invariant latest == if i == 0 then before.day else if i == 1 then Later(before.day, notice.day)
                          else Later(Later(before.day, notice.day), notice.firstDay)
      invariant first == if i == 0 then before.firstDay else if i == 1 then Earlier(before.firstDay, notice.day)
                         else Earlier(Earlier(before.firstDay, notice.day), notice.firstDay)
    {
      if candidates[i] != "" {
        if latest == "" || !StringLe(candidates[i], latest) {
          latest := candidates[i];
        }
        if first == "" || !StringLe(first, candidates[i]) {
          first := candidates[i];
        }
      }
    }
    r := Held(keys, unkeyed, reminders, latest, first);
  }

  // ---- Distinct lists ----

  lemma {:induction false} DistinctKnows(s: seq<Item>, item: Item)
    ensures Known(Distinct(s), item) <==> Known(s, item)
    ensures forall x :: x in Distinct(s) ==> x in s
  {
    if s != [] {
      var n := |s| - 1;
      DistinctKnows(s[..n], item);
      DistinctKnows(s[..n], s[n]);
      assert s == s[..n] + [s[n]];
      var rest := Distinct(s[..n]);
      if Known(s, item) {
        var i :| 0 <= i < |s| && MissedKey(s[i]) == MissedKey(item);
        if i < n {
          assert s[..n][i] == s[i];
        } else if !Known(rest, s[n]) {
          assert (rest + [s[n]])[|rest|] == s[n];
        }
      }
      if Known(rest, item) && !Known(rest, s[n]) {
        var k :| 0 <= k < |rest| && MissedKey(rest[k]) == MissedKey(item);
        assert (rest + [s[n]])[k] == rest[k];
      }
    }
  }

  /** Saying again what was already told apart adds nothing. */
  lemma {:induction false} DistinctAppends(a: seq<Item>, b: seq<Item>)
    ensures Distinct(Distinct(a) + b) == Distinct(a + b)
  {
    hide Distinct, Known;
    if b == [] {
      assert a + b == a && Distinct(a) + b == Distinct(a);
      DistinctTwice(a);
    } else {
      var n := |b| - 1;
      DistinctAppends(a, b[..n]);
      var d := Distinct(a);
      assert b == b[..n] + [b[n]];
      assert a + b == (a + b[..n]) + [b[n]];
      assert d + b == (d + b[..n]) + [b[n]];
      DistinctSnoc(a + b[..n], b[n]);
      DistinctSnoc(d + b[..n], b[n]);
    }
  }

  lemma {:induction false} DistinctTwice(s: seq<Item>)
    ensures Distinct(Distinct(s)) == Distinct(s)
  {
    if s != [] {
      var n := |s| - 1;
      DistinctTwice(s[..n]);
      var rest := Distinct(s[..n]);
      if !Known(rest, s[n]) { assert (rest + [s[n]])[..|rest|] == rest; }
    }
  }

  // ---- In the fields themselves ----

  predicate NoNul(s: string) {
    '\0' !in s
  }

  /** Two items are one reminder exactly if they name the same one of the same account: an account without a NUL, which
      separates the two, as any account is. */
  lemma OneIdentity(a: Item, b: Item)
    requires NoNul(a.account) && NoNul(b.account)
    ensures MissedKey(a) != "" && MissedKey(a) == MissedKey(b) <==> a.key != "" && a.key == b.key && a.account == b.account
  {
    var x, y := MissedKey(a), MissedKey(b);
    if a.key != "" && b.key != "" && x == y {
      var m, n := |a.account|, |b.account|;
      assert forall i | 0 <= i < m :: x[i] == a.account[i];
      assert forall i | 0 <= i < n :: y[i] == b.account[i];
      assert x[m] == '\0' && y[n] == '\0';
      assert m == n;
      assert x[..m] == a.account && y[..n] == b.account && x[m + 1..] == a.key && y[n + 1..] == b.key;
    }
  }

  /** With a NUL in an account two reminders may be taken for one. */
  lemma NulJoinsTwo()
    ensures MissedKey(Item("a", "b\0c", 0, "")) == MissedKey(Item("a\0b", "c", 0, ""))
  {
    assert "a" + "\0" + "b\0c" == "a\0b" + "\0" + "c";
  }

  /** What an item that is not kept has before it: the same reminder. */
  ghost predicate SaidAmong(s: seq<Item>, item: Item) {
    exists i :: 0 <= i < |s| && s[i].key == item.key && s[i].account == item.account
  }

  ghost predicate Named(items: seq<Item>) {
    forall i | 0 <= i < |items| :: NoNul(items[i].account)
  }

  lemma KnownIsSaid(s: seq<Item>, item: Item)
    requires Named(s) && NoNul(item.account)
    ensures Known(s, item) <==> item.key != "" && SaidAmong(s, item)
  {
    if Known(s, item) {
      var i :| 0 <= i < |s| && MissedKey(s[i]) == MissedKey(item);
      OneIdentity(s[i], item);
    }
    if item.key != "" && SaidAmong(s, item) {
      var i :| 0 <= i < |s| && s[i].key == item.key && s[i].account == item.account;
      OneIdentity(s[i], item);
    }
  }

  /** How many different reminders were said, and how often one without a key. */
  function Pairs(s: seq<Item>): set<(string, string)> {
    set i | 0 <= i < |s| && s[i].key != "" :: (s[i].account, s[i].key)
  }

  function Anonymous(s: seq<Item>): nat {
    if s == [] then 0 else Anonymous(s[..|s| - 1]) + (if s[|s| - 1].key == "" then 1 else 0)
  }

  lemma PairsNext(s: seq<Item>)
    requires s != []
    ensures var n := |s| - 1;
            Pairs(s) == Pairs(s[..n]) + (if s[n].key != "" then {(s[n].account, s[n].key)} else {})
  {
    var n := |s| - 1;
    assert s == s[..n] + [s[n]];
    assert forall i | 0 <= i < n :: s[..n][i] == s[i];
    forall p | p in Pairs(s[..n]) ensures p in Pairs(s) {
      var i :| 0 <= i < n && s[..n][i].key != "" && (s[..n][i].account, s[..n][i].key) == p;
      assert s[i].key != "";
    }
  }

  /** The keys of a notice are as many as the reminders it names, each once, and those without a key. */
  lemma {:induction false} DistinctCounts(s: seq<Item>)
    requires Named(s)
    ensures |Distinct(s)| == |Pairs(s)| + Anonymous(s)
  {
    if s == [] {
      assert Pairs(s) == {};
    } else {
      var n := |s| - 1;
      var front := s[..n];
      assert forall i | 0 <= i < n :: front[i] == s[i];
      DistinctCounts(front);
      PairsNext(s);
      DistinctKnows(front, s[n]);
      KnownIsSaid(front, s[n]);
      PairIsSaid(front, s[n]);
      hide Known, Pairs, SaidAmong, MissedKey;
      var pairs, pair := Pairs(front), (s[n].account, s[n].key);
      if s[n].key != "" {
        assert if pair in pairs then pairs + {pair} == pairs else |pairs + {pair}| == |pairs| + 1;
      } else {
        assert Pairs(s) == pairs;
      }
    }
  }

  lemma PairIsSaid(s: seq<Item>, item: Item)
    ensures item.key != "" ==> (SaidAmong(s, item) <==> (item.account, item.key) in Pairs(s))
  {
    if item.key != "" && SaidAmong(s, item) {
      var i :| 0 <= i < |s| && s[i].key == item.key && s[i].account == item.account;
      assert s[i].key != "";
    }
  }

  /** The details are the newest of what was told apart: twenty at most, the later starts first, and none is left out
      that starts later than one that is kept. */
  lemma DetailsAreNewest(s: seq<Item>)
    ensures var d, all := Details(s), Distinct(s);
            && |d| == (if |all| < 20 then |all| else 20)
            && multiset(d) <= multiset(all)
            && (forall i, j | 0 <= i < j < |d| :: d[i].at >= d[j].at)
            && NoneLater(multiset(all) - multiset(d), d)
  {
    var all := Distinct(s);
    var sorted := Sort(all, NewestFirst);
    SortAscending(all, NewestFirst);
    SortPermutes(all, NewestFirst);
    var n := |Details(s)|;
    Descends(sorted);
    RestOfSorted(sorted, n);
    RestIsNotLater(sorted, n);
    hide Distinct, Sort, NewestFirst, Ascending, NoneLater;
    assert multiset(sorted) == multiset(all) && Details(s) == sorted[..n];
  }

  ghost predicate NoneLater(rest: multiset<Item>, d: seq<Item>) {
    forall x: Item, i | x in rest && 0 <= i < |d| :: x.at <= d[i].at
  }

  lemma RestIsNotLater(sorted: seq<Item>, n: nat)
    requires n <= |sorted| && forall i, j | 0 <= i < j < |sorted| :: sorted[i].at >= sorted[j].at
    ensures NoneLater(multiset(sorted[n..]), sorted[..n])
  {
    var rest := sorted[n..];
    forall x: Item, i | x in multiset(rest) && 0 <= i < n ensures x.at <= sorted[..n][i].at {
      assert x in rest;
      var k :| 0 <= k < |rest| && rest[k] == x;
      assert sorted[n + k] == x;
    }
  }

  lemma Descends(sorted: seq<Item>)
    requires Ascending(sorted, NewestFirst)
    ensures forall i, j | 0 <= i < j < |sorted| :: sorted[i].at >= sorted[j].at
  {
    forall i, j | 0 <= i < j < |sorted| ensures sorted[i].at >= sorted[j].at {
      assert NewestFirst(sorted[i], sorted[j]);
    }
  }

  lemma RestOfSorted(sorted: seq<Item>, n: nat)
    requires n <= |sorted|
    ensures multiset(sorted) - multiset(sorted[..n]) == multiset(sorted[n..]) && multiset(sorted[..n]) <= multiset(sorted)
  {
    assert sorted == sorted[..n] + sorted[n..];
  }

  /** A notice without keys counts as it says, and at least as many as it details. */
  lemma UnkeyedIs(notice: Notice)
    ensures notice.keys.Some? ==> UnkeyedOf(notice) == 0
    ensures notice.keys.None? ==> UnkeyedOf(notice) >= |notice.reminders| && (notice.count.Some? ==> UnkeyedOf(notice) >= notice.count.value)
    ensures notice.keys.None? ==> UnkeyedOf(notice) == |notice.reminders| || notice.count == Some(UnkeyedOf(notice))
  {}

  // ---- The cap ----

  /** One more reminder, put in its place unless it is known. */
  function Add(s: seq<Item>, x: Item): seq<Item> {
    if Known(s, x) then s else Insert(x, s, NewestFirst)
  }

  function AddAll(s: seq<Item>, items: seq<Item>): seq<Item> {
    if items == [] then s else Add(AddAll(s, items[..|items| - 1]), items[|items| - 1])
  }

  ghost predicate Within(s: seq<Item>, all: seq<Item>) {
    forall i | 0 <= i < |s| :: s[i] in all
  }

  /** Equal identities start at the same time. */
  ghost predicate Consistent(all: seq<Item>) {
    forall i, j | 0 <= i < |all| && 0 <= j < |all| ::
      MissedKey(all[i]) != "" && MissedKey(all[i]) == MissedKey(all[j]) ==> all[i].at == all[j].at
  }

  lemma SortKnows(s: seq<Item>, item: Item)
    ensures Known(Sort(s, NewestFirst), item) <==> Known(s, item)
  {
    var t := Sort(s, NewestFirst);
    SortSameElements(s, NewestFirst);
    if Known(t, item) {
      var i :| 0 <= i < |t| && MissedKey(t[i]) == MissedKey(item);
      assert t[i] in s;
    }
    if Known(s, item) {
      var i :| 0 <= i < |s| && MissedKey(s[i]) == MissedKey(item);
      assert s[i] in t;
    }
  }

  /** Sorting what is told apart is adding one by one. */
  lemma {:induction false} SortIsAddAll(s: seq<Item>)
    ensures Sort(Distinct(s), NewestFirst) == AddAll([], s)
  {
    if s != [] {
      var n := |s| - 1;
      var rest := Distinct(s[..n]);
      SortIsAddAll(s[..n]);
      SortKnows(rest, s[n]);
      if !Known(rest, s[n]) {
        assert (rest + [s[n]])[..|rest|] == rest;
      }
    }
  }

  lemma AddAllSnoc(s: seq<Item>, items: seq<Item>, x: Item)
    ensures AddAll(s, items + [x]) == Add(AddAll(s, items), x)
  {
    assert (items + [x])[..|items|] == items;
  }

  lemma {:induction false} AddAllAppends(s: seq<Item>, a: seq<Item>, b: seq<Item>)
    ensures AddAll(s, a + b) == AddAll(AddAll(s, a), b)
  {
    if b == [] {
      assert a + b == a;
      assert AddAll(AddAll(s, a), b) == AddAll(s, a);
    } else {
      hide AddAll, Add;
      var n := |b| - 1;
      assert b == b[..n] + [b[n]];
      assert a + b == (a + b[..n]) + [b[n]];
      AddAllAppends(s, a, b[..n]);
      AddAllSnoc(s, a + b[..n], b[n]);
      AddAllSnoc(AddAll(s, a), b[..n], b[n]);
    }
  }

  lemma {:induction false} AddAllAscending(s: seq<Item>, items: seq<Item>, all: seq<Item>)
    requires Ascending(s, NewestFirst) && Within(s, all) && Within(items, all)
    ensures Ascending(AddAll(s, items), NewestFirst) && Within(AddAll(s, items), all)
  {
    if items != [] {
      var n := |items| - 1;
      AddAllAscending(s, items[..n], all);
      var t := AddAll(s, items[..n]);
      InsertAscending(items[n], t, NewestFirst);
      InsertPermutes(items[n], t, NewestFirst);
      var r := Insert(items[n], t, NewestFirst);
      forall i | 0 <= i < |r| ensures r[i] in all {
        assert r[i] in multiset(r);
        assert r[i] == items[n] || r[i] in t;
        if r[i] in t { var k :| 0 <= k < |t| && t[k] == r[i]; }
      }
    }
  }

  lemma {:induction false} InsertTake(x: Item, s: seq<Item>, n: nat)
    ensures Take(Insert(x, s, NewestFirst), n) == Take(Insert(x, Take(s, n), NewestFirst), n)
  {
    if n > 0 && s != [] && NewestFirst(s[0], x) {
      InsertTake(x, s[1..], n - 1);
      assert Take(s, n)[1..] == Take(s[1..], n - 1);
      var t, u := Insert(x, s[1..], NewestFirst), Insert(x, Take(s[1..], n - 1), NewestFirst);
      assert Take([s[0]] + t, n) == [s[0]] + Take(t, n - 1);
      assert Take([s[0]] + u, n) == [s[0]] + Take(u, n - 1);
    } else if n > 0 && s != [] {
      assert Take([x] + s, n) == Take([x] + Take(s, n), n);
    }
  }

  lemma {:induction false} InsertLast(x: Item, s: seq<Item>)
    requires forall i | 0 <= i < |s| :: NewestFirst(s[i], x)
    ensures Insert(x, s, NewestFirst) == s + [x]
  {
    if s != [] {
      InsertLast(x, s[1..]);
      assert s == [s[0]] + s[1..];
    }
  }

  /** What is kept after one more reminder depends only on what was kept before. */
  lemma AddKeepsTop(s: seq<Item>, x: Item, all: seq<Item>)
    requires Ascending(s, NewestFirst) && Within(s, all) && x in all && Consistent(all)
    ensures Take(Add(s, x), KEPT) == Take(Add(Take(s, KEPT), x), KEPT)
  {
    var top := Take(s, KEPT);
    forall p | 0 <= p < |top| && MissedKey(x) != "" && MissedKey(s[p]) == MissedKey(x) ensures Known(top, x) {
      assert top[p] == s[p];
    }
    if Known(top, x) {
      var k :| 0 <= k < |top| && MissedKey(top[k]) == MissedKey(x);
      assert s[k] == top[k];
    } else if Known(s, x) {
      var p :| 0 <= p < |s| && MissedKey(s[p]) == MissedKey(x);
      var i :| 0 <= i < |all| && all[i] == s[p];
      var j :| 0 <= j < |all| && all[j] == x;
      assert s[p].at == x.at;
      forall k | 0 <= k < |top| ensures NewestFirst(top[k], x) {
        assert NewestFirst(s[k], s[p]);
      }
      InsertLast(x, top);
    } else {
      InsertTake(x, s, KEPT);
    }
  }

  lemma {:induction false} AddAllKeepsTop(s: seq<Item>, t: seq<Item>, items: seq<Item>, all: seq<Item>)
    requires Ascending(s, NewestFirst) && Ascending(t, NewestFirst)
    requires Within(s, all) && Within(t, all) && Within(items, all) && Consistent(all)
    requires Take(s, KEPT) == Take(t, KEPT)
    ensures Take(AddAll(s, items), KEPT) == Take(AddAll(t, items), KEPT)
  {
    if items != [] {
      var n := |items| - 1;
      AddAllKeepsTop(s, t, items[..n], all);
      AddAllAscending(s, items[..n], all);
      AddAllAscending(t, items[..n], all);
      assert items[n] in all;
      AddKeepsTop(AddAll(s, items[..n]), items[n], all);
      AddKeepsTop(AddAll(t, items[..n]), items[n], all);
    }
  }

  /** No identity twice. */
  ghost predicate Apart(s: seq<Item>) {
    forall i, j | 0 <= i < j < |s| :: MissedKey(s[i]) == "" || MissedKey(s[i]) != MissedKey(s[j])
  }

  lemma {:induction false} InsertApart(x: Item, s: seq<Item>)
    requires Apart(s) && !Known(s, x)
    ensures Apart(Insert(x, s, NewestFirst))
  {
    if s != [] && NewestFirst(s[0], x) {
      assert forall i | 0 <= i < |s[1..]| :: s[1..][i] == s[i + 1];
      InsertApart(x, s[1..]);
      InsertPermutes(x, s[1..], NewestFirst);
      var t := Insert(x, s[1..], NewestFirst);
      forall j | 0 <= j < |t| ensures MissedKey(s[0]) == "" || MissedKey(s[0]) != MissedKey(t[j]) {
        assert t[j] in multiset(t);
        if t[j] != x { var k :| 0 <= k < |s[1..]| && s[1..][k] == t[j]; }
      }
    }
  }

  lemma {:induction false} AddAllApart(s: seq<Item>, items: seq<Item>)
    requires Apart(s)
    ensures Apart(AddAll(s, items))
  {
    if items != [] {
      var n := |items| - 1;
      AddAllApart(s, items[..n]);
      if !Known(AddAll(s, items[..n]), items[n]) { InsertApart(items[n], AddAll(s, items[..n])); }
    }
  }

  lemma {:induction false} AddAllSelf(s: seq<Item>)
    requires Ascending(s, NewestFirst) && Apart(s)
    ensures AddAll([], s) == s
  {
    if s != [] {
      var n := |s| - 1;
      AddAllSelf(s[..n]);
      InsertLast(s[n], s[..n]);
      assert s == s[..n] + [s[n]];
    }
  }

  /** A merge adds the new reminders to the held ones one by one. */
  lemma MergeAdds(held: seq<Item>, items: seq<Item>)
    requires Ascending(held, NewestFirst) && Apart(held)
    ensures Sort(Distinct(held + items), NewestFirst) == AddAll(held, items)
  {
    SortIsAddAll(held + items);
    AddAllAppends([], held, items);
    AddAllSelf(held);
  }

  // ---- Merging one by one loses nothing ----

  function AllReminders(notices: seq<Notice>): seq<Item> {
    if notices == [] then []
    else AllReminders(notices[..|notices| - 1]) + notices[|notices| - 1].reminders
  }

  function AllKeys(notices: seq<Notice>): seq<Item> {
    if notices == [] then []
    else AllKeys(notices[..|notices| - 1]) + KeysOf(notices[|notices| - 1])
  }

  function AllDays(notices: seq<Notice>): seq<string> {
    if notices == [] then []
    else AllDays(notices[..|notices| - 1]) + DaysOf(notices[|notices| - 1])
  }

  function AllUnkeyed(notices: seq<Notice>): int {
    if notices == [] then 0
    else AllUnkeyed(notices[..|notices| - 1]) + UnkeyedOf(notices[|notices| - 1])
  }

  lemma DetailsShape(s: seq<Item>)
    ensures Ascending(Details(s), NewestFirst) && Apart(Details(s)) && Within(Details(s), s)
    ensures Details(s) == Take(AddAll([], s), KEPT)
  {
    SortIsAddAll(s);
    AddAllApart([], s);
    AddAllAscending([], s, s);
  }

  /** The details kept by merging notice after notice under the cap are those of everything said at once. */
  lemma {:induction false} MergedDetails(notices: seq<Notice>, all: seq<Item>)
    requires Consistent(all) && Within(AllReminders(notices), all)
    ensures MergeAll(notices).reminders == Details(AllReminders(notices))
  {
    if notices != [] {
      var n := |notices| - 1;
      var before, items := AllReminders(notices[..n]), notices[n].reminders;
      assert AllReminders(notices) == before + items;
      forall i | 0 <= i < |before| ensures before[i] in all { assert (before + items)[i] == before[i]; }
      forall i | 0 <= i < |items| ensures items[i] in all { assert (before + items)[|before| + i] == items[i]; }
      MergedDetails(notices[..n], all);
      var held := Details(before);
      DetailsShape(before);
      DetailsShape(before + items);
      MergeAdds(held, items);
      AddAllAppends([], before, items);
      AddAllAscending([], before, all);
      forall i | 0 <= i < |held| ensures held[i] in all { assert held[i] == AddAll([], before)[i]; }
      AddAllKeepsTop(held, AddAll([], before), items, all);
    }
  }

  ghost predicate IsLatest(day: string, days: seq<string>) {
    && (day == "" || day in days)
    && (forall i | 0 <= i < |days| && days[i] != "" :: day != "" && StringLe(days[i], day))
  }

  ghost predicate IsEarliest(day: string, days: seq<string>) {
    && (day == "" || day in days)
    && (forall i | 0 <= i < |days| && days[i] != "" :: day != "" && StringLe(day, days[i]))
  }

  lemma LaterIsLatest(day: string, days: seq<string>, other: string)
    requires IsLatest(day, days)
    ensures IsLatest(Later(day, other), days + [other])
  {
    var r := Later(day, other);
    StringLeTotal(day, other);
    assert (days + [other])[|days|] == other;
    if day in days { var k :| 0 <= k < |days| && days[k] == day; assert (days + [other])[k] == day; }
    forall i | 0 <= i < |days| && days[i] != "" ensures r != "" && StringLe(days[i], r) {
      if r != day { StringLeTransitive(days[i], day, r); }
    }
    StringLeTotal(other, other);
  }

  lemma EarlierIsEarliest(day: string, days: seq<string>, other: string)
    requires IsEarliest(day, days)
    ensures IsEarliest(Earlier(day, other), days + [other])
  {
    var r := Earlier(day, other);
    StringLeTotal(day, other);
    assert (days + [other])[|days|] == other;
    if day in days { var k :| 0 <= k < |days| && days[k] == day; assert (days + [other])[k] == day; }
    forall i | 0 <= i < |days| && days[i] != "" ensures r != "" && StringLe(r, days[i]) {
      if r != day { StringLeTransitive(r, day, days[i]); }
    }
    StringLeTotal(other, other);
  }

  lemma NothingSaid()
    ensures Distinct([]) == [] && IsLatest("", []) && IsEarliest("", [])
  {}

  lemma {:induction false} MergedRest(notices: seq<Notice>)
    ensures var held := MergeAll(notices);
            && held.keys == Distinct(AllKeys(notices))
            && held.unkeyed == AllUnkeyed(notices)
            && IsLatest(held.day, AllDays(notices))
            && IsEarliest(held.firstDay, AllDays(notices))
  {
    hide Distinct, Sort, Take, Later, Earlier, IsLatest, IsEarliest, KeysOf, UnkeyedOf;
    if notices == [] {
      NothingSaid();
    } else {
      var n := |notices| - 1;
      var before := MergeAll(notices[..n]);
      var days, last := AllDays(notices[..n]), notices[n];
      MergedRest(notices[..n]);
      DistinctAppends(AllKeys(notices[..n]), KeysOf(last));
      LaterIsLatest(before.day, days, last.day);
      LaterIsLatest(Later(before.day, last.day), days + [last.day], last.firstDay);
      EarlierIsEarliest(before.firstDay, days, last.day);
      EarlierIsEarliest(Earlier(before.firstDay, last.day), days + [last.day], last.firstDay);
      assert days + [last.day] + [last.firstDay] == AllDays(notices);
    }
  }

  /** Bounded merge: provided equal identities carry equal times, merging any sequence of notices one by
      one, details capped each time, is deduplicating, sorting and capping all of them once; the keys and
      the count lose nothing, and the days span everything said. */
  lemma BoundedMerge(notices: seq<Notice>)
    requires Consistent(AllReminders(notices))
    ensures var held := MergeAll(notices);
            && held.reminders == Details(AllReminders(notices))
            && held.keys == Distinct(AllKeys(notices))
            && held.Count() == |Distinct(AllKeys(notices))| + AllUnkeyed(notices)
            && IsLatest(held.day, AllDays(notices))
            && IsEarliest(held.firstDay, AllDays(notices))
  {
    MergedDetails(notices, AllReminders(notices));
    MergedRest(notices);
  }

  /** So the notice that is shown counts every reminder once, whoever said it how often, and what had no key as said. */
  lemma MergedCountIs(notices: seq<Notice>)
    requires Named(AllKeys(notices))
    ensures MergeAll(notices).Count() == |Pairs(AllKeys(notices))| + Anonymous(AllKeys(notices)) + AllUnkeyed(notices)
  {
    MergedRest(notices);
    DistinctCounts(AllKeys(notices));
    hide Distinct, MergeAll;
  }
}
