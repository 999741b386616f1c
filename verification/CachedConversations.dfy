/** Pages of cached conversations: a representative for every card, one page across all folders, and the
    details of the selected cards fetched a folder at a time. */
module CachedConversations {
  import opened Wrappers
  import opened Order
  import opened ConversationPage

  datatype Header = Header(uid: nat, date: int, key: string, folder: string, subject: string,
                           fromName: string, fromAddr: string, starred: bool, seen: bool)

  /** The messages of one conversation in one folder, as the store groups them. */
  datatype Card = Card(key: string, header: Header, unread: nat, messages: nat)

  datatype Located = Located(scope: Scope, card: Card)

  datatype Snooze = Snooze(key: string, folder: string, until: int)

  /** A card with what the other tables know about it. */
  datatype Enriched = Enriched(id: string, account: string, card: Card, messages: nat, facts: Option<string>)

  /** How many messages a conversation has, in the whole account or in one folder, and what else is kept by
      conversation. */
  datatype Tables = Tables(counts: map<(string, Option<string>, string), nat>, facts: map<(string, string), string>)

  /** What is stored about one folder. */
  datatype Folder = Folder(rss: bool, cards: seq<Card>, matching: seq<Header>, snoozed: seq<Snooze>)

  /** How names are read: the id of a conversation, the root of a key, whether it is a message number, the folder's one name. */
  datatype Names = Names(
    id: (string, string, string) -> string,
    root: string -> string,
    isNumber: string -> bool,
    canon: string -> string)

  datatype PageError = Refused(error: Error) | NotMail | LostConversation

  // ---- Representatives ----

  predicate Newer(a: Header, b: Header) {
    a.date > b.date || (a.date == b.date && a.uid > b.uid)
  }

  predicate Of(h: Header, key: string) {
    h.uid != 0 && h.key == key
  }

  ghost predicate Represents(h: Header, key: string, matching: seq<Header>) {
    && Of(h, key) && (exists i :: 0 <= i < |matching| && matching[i] == h)
    && (forall i | 0 <= i < |matching| && Of(matching[i], key) ::
          matching[i].date < h.date || (matching[i].date == h.date && matching[i].uid <= h.uid))
  }

  ghost predicate Matched(key: string, matching: seq<Header>) {
    exists i :: 0 <= i < |matching| && Of(matching[i], key)
  }

  ghost predicate Representing(representatives: map<string, Header>, matching: seq<Header>) {
    && (forall key | key in representatives :: Represents(representatives[key], key, matching))
    && (forall key | Matched(key, matching) :: key in representatives)
  }

  lemma RepresentingNext(before: map<string, Header>, matching: seq<Header>, h: Header, after: map<string, Header>)
    requires Representing(before, matching)
    requires after == if h.uid != 0 && (h.key !in before || Newer(h, before[h.key])) then before[h.key := h] else before
    ensures Representing(after, matching + [h])
  {
    var all := matching + [h];
    assert all[|matching|] == h;
    assert forall i | 0 <= i < |matching| :: all[i] == matching[i];
    forall key | key in after ensures Represents(after[key], key, all) {
      if key in before {
        var i :| 0 <= i < |matching| && matching[i] == before[key];
        assert all[i] == before[key];
        forall i | 0 <= i < |all| && Of(all[i], key) ensures !Newer(all[i], after[key]) {
          if i < |matching| { assert !Newer(matching[i], before[key]); }
        }
      } else {
        assert !Matched(key, matching);
      }
    }
    forall key | Matched(key, all) ensures key in after {
      var i :| 0 <= i < |all| && Of(all[i], key);
      if i < |matching| { assert Of(matching[i], key); }
    }
  }

  /** What stands for each key after going through the headers in order. */
  function Best(matching: seq<Header>): map<string, Header> {
    if matching == [] then map[]
    else
      var n := |matching| - 1;
      var before := Best(matching[..n]);
      var h := matching[n];
      if h.uid != 0 && (h.key !in before || Newer(h, before[h.key])) then before[h.key := h] else before
  }

  /** It is the newest header that matches, for exactly the keys that have one. */
  lemma {:induction false} BestRepresents(matching: seq<Header>)
    ensures Representing(Best(matching), matching)
  {
    if matching != [] {
      var n := |matching| - 1;
      BestRepresents(matching[..n]);
      RepresentingNext(Best(matching[..n]), matching[..n], matching[n], Best(matching));
      assert matching == matching[..n] + [matching[n]];
    }
  }

  method Representatives(matching: seq<Header>) returns (representatives: map<string, Header>)
    ensures representatives == Best(matching)
  {
    representatives := map[];
    for i := 0 to |matching|
      invariant representatives == Best(matching[..i])
    {
      assert matching[..i + 1][..i] == matching[..i];
      var header := matching[i];
      if header.uid == 0 {
        continue;
      }
      if header.key !in representatives {
        representatives := representatives[header.key := header];
      } else if Newer(header, representatives[header.key]) {
        representatives := representatives[header.key := header];
      }
    }
    assert matching[..|matching|] == matching;
  }

  /** Which header stands for a card does not depend on the order in which the store returned them. */
  lemma BestIgnoresOrder(matching: seq<Header>, other: seq<Header>)
    requires multiset(matching) == multiset(other)
    requires forall i, j | 0 <= i < |matching| && 0 <= j < |matching| && matching[i].uid == matching[j].uid ::
               matching[i] == matching[j]
    ensures Best(matching) == Best(other)
  {
    var a, b := Best(matching), Best(other);
    BestRepresents(matching);
    BestRepresents(other);
    hide Best, Representing, Newer;
    forall key ensures key in a <==> key in b {
      AlsoRepresented(a, b, matching, other, key);
      AlsoRepresented(b, a, other, matching, key);
    }
    forall key | key in a ensures a[key] == b[key] {
      AlsoRepresented(a, b, matching, other, key);
      AlsoRepresented(b, a, other, matching, key);
      var i := Find(a[key], matching);
      var j := Find(b[key], matching);
      Equal(a[key], b[key]);
    }
  }

  lemma Find(h: Header, headers: seq<Header>) returns (i: nat)
    requires h in multiset(headers)
    ensures i < |headers| && headers[i] == h
  {
    assert h in headers;
    i :| 0 <= i < |headers| && headers[i] == h;
  }

  lemma Equal(g: Header, h: Header)
    requires !Newer(g, h) && !Newer(h, g)
    ensures g.uid == h.uid
  {}

  /** What stands for a key among some headers is among the others too, and no newer than what stands for it there. */
  lemma AlsoRepresented(a: map<string, Header>, b: map<string, Header>, matching: seq<Header>, other: seq<Header>, key: string)
    requires Representing(a, matching) && Representing(b, other) && multiset(matching) == multiset(other)
    ensures key in a ==> key in b && !Newer(a[key], b[key]) && a[key] in multiset(matching)
  {
    if key in a {
      var i :| 0 <= i < |matching| && matching[i] == a[key];
      assert matching[i] in multiset(matching);
      var j := Find(a[key], other);
      assert Of(other[j], key) && Matched(key, other);
    }
  }

  // ---- The candidates of one folder ----

  /** The keys that are asleep in this folder; a message number means a message of its own folder only. */
  function Asleep(snoozed: seq<Snooze>, folder: string, now: int, names: Names): set<string> {
    set i | 0 <= i < |snoozed| && snoozed[i].until > now
            && (!names.isNumber(names.root(snoozed[i].key)) || names.canon(snoozed[i].folder) == folder)
      :: snoozed[i].key
  }

  predicate Awake(card: Card, asleep: set<string>, names: Names) {
    card.key !in asleep && names.root(card.key) !in asleep
  }

  /** The card as it is shown: dated by its representative, named and flagged as the whole conversation. */
  function Shown(card: Card, representative: Header, folder: string): Card {
    card.(header := representative.(
            subject := card.header.subject, key := card.key, folder := folder,
            starred := card.header.starred, seen := card.unread == 0))
  }

  function CandidateOf(scope: Scope, card: Card, names: Names): Candidate<Located> {
    Candidate(names.id(scope.account, scope.folder, card.key), card.header.date,
              if card.header.fromName == "" then card.header.fromAddr else card.header.fromName,
              card.header.subject, Located(scope, card))
  }

  /** What the cards offer, a representative being used once. */
  function Offered(scope: Scope, cards: seq<Card>, representatives: map<string, Header>, asleep: set<string>, names: Names)
    : seq<Candidate<Located>>
  {
    if cards == [] then []
    else
      var card := cards[0];
      if !Awake(card, asleep, names) || card.key !in representatives then
        Offered(scope, cards[1..], representatives, asleep, names)
      else
        [CandidateOf(scope, Shown(card, representatives[card.key], scope.folder), names)]
        + Offered(scope, cards[1..], representatives - {card.key}, asleep, names)
  }

  function CandidatesOf(scope: Scope, folder: Folder, now: int, names: Names): seq<Candidate<Located>> {
    Offered(scope, folder.cards, Best(folder.matching), Asleep(folder.snoozed, scope.folder, now, names), names)
  }

  method Candidates(scope: Scope, folder: Folder, now: int, names: Names) returns (out: seq<Candidate<Located>>)
    ensures out == CandidatesOf(scope, folder, now, names)
  {
    var left := Representatives(folder.matching);
    ghost var representatives := left;
    var asleep := Asleep(folder.snoozed, scope.folder, now, names);
    out := [];
    for i := 0 to |folder.cards|
      invariant Offered(scope, folder.cards, representatives, asleep, names)
             == out + Offered(scope, folder.cards[i..], left, asleep, names)
    {
      var card := folder.cards[i];
      assert folder.cards[i..][0] == card && folder.cards[i..][1..] == folder.cards[i + 1..];
      if card.key in asleep || names.root(card.key) in asleep {
        continue;
      }
      if card.key !in left {
        continue;
      }
      var shown := Shown(card, left[card.key], scope.folder);
      left := left - {card.key};
      out := out + [CandidateOf(scope, shown, names)];
    }
  }

  ghost predicate DistinctKeys(cards: seq<Card>) {
    forall i, j | 0 <= i < j < |cards| :: cards[i].key != cards[j].key
  }

  /** A conversation is offered exactly if it is awake and a message of it matches, dated by the newest of those. */
  ghost predicate Offers(out: seq<Candidate<Located>>, scope: Scope, card: Card, h: Header, names: Names) {
    exists k :: 0 <= k < |out| && out[k] == CandidateOf(scope, Shown(card, h, scope.folder), names)
  }

  predicate IsOfferOf(c: Candidate<Located>, scope: Scope, card: Card, representatives: map<string, Header>, asleep: set<string>, names: Names) {
    && Awake(card, asleep, names) && card.key in representatives
    && c == CandidateOf(scope, Shown(card, representatives[card.key], scope.folder), names)
  }

  predicate IsOffer(c: Candidate<Located>, scope: Scope, cards: seq<Card>, representatives: map<string, Header>, asleep: set<string>, names: Names) {
    exists i :: 0 <= i < |cards| && IsOfferOf(c, scope, cards[i], representatives, asleep, names)
  }

  ghost predicate OnlyOffers(out: seq<Candidate<Located>>, scope: Scope, cards: seq<Card>, representatives: map<string, Header>, asleep: set<string>, names: Names) {
    forall k | 0 <= k < |out| :: IsOffer(out[k], scope, cards, representatives, asleep, names)
  }

  ghost predicate AllOffers(out: seq<Candidate<Located>>, scope: Scope, cards: seq<Card>, representatives: map<string, Header>, asleep: set<string>, names: Names) {
    forall i | 0 <= i < |cards| && Awake(cards[i], asleep, names) && cards[i].key in representatives ::
      Offers(out, scope, cards[i], representatives[cards[i].key], names)
  }

  ghost predicate OffersOnce(out: seq<Candidate<Located>>) {
    forall j, k | 0 <= j < k < |out| :: out[j].item.card.key != out[k].item.card.key
  }

  /** With one card to a conversation, exactly the conversations that are awake and have a representative are offered, each once. */
  lemma {:induction false} OfferedAre(scope: Scope, cards: seq<Card>, representatives: map<string, Header>, asleep: set<string>, names: Names)
    requires DistinctKeys(cards)
    ensures AllOffers(Offered(scope, cards, representatives, asleep, names), scope, cards, representatives, asleep, names)
    ensures OnlyOffers(Offered(scope, cards, representatives, asleep, names), scope, cards, representatives, asleep, names)
    ensures OffersOnce(Offered(scope, cards, representatives, asleep, names))
  {
    if cards != [] {
      var card, rest := cards[0], cards[1..];
      var takes := Awake(card, asleep, names) && card.key in representatives;
      var left := if takes then representatives - {card.key} else representatives;
      OfferedAre(scope, rest, left, asleep, names);
      var tail := Offered(scope, rest, left, asleep, names);
      var front := if takes then [CandidateOf(scope, Shown(card, representatives[card.key], scope.folder), names)] else [];
      assert Offered(scope, cards, representatives, asleep, names) == front + tail;
      assert takes ==> front[0].item.card.key == card.key;
      hide Awake, Shown, CandidateOf, Offered, AllOffers, DistinctKeys;
      OffersJoin(front, tail, scope, cards, representatives, left, asleep, names);
      forall k | 0 <= k < |tail| ensures IsOffer(tail[k], scope, cards, representatives, asleep, names) && tail[k].item.card.key != card.key {
        StillOffered(tail[k], scope, cards, representatives, left, asleep, names);
      }
      if takes { assert IsOfferOf(front[0], scope, cards[0], representatives, asleep, names); }
    }
  }

  /** Nothing that should be offered is missing, if it is the first card's or one that the others leave. */
  lemma OffersJoin(front: seq<Candidate<Located>>, tail: seq<Candidate<Located>>, scope: Scope, cards: seq<Card>,
                   representatives: map<string, Header>, left: map<string, Header>, asleep: set<string>, names: Names)
    requires cards != [] && DistinctKeys(cards) && AllOffers(tail, scope, cards[1..], left, asleep, names)
    requires forall key | key != cards[0].key && key in representatives :: key in left && left[key] == representatives[key]
    requires Awake(cards[0], asleep, names) && cards[0].key in representatives ==>
               front == [CandidateOf(scope, Shown(cards[0], representatives[cards[0].key], scope.folder), names)]
    ensures AllOffers(front + tail, scope, cards, representatives, asleep, names)
  {
    hide Awake, Shown, CandidateOf;
    var out := front + tail;
    forall i | 0 <= i < |cards| && Awake(cards[i], asleep, names) && cards[i].key in representatives
      ensures Offers(out, scope, cards[i], representatives[cards[i].key], names)
    {
      if i == 0 {
        assert out[0] == front[0];
      } else {
        assert cards[1..][i - 1] == cards[i] && cards[i].key != cards[0].key;
        assert Offers(tail, scope, cards[i], left[cards[i].key], names);
        var k :| 0 <= k < |tail| && tail[k] == CandidateOf(scope, Shown(cards[i], left[cards[i].key], scope.folder), names);
        assert out[|front| + k] == tail[k];
      }
    }
  }

  lemma StillOffered(c: Candidate<Located>, scope: Scope, cards: seq<Card>, representatives: map<string, Header>, left: map<string, Header>,
                     asleep: set<string>, names: Names)
    requires DistinctKeys(cards) && cards != []
    requires forall key | key in left :: key in representatives && left[key] == representatives[key]
    requires IsOffer(c, scope, cards[1..], left, asleep, names)
    ensures IsOffer(c, scope, cards, representatives, asleep, names)
    ensures c.item.card.key != cards[0].key
  {
    var i :| 0 <= i < |cards[1..]| && IsOfferOf(c, scope, cards[1..][i], left, asleep, names);
    assert cards[i + 1] == cards[1..][i];
  }

  ghost predicate NewestOffered(out: seq<Candidate<Located>>, scope: Scope, card: Card, matching: seq<Header>, names: Names) {
    exists h :: Represents(h, card.key, matching) && Offers(out, scope, card, h, names)
  }

  ghost predicate NotOffered(out: seq<Candidate<Located>>, card: Card) {
    forall k | 0 <= k < |out| :: out[k].item.card.key != card.key
  }

  /** A conversation is offered exactly if it is awake and one of its messages matches, dated by the newest that does. */
  lemma CandidatesAre(scope: Scope, folder: Folder, now: int, names: Names, i: nat)
    requires DistinctKeys(folder.cards) && i < |folder.cards|
    ensures var out, card := CandidatesOf(scope, folder, now, names), folder.cards[i];
            if Awake(card, Asleep(folder.snoozed, scope.folder, now, names), names) && Matched(card.key, folder.matching)
            then NewestOffered(out, scope, card, folder.matching, names)
            else NotOffered(out, card)
  {
    var out, card, best := CandidatesOf(scope, folder, now, names), folder.cards[i], Best(folder.matching);
    var asleep := Asleep(folder.snoozed, scope.folder, now, names);
    BestRepresents(folder.matching);
    OfferedAre(scope, folder.cards, best, asleep, names);
    hide Asleep, Awake, Offers, Represents, Best;
    if Awake(card, asleep, names) && Matched(card.key, folder.matching) {
      assert Represents(best[card.key], card.key, folder.matching);
    } else {
      forall k | 0 <= k < |out| ensures out[k].item.card.key != card.key {
        assert IsOffer(out[k], scope, folder.cards, best, asleep, names);
        var j :| 0 <= j < |folder.cards| && IsOfferOf(out[k], scope, folder.cards[j], best, asleep, names);
        if folder.cards[j].key == card.key {
          assert i == j;
          RepresentsMatched(best[card.key], card.key, folder.matching);
          assert false;
        }
      }
    }
  }

  /** The conversation, or the root of it, is put off until later; a message number only in its own folder. */
  ghost predicate PutOff(snoozed: seq<Snooze>, key: string, folder: string, now: int, names: Names) {
    exists j :: 0 <= j < |snoozed| && snoozed[j].until > now
                && (snoozed[j].key == key || snoozed[j].key == names.root(key))
                && (names.isNumber(names.root(snoozed[j].key)) ==> names.canon(snoozed[j].folder) == folder)
  }

  ghost predicate HasMatch(matching: seq<Header>, key: string) {
    exists m :: 0 <= m < |matching| && matching[m].uid != 0 && matching[m].key == key
  }

  /** The message at `m` is the newest that matches, by date and then by uid. */
  ghost predicate IsNewest(matching: seq<Header>, m: nat, key: string) {
    && m < |matching| && matching[m].uid != 0 && matching[m].key == key
    && forall l | 0 <= l < |matching| && matching[l].uid != 0 && matching[l].key == key ::
         matching[l].date < matching[m].date || (matching[l].date == matching[m].date && matching[l].uid <= matching[m].uid)
  }

  /** What a candidate tells of its conversation: when and from whom by its newest match, all else by the whole of it. */
  predicate Tells(c: Candidate<Located>, scope: Scope, card: Card, h: Header, names: Names) {
    && c.id == names.id(scope.account, scope.folder, card.key)
    && c.date == h.date && c.sender == (if h.fromName != "" then h.fromName else h.fromAddr) && c.subject == card.header.subject
    && c.item.scope == scope && c.item.card.key == card.key
    && c.item.card.unread == card.unread && c.item.card.messages == card.messages
    && c.item.card.header.uid == h.uid && c.item.card.header.date == h.date && c.item.card.header.folder == scope.folder
    && c.item.card.header.subject == card.header.subject && c.item.card.header.starred == card.header.starred
    && (c.item.card.header.seen <==> card.unread == 0)
  }

  ghost predicate TellsNewest(out: seq<Candidate<Located>>, scope: Scope, card: Card, matching: seq<Header>, names: Names) {
    exists k: nat, m: nat :: k < |out| && IsNewest(matching, m, card.key) && Tells(out[k], scope, card, matching[m], names)
  }

  lemma AwakeIs(snoozed: seq<Snooze>, card: Card, folder: string, now: int, names: Names)
    ensures Awake(card, Asleep(snoozed, folder, now, names), names) <==> !PutOff(snoozed, card.key, folder, now, names)
  {
    var asleep := Asleep(snoozed, folder, now, names);
    if PutOff(snoozed, card.key, folder, now, names) {
      var j :| 0 <= j < |snoozed| && snoozed[j].until > now
               && (snoozed[j].key == card.key || snoozed[j].key == names.root(card.key))
               && (names.isNumber(names.root(snoozed[j].key)) ==> names.canon(snoozed[j].folder) == folder);
      assert snoozed[j].key in asleep;
    }
  }

  /** In the fields themselves: a conversation is offered exactly if it is not put off and one of its messages matches,
      and it then tells of its newest match. */
  lemma ConversationIsOffered(scope: Scope, folder: Folder, now: int, names: Names, i: nat)
    requires DistinctKeys(folder.cards) && i < |folder.cards|
    ensures var out, card := CandidatesOf(scope, folder, now, names), folder.cards[i];
            if !PutOff(folder.snoozed, card.key, scope.folder, now, names) && HasMatch(folder.matching, card.key)
            then TellsNewest(out, scope, card, folder.matching, names)
            else forall k | 0 <= k < |out| :: out[k].item.card.key != card.key
  {
    var out, card := CandidatesOf(scope, folder, now, names), folder.cards[i];
    CandidatesAre(scope, folder, now, names, i);
    AwakeIs(folder.snoozed, card, scope.folder, now, names);
    hide CandidatesOf, Awake, PutOff, Asleep, DistinctKeys;
    assert HasMatch(folder.matching, card.key) <==> Matched(card.key, folder.matching);
    if !PutOff(folder.snoozed, card.key, scope.folder, now, names) && HasMatch(folder.matching, card.key) {
      NewestTells(out, scope, card, folder.matching, names);
    }
  }

  lemma NewestTells(out: seq<Candidate<Located>>, scope: Scope, card: Card, matching: seq<Header>, names: Names)
    requires NewestOffered(out, scope, card, matching, names)
    ensures TellsNewest(out, scope, card, matching, names)
  {
    var h :| Represents(h, card.key, matching) && Offers(out, scope, card, h, names);
    var k: nat :| k < |out| && out[k] == CandidateOf(scope, Shown(card, h, scope.folder), names);
    var m: nat :| m < |matching| && matching[m] == h;
    assert IsNewest(matching, m, card.key) && Tells(out[k], scope, card, matching[m], names);
  }

  lemma RepresentsMatched(h: Header, key: string, matching: seq<Header>)
    requires Represents(h, key, matching)
    ensures Matched(key, matching)
  {
    var i :| 0 <= i < |matching| && matching[i] == h;
  }

  // ---- The details of the selected cards ----

  /** The details of one card, asked for by itself. */
  function Direct(t: Tables, account: string, card: Card, names: Names): Enriched {
    Enriched(names.id(account, card.header.folder, card.key), account, card,
             Larger(OrZero(Counted(t, account, card.header.folder, card.key, names)), card.messages), Fact(t, account, card.key))
  }

  function Larger(a: nat, b: nat): nat {
    if a > b then a else b
  }

  /** The count shown is the greater of the one kept and the card's own; the rest is the card's. */
  lemma DirectIs(t: Tables, account: string, card: Card, names: Names)
    ensures var e, kept := Direct(t, account, card, names), Counted(t, account, card.header.folder, card.key, names);
            && e.id == names.id(account, card.header.folder, card.key) && e.account == account && e.card == card
            && e.messages >= card.messages && (kept.Some? ==> e.messages >= kept.value)
            && (e.messages == card.messages || (kept.Some? && e.messages == kept.value))
            && (e.facts.Some? <==> (account, card.key) in t.facts) && (e.facts.Some? ==> e.facts.value == t.facts[(account, card.key)])
  {}

  function OrZero(n: Option<nat>): nat {
    if n.Some? then n.value else 0
  }

  /** A message number counts in its own folder, any other conversation in the whole account. */
  function Counted(t: Tables, account: string, folder: string, key: string, names: Names): Option<nat> {
    var place := if names.isNumber(names.root(key)) then Some(folder) else None;
    if (account, place, key) in t.counts then Some(t.counts[(account, place, key)]) else None
  }

  function Fact(t: Tables, account: string, key: string): Option<string> {
    if (account, key) in t.facts then Some(t.facts[(account, key)]) else None
  }

  function DirectAll(t: Tables, account: string, cards: seq<Card>, names: Names): (out: seq<Enriched>)
    ensures |out| == |cards| && forall i | 0 <= i < |cards| :: out[i] == Direct(t, account, cards[i], names)
  {
    seq(|cards|, i requires 0 <= i < |cards| => Direct(t, account, cards[i], names))
  }

  function RootsIn(cards: seq<Card>, folder: string, names: Names): set<string> {
    set i | 0 <= i < |cards| && cards[i].header.folder == folder :: names.root(cards[i].key)
  }

  /** The folders of the cards, in the order in which they are asked. */
  function FoldersOf(cards: seq<Card>): seq<string> {
    Canonical(seq(|cards|, i requires 0 <= i < |cards| => cards[i].header.folder), StringLe)
  }

  lemma FoldersOfHas(cards: seq<Card>, i: nat)
    requires i < |cards|
    ensures cards[i].header.folder in FoldersOf(cards)
  {
    var folders := seq(|cards|, i requires 0 <= i < |cards| => cards[i].header.folder);
    SortSameElements(folders, StringLe);
    assert folders[i] in folders;
  }

  /** What one folder answers: every key with one of the roots asked for. */
  function FolderCounts(t: Tables, account: string, folder: string, roots: set<string>, names: Names): map<string, nat> {
    var keys := set e | e in t.counts && names.root(e.2) in roots && Counted(t, account, folder, e.2, names).Some? :: e.2;
    map key | key in keys :: Counted(t, account, folder, key, names).value
  }

  function Answer(t: Tables, account: string, cards: seq<Card>, folder: string, key: string, names: Names): Option<nat> {
    if names.root(key) in RootsIn(cards, folder, names) then Counted(t, account, folder, key, names) else None
  }

  function Lookup(counts: map<string, nat>, key: string): Option<nat> {
    if key in counts then Some(counts[key]) else None
  }

  lemma FolderAnswers(t: Tables, account: string, cards: seq<Card>, folder: string, key: string, names: Names)
    ensures Lookup(FolderCounts(t, account, folder, RootsIn(cards, folder, names), names), key)
         == Answer(t, account, cards, folder, key, names)
  {
    var place := if names.isNumber(names.root(key)) then Some(folder) else None;
    if Answer(t, account, cards, folder, key, names).Some? {
      assert (account, place, key) in t.counts && (account, place, key).2 == key;
    }
  }

  /** The counts merged by key alone: the last folder that answers has its way. */
  function Merged(t: Tables, account: string, cards: seq<Card>, folders: seq<string>, key: string, names: Names): Option<nat> {
    if folders == [] then None
    else
      var last := Answer(t, account, cards, folders[|folders| - 1], key, names);
      if last.Some? then last else Merged(t, account, cards, folders[..|folders| - 1], key, names)
  }

  method CountMessages(t: Tables, account: string, cards: seq<Card>, names: Names) returns (counts: map<string, nat>)
    ensures forall key :: Lookup(counts, key) == Merged(t, account, cards, FoldersOf(cards), key, names)
  {
    var folders := FoldersOf(cards);
    counts := map[];
    for i := 0 to |folders|
      invariant forall key :: Lookup(counts, key) == Merged(t, account, cards, folders[..i], key, names)
    {
      assert folders[..i + 1][..i] == folders[..i];
      var answers := FolderCounts(t, account, folders[i], RootsIn(cards, folders[i], names), names);
      ghost var before := counts;
      counts := counts + answers;
      forall key ensures Lookup(counts, key) == Merged(t, account, cards, folders[..i + 1], key, names) {
        FolderAnswers(t, account, cards, folders[i], key, names);
        assert Lookup(before, key) == Merged(t, account, cards, folders[..i], key, names);
      }
    }
    assert folders[..|folders|] == folders;
  }

  /** The details of one card out of a batch. */
  function Batched(t: Tables, account: string, cards: seq<Card>, card: Card, names: Names): Enriched {
    Direct(t, account, card, names).(
      messages := Larger(OrZero(Merged(t, account, cards, FoldersOf(cards), card.key, names)), card.messages))
  }

  method GroupedThreadCards(t: Tables, account: string, cards: seq<Card>, names: Names) returns (out: seq<Enriched>)
    ensures |out| == |cards| && forall i | 0 <= i < |cards| :: out[i] == Batched(t, account, cards, cards[i], names)
    ensures OneFolderPerNumber(cards, names) ==> out == DirectAll(t, account, cards, names)
  {
    var counts := CountMessages(t, account, cards, names);
    hide Merged, Counted, Fact, FoldersOf, OneFolderPerNumber;
    out := [];
    for i := 0 to |cards|
      invariant |out| == i && forall k | 0 <= k < i :: out[k] == Batched(t, account, cards, cards[k], names)
    {
      var card := cards[i];
      assert Lookup(counts, card.key) == Merged(t, account, cards, FoldersOf(cards), card.key, names);
      var counted := if card.key in counts then counts[card.key] else 0;
      out := out + [Enriched(names.id(account, card.header.folder, card.key), account, card,
                             Larger(counted, card.messages), Fact(t, account, card.key))];
    }
    if OneFolderPerNumber(cards, names) {
      forall i | 0 <= i < |cards| ensures out[i] == Direct(t, account, cards[i], names) {
        MergedIsOwn(t, account, cards, i, names);
      }
      assert out == DirectAll(t, account, cards, names);
    }
  }

  /** No message number stands in two folders, so that counts merged by key alone are not mixed up. */
  ghost predicate OneFolderPerNumber(cards: seq<Card>, names: Names) {
    forall i, j | 0 <= i < |cards| && 0 <= j < |cards| && names.root(cards[i].key) == names.root(cards[j].key)
                  && names.isNumber(names.root(cards[i].key)) ::
      cards[i].header.folder == cards[j].header.folder
  }

  /** A folder that answers for a card answers with the card's own count, if it is the card's folder or the card
      is not a message number. */
  lemma AnswersOwn(t: Tables, account: string, cards: seq<Card>, i: nat, folder: string, names: Names)
    requires i < |cards| && OneFolderPerNumber(cards, names)
    ensures var own := Counted(t, account, cards[i].header.folder, cards[i].key, names);
            && Answer(t, account, cards, folder, cards[i].key, names) in {None, own}
            && (folder == cards[i].header.folder ==> Answer(t, account, cards, folder, cards[i].key, names) == own)
  {
    if names.root(cards[i].key) in RootsIn(cards, folder, names) {
      var j :| 0 <= j < |cards| && cards[j].header.folder == folder && names.root(cards[j].key) == names.root(cards[i].key);
    }
  }

  lemma {:induction false} MergedAmong(t: Tables, account: string, cards: seq<Card>, folders: seq<string>, i: nat, names: Names)
    requires i < |cards| && OneFolderPerNumber(cards, names)
    ensures var own := Counted(t, account, cards[i].header.folder, cards[i].key, names);
            && Merged(t, account, cards, folders, cards[i].key, names) in {None, own}
            && (cards[i].header.folder in folders ==> Merged(t, account, cards, folders, cards[i].key, names) == own)
  {
    hide Counted, Answer, OneFolderPerNumber;
    if folders != [] {
      var n := |folders| - 1;
      AnswersOwn(t, account, cards, i, folders[n], names);
      MergedAmong(t, account, cards, folders[..n], i, names);
      assert folders == folders[..n] + [folders[n]];
    }
  }

  lemma MergedIsOwn(t: Tables, account: string, cards: seq<Card>, i: nat, names: Names)
    requires i < |cards| && OneFolderPerNumber(cards, names)
    ensures Merged(t, account, cards, FoldersOf(cards), cards[i].key, names)
         == Counted(t, account, cards[i].header.folder, cards[i].key, names)
  {
    hide Merged, Counted, FoldersOf, OneFolderPerNumber;
    FoldersOfHas(cards, i);
    MergedAmong(t, account, cards, FoldersOf(cards), i, names);
  }

  /** The last of the folders that answers for a key, if any does. */
  ghost predicate LastAnswer(t: Tables, account: string, cards: seq<Card>, folders: seq<string>, key: string, names: Names, k: nat) {
    && k < |folders| && Answer(t, account, cards, folders[k], key, names).Some?
    && forall j | k < j < |folders| :: Answer(t, account, cards, folders[j], key, names).None?
  }

  lemma {:induction false} MergedIsLastAnswer(t: Tables, account: string, cards: seq<Card>, folders: seq<string>, key: string, names: Names, k: nat)
    requires LastAnswer(t, account, cards, folders, key, names, k)
    ensures Merged(t, account, cards, folders, key, names) == Answer(t, account, cards, folders[k], key, names)
    decreases |folders|
  {
    hide Answer;
    var n := |folders| - 1;
    if k < n { MergedIsLastAnswer(t, account, cards, folders[..n], key, names, k); }
  }

  /** In a batch over several folders a card that is a message number is given its own count exactly if the last
      folder that has one for that number has the same. */
  lemma OwnCountIff(t: Tables, account: string, cards: seq<Card>, i: nat, names: Names, k: nat)
    requires i < |cards| && names.isNumber(names.root(cards[i].key))
    requires LastAnswer(t, account, cards, FoldersOf(cards), cards[i].key, names, k)
    ensures var own := Counted(t, account, cards[i].header.folder, cards[i].key, names);
            && (Merged(t, account, cards, FoldersOf(cards), cards[i].key, names) == own <==>
                Counted(t, account, FoldersOf(cards)[k], cards[i].key, names) == own)
  {
    MergedIsLastAnswer(t, account, cards, FoldersOf(cards), cards[i].key, names, k);
    hide Merged, FoldersOf;
  }

  /** And any other card always is. */
  lemma OwnCountOfThread(t: Tables, account: string, cards: seq<Card>, i: nat, names: Names)
    requires i < |cards| && !names.isNumber(names.root(cards[i].key))
    ensures Merged(t, account, cards, FoldersOf(cards), cards[i].key, names)
         == Counted(t, account, cards[i].header.folder, cards[i].key, names)
  {
    FoldersOfHas(cards, i);
    ThreadMerged(t, account, cards, FoldersOf(cards), i, names);
    hide Merged, Counted, FoldersOf;
  }

  lemma {:induction false} ThreadMerged(t: Tables, account: string, cards: seq<Card>, folders: seq<string>, i: nat, names: Names)
    requires i < |cards| && !names.isNumber(names.root(cards[i].key))
    ensures var own := Counted(t, account, cards[i].header.folder, cards[i].key, names);
            && Merged(t, account, cards, folders, cards[i].key, names) in {None, own}
            && (cards[i].header.folder in folders ==> Merged(t, account, cards, folders, cards[i].key, names) == own)
  {
    if folders != [] {
      var n := |folders| - 1;
      ThreadMerged(t, account, cards, folders[..n], i, names);
      assert folders == folders[..n] + [folders[n]];
    }
  }

  // ---- Looked up in page order ----

  function DirectOf(t: Tables, located: Located, names: Names): Enriched {
    Direct(t, located.scope.account, located.card, names)
  }

  function IdOf(located: Located, names: Names): string {
    names.id(located.scope.account, located.scope.folder, located.card.key)
  }

  ghost predicate DistinctLocated(selected: seq<Located>, names: Names) {
    forall i, j | 0 <= i < j < |selected| :: IdOf(selected[i], names) != IdOf(selected[j], names)
  }

  /** Every card carries the folder it was found in. */
  ghost predicate InPlace(selected: seq<Located>) {
    forall i | 0 <= i < |selected| :: selected[i].card.header.folder == selected[i].scope.folder
  }

  /** The selected cards of one folder, in page order. */
  function CardsIn(selected: seq<Located>, scope: Scope): seq<Card> {
    if selected == [] then []
    else
      var n := |selected| - 1;
      CardsIn(selected[..n], scope) + (if selected[n].scope == scope then [selected[n].card] else [])
  }

  lemma {:induction false} CardsInAre(selected: seq<Located>, scope: Scope)
    ensures forall card :: card in CardsIn(selected, scope) <==> Located(scope, card) in selected
  {
    if selected != [] {
      var n := |selected| - 1;
      CardsInAre(selected[..n], scope);
      assert selected == selected[..n] + [selected[n]];
    }
  }

  function ScopesOf(selected: seq<Located>): set<Scope> {
    set i | 0 <= i < |selected| :: selected[i].scope
  }

  /** The details found so far are those of the cards in the folders that are done. */
  ghost predicate Found(t: Tables, enriched: map<string, Enriched>, selected: seq<Located>, done: set<Scope>, names: Names) {
    && (forall id | id in enriched :: Known(t, id, enriched[id], selected, names))
    && (forall located | located in selected && located.scope in done :: IdOf(located, names) in enriched)
  }

  ghost predicate Known(t: Tables, id: string, e: Enriched, selected: seq<Located>, names: Names) {
    exists located :: located in selected && IdOf(located, names) == id && DirectOf(t, located, names) == e
  }

  function Entered(enriched: map<string, Enriched>, more: seq<Enriched>): map<string, Enriched> {
    if more == [] then enriched
    else Entered(enriched, more[..|more| - 1])[more[|more| - 1].id := more[|more| - 1]]
  }

  lemma {:induction false} EnteredHas(enriched: map<string, Enriched>, more: seq<Enriched>)
    ensures forall id | id in enriched :: id in Entered(enriched, more)
    ensures forall e | e in more :: e.id in Entered(enriched, more)
    ensures forall id | id in Entered(enriched, more) ::
              (id in enriched && Entered(enriched, more)[id] == enriched[id])
              || (Entered(enriched, more)[id] in more && Entered(enriched, more)[id].id == id)
  {
    if more != [] {
      EnteredHas(enriched, more[..|more| - 1]);
      assert more == more[..|more| - 1] + [more[|more| - 1]];
    }
  }

  lemma FoundNext(t: Tables, enriched: map<string, Enriched>, selected: seq<Located>, done: set<Scope>, scope: Scope, names: Names)
    requires Found(t, enriched, selected, done, names) && InPlace(selected)
    ensures var more := DirectAll(t, scope.account, CardsIn(selected, scope), names);
            Found(t, Entered(enriched, more), selected, done + {scope}, names)
  {
    var cards := CardsIn(selected, scope);
    var more := DirectAll(t, scope.account, cards, names);
    var after := Entered(enriched, more);
    CardsInAre(selected, scope);
    EnteredHas(enriched, more);
    hide DirectAll, Entered, CardsIn;
    forall id | id in after ensures Known(t, id, after[id], selected, names) {
      if !(id in enriched && after[id] == enriched[id]) {
        var i :| 0 <= i < |more| && more[i] == after[id];
        assert cards[i] in cards;
        var located := Located(scope, cards[i]);
        assert located in selected && DirectOf(t, located, names) == more[i];
        InPlaceIs(selected, located);
      }
    }
    forall located | located in selected && located.scope in done + {scope} ensures IdOf(located, names) in after {
      if located.scope == scope {
        assert located == Located(scope, located.card);
        var i :| 0 <= i < |cards| && cards[i] == located.card;
        assert more[i] in more;
        InPlaceIs(selected, located);
        assert more[i].id == IdOf(located, names);
      }
    }
  }

  lemma InPlaceIs(selected: seq<Located>, located: Located)
    requires InPlace(selected) && located in selected
    ensures located.card.header.folder == located.scope.folder
  {
    var i :| 0 <= i < |selected| && selected[i] == located;
  }

  lemma CardsInOneFolder(selected: seq<Located>, scope: Scope, names: Names)
    requires InPlace(selected)
    ensures OneFolderPerNumber(CardsIn(selected, scope), names)
  {
    var cards := CardsIn(selected, scope);
    CardsInAre(selected, scope);
    forall i | 0 <= i < |cards| ensures cards[i].header.folder == scope.folder {
      assert cards[i] in cards;
      InPlaceIs(selected, Located(scope, cards[i]));
    }
  }

  function DirectPage(t: Tables, selected: seq<Located>, names: Names): (out: seq<Enriched>)
    ensures |out| == |selected| && forall i | 0 <= i < |selected| :: out[i] == DirectOf(t, selected[i], names)
  {
    seq(|selected|, i requires 0 <= i < |selected| => DirectOf(t, selected[i], names))
  }

  method GroupByScope(selected: seq<Located>, names: Names) returns (order: seq<string>, byScope: map<Scope, seq<Card>>)
    ensures |order| == |selected| && forall i | 0 <= i < |selected| :: order[i] == IdOf(selected[i], names)
    ensures byScope.Keys == ScopesOf(selected)
    ensures forall scope | scope in byScope :: byScope[scope] == CardsIn(selected, scope)
  {
    hide CardsIn, ScopesOf;
    order := [];
    byScope := map[];
    GroupingNothing(selected);
    for i := 0 to |selected|
      invariant |order| == i && forall k | 0 <= k < i :: order[k] == IdOf(selected[k], names)
      invariant byScope.Keys == ScopesOf(selected[..i])
      invariant forall scope | scope in byScope :: byScope[scope] == CardsIn(selected[..i], scope)
    {
      var located := selected[i];
      order := order + [names.id(located.scope.account, located.scope.folder, located.card.key)];
      CardsInNext(selected, i);
      var cards := if located.scope in byScope then byScope[located.scope] else [];
      byScope := byScope[located.scope := cards + [located.card]];
    }
    assert selected[..|selected|] == selected;
  }

  lemma GroupingNothing(selected: seq<Located>)
    ensures ScopesOf(selected[..0]) == {}
  {}

  /** The details of all selected cards, one folder at a time, whatever the order of the folders. */
  method Fetch(t: Tables, selected: seq<Located>, byScope: map<Scope, seq<Card>>, names: Names) returns (enriched: map<string, Enriched>)
    requires InPlace(selected)
    requires byScope.Keys == ScopesOf(selected)
    requires forall scope | scope in byScope :: byScope[scope] == CardsIn(selected, scope)
    ensures Found(t, enriched, selected, ScopesOf(selected), names)
  {
    hide Found, CardsIn, DirectAll, OneFolderPerNumber, InPlace, ScopesOf, Entered;
    enriched := map[];
    FoundNothing(t, selected, names);
    ghost var done: set<Scope> := {};
    var left := byScope.Keys;
    while left != {}
      invariant Found(t, enriched, selected, done, names)
      invariant left <= byScope.Keys && done == byScope.Keys - left
      decreases |left|
    {
      var scope: Scope :| scope in left;
      CardsInOneFolder(selected, scope, names);
      var cards := GroupedThreadCards(t, scope.account, byScope[scope], names);
      FoundNext(t, enriched, selected, done, scope, names);
      enriched := EnterAll(enriched, cards);
      assert byScope.Keys - (left - {scope}) == done + {scope};
      done := done + {scope};
      left := left - {scope};
    }
    assert done == ScopesOf(selected);
  }

  lemma FoundNothing(t: Tables, selected: seq<Located>, names: Names)
    ensures Found(t, map[], selected, {}, names)
  {}

  method EnterAll(enriched: map<string, Enriched>, more: seq<Enriched>) returns (after: map<string, Enriched>)
    ensures after == Entered(enriched, more)
  {
    after := enriched;
    for i := 0 to |more|
      invariant after == Entered(enriched, more[..i])
    {
      assert more[..i + 1][..i] == more[..i];
      after := after[more[i].id := more[i]];
    }
    assert more[..|more|] == more;
  }

  lemma CardsInNext(selected: seq<Located>, i: nat)
    requires i < |selected|
    ensures forall scope :: CardsIn(selected[..i + 1], scope) ==
                            CardsIn(selected[..i], scope) + (if selected[i].scope == scope then [selected[i].card] else [])
    ensures forall scope | scope !in ScopesOf(selected[..i]) :: CardsIn(selected[..i], scope) == []
    ensures ScopesOf(selected[..i + 1]) == ScopesOf(selected[..i]) + {selected[i].scope}
  {
    assert selected[..i + 1][..i] == selected[..i];
    forall scope | scope !in ScopesOf(selected[..i]) ensures CardsIn(selected[..i], scope) == [] {
      NoCardsIn(selected[..i], scope);
    }
    forall s | s in ScopesOf(selected[..i]) ensures s in ScopesOf(selected[..i + 1]) {
      var k :| 0 <= k < i && selected[..i][k].scope == s;
      assert selected[..i + 1][k].scope == s;
    }
    assert selected[..i + 1][i] == selected[i];
  }

  lemma {:induction false} NoCardsIn(selected: seq<Located>, scope: Scope)
    requires scope !in ScopesOf(selected)
    ensures CardsIn(selected, scope) == []
  {
    if selected != [] {
      var n := |selected| - 1;
      assert selected[n].scope in ScopesOf(selected);
      forall s | s in ScopesOf(selected[..n]) ensures s in ScopesOf(selected) {
        var k :| 0 <= k < n && selected[..n][k].scope == s;
        assert selected[k].scope == s;
      }
      NoCardsIn(selected[..n], scope);
    }
  }

  ghost predicate Distinct(order: seq<string>) {
    forall j, k | 0 <= j < k < |order| :: order[j] != order[k]
  }

  /** Each id takes its card away, so a second one finds none. */
  method LookUp(order: seq<string>, enriched: map<string, Enriched>) returns (r: Result<seq<Enriched>, PageError>)
    requires forall i | 0 <= i < |order| :: order[i] in enriched
    ensures Distinct(order) ==> r.Ok? && |r.value| == |order| && forall i | 0 <= i < |order| :: r.value[i] == enriched[order[i]]
    ensures !Distinct(order) ==> r == Err(LostConversation)
  {
    var left := enriched;
    var threads: seq<Enriched> := [];
    for i := 0 to |order|
      invariant |threads| == i && forall k | 0 <= k < i :: threads[k] == enriched[order[k]]
      invariant forall j, k | 0 <= j < k < i :: order[j] != order[k]
      invariant forall id :: id in left <==> id in enriched && forall k | 0 <= k < i :: order[k] != id
      invariant forall id | id in left :: left[id] == enriched[id]
    {
      if order[i] !in left {
        return Err(LostConversation);
      }
      threads := threads + [left[order[i]]];
      left := left - {order[i]};
    }
    r := Ok(threads);
  }

  /** Fetching by folder gives exactly what asking for every card by itself would, in page order; a
      conversation is lost only if two selected ones share an id. */
  method EnrichSelected(t: Tables, selected: seq<Located>, names: Names) returns (r: Result<seq<Enriched>, PageError>)
    requires InPlace(selected)
    ensures DistinctLocated(selected, names) ==> r == Ok(DirectPage(t, selected, names))
    ensures !DistinctLocated(selected, names) ==> r == Err(LostConversation)
  {
    var order, byScope := GroupByScope(selected, names);
    var enriched := Fetch(t, selected, byScope, names);
    FoundAll(t, enriched, selected, names);
    hide Found, InPlace, IdOf, CardsIn, ScopesOf;
    r := LookUp(order, enriched);
    DistinctOrder(selected, order, names);
    hide Distinct, DistinctLocated;
    if r.Ok? {
      assert r.value == DirectPage(t, selected, names);
    }
  }

  lemma DistinctOrder(selected: seq<Located>, order: seq<string>, names: Names)
    requires |order| == |selected| && forall i | 0 <= i < |selected| :: order[i] == IdOf(selected[i], names)
    ensures Distinct(order) <==> DistinctLocated(selected, names)
  {
    if Distinct(order) {
      forall i, j | 0 <= i < j < |selected| ensures IdOf(selected[i], names) != IdOf(selected[j], names) {
        assert order[i] != order[j];
      }
    }
  }

  lemma FoundAll(t: Tables, enriched: map<string, Enriched>, selected: seq<Located>, names: Names)
    requires Found(t, enriched, selected, ScopesOf(selected), names)
    ensures forall i | 0 <= i < |selected| :: IdOf(selected[i], names) in enriched
    ensures DistinctLocated(selected, names) ==>
              forall i | 0 <= i < |selected| :: enriched[IdOf(selected[i], names)] == DirectOf(t, selected[i], names)
  {
    forall i | 0 <= i < |selected|
      ensures IdOf(selected[i], names) in enriched
      ensures DistinctLocated(selected, names) ==> enriched[IdOf(selected[i], names)] == DirectOf(t, selected[i], names)
    {
      assert selected[i] in selected && selected[i].scope in ScopesOf(selected);
      var id := IdOf(selected[i], names);
      assert Known(t, id, enriched[id], selected, names);
      var located :| located in selected && IdOf(located, names) == id && DirectOf(t, located, names) == enriched[id];
      var j :| 0 <= j < |selected| && selected[j] == located;
      if DistinctLocated(selected, names) { assert i == j; }
    }
  }

  // ---- A page ----

  function Stored(store: map<Scope, Folder>, scope: Scope): Folder {
    if scope in store then store[scope] else Folder(false, [], [], [])
  }

  function CanonAll(scopes: seq<Scope>, names: Names): seq<Scope> {
    seq(|scopes|, i requires 0 <= i < |scopes| => Scope(scopes[i].account, names.canon(scopes[i].folder)))
  }

  function AllCandidates(store: map<Scope, Folder>, scopes: seq<Scope>, now: int, names: Names): seq<Candidate<Located>> {
    if scopes == [] then []
    else
      var n := |scopes| - 1;
      AllCandidates(store, scopes[..n], now, names) + CandidatesOf(scopes[n], Stored(store, scopes[n]), now, names)
  }

  /** Every candidate is a card in its place, under the id made of folder and key. */
  ghost predicate Labelled(out: seq<Candidate<Located>>, names: Names) {
    forall k | 0 <= k < |out| :: out[k].id == IdOf(out[k].item, names) && out[k].item.card.header.folder == out[k].item.scope.folder
  }

  lemma {:induction false} OfferedLabelled(scope: Scope, cards: seq<Card>, representatives: map<string, Header>, asleep: set<string>, names: Names)
    ensures Labelled(Offered(scope, cards, representatives, asleep, names), names)
  {
    if cards != [] {
      OfferedLabelled(scope, cards[1..], representatives, asleep, names);
      OfferedLabelled(scope, cards[1..], representatives - {cards[0].key}, asleep, names);
    }
  }

  lemma {:induction false} AllLabelled(store: map<Scope, Folder>, scopes: seq<Scope>, now: int, names: Names)
    ensures Labelled(AllCandidates(store, scopes, now, names), names)
  {
    if scopes != [] {
      var n := |scopes| - 1;
      var folder := Stored(store, scopes[n]);
      AllLabelled(store, scopes[..n], now, names);
      OfferedLabelled(scopes[n], folder.cards, Best(folder.matching), Asleep(folder.snoozed, scopes[n].folder, now, names), names);
    }
  }

  /** The cards a page selects are in place and do not share an id. */
  lemma SelectedAreDistinct(all: seq<Candidate<Located>>, view: View, limit: nat, before: Option<RawCursor>, hash: Context -> string, names: Names)
    requires Labelled(all, names) && PageOf(all, view, limit, before, hash).Ok?
    ensures var items := PageOf(all, view, limit, before, hash).value.items;
            InPlace(items) && DistinctLocated(items, names)
  {
    var position := if before.Some? then Some(DecodeCursor(before.value, hash(ContextOf(view)), view.sort).value) else None;
    var rows := Ordered(all, view.sort, position);
    var items := PageOf(all, view, limit, before, hash).value.items;
    PageIsOrdered(all, view, limit, before, hash, position);
    OrderedIsTheRest(all, view.sort, position);
    hide PageOf, DecodeCursor, ConversationPage.Offers, Labelled, IdOf, DistinctIds, Ordered, Advancing, PositionOf, Beyond;
    forall i | 0 <= i < |rows| ensures IdOf(rows[i].item, names) == rows[i].position.id && rows[i].item.card.header.folder == rows[i].item.scope.folder {
      assert rows[i] in rows;
      OfferIsLabelled(all, view.sort, rows[i], names);
    }
    forall i, j | 0 <= i < j < |items| ensures IdOf(items[i], names) != IdOf(items[j], names) {
      RowsDiffer(all, view.sort, position, i, j);
    }
  }

  lemma PageIsOrdered(all: seq<Candidate<Located>>, view: View, limit: nat, before: Option<RawCursor>, hash: Context -> string,
                      position: Option<Position>)
    requires PageOf(all, view, limit, before, hash).Ok?
    requires position == if before.Some? then Some(DecodeCursor(before.value, hash(ContextOf(view)), view.sort).value) else None
    ensures var rows, items := Ordered(all, view.sort, position), PageOf(all, view, limit, before, hash).value.items;
            DistinctIds(all) && |items| <= |rows| && forall i | 0 <= i < |items| :: items[i] == rows[i].item
  {
    hide Ordered, DistinctIds, DecodeCursor, ContextOf, Qualified;
  }

  lemma OfferIsLabelled(all: seq<Candidate<Located>>, sort: SortOrder, row: Row<Located>, names: Names)
    requires Labelled(all, names) && ConversationPage.Offers(all, sort, row)
    ensures IdOf(row.item, names) == row.position.id && row.item.card.header.folder == row.item.scope.folder
  {
    var c :| c in all && RowOf(c, sort) == row;
    var k :| 0 <= k < |all| && all[k] == c;
    assert all[k].id == IdOf(all[k].item, names);
  }

  lemma RowsDiffer(all: seq<Candidate<Located>>, sort: SortOrder, position: Option<Position>, i: nat, j: nat)
    requires DistinctIds(all) && i < j < |Ordered(all, sort, position)|
    ensures Ordered(all, sort, position)[i].position.id != Ordered(all, sort, position)[j].position.id
  {
    OrderedIsTheRest(all, sort, position);
    var rows := Ordered(all, sort, position);
    assert rows[i] in rows && rows[j] in rows;
    assert ConversationPage.Offers(all, sort, rows[i]) && ConversationPage.Offers(all, sort, rows[j]);
    var c :| c in all && RowOf(c, sort) == rows[i];
    var d :| d in all && RowOf(d, sort) == rows[j];
    assert Precedes(rows[i].position, rows[j].position, sort.dir);
    PrecedesStrict(rows[i].position, rows[j].position, sort.dir);
    var k :| 0 <= k < |all| && all[k] == c;
    var l :| 0 <= l < |all| && all[l] == d;
    assert k != l;
  }

  function ViewOf(scopes: seq<Scope>, namespace: string, query: string, filter: string, sort: SortOrder, names: Names): View {
    View(namespace, Canonical(CanonAll(scopes, names), ScopeLe), query, filter, sort)
  }

  /** The same folders are the same view, in whatever order, spelling and repetition they were asked for. */
  lemma SameFoldersSameView(scopes: seq<Scope>, others: seq<Scope>, namespace: string, query: string, filter: string,
                            sort: SortOrder, names: Names)
    ensures ViewOf(scopes, namespace, query, filter, sort, names) == ViewOf(others, namespace, query, filter, sort, names)
            <==> Elements(CanonAll(scopes, names)) == Elements(CanonAll(others, names))
  {
    ScopeLeLinear();
    CanonicalIff(CanonAll(scopes, names), CanonAll(others, names), ScopeLe);
  }

  /** A page of details is the page of the conversations of all folders together, each detailed by itself;
      no conversation is ever lost on the way. */
  method PageOfCards(t: Tables, store: map<Scope, Folder>, scopes: seq<Scope>, namespace: string, query: string, filter: string,
                     sort: SortOrder, limit: nat, before: Option<RawCursor>, hash: Context -> string, now: int, names: Names)
    returns (r: Result<Page<Enriched>, PageError>)
    ensures var view := ViewOf(scopes, namespace, query, filter, sort, names);
            var page := PageOf(AllCandidates(store, view.scopes, now, names), view, limit, before, hash);
            if exists i :: 0 <= i < |view.scopes| && Stored(store, view.scopes[i]).rss then r == Err(NotMail)
            else if page.Err? then r == Err(Refused(page.error))
            else r == Ok(Page(DirectPage(t, page.value.items, names), page.value.nextCursor))
  {
    hide CandidatesOf, PageOf, DirectPage;
    var view := ViewOf(scopes, namespace, query, filter, sort, names);
    var all: seq<Candidate<Located>> := [];
    for i := 0 to |view.scopes|
      invariant all == AllCandidates(store, view.scopes[..i], now, names)
      invariant forall k | 0 <= k < i :: !Stored(store, view.scopes[k]).rss
    {
      assert view.scopes[..i + 1][..i] == view.scopes[..i];
      var folder := Stored(store, view.scopes[i]);
      if folder.rss {
        return Err(NotMail);
      }
      var more := Candidates(view.scopes[i], folder, now, names);
      all := all + more;
    }
    assert view.scopes[..|view.scopes|] == view.scopes;
    AllLabelled(store, view.scopes, now, names);
    var selected := Paginate(all, view, limit, before, hash);
    if selected.Err? {
      return Err(Refused(selected.error));
    }
    SelectedAreDistinct(all, view, limit, before, hash, names);
    var threads := EnrichSelected(t, selected.value.items, names);
    r := Ok(Page(threads.value, selected.value.nextCursor));
  }
}
