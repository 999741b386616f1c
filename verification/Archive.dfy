/** The local mail archive (ADR 0014): messages kept on this computer only, with their original bytes beside
    the row the message list shows. */
module Archive {
  import opened Wrappers
  import Text

  type Bytes = seq<int>

  const UID_LIMIT := 0x1_0000_0000
  const MAX_MESSAGE_BYTES := 100 * 1024 * 1024

  type Uid = u: int | 0 <= u < UID_LIMIT

  /** A message's place in the archive account. */
  datatype Key = Key(folder: string, uid: Uid)

  /** What the message list has of a message; the id is lower-case, and empty when it has none. */
  datatype Row = Row(id: string, seen: bool, starred: bool)

  /** The two tables, for the archive account. */
  datatype Store = Store(raws: map<Key, Bytes>, rows: map<Key, Row>)

  /** A message as it is copied to another folder or account. */
  datatype Copy = Copy(raw: Bytes, seen: bool, starred: bool)

  datatype Summary = Summary(imported: nat, duplicates: nat, skipped: nat)

  /** What parsing answers about a message's bytes: whether they look like one, and its lower-case id. */
  datatype Reader = Reader(looksLikeMessage: Bytes -> bool, messageId: Bytes -> string)

  // ---- Uids ----

  ghost predicate Used(s: Store, folder: string, uid: Uid) {
    Key(folder, uid) in s.raws || Key(folder, uid) in s.rows
  }

  /** Every uid used in a folder is at most `m`, and `m` is one of them or 0. */
  ghost predicate IsNewest(s: Store, folder: string, m: Uid) {
    && (forall uid: Uid | Used(s, folder, uid) :: uid <= m)
    && (m == 0 || Used(s, folder, m))
  }

  lemma NewestExists(s: Store, folder: string) returns (m: Uid)
    ensures IsNewest(s, folder, m)
  {
    m := NewestIn(s, folder, s.raws.Keys + s.rows.Keys);
  }

  lemma NewestIn(s: Store, folder: string, keys: set<Key>) returns (m: Uid)
    requires forall k | k in keys :: Used(s, k.folder, k.uid)
    ensures forall k | k in keys && k.folder == folder :: k.uid <= m
    ensures m == 0 || Used(s, folder, m)
  {
    if keys == {} { return 0; }
    var k :| k in keys;
    m := NewestIn(s, folder, keys - {k});
    if k.folder == folder && k.uid > m { m := k.uid; }
  }

  /** The greatest uid of a folder in either table, 0 when it has none. */
  ghost function Newest(s: Store, folder: string): (m: Uid)
    ensures IsNewest(s, folder, m)
  {
    assert exists m :: IsNewest(s, folder, m) by { var m := NewestExists(s, folder); }
    var m: Uid :| IsNewest(s, folder, m);
    m
  }

  /** One more than the greatest, in 32 bits. */
  ghost function FreeUid(s: Store, folder: string): Uid {
    (Newest(s, folder) + 1) % UID_LIMIT
  }

  /** The next uid is one no message of the folder has, exactly unless the uids have run out and it comes
      round to a 0 that is taken. */
  lemma FreeUidIsFresh(s: Store, folder: string)
    ensures !Used(s, folder, FreeUid(s, folder)) <==> Newest(s, folder) < UID_LIMIT - 1 || !Used(s, folder, 0)
  {}

  // ---- Storing ----

  /** Both tables with the message at the next uid: the bytes replace any there, and a row there keeps its
      id if the new one has none. */
  ghost function Stored(s: Store, folder: string, copy: Copy, id: string): Store {
    var key := Key(folder, FreeUid(s, folder));
    var kept := if id == "" && key in s.rows then s.rows[key].id else id;
    Store(s.raws[key := copy.raw], s.rows[key := Row(kept, copy.seen, copy.starred)])
  }

  /** How a message reads back: one without a row counts as read and not starred. */
  function CopyAt(s: Store, key: Key): Copy
    requires key in s.raws
  {
    if key in s.rows then Copy(s.raws[key], s.rows[key].seen, s.rows[key].starred) else Copy(s.raws[key], true, false)
  }

  /** The messages at some places, counted. */
  ghost function Bag(s: Store, keys: set<Key>): multiset<Copy>
    requires keys <= s.raws.Keys
  {
    if keys == {} then multiset{}
    else
      var k :| k in keys;
      Bag(s, keys - {k}) + multiset{CopyAt(s, k)}
  }

  /** Everything in the archive. */
  ghost function Contents(s: Store): multiset<Copy> {
    Bag(s, s.raws.Keys)
  }

  lemma {:induction false} BagWithout(s: Store, keys: set<Key>, key: Key)
    requires keys <= s.raws.Keys && key in keys
    ensures Bag(s, keys) == Bag(s, keys - {key}) + multiset{CopyAt(s, key)}
    decreases |keys|
  {
    var k :| k in keys && Bag(s, keys) == Bag(s, keys - {k}) + multiset{CopyAt(s, k)};
    if k != key {
      BagWithout(s, keys - {k}, key);
      BagWithout(s, keys - {key}, k);
      assert keys - {k} - {key} == keys - {key} - {k};
    }
  }

  lemma {:induction false} BagUnion(s: Store, a: set<Key>, b: set<Key>)
    requires a + b <= s.raws.Keys && a !! b
    ensures Bag(s, a + b) == Bag(s, a) + Bag(s, b)
    decreases |b|
  {
    if b == {} {
      assert a + b == a;
    } else {
      var k :| k in b;
      BagUnion(s, a, b - {k});
      BagWithout(s, a + b, k);
      BagWithout(s, b, k);
      assert a + b - {k} == a + (b - {k});
    }
  }

  lemma {:induction false} BagSame(s: Store, t: Store, keys: set<Key>)
    requires keys <= s.raws.Keys && keys <= t.raws.Keys
    requires forall k | k in keys :: CopyAt(s, k) == CopyAt(t, k)
    ensures Bag(s, keys) == Bag(t, keys)
    decreases |keys|
  {
    if keys != {} {
      var k :| k in keys;
      BagSame(s, t, keys - {k});
      BagWithout(s, keys, k);
      BagWithout(t, keys, k);
    }
  }

  /** What appending does when the uids last: everything there stays as it was, the copies join it, and all
      that is new is behind the newest of the folder. */
  ghost predicate Grown(s: Store, t: Store, folder: string, copies: multiset<Copy>) {
    && Contents(t) == Contents(s) + copies
    && (forall k | k in s.raws :: k in t.raws && CopyAt(t, k) == CopyAt(s, k))
    && (forall k | k in t.raws && k !in s.raws :: k.folder == folder && k.uid > Newest(s, folder))
  }

  /** A fresh store adds one message and touches none. */
  lemma StoredAdds(s: Store, folder: string, copy: Copy, id: string)
    requires Newest(s, folder) < UID_LIMIT - 1
    ensures var t := Stored(s, folder, copy, id);
            && Grown(s, t, folder, multiset{copy})
            && Newest(t, folder) == Newest(s, folder) + 1
  {
    var t := Stored(s, folder, copy, id);
    var key := Key(folder, FreeUid(s, folder));
    FreeUidIsFresh(s, folder);
    assert key !in s.raws && key !in s.rows;
    StoredIsNewest(s, folder, copy, id);
    hide Bag, Newest;
    BagWithout(t, t.raws.Keys, key);
    assert t.raws.Keys - {key} == s.raws.Keys;
    BagSame(s, t, s.raws.Keys);
  }

  lemma StoredIsNewest(s: Store, folder: string, copy: Copy, id: string)
    requires Newest(s, folder) < UID_LIMIT - 1
    ensures Newest(Stored(s, folder, copy, id), folder) == FreeUid(s, folder) == Newest(s, folder) + 1
  {
    FreeUidIsFresh(s, folder);
    var t := Stored(s, folder, copy, id);
    var uid := FreeUid(s, folder);
    assert Used(t, folder, uid);
    var m := Newest(t, folder);
    assert m != uid ==> Used(s, folder, m) || m == 0;
  }

  // ---- Copying and moving ----

  ghost function AppendAll(s: Store, folder: string, copies: seq<Copy>, reader: Reader): Store {
    if copies == [] then s
    else
      var n := |copies| - 1;
      Stored(AppendAll(s, folder, copies[..n], reader), folder, copies[n], reader.messageId(copies[n].raw))
  }

  /** The listed messages that are there, in the order listed. */
  function ListedCopies(s: Store, folder: string, uids: seq<Uid>): seq<Copy> {
    if uids == [] then []
    else
      var rest := ListedCopies(s, folder, uids[..|uids| - 1]);
      var key := Key(folder, uids[|uids| - 1]);
      if key in s.raws then rest + [CopyAt(s, key)] else rest
  }

  function Listed(folder: string, uids: seq<Uid>): set<Key> {
    set u | u in uids :: Key(folder, u)
  }

  function Expunged(s: Store, folder: string, uids: seq<Uid>): Store {
    Store(s.raws - Listed(folder, uids), s.rows - Listed(folder, uids))
  }

  ghost function Copied(s: Store, from: string, to: string, uids: seq<Uid>, reader: Reader): Store {
    AppendAll(s, to, ListedCopies(s, from, uids), reader)
  }

  ghost function Moved(s: Store, from: string, to: string, uids: seq<Uid>, reader: Reader): Store {
    Expunged(Copied(s, from, to, uids, reader), from, uids)
  }

  ghost predicate Room(s: Store, folder: string, n: nat) {
    Newest(s, folder) + n < UID_LIMIT
  }

  lemma {:induction false} AppendAllGrows(s: Store, folder: string, copies: seq<Copy>, reader: Reader)
    requires Room(s, folder, |copies|)
    ensures Grown(s, AppendAll(s, folder, copies, reader), folder, multiset(copies))
    ensures Newest(AppendAll(s, folder, copies, reader), folder) == Newest(s, folder) + |copies|
  {
    hide Stored, CopyAt, Grown, Contents;
    if copies == [] {
      GrownByNothing(s, folder);
    } else {
      var n := |copies| - 1;
      AppendAllGrows(s, folder, copies[..n], reader);
      StoredAdds(AppendAll(s, folder, copies[..n], reader), folder, copies[n], reader.messageId(copies[n].raw));
      GrownTwice(s, AppendAll(s, folder, copies[..n], reader), AppendAll(s, folder, copies, reader), folder,
                 multiset(copies[..n]), multiset{copies[n]});
      assert copies == copies[..n] + [copies[n]];
    }
  }

  lemma GrownByNothing(s: Store, folder: string)
    ensures Grown(s, s, folder, multiset{})
  {}

  lemma GrownTwice(s: Store, t: Store, u: Store, folder: string, a: multiset<Copy>, b: multiset<Copy>)
    requires Grown(s, t, folder, a) && Grown(t, u, folder, b) && Newest(s, folder) <= Newest(t, folder)
    ensures Grown(s, u, folder, a + b)
  {}

  lemma {:induction false} BagCount(s: Store, keys: set<Key>)
    requires keys <= s.raws.Keys
    ensures |Bag(s, keys)| == |keys|
    decreases |keys|
  {
    if keys != {} {
      var k :| k in keys;
      BagCount(s, keys - {k});
      BagWithout(s, keys, k);
    }
  }

  /** No uid whose message is there is listed twice. */
  ghost predicate PresentOnce(s: Store, folder: string, uids: seq<Uid>) {
    forall i, j | 0 <= i < j < |uids| && uids[i] == uids[j] :: Key(folder, uids[i]) !in s.raws
  }

  lemma {:induction false} CopiesCount(s: Store, folder: string, uids: seq<Uid>)
    ensures |Listed(folder, uids) * s.raws.Keys| <= |ListedCopies(s, folder, uids)| <= |uids|
    ensures |ListedCopies(s, folder, uids)| == |Listed(folder, uids) * s.raws.Keys| <==> PresentOnce(s, folder, uids)
    ensures PresentOnce(s, folder, uids) ==> multiset(ListedCopies(s, folder, uids)) == Bag(s, Listed(folder, uids) * s.raws.Keys)
  {
    if uids == [] {
      assert Listed(folder, uids) * s.raws.Keys == {};
    } else {
      var n := |uids| - 1;
      var key, before := Key(folder, uids[n]), Listed(folder, uids[..n]) * s.raws.Keys;
      CopiesCount(s, folder, uids[..n]);
      ListedSnoc(s, folder, uids);
      hide Bag, CopyAt, Listed, PresentOnce;
      if key in s.raws && key !in before {
        BagWithout(s, before + {key}, key);
        assert before + {key} - {key} == before;
      }
    }
  }

  lemma ListedSnoc(s: Store, folder: string, uids: seq<Uid>)
    requires uids != []
    ensures var n := |uids| - 1;
            var key, before := Key(folder, uids[n]), Listed(folder, uids[..n]) * s.raws.Keys;
            && Listed(folder, uids) * s.raws.Keys == before + (if key in s.raws then {key} else {})
            && (PresentOnce(s, folder, uids) <==> PresentOnce(s, folder, uids[..n]) && key !in before)
  {
    var n := |uids| - 1;
    var front := uids[..n];
    var key, before := Key(folder, uids[n]), Listed(folder, front) * s.raws.Keys;
    assert uids == front + [uids[n]];
    assert forall i | 0 <= i < n :: front[i] == uids[i];
    if PresentOnce(s, folder, front) && key !in before {
      forall i, j | 0 <= i < j < |uids| && uids[i] == uids[j] ensures Key(folder, uids[i]) !in s.raws {
        if j == n { assert front[i] in front; }
      }
    }
    if key in before {
      var i :| 0 <= i < n && front[i] == uids[n];
      assert uids[i] == uids[n];
    }
  }

  /** The copies are the listed messages, each once, exactly when none is listed twice. */
  lemma ListedCopiesAreTheBag(s: Store, folder: string, uids: seq<Uid>)
    ensures multiset(ListedCopies(s, folder, uids)) == Bag(s, Listed(folder, uids) * s.raws.Keys) <==> PresentOnce(s, folder, uids)
    ensures |ListedCopies(s, folder, uids)| <= |uids|
  {
    CopiesCount(s, folder, uids);
    BagCount(s, Listed(folder, uids) * s.raws.Keys);
    hide PresentOnce, Bag, ListedCopies, Listed;
    if !PresentOnce(s, folder, uids) {
      assert |multiset(ListedCopies(s, folder, uids))| > |Bag(s, Listed(folder, uids) * s.raws.Keys)|;
    }
  }

  /** Copying adds the listed messages, each once, exactly when none is listed twice. */
  lemma CopyAdds(s: Store, from: string, to: string, uids: seq<Uid>, reader: Reader)
    requires Room(s, to, |ListedCopies(s, from, uids)|)
    ensures Grown(s, Copied(s, from, to, uids, reader), to, Bag(s, Listed(from, uids) * s.raws.Keys)) <==> PresentOnce(s, from, uids)
    ensures Grown(s, Copied(s, from, to, uids, reader), to, multiset(ListedCopies(s, from, uids)))
  {
    ListedCopiesAreTheBag(s, from, uids);
    AppendAllGrows(s, to, ListedCopies(s, from, uids), reader);
    hide PresentOnce, Bag, ListedCopies, Listed, AppendAll, Contents, CopyAt, Newest;
    SameRest(Contents(s), multiset(ListedCopies(s, from, uids)), Bag(s, Listed(from, uids) * s.raws.Keys));
  }

  // Where the copies land, and which of them a move then takes away again.

  function NewKeys(folder: string, first: nat, n: nat): set<Key>
    requires first + n <= UID_LIMIT
  {
    set uid: Uid | first <= uid < first + n :: Key(folder, uid)
  }

  /** The copies whose new places are not on the list. */
  function Surviving(copies: seq<Copy>, folder: string, first: nat, listed: set<Key>): seq<Copy>
    requires first + |copies| <= UID_LIMIT
  {
    if copies == [] then []
    else
      var n := |copies| - 1;
      Surviving(copies[..n], folder, first, listed) + (if Key(folder, first + n) in listed then [] else [copies[n]])
  }

  /** The copies stand one behind the other from `first` on. */
  ghost predicate Placed(t: Store, folder: string, first: nat, copies: seq<Copy>)
    requires first + |copies| <= UID_LIMIT
  {
    forall uid: Uid | first <= uid < first + |copies| ::
      Key(folder, uid) in t.raws && CopyAt(t, Key(folder, uid)) == copies[uid - first]
  }

  lemma StoredPlaces(s: Store, folder: string, copy: Copy, id: string)
    requires Newest(s, folder) < UID_LIMIT - 1
    ensures var t, key := Stored(s, folder, copy, id), Key(folder, Newest(s, folder) + 1);
            && key !in s.raws && t.raws.Keys == s.raws.Keys + {key} && CopyAt(t, key) == copy
            && forall k | k in s.raws :: CopyAt(t, k) == CopyAt(s, k)
  {
    FreeUidIsFresh(s, folder);
  }

  lemma NewKeysNext(folder: string, first: nat, n: nat)
    requires first + n + 1 <= UID_LIMIT
    ensures NewKeys(folder, first, n + 1) == NewKeys(folder, first, n) + {Key(folder, first + n)}
    ensures Key(folder, first + n) !in NewKeys(folder, first, n)
  {}

  lemma PlacedNext(before: Store, t: Store, folder: string, first: nat, copies: seq<Copy>, n: nat)
    requires n + 1 == |copies| && first + n + 1 <= UID_LIMIT
    requires Placed(before, folder, first, copies[..n])
    requires forall k | k in before.raws :: k in t.raws && CopyAt(t, k) == CopyAt(before, k)
    requires Key(folder, first + n) in t.raws && CopyAt(t, Key(folder, first + n)) == copies[n]
    ensures Placed(t, folder, first, copies)
  {
    hide CopyAt;
  }

  lemma {:induction false} AppendAllPlaces(s: Store, folder: string, copies: seq<Copy>, reader: Reader)
    requires Room(s, folder, |copies|)
    ensures var t, first := AppendAll(s, folder, copies, reader), Newest(s, folder) + 1;
            && t.raws.Keys == s.raws.Keys + NewKeys(folder, first, |copies|)
            && s.raws.Keys !! NewKeys(folder, first, |copies|)
            && Placed(t, folder, first, copies)
            && forall k | k in s.raws :: CopyAt(t, k) == CopyAt(s, k)
  {
    hide Stored, CopyAt, Newest, Grown, NewKeys, Placed;
    if copies == [] {
      NothingPlaced(s, folder, Newest(s, folder) + 1);
    } else {
      var n := |copies| - 1;
      var id := reader.messageId(copies[n].raw);
      var before := AppendAll(s, folder, copies[..n], reader);
      AppendAllPlaces(s, folder, copies[..n], reader);
      AppendAllGrows(s, folder, copies[..n], reader);
      StoredPlaces(before, folder, copies[n], id);
      NewKeysNext(folder, Newest(s, folder) + 1, n);
      PlacedNext(before, AppendAll(s, folder, copies, reader), folder, Newest(s, folder) + 1, copies, n);
    }
  }

  lemma NothingPlaced(s: Store, folder: string, first: nat)
    requires first <= UID_LIMIT
    ensures Placed(s, folder, first, []) && NewKeys(folder, first, 0) == {}
  {}

  lemma PlacedBefore(t: Store, folder: string, first: nat, copies: seq<Copy>)
    requires copies != [] && first + |copies| <= UID_LIMIT && Placed(t, folder, first, copies)
    ensures var n := |copies| - 1;
            && Placed(t, folder, first, copies[..n])
            && Key(folder, first + n) in t.raws && CopyAt(t, Key(folder, first + n)) == copies[n]
  {
    hide CopyAt;
  }

  lemma SurvivingNext(copies: seq<Copy>, folder: string, first: nat, listed: set<Key>)
    requires copies != [] && first + |copies| <= UID_LIMIT
    ensures var n := |copies| - 1;
            multiset(Surviving(copies, folder, first, listed)) ==
              multiset(Surviving(copies[..n], folder, first, listed))
              + (if Key(folder, first + n) in listed then multiset{} else multiset{copies[n]})
  {}

  lemma BagOneMore(t: Store, keys: set<Key>, key: Key, listed: set<Key>)
    requires keys + {key} <= t.raws.Keys && key !in keys
    ensures Bag(t, keys + {key} - listed) == Bag(t, keys - listed) + (if key in listed then multiset{} else multiset{CopyAt(t, key)})
  {
    hide Bag, CopyAt;
    if key in listed {
      assert keys + {key} - listed == keys - listed;
    } else {
      BagWithout(t, keys + {key} - listed, key);
      assert keys + {key} - listed - {key} == keys - listed;
    }
  }

  lemma {:induction false} SurvivingAreTheBag(t: Store, folder: string, first: nat, copies: seq<Copy>, listed: set<Key>)
    requires first + |copies| <= UID_LIMIT && Placed(t, folder, first, copies)
    requires NewKeys(folder, first, |copies|) <= t.raws.Keys
    ensures Bag(t, NewKeys(folder, first, |copies|) - listed) == multiset(Surviving(copies, folder, first, listed))
  {
    hide *;
    if copies == [] {
      NothingSurvives(t, folder, first, listed);
    } else {
      var n := |copies| - 1;
      var front := copies[..n];
      SurvivingNext(copies, folder, first, listed);
      NewKeysNext(folder, first, n);
      PlacedBefore(t, folder, first, copies);
      SurvivingAreTheBag(t, folder, first, front, listed);
      BagOneMore(t, NewKeys(folder, first, n), Key(folder, first + n), listed);
    }
  }

  lemma NothingSurvives(t: Store, folder: string, first: nat, listed: set<Key>)
    requires first <= UID_LIMIT
    ensures NewKeys(folder, first, 0) == {}
    ensures Bag(t, NewKeys(folder, first, 0) - listed) == multiset(Surviving([], folder, first, listed))
  {
    assert NewKeys(folder, first, 0) - listed == {};
  }

  /** What a move leaves: the messages not listed, and the copies that are not expunged with them. */
  lemma MovedIs(s: Store, from: string, to: string, uids: seq<Uid>, reader: Reader)
    requires Room(s, to, |ListedCopies(s, from, uids)|)
    ensures var listed := Listed(from, uids);
            && Contents(Moved(s, from, to, uids, reader)) ==
                 Bag(s, s.raws.Keys - listed) + multiset(Surviving(ListedCopies(s, from, uids), to, Newest(s, to) + 1, listed))
            && Contents(s) == Bag(s, s.raws.Keys - listed) + Bag(s, listed * s.raws.Keys)
  {
    hide Bag, AppendAll, ListedCopies, CopyAt, Newest, NewKeys, Listed;
    var copies, first, listed := ListedCopies(s, from, uids), Newest(s, to) + 1, Listed(from, uids);
    var t, after := Copied(s, from, to, uids, reader), Moved(s, from, to, uids, reader);
    AppendAllPlaces(s, to, copies, reader);
    var old_, new_ := s.raws.Keys - listed, NewKeys(to, first, |copies|) - listed;
    assert after.raws.Keys == old_ + new_;
    SurvivingAreTheBag(t, to, first, copies, listed);
    ExpungedReads(t, from, uids);
    BagUnion(after, old_, new_);
    BagSame(s, after, old_);
    BagSame(t, after, new_);
    assert s.raws.Keys == old_ + listed * s.raws.Keys;
    BagUnion(s, old_, listed * s.raws.Keys);
  }

  lemma ExpungedReads(t: Store, folder: string, uids: seq<Uid>)
    ensures forall k | k in t.raws && k !in Listed(folder, uids) :: CopyAt(Expunged(t, folder, uids), k) == CopyAt(t, k)
  {}

  /** A move conserves the archive, bytes and flags alike, exactly when the copies that are not expunged
      again are the listed messages; and no listed place is left taken. */
  lemma MoveConserves(s: Store, from: string, to: string, uids: seq<Uid>, reader: Reader)
    requires Room(s, to, |ListedCopies(s, from, uids)|)
    ensures Contents(Moved(s, from, to, uids, reader)) == Contents(s) <==>
              multiset(Surviving(ListedCopies(s, from, uids), to, Newest(s, to) + 1, Listed(from, uids)))
              == Bag(s, Listed(from, uids) * s.raws.Keys)
    ensures forall k | k in Moved(s, from, to, uids, reader).raws :: k !in Listed(from, uids)
  {
    MovedIs(s, from, to, uids, reader);
    hide Contents, Copied, Surviving, Bag, ListedCopies, Listed, Newest;
    var listed := Listed(from, uids);
    SameRest(Bag(s, s.raws.Keys - listed), multiset(Surviving(ListedCopies(s, from, uids), to, Newest(s, to) + 1, listed)),
             Bag(s, listed * s.raws.Keys));
  }

  lemma SameRest(rest: multiset<Copy>, a: multiset<Copy>, b: multiset<Copy>)
    ensures rest + a == rest + b <==> a == b
  {
    assert rest + a - rest == a && rest + b - rest == b;
  }

  /** Between two folders a move conserves the archive exactly when no message is listed twice. */
  lemma MoveBetweenConserves(s: Store, from: string, to: string, uids: seq<Uid>, reader: Reader)
    requires from != to && Room(s, to, |ListedCopies(s, from, uids)|)
    ensures Contents(Moved(s, from, to, uids, reader)) == Contents(s) <==> PresentOnce(s, from, uids)
  {
    MoveConserves(s, from, to, uids, reader);
    ListedCopiesAreTheBag(s, from, uids);
    SurvivingAll(ListedCopies(s, from, uids), to, Newest(s, to) + 1, Listed(from, uids));
    hide PresentOnce, Bag, ListedCopies, Surviving, Moved, Contents;
  }

  /** Onto its own folder a move of messages listed once conserves the archive exactly when none of the uids
      that the copies are given is on the list. */
  lemma MoveWithinConserves(s: Store, folder: string, uids: seq<Uid>, reader: Reader)
    requires PresentOnce(s, folder, uids) && Room(s, folder, |ListedCopies(s, folder, uids)|)
    ensures Contents(Moved(s, folder, folder, uids, reader)) == Contents(s) <==>
              forall u | u in uids :: !(Newest(s, folder) < u <= Newest(s, folder) + |ListedCopies(s, folder, uids)|)
  {
    MoveConserves(s, folder, folder, uids, reader);
    CopiesCount(s, folder, uids);
    hide PresentOnce, Bag, ListedCopies, Surviving, Moved, Contents, Newest, NewKeys, Listed;
    var copies, first, listed := ListedCopies(s, folder, uids), Newest(s, folder) + 1, Listed(folder, uids);
    var bag := Bag(s, listed * s.raws.Keys);
    NewAndListed(folder, first, |copies|, uids);
    SurvivingAll(copies, folder, first, listed);
    SameAsAll(copies, Surviving(copies, folder, first, listed), bag);
  }

  lemma SameAsAll(copies: seq<Copy>, some: seq<Copy>, bag: multiset<Copy>)
    requires multiset(copies) == bag
    ensures multiset(some) == bag ==> |some| == |copies|
  {
    assert |multiset(some)| == |some| && |multiset(copies)| == |copies|;
  }

  lemma NewAndListed(folder: string, first: nat, n: nat, uids: seq<Uid>)
    requires first + n <= UID_LIMIT
    ensures NewKeys(folder, first, n) * Listed(folder, uids) == {} <==> forall u | u in uids :: !(first <= u < first + n)
  {
    if u :| u in uids && first <= u < first + n {
      assert Key(folder, u) in NewKeys(folder, first, n) * Listed(folder, uids);
    }
  }

  /** All the copies survive, or fewer do. */
  lemma {:induction false} SurvivingAll(copies: seq<Copy>, folder: string, first: nat, listed: set<Key>)
    requires first + |copies| <= UID_LIMIT
    ensures |Surviving(copies, folder, first, listed)| <= |copies|
    ensures NewKeys(folder, first, |copies|) * listed == {} <==> |Surviving(copies, folder, first, listed)| == |copies|
    ensures NewKeys(folder, first, |copies|) * listed == {} ==> Surviving(copies, folder, first, listed) == copies
  {
    if copies == [] {
      assert NewKeys(folder, first, 0) * listed == {};
    } else {
      hide NewKeys;
      var n := |copies| - 1;
      var key, keys, front := Key(folder, first + n), NewKeys(folder, first, n), copies[..n];
      SurvivingAll(front, folder, first, listed);
      NewKeysNext(folder, first, n);
      NoneOfBoth(keys, key, listed);
      assert Surviving(copies, folder, first, listed) == Surviving(front, folder, first, listed) + (if key in listed then [] else [copies[n]]);
      hide Surviving;
      assert copies == front + [copies[n]];
    }
  }

  lemma NoneOfBoth(keys: set<Key>, key: Key, listed: set<Key>)
    ensures (keys + {key}) * listed == {} <==> keys * listed == {} && key !in listed
  {
    assert (keys + {key}) * listed == keys * listed + (if key in listed then {key} else {});
  }

  /** Both happen: a uid listed twice is copied twice, and one that is only given out by the copy itself has
      that copy expunged. */
  lemma MoveDoubles(raw: Bytes, reader: Reader)
    ensures var s := Store(map[Key("a", 1) := raw], map[]);
            Contents(Moved(s, "a", "b", [1, 1], reader)) == Contents(s) + Contents(s)
  {
    var s := Store(map[Key("a", 1) := raw], map[]);
    var copy := CopyAt(s, Key("a", 1));
    OneMessage(s, Key("a", 1));
    ListedTwice(s, "a", 1);
    assert Newest(s, "b") == 0;
    AppendAllGrows(s, "b", [copy, copy], reader);
    assert multiset([copy, copy]) == multiset{copy, copy};
    hide AppendAll, ListedCopies, Newest, Bag;
    var t := Copied(s, "a", "b", [1, 1], reader);
    assert Grown(s, t, "b", multiset{copy, copy});
    ExpungedOne(t, "a", 1, [1, 1]);
  }

  lemma ListedTwice(s: Store, folder: string, uid: Uid)
    requires Key(folder, uid) in s.raws
    ensures ListedCopies(s, folder, [uid, uid]) == [CopyAt(s, Key(folder, uid)), CopyAt(s, Key(folder, uid))]
  {
    assert ListedCopies(s, folder, []) == [];
    assert [uid, uid][..1] == [uid] && [uid][..0] == [];
    assert ListedCopies(s, folder, [uid]) == [CopyAt(s, Key(folder, uid))];
  }

  lemma ExpungedOne(t: Store, folder: string, uid: Uid, uids: seq<Uid>)
    requires Key(folder, uid) in t.raws && Listed(folder, uids) == {Key(folder, uid)}
    ensures Contents(Expunged(t, folder, uids)) == Contents(t) - multiset{CopyAt(t, Key(folder, uid))}
  {
    var after := Expunged(t, folder, uids);
    BagWithout(t, t.raws.Keys, Key(folder, uid));
    assert after.raws.Keys == t.raws.Keys - {Key(folder, uid)};
    BagSame(t, after, after.raws.Keys);
  }

  lemma MoveLoses(raw: Bytes, reader: Reader)
    ensures var s := Store(map[Key("a", 1) := raw], map[]);
            Moved(s, "a", "a", [1, 2], reader).raws == map[]
  {
    var s := Store(map[Key("a", 1) := raw], map[]);
    var copy := CopyAt(s, Key("a", 1));
    assert ListedCopies(s, "a", []) == [];
    assert [1 as Uid, 2][..1] == [1] && [1 as Uid][..0] == [];
    assert ListedCopies(s, "a", [1]) == [copy];
    assert ListedCopies(s, "a", [1, 2]) == [copy];
    assert Used(s, "a", 1);
    assert FreeUid(s, "a") == 2;
    assert [copy][..0] == [] && AppendAll(s, "a", [], reader) == s;
    assert AppendAll(s, "a", [copy], reader) == Stored(s, "a", copy, reader.messageId(copy.raw));
    assert 1 in [1 as Uid, 2] && 2 in [1 as Uid, 2];
    assert Key("a", 1) in Listed("a", [1, 2]) && Key("a", 2) in Listed("a", [1, 2]);
  }

  lemma OneMessage(s: Store, key: Key)
    requires s.raws.Keys == {key}
    ensures Contents(s) == multiset{CopyAt(s, key)}
  {
    BagWithout(s, {key}, key);
    assert {key} - {key} == {};
  }

  // ---- Importing ----

  predicate IsMail(raw: Bytes, reader: Reader) {
    |raw| <= MAX_MESSAGE_BYTES && reader.looksLikeMessage(raw)
  }

  /** The ids a folder has messages for. */
  function KnownIds(s: Store, folder: string): set<string> {
    set k | k in s.rows && k.folder == folder && s.rows[k].id != "" :: s.rows[k].id
  }

  /** An import that has come some way: the ids seen and the counts. */
  datatype Tally = Tally(known: set<string>, summary: Summary)

  predicate Imports(tally: Tally, raw: Bytes, reader: Reader) {
    IsMail(raw, reader) && (reader.messageId(raw) == "" || reader.messageId(raw) !in tally.known)
  }

  function Counted(tally: Tally, raw: Bytes, reader: Reader): Tally {
    var s := tally.summary;
    if !IsMail(raw, reader) then tally.(summary := s.(skipped := s.skipped + 1))
    else if Imports(tally, raw, reader) then
      Tally(if reader.messageId(raw) == "" then tally.known else tally.known + {reader.messageId(raw)}, s.(imported := s.imported + 1))
    else tally.(summary := s.(duplicates := s.duplicates + 1))
  }

  function CountAll(known: set<string>, raws: seq<Bytes>, reader: Reader): Tally {
    if raws == [] then Tally(known, Summary(0, 0, 0))
    else Counted(CountAll(known, raws[..|raws| - 1], reader), raws[|raws| - 1], reader)
  }

  /** The archive after an import: what is imported counts as read. */
  ghost function ImportAll(s: Store, folder: string, known: set<string>, raws: seq<Bytes>, reader: Reader): Store {
    if raws == [] then s
    else
      var n := |raws| - 1;
      var t := ImportAll(s, folder, known, raws[..n], reader);
      if Imports(CountAll(known, raws[..n], reader), raws[n], reader)
      then Stored(t, folder, Copy(raws[n], true, false), reader.messageId(raws[n]))
      else t
  }

  /** The messages an import takes in. */
  function Imported(known: set<string>, raws: seq<Bytes>, reader: Reader): seq<Copy> {
    if raws == [] then []
    else
      var n := |raws| - 1;
      Imported(known, raws[..n], reader)
      + (if Imports(CountAll(known, raws[..n], reader), raws[n], reader) then [Copy(raws[n], true, false)] else [])
  }

  /** What an import takes in is read and not starred. */
  lemma {:induction false} ImportedAreRead(known: set<string>, raws: seq<Bytes>, reader: Reader)
    ensures forall i | 0 <= i < |Imported(known, raws, reader)| ::
              Imported(known, raws, reader)[i].seen && !Imported(known, raws, reader)[i].starred && Imported(known, raws, reader)[i].raw in raws
  {
    if raws != [] {
      ImportedAreRead(known, raws[..|raws| - 1], reader);
      assert raws == raws[..|raws| - 1] + [raws[|raws| - 1]];
    }
  }

  /** One of the messages before has this id. */
  ghost predicate CameBefore(raws: seq<Bytes>, id: string, reader: Reader) {
    exists j :: 0 <= j < |raws| && |raws[j]| <= 104_857_600 && reader.looksLikeMessage(raws[j]) && reader.messageId(raws[j]) == id
  }

  lemma {:induction false} KnownAfter(known: set<string>, raws: seq<Bytes>, id: string, reader: Reader)
    requires id != ""
    ensures id in CountAll(known, raws, reader).known <==> id in known || CameBefore(raws, id, reader)
  {
    if raws != [] {
      var n := |raws| - 1;
      KnownAfter(known, raws[..n], id, reader);
      assert forall j | 0 <= j < n :: raws[..n][j] == raws[j];
      if CameBefore(raws[..n], id, reader) {
        var j :| 0 <= j < n && |raws[..n][j]| <= 104_857_600 && reader.looksLikeMessage(raws[..n][j]) && reader.messageId(raws[..n][j]) == id;
        assert reader.messageId(raws[j]) == id;
      }
    }
  }

  /** Each message counts once: as skipped if it is over 100 MiB or no message, as a duplicate if it has an id that the
      folder or a message before it has, and as imported otherwise. */
  lemma CountsOne(known: set<string>, raws: seq<Bytes>, k: nat, reader: Reader)
    requires k < |raws|
    ensures var before, after, id := CountAll(known, raws[..k], reader).summary, CountAll(known, raws[..k + 1], reader).summary, reader.messageId(raws[k]);
            if |raws[k]| > 104_857_600 || !reader.looksLikeMessage(raws[k]) then after == before.(skipped := before.skipped + 1)
            else if id != "" && (id in known || CameBefore(raws[..k], id, reader)) then after == before.(duplicates := before.duplicates + 1)
            else after == before.(imported := before.imported + 1)
  {
    assert raws[..k + 1][..k] == raws[..k];
    if reader.messageId(raws[k]) != "" { KnownAfter(known, raws[..k], reader.messageId(raws[k]), reader); }
    hide CameBefore;
  }

  /** An import adds exactly what it counts as imported, each once, and afterwards the folder knows every id
      the import has seen. */
  lemma {:induction false} ImportAdds(s: Store, folder: string, raws: seq<Bytes>, reader: Reader)
    requires Room(s, folder, |raws|)
    ensures var known := KnownIds(s, folder);
            var t := ImportAll(s, folder, known, raws, reader);
            && Grown(s, t, folder, multiset(Imported(known, raws, reader)))
            && |Imported(known, raws, reader)| == CountAll(known, raws, reader).summary.imported
            && KnownIds(t, folder) == CountAll(known, raws, reader).known
            && Newest(s, folder) <= Newest(t, folder) <= Newest(s, folder) + |raws|
  {
    hide Stored, CopyAt, Grown, Contents, KnownIds;
    var known := KnownIds(s, folder);
    if raws == [] {
      GrownByNothing(s, folder);
    } else {
      var n := |raws| - 1;
      ImportAdds(s, folder, raws[..n], reader);
      var t := ImportAll(s, folder, known, raws[..n], reader);
      if Imports(CountAll(known, raws[..n], reader), raws[n], reader) {
        var copy, id := Copy(raws[n], true, false), reader.messageId(raws[n]);
        StoredAdds(t, folder, copy, id);
        StoredKnows(t, folder, copy, id);
        GrownTwice(s, t, Stored(t, folder, copy, id), folder, multiset(Imported(known, raws[..n], reader)), multiset{copy});
        assert Imported(known, raws, reader) == Imported(known, raws[..n], reader) + [copy];
      } else {
        assert Imported(known, raws, reader) == Imported(known, raws[..n], reader);
      }
    }
  }

  lemma StoredKnows(s: Store, folder: string, copy: Copy, id: string)
    requires Newest(s, folder) < UID_LIMIT - 1
    ensures KnownIds(Stored(s, folder, copy, id), folder) == KnownIds(s, folder) + (if id == "" then {} else {id})
  {
    FreeUidIsFresh(s, folder);
    var key := Key(folder, FreeUid(s, folder));
    var t := Stored(s, folder, copy, id);
    assert key !in s.rows && t.rows == s.rows[key := Row(id, copy.seen, copy.starred)];
    forall x | x in KnownIds(s, folder) ensures x in KnownIds(t, folder) {
      var k :| k in s.rows && k.folder == folder && s.rows[k].id != "" && s.rows[k].id == x;
      assert t.rows[k] == s.rows[k];
    }
    if id != "" { assert t.rows[key].id == id; }
  }

  /** Once all the ids are known, only messages without one are imported again. */
  lemma {:induction false} CountAgain(known: set<string>, raws: seq<Bytes>, all: set<string>, reader: Reader)
    requires CountAll(known, raws, reader).known <= all
    ensures var again := CountAll(all, raws, reader);
            && again.known == all
            && again.summary.skipped == CountAll(known, raws, reader).summary.skipped
            && again.summary.imported == |NoId(raws, reader)|
  {
    if raws != [] {
      var n := |raws| - 1;
      var before := CountAll(known, raws[..n], reader);
      CountGrows(before, raws[n], reader);
      CountAgain(known, raws[..n], all, reader);
      if IsMail(raws[n], reader) && reader.messageId(raws[n]) != "" {
        assert reader.messageId(raws[n]) in CountAll(known, raws, reader).known;
      }
    }
  }

  lemma CountGrows(tally: Tally, raw: Bytes, reader: Reader)
    ensures tally.known <= Counted(tally, raw, reader).known
  {}

  /** Messages no later import can recognise. */
  function NoId(raws: seq<Bytes>, reader: Reader): seq<Bytes> {
    if raws == [] then []
    else
      var n := |raws| - 1;
      NoId(raws[..n], reader) + (if IsMail(raws[n], reader) && reader.messageId(raws[n]) == "" then [raws[n]] else [])
  }

  /** Importing the same messages again imports only those without an id. */
  lemma ImportingTwice(s: Store, folder: string, raws: seq<Bytes>, reader: Reader)
    requires Room(s, folder, |raws|)
    ensures var t := ImportAll(s, folder, KnownIds(s, folder), raws, reader);
            CountAll(KnownIds(t, folder), raws, reader).summary.imported == |NoId(raws, reader)|
  {
    ImportAdds(s, folder, raws, reader);
    var known := KnownIds(s, folder);
    CountAgain(known, raws, CountAll(known, raws, reader).known, reader);
  }

  function Flatten(files: seq<seq<Bytes>>): seq<Bytes> {
    if files == [] then [] else Flatten(files[..|files| - 1]) + files[|files| - 1]
  }

  lemma {:induction false} CountAppends(known: set<string>, a: seq<Bytes>, b: seq<Bytes>, n: nat, reader: Reader)
    requires n < |b|
    ensures CountAll(known, a + b[..n + 1], reader) == Counted(CountAll(known, a + b[..n], reader), b[n], reader)
  {
    var c := a + b[..n + 1];
    assert c[..|c| - 1] == a + b[..n] && c[|c| - 1] == b[n];
  }

  /** The class of the session: both tables are changed in place. */
  /** The copy is one of the listed messages, with the flags of its row, or read and not starred without one. */
  ghost predicate ReadsFrom(s: Store, folder: string, uids: seq<Uid>, copy: Copy) {
    exists k :: 0 <= k < |uids| && ReadsAs(s, Key(folder, uids[k]), copy)
  }

  predicate ReadsAs(s: Store, key: Key, copy: Copy) {
    && key in s.raws && copy.raw == s.raws[key]
    && (copy.seen <==> key !in s.rows || s.rows[key].seen) && (copy.starred <==> key in s.rows && s.rows[key].starred)
  }

  lemma {:induction false} ListedCopiesRead(s: Store, folder: string, uids: seq<Uid>)
    ensures forall i | 0 <= i < |ListedCopies(s, folder, uids)| :: ReadsFrom(s, folder, uids, ListedCopies(s, folder, uids)[i])
  {
    if uids != [] {
      var n := |uids| - 1;
      var front, all := ListedCopies(s, folder, uids[..n]), ListedCopies(s, folder, uids);
      ListedCopiesRead(s, folder, uids[..n]);
      forall i | 0 <= i < |all| ensures ReadsFrom(s, folder, uids, all[i]) {
        if i < |front| {
          var k :| 0 <= k < n && ReadsAs(s, Key(folder, uids[..n][k]), front[i]);
          assert uids[..n][k] == uids[k];
        } else {
          assert ReadsAs(s, Key(folder, uids[n]), all[i]);
        }
      }
    }
  }

  class LocalSession {
    var raws: map<Key, Bytes>
    var rows: map<Key, Row>
    const reader: Reader

    constructor (raws: map<Key, Bytes>, rows: map<Key, Row>, reader: Reader)
      ensures View() == Store(raws, rows) && this.reader == reader
    {
      this.raws, this.rows, this.reader := raws, rows, reader;
    }

    function View(): Store
      reads this
    {
      Store(raws, rows)
    }

    method NextUid(folder: string) returns (uid: Uid)
      ensures uid == FreeUid(View(), folder)
    {
      var newest: Uid := 0;
      var left := raws.Keys + rows.Keys;
      while left != {}
        invariant left <= raws.Keys + rows.Keys
        invariant forall k | k in raws.Keys + rows.Keys && k !in left && k.folder == folder :: k.uid <= newest
        invariant newest == 0 || Used(View(), folder, newest)
        decreases |left|
      {
        var k :| k in left;
        left := left - {k};
        if k.folder == folder && k.uid > newest {
          newest := k.uid;
        }
      }
      forall u: Uid | Used(View(), folder, u) ensures u <= newest {
        assert Key(folder, u) in raws.Keys + rows.Keys;
      }
      assert newest == Newest(View(), folder);
      uid := (newest + 1) % UID_LIMIT;
    }

    method StoreMessage(folder: string, copy: Copy) returns (uid: Uid)
      modifies this
      ensures uid == FreeUid(old(View()), folder)
      ensures View() == Stored(old(View()), folder, copy, reader.messageId(copy.raw))
    {
      uid := NextUid(folder);
      var key := Key(folder, uid);
      var id := reader.messageId(copy.raw);
      raws := raws[key := copy.raw];
      var kept := if id == "" && key in rows then rows[key].id else id;
      rows := rows[key := Row(kept, copy.seen, copy.starred)];
    }

    method RawForCopy(folder: string, uids: seq<Uid>) returns (out: seq<Copy>)
      ensures forall i | 0 <= i < |out| :: ReadsFrom(View(), folder, uids, out[i])
      ensures out == ListedCopies(View(), folder, uids)
    {
      out := [];
      for i := 0 to |uids|
        invariant out == ListedCopies(View(), folder, uids[..i])
      {
        assert uids[..i + 1][..i] == uids[..i];
        var key := Key(folder, uids[i]);
        var flags := if key in rows then Some((rows[key].seen, rows[key].starred)) else None;
        if key in raws {
          var (seen, starred) := if flags.Some? then flags.value else (true, false);
          out := out + [Copy(raws[key], seen, starred)];
        }
      }
      assert uids[..|uids|] == uids;
      ListedCopiesRead(View(), folder, uids);
    }

    method CopyWithin(from: string, to: string, uids: seq<Uid>) returns (n: nat)
      modifies this
      ensures View() == Copied(old(View()), from, to, uids, reader)
      ensures n == |ListedCopies(old(View()), from, uids)|
    {
      var copies := RawForCopy(from, uids);
      for i := 0 to |copies|
        invariant View() == AppendAll(old(View()), to, copies[..i], reader)
      {
        assert copies[..i + 1][..i] == copies[..i];
        var _ := StoreMessage(to, copies[i]);
      }
      assert copies[..|copies|] == copies;
      return |copies|;
    }

    method Expunge(folder: string, uids: seq<Uid>)
      modifies this
      ensures View() == Expunged(old(View()), folder, uids)
    {
      for i := 0 to |uids|
        invariant rows == old(rows) && raws == old(raws) - Listed(folder, uids[..i])
      {
        assert Listed(folder, uids[..i + 1]) == Listed(folder, uids[..i]) + {Key(folder, uids[i])} by {
          assert uids[..i + 1] == uids[..i] + [uids[i]];
        }
        raws := raws - {Key(folder, uids[i])};
      }
      assert uids[..|uids|] == uids;
      rows := rows - (set u | u in uids :: Key(folder, u));
    }

    /** A copy, and then the source's originals go. */
    method MoveToFolder(from: string, to: string, uids: seq<Uid>)
      modifies this
      ensures View() == Moved(old(View()), from, to, uids, reader)
      ensures from != to && Room(old(View()), to, |ListedCopies(old(View()), from, uids)|) ==>
                (Contents(View()) == Contents(old(View())) <==> PresentOnce(old(View()), from, uids))
    {
      ghost var before := View();
      var _ := CopyWithin(from, to, uids);
      Expunge(from, uids);
      if from != to && Room(before, to, |ListedCopies(before, from, uids)|) {
        MoveBetweenConserves(before, from, to, uids, reader);
      }
    }

    /** Duplicates by id are skipped, as is what is not a message or is too large. */
    method Import(name: string, messages: seq<Bytes>) returns (r: Option<Summary>)
      modifies this
      ensures var folder := Text.Trim(name);
              if folder == "" then r == None && View() == old(View())
              else
                var known := KnownIds(old(View()), folder);
                && r == Some(CountAll(known, messages, reader).summary)
                && View() == ImportAll(old(View()), folder, known, messages, reader)
    {
      var folder := Text.Trim(name);
      if folder == "" {
        return None;
      }
      ghost var before := View();
      var summary := Summary(0, 0, 0);
      var known := KnownIds(View(), folder);
      ghost var knownBefore := known;
      for i := 0 to |messages|
        invariant Tally(known, summary) == CountAll(knownBefore, messages[..i], reader)
        invariant View() == ImportAll(before, folder, knownBefore, messages[..i], reader)
      {
        assert messages[..i + 1][..i] == messages[..i];
        var raw := messages[i];
        if |raw| > MAX_MESSAGE_BYTES || !reader.looksLikeMessage(raw) {
          summary := summary.(skipped := summary.skipped + 1);
          continue;
        }
        var id := reader.messageId(raw);
        if id != "" {
          if id in known {
            summary := summary.(duplicates := summary.duplicates + 1);
            continue;
          }
          known := known + {id};
        }
        var _ := StoreMessage(folder, Copy(raw, true, false));
        summary := summary.(imported := summary.imported + 1);
      }
      assert messages[..|messages|] == messages;
      return Some(summary);
    }

    /** What importing these files would do, before anything is stored. */
    method Preview(folder: string, files: seq<seq<Bytes>>) returns (summary: Summary)
      ensures summary == CountAll(KnownIds(View(), folder), Flatten(files), reader).summary
    {
      var known := KnownIds(View(), folder);
      ghost var knownBefore := known;
      summary := Summary(0, 0, 0);
      for f := 0 to |files|
        invariant Tally(known, summary) == CountAll(knownBefore, Flatten(files[..f]), reader)
      {
        var file := files[f];
        assert files[..f + 1][..f] == files[..f];
        assert Flatten(files[..f]) + file[..0] == Flatten(files[..f]);
        for i := 0 to |file|
          invariant Tally(known, summary) == CountAll(knownBefore, Flatten(files[..f]) + file[..i], reader)
        {
          var raw := file[i];
          CountAppends(knownBefore, Flatten(files[..f]), file, i, reader);
          if |raw| > MAX_MESSAGE_BYTES || !reader.looksLikeMessage(raw) {
            summary := summary.(skipped := summary.skipped + 1);
            continue;
          }
          var id := reader.messageId(raw);
          var seen := id != "" && id in known;
          known := if id != "" then known + {id} else known;
          if seen {
            summary := summary.(duplicates := summary.duplicates + 1);
          } else {
            summary := summary.(imported := summary.imported + 1);
          }
        }
        assert file[..|file|] == file;
      }
      assert files[..|files|] == files;
    }

    /** A preview says what the import then does, when it looks at the folder the import will use. */
    method PreviewThenImport(folder: string, files: seq<seq<Bytes>>) returns (preview: Summary, imported: Option<Summary>)
      modifies this
      ensures folder == Text.Trim(folder) && folder != "" ==> imported == Some(preview)
    {
      preview := Preview(folder, files);
      imported := Import(folder, Flatten(files));
    }
  }
}
