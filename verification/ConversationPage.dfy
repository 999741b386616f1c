/** Keyset pagination of conversations (ADR 0003): one order over displayed keys and identities, a
    fingerprint of the view, and cursors that continue after a position. */
module ConversationPage {
  import opened Wrappers
  import opened Order
  import Text

  datatype SortKey = ByDate | BySender | BySubject
  datatype SortDir = Asc | Desc
  datatype SortOrder = SortOrder(key: SortKey, dir: SortDir)

  datatype Scope = Scope(account: string, folder: string)

  datatype View = View(namespace: string, scopes: seq<Scope>, query: string, filter: string, sort: SortOrder)

  /** What a view's fingerprint is computed from. */
  datatype Context = Context(namespace: string, scopes: seq<Scope>, query: string, filters: seq<string>, sort: SortOrder)

  datatype Candidate<+T> = Candidate(id: string, date: int, sender: string, subject: string, item: T)

  datatype Key = Date(date: int) | Words(text: string)
  datatype Position = Position(key: Key, id: string)
  datatype Row<+T> = Row(position: Position, item: T)

  datatype Cursor = Cursor(context: string, position: Position)

  /** A cursor as a client sends it: text that is not one, or one that decodes. */
  datatype RawCursor = Unreadable(text: string) | Readable(cursor: Cursor)

  datatype Page<+T> = Page(items: seq<T>, nextCursor: Option<RawCursor>)

  datatype Error = LimitNotPositive | ViewNotQualified | ReloadRequired | IdentitiesNotDistinct

  // ---- The view's fingerprint ----

  predicate ScopeLe(a: Scope, b: Scope) {
    if a.account == b.account then StringLe(a.folder, b.folder) else StringLe(a.account, b.account)
  }

  lemma ScopeLeLinear()
    ensures Linear(ScopeLe)
  {
    StringLeLinear();
  }

  function KeepFacets(pieces: seq<string>): (kept: seq<string>)
    ensures forall f :: f in kept <==> f != "" && f != "all" && exists p :: p in pieces && Text.Trim(p) == f
  {
    if pieces == [] then []
    else
      var facet := Text.Trim(pieces[0]);
      var rest := KeepFacets(pieces[1..]);
      assert pieces == [pieces[0]] + pieces[1..];
      if facet == "" || facet == "all" then rest else [facet] + rest
  }

  /** The facets a filter asks for. */
  function Facets(filter: string): seq<string> {
    KeepFacets(Text.Split(filter, ','))
  }

  predicate Qualified(view: View) {
    view.namespace != "" && forall scope | scope in view.scopes :: scope.account != "" && scope.folder != ""
  }

  function ContextOf(view: View): Context {
    Context(view.namespace, Canonical(view.scopes, ScopeLe), Text.Trim(view.query),
            Canonical(Facets(view.filter), StringLe), view.sort)
  }

  /** Two views ask for the same rows in the same order, whatever order and repetition they were written with. */
  ghost predicate SameView(a: View, b: View) {
    && a.namespace == b.namespace
    && Elements(a.scopes) == Elements(b.scopes)
    && Text.Trim(a.query) == Text.Trim(b.query)
    && Elements(Facets(a.filter)) == Elements(Facets(b.filter))
    && a.sort == b.sort
  }

  lemma FingerprintIff(a: View, b: View)
    ensures ContextOf(a) == ContextOf(b) <==> SameView(a, b)
  {
    ScopeLeLinear();
    StringLeLinear();
    CanonicalIff(a.scopes, b.scopes, ScopeLe);
    CanonicalIff(Facets(a.filter), Facets(b.filter), StringLe);
  }

  ghost predicate Injective(hash: Context -> string) {
    forall a, b :: hash(a) == hash(b) ==> a == b
  }

  // ---- The order ----

  predicate KeyLe(a: Key, b: Key) {
    match (a, b)
    case (Date(x), Date(y)) => x <= y
    case (Words(x), Words(y)) => StringLe(x, y)
    case (Date(_), Words(_)) => true
    case (Words(_), Date(_)) => false
  }

  predicate PositionLe(a: Position, b: Position) {
    if a.key == b.key then StringLe(a.id, b.id) else KeyLe(a.key, b.key)
  }

  /** Whether `a` is shown no later than `b`; the direction turns both keys around. */
  predicate ShownBy(a: Position, b: Position, dir: SortDir) {
    if dir.Asc? then PositionLe(a, b) else PositionLe(b, a)
  }

  function RowLe<T>(dir: SortDir): (Row<T>, Row<T>) -> bool {
    (a: Row<T>, b: Row<T>) => ShownBy(a.position, b.position, dir)
  }

  /** `a` is shown strictly before `b`. */
  predicate Precedes(a: Position, b: Position, dir: SortDir) {
    !ShownBy(b, a, dir)
  }

  lemma PositionLeTotal(a: Position, b: Position)
    ensures PositionLe(a, b) || PositionLe(b, a)
    ensures PositionLe(a, b) && PositionLe(b, a) ==> a == b
  {
    StringLeTotal(a.id, b.id);
    if a.key.Words? && b.key.Words? { StringLeTotal(a.key.text, b.key.text); }
  }

  lemma PositionLeTransitive(a: Position, b: Position, c: Position)
    requires PositionLe(a, b) && PositionLe(b, c)
    ensures PositionLe(a, c)
  {
    PositionLeTotal(a, b);
    PositionLeTotal(b, c);
    if a.key == b.key == c.key {
      StringLeTransitive(a.id, b.id, c.id);
    } else if a.key.Words? && b.key.Words? && c.key.Words? {
      StringLeTotal(a.key.text, b.key.text);
      StringLeTotal(b.key.text, c.key.text);
      StringLeTransitive(a.key.text, b.key.text, c.key.text);
    }
  }

  lemma PrecedesStrict(a: Position, b: Position, dir: SortDir)
    ensures !Precedes(a, a, dir)
    ensures a == b || Precedes(a, b, dir) || Precedes(b, a, dir)
    ensures !(Precedes(a, b, dir) && Precedes(b, a, dir))
  {
    PositionLeTotal(a, b);
    PositionLeTotal(a, a);
  }

  lemma PrecedesTransitive(a: Position, b: Position, c: Position, dir: SortDir)
    requires Precedes(a, b, dir) && Precedes(b, c, dir)
    ensures Precedes(a, c, dir)
  {
    PositionLeTotal(a, b);
    PositionLeTotal(b, c);
    if ShownBy(c, a, dir) {
      if dir.Asc? { PositionLeTransitive(c, a, b); } else { PositionLeTransitive(b, a, c); }
    }
  }

  /** Rows in the order they are shown, no two at one position. */
  ghost predicate Advancing<T>(rows: seq<Row<T>>, dir: SortDir) {
    forall i, j | 0 <= i < j < |rows| :: Precedes(rows[i].position, rows[j].position, dir)
  }

  lemma RowLePreorder<T(!new)>(dir: SortDir)
    ensures Preorder(RowLe<T>(dir))
  {
    var le := RowLe<T>(dir);
    forall a: Row<T>, b: Row<T> ensures le(a, b) || le(b, a) {
      PositionLeTotal(a.position, b.position);
    }
    forall a: Row<T>, b: Row<T>, c: Row<T> | le(a, b) && le(b, c) ensures le(a, c) {
      if dir.Asc? { PositionLeTransitive(a.position, b.position, c.position); }
      else { PositionLeTransitive(c.position, b.position, a.position); }
    }
  }

  lemma SortAdvances<T(!new)>(rows: seq<Row<T>>, dir: SortDir)
    requires forall i, j | 0 <= i < j < |rows| :: rows[i].position != rows[j].position
    ensures Advancing(Sort(rows, RowLe(dir)), dir)
    ensures forall row :: row in Sort(rows, RowLe(dir)) <==> row in rows
  {
    var le := RowLe<T>(dir);
    var sorted := Sort(rows, le);
    SortSameElements(rows, le);
    assert StrictlyAscending(sorted, le) by {
      forall i, j | 0 <= i < j < |rows| ensures !(le(rows[i], rows[j]) && le(rows[j], rows[i])) {
        PositionLeTotal(rows[i].position, rows[j].position);
      }
      RowLePreorder<T>(dir);
      SortOfDistinct(rows, le);
    }
    forall i, j | 0 <= i < j < |sorted| ensures Precedes(sorted[i].position, sorted[j].position, dir) {
      assert !le(sorted[j], sorted[i]);
    }
  }

  lemma StrictFromAdvancing<T(!new)>(rows: seq<Row<T>>, dir: SortDir)
    requires Advancing(rows, dir)
    ensures StrictlyAscending(rows, RowLe(dir))
  {
    forall i, j | 0 <= i < j < |rows|
      ensures RowLe(dir)(rows[i], rows[j]) && !RowLe(dir)(rows[j], rows[i])
    {
      assert Precedes(rows[i].position, rows[j].position, dir);
      PositionLeTotal(rows[i].position, rows[j].position);
    }
  }

  lemma AdvancingUnique<T(!new)>(a: seq<Row<T>>, b: seq<Row<T>>, dir: SortDir)
    requires Advancing(a, dir) && Advancing(b, dir)
    requires forall row :: row in a <==> row in b
    ensures a == b
  {
    StrictFromAdvancing(a, dir);
    StrictFromAdvancing(b, dir);
    RowLePreorder<T>(dir);
    StrictlyAscendingUnique(a, b, RowLe<T>(dir));
  }

  function PositionOf<T>(candidate: Candidate<T>, key: SortKey): Position {
    Position(match key
             case ByDate => Date(candidate.date)
             case BySender => Words(Text.AsciiLower(candidate.sender))
             case BySubject => Words(Text.AsciiLower(candidate.subject)),
             candidate.id)
  }

  // ---- A page ----

  /** A position the sort can continue from. */
  predicate Continues(position: Position, sort: SortOrder) {
    position.id != "" && (position.key.Date? <==> sort.key.ByDate?)
  }

  function DecodeCursor(raw: RawCursor, context: string, sort: SortOrder): (r: Result<Position, Error>)
    ensures r.Ok? <==> exists position: Position :: raw == Readable(Cursor(context, position)) && Continues(position, sort)
    ensures r.Ok? ==> raw == Readable(Cursor(context, r.value)) && Continues(r.value, sort)
    ensures r.Err? ==> r.error == ReloadRequired
  {
    if raw.Readable? && raw.cursor.context == context && raw.cursor.position.id != ""
       && (raw.cursor.position.key.Date? <==> sort.key.ByDate?)
    then Ok(raw.cursor.position)
    else Err(ReloadRequired)
  }

  predicate Beyond(position: Position, before: Option<Position>, dir: SortDir) {
    before.None? || Precedes(before.value, position, dir)
  }

  predicate DistinctIds<T>(candidates: seq<Candidate<T>>) {
    && (forall i | 0 <= i < |candidates| :: candidates[i].id != "")
    && (forall i, j | 0 <= i < j < |candidates| :: candidates[i].id != candidates[j].id)
  }

  /** The candidates a cursor leaves to show, in input order. */
  function Remaining<T>(candidates: seq<Candidate<T>>, sort: SortOrder, before: Option<Position>): (rows: seq<Row<T>>) {
    if candidates == [] then []
    else
      var n := |candidates| - 1;
      var rest := Remaining(candidates[..n], sort, before);
      var position := PositionOf(candidates[n], sort.key);
      if Beyond(position, before, sort.dir) then rest + [Row(position, candidates[n].item)] else rest
  }

  /** The candidates a cursor leaves to show, in the view's order. */
  function Ordered<T>(candidates: seq<Candidate<T>>, sort: SortOrder, before: Option<Position>): seq<Row<T>> {
    Sort(Remaining(candidates, sort, before), RowLe(sort.dir))
  }

  function Take<T>(s: seq<T>, n: nat): seq<T> {
    if |s| <= n then s else s[..n]
  }

  function Items<T>(rows: seq<Row<T>>): (items: seq<T>)
    ensures |items| == |rows|
    ensures forall i | 0 <= i < |rows| :: items[i] == rows[i].item
  {
    seq(|rows|, i requires 0 <= i < |rows| => rows[i].item)
  }

  function PageOf<T>(candidates: seq<Candidate<T>>, view: View, limit: nat, before: Option<RawCursor>,
                     hash: Context -> string): Result<Page<T>, Error>
  {
    if limit == 0 then Err(LimitNotPositive)
    else if !Qualified(view) then Err(ViewNotQualified)
    else
      var context := hash(ContextOf(view));
      if before.Some? && DecodeCursor(before.value, context, view.sort).Err? then Err(ReloadRequired)
      else if !DistinctIds(candidates) then Err(IdentitiesNotDistinct)
      else
        var position := if before.Some? then Some(DecodeCursor(before.value, context, view.sort).value) else None;
        var ordered := Ordered(candidates, view.sort, position);
        Ok(Page(Items(Take(ordered, limit)),
                if |ordered| > limit then Some(Readable(Cursor(context, ordered[limit - 1].position))) else None))
  }

  /** One limit across all the cards supplied. */
  method Paginate<T>(candidates: seq<Candidate<T>>, view: View, limit: nat, beforeCursor: Option<RawCursor>,
                     hash: Context -> string)
    returns (r: Result<Page<T>, Error>)
    ensures r == PageOf(candidates, view, limit, beforeCursor, hash)
  {
    hide Qualified, ContextOf, Beyond, PositionOf, Sort, DecodeCursor;
    if limit == 0 {
      return Err(LimitNotPositive);
    }
    if !Qualified(view) {
      return Err(ViewNotQualified);
    }
    var context := hash(ContextOf(view));
    var before: Option<Position> := None;
    if beforeCursor.Some? {
      var decoded := DecodeCursor(beforeCursor.value, context, view.sort);
      if decoded.Err? {
        return Err(ReloadRequired);
      }
      before := Some(decoded.value);
    }
    var ids: set<string> := {};
    var ordered: seq<Row<T>> := [];
    for i := 0 to |candidates|
      invariant forall j | 0 <= j < i :: candidates[j].id in ids
      invariant forall id | id in ids :: exists j :: 0 <= j < i && candidates[j].id == id
      invariant DistinctIds(candidates[..i])
      invariant ordered == Remaining(candidates[..i], view.sort, before)
    {
      var candidate := candidates[i];
      if candidate.id == "" || candidate.id in ids {
        return Err(IdentitiesNotDistinct);
      }
      RemainingNext(candidates, i, view.sort, before);
      ids := ids + {candidate.id};
      var position := PositionOf(candidate, view.sort.key);
      if Beyond(position, before, view.sort.dir) {
        ordered := ordered + [Row(position, candidate.item)];
      }
    }
    assert candidates[..|candidates|] == candidates;
    ordered := Sort(ordered, RowLe(view.sort.dir));
    var hasMore := |ordered| > limit;
    ordered := Take(ordered, limit);
    var nextCursor := if hasMore then Some(Readable(Cursor(context, ordered[|ordered| - 1].position))) else None;
    r := Ok(Page(Items(ordered), nextCursor));
  }

  lemma RemainingNext<T>(candidates: seq<Candidate<T>>, i: nat, sort: SortOrder, before: Option<Position>)
    requires i < |candidates|
    ensures Remaining(candidates[..i + 1], sort, before)
         == Remaining(candidates[..i], sort, before)
            + (if Beyond(PositionOf(candidates[i], sort.key), before, sort.dir)
               then [Row(PositionOf(candidates[i], sort.key), candidates[i].item)] else [])
  {
    assert candidates[..i + 1][..i] == candidates[..i];
  }

  // ---- What a page holds ----

  ghost function RowOf<T>(candidate: Candidate<T>, sort: SortOrder): Row<T> {
    Row(PositionOf(candidate, sort.key), candidate.item)
  }

  /** `row` is what one of the candidates shows. */
  ghost predicate Offers<T(!new)>(candidates: seq<Candidate<T>>, sort: SortOrder, row: Row<T>) {
    exists c :: c in candidates && RowOf(c, sort) == row
  }

  lemma {:induction false} RemainingElements<T(!new)>(candidates: seq<Candidate<T>>, sort: SortOrder, before: Option<Position>)
    ensures forall row: Row<T> ::
              row in Remaining(candidates, sort, before) <==>
              Offers(candidates, sort, row) && Beyond(row.position, before, sort.dir)
  {
    if candidates != [] {
      var n := |candidates| - 1;
      RemainingElements(candidates[..n], sort, before);
      assert candidates == candidates[..n] + [candidates[n]];
      forall row: Row<T>
        ensures Offers(candidates, sort, row) <==>
                Offers(candidates[..n], sort, row) || row == RowOf(candidates[n], sort)
      {
        if row == RowOf(candidates[n], sort) { assert candidates[n] in candidates; }
      }
    }
  }

  ghost predicate DistinctRows<T>(rows: seq<Row<T>>) {
    forall i, j | 0 <= i < j < |rows| :: rows[i].position.id != rows[j].position.id
  }

  lemma {:induction false} RemainingDistinct<T(!new)>(candidates: seq<Candidate<T>>, sort: SortOrder, before: Option<Position>)
    requires DistinctIds(candidates)
    ensures DistinctRows(Remaining(candidates, sort, before))
  {
    if candidates != [] {
      var n := |candidates| - 1;
      var rest := Remaining(candidates[..n], sort, before);
      RemainingDistinct(candidates[..n], sort, before);
      RemainingElements(candidates[..n], sort, before);
      forall i | 0 <= i < |rest| ensures rest[i].position.id != candidates[n].id {
        assert rest[i] in rest;
        var c :| c in candidates[..n] && RowOf(c, sort) == rest[i];
        var k :| 0 <= k < n && candidates[k] == c;
        assert candidates[k].id != candidates[n].id;
      }
    }
  }

  /** The remaining rows in order: each offered row beyond the cursor, once, none twice. */
  lemma OrderedIsTheRest<T(!new)>(candidates: seq<Candidate<T>>, sort: SortOrder, before: Option<Position>)
    requires DistinctIds(candidates)
    ensures Advancing(Ordered(candidates, sort, before), sort.dir)
    ensures forall row: Row<T> :: row in Ordered(candidates, sort, before) <==>
                                  Offers(candidates, sort, row) && Beyond(row.position, before, sort.dir)
  {
    RemainingDistinct(candidates, sort, before);
    RemainingElements(candidates, sort, before);
    SortAdvances(Remaining(candidates, sort, before), sort.dir);
  }

  /** A cursor made from the k-th row leaves exactly the rows behind it. */
  lemma CursorDropsAPrefix<T(!new)>(candidates: seq<Candidate<T>>, sort: SortOrder, before: Option<Position>, k: nat)
    requires DistinctIds(candidates)
    requires 0 < k <= |Ordered(candidates, sort, before)|
    ensures var all := Ordered(candidates, sort, before);
            Ordered(candidates, sort, Some(all[k - 1].position)) == all[k..]
  {
    hide Ordered, Offers, DistinctIds, Precedes;
    var all := Ordered(candidates, sort, before);
    var cut := all[k - 1];
    var rest := Ordered(candidates, sort, Some(cut.position));
    OrderedIsTheRest(candidates, sort, before);
    OrderedIsTheRest(candidates, sort, Some(cut.position));
    assert cut in all;
    forall row: Row<T> ensures row in rest <==> row in all[k..] {
      if row in all[k..] {
        var i :| k <= i < |all| && all[i] == row;
        assert Precedes(cut.position, all[i].position, sort.dir) && row in all;
      }
      if row in rest {
        if before.Some? { PrecedesTransitive(before.value, cut.position, row.position, sort.dir); }
        assert row in all;
        var i :| 0 <= i < |all| && all[i] == row;
        assert i < k - 1 ==> Precedes(all[i].position, cut.position, sort.dir);
        PrecedesStrict(all[i].position, cut.position, sort.dir);
        assert all[k..][i - k] == row;
      }
    }
    AdvancingUnique(rest, all[k..], sort.dir);
  }

  // ---- A traversal ----

  /** One page request: what the candidates are by then, and the limit asked for. */
  datatype Request<+T> = Request(candidates: seq<Candidate<T>>, limit: nat)

  /** The rows shown by following cursors, where the last page left off, and whether there was no more. */
  datatype Trail<+T> = Trail(rows: seq<Row<T>>, next: Option<Position>, done: bool)

  function Traverse<T>(requests: seq<Request<T>>, sort: SortOrder, before: Option<Position>): (trail: Trail<T>)
    requires forall i | 0 <= i < |requests| :: requests[i].limit > 0
  {
    if requests == [] then Trail([], before, false)
    else
      var ordered := Ordered(requests[0].candidates, sort, before);
      var limit := requests[0].limit;
      if |ordered| > limit then
        var rest := Traverse(requests[1..], sort, Some(ordered[limit - 1].position));
        rest.(rows := ordered[..limit] + rest.rows)
      else
        Trail(ordered, None, true)
  }

  ghost predicate WellFormed<T>(requests: seq<Request<T>>) {
    forall i | 0 <= i < |requests| :: requests[i].limit > 0 && DistinctIds(requests[i].candidates)
  }

  ghost predicate AllBeyond<T>(rows: seq<Row<T>>, before: Option<Position>, dir: SortDir) {
    forall i | 0 <= i < |rows| :: Beyond(rows[i].position, before, dir)
  }

  /** Rows shown in order, all beyond the cursor they were asked for with, and the next cursor where they stop. */
  ghost predicate AdvancesFrom<T>(trail: Trail<T>, before: Option<Position>, dir: SortDir) {
    && Advancing(trail.rows, dir)
    && AllBeyond(trail.rows, before, dir)
    && (!trail.done ==> trail.next == if trail.rows == [] then before else Some(trail.rows[|trail.rows| - 1].position))
  }

  lemma JoinAdvances<T>(front: seq<Row<T>>, rest: Trail<T>, before: Option<Position>, dir: SortDir)
    requires front != [] && Advancing(front, dir) && AllBeyond(front, before, dir)
    requires AdvancesFrom(rest, Some(front[|front| - 1].position), dir)
    ensures AdvancesFrom(rest.(rows := front + rest.rows), before, dir)
  {
    var last := front[|front| - 1];
    assert Beyond(last.position, before, dir);
    forall i, j | 0 <= i < |front| && 0 <= j < |rest.rows| ensures Precedes(front[i].position, rest.rows[j].position, dir) {
      assert Beyond(rest.rows[j].position, Some(last.position), dir);
      if i < |front| - 1 { PrecedesTransitive(front[i].position, last.position, rest.rows[j].position, dir); }
    }
    forall j | 0 <= j < |rest.rows| ensures Beyond(rest.rows[j].position, before, dir) {
      assert Beyond(rest.rows[j].position, Some(last.position), dir);
      if before.Some? { PrecedesTransitive(before.value, last.position, rest.rows[j].position, dir); }
    }
  }

  lemma OrderedAdvances<T(!new)>(candidates: seq<Candidate<T>>, sort: SortOrder, before: Option<Position>)
    requires DistinctIds(candidates)
    ensures AdvancesFrom(Trail(Ordered(candidates, sort, before), None, true), before, sort.dir)
  {
    OrderedIsTheRest(candidates, sort, before);
    var rows := Ordered(candidates, sort, before);
    forall i | 0 <= i < |rows| ensures Beyond(rows[i].position, before, sort.dir) {
      assert rows[i] in rows;
    }
  }

  /** Whatever happens to the candidates between pages, the positions shown strictly advance. */
  lemma {:induction false} TraversalAdvances<T(!new)>(requests: seq<Request<T>>, sort: SortOrder, before: Option<Position>)
    requires WellFormed(requests)
    ensures AdvancesFrom(Traverse(requests, sort, before), before, sort.dir)
  {
    hide Ordered, Precedes;
    if requests != [] {
      var all := Ordered(requests[0].candidates, sort, before);
      OrderedAdvances(requests[0].candidates, sort, before);
      var limit := requests[0].limit;
      if |all| > limit {
        var boundary := all[limit - 1];
        TraversalAdvances(requests[1..], sort, Some(boundary.position));
        JoinAdvances(all[..limit], Traverse(requests[1..], sort, Some(boundary.position)), before, sort.dir);
      }
    }
  }

  /** One of the candidates stands at `position`, whatever it carries. */
  ghost predicate StandsAt<T(!new)>(candidates: seq<Candidate<T>>, sort: SortOrder, position: Position) {
    exists c :: c in candidates && PositionOf(c, sort.key) == position
  }

  ghost predicate ShowsAt<T>(rows: seq<Row<T>>, position: Position) {
    exists i :: 0 <= i < |rows| && rows[i].position == position
  }

  lemma StandingIsOrdered<T(!new)>(candidates: seq<Candidate<T>>, sort: SortOrder, before: Option<Position>, position: Position)
    requires DistinctIds(candidates)
    ensures ShowsAt(Ordered(candidates, sort, before), position) <==>
              StandsAt(candidates, sort, position) && Beyond(position, before, sort.dir)
  {
    var all := Ordered(candidates, sort, before);
    OrderedIsTheRest(candidates, sort, before);
    hide Ordered, Beyond, PositionOf;
    if ShowsAt(all, position) {
      var i :| 0 <= i < |all| && all[i].position == position;
      assert all[i] in all;
    }
    if StandsAt(candidates, sort, position) && Beyond(position, before, sort.dir) {
      var c :| c in candidates && PositionOf(c, sort.key) == position;
      assert Offers(candidates, sort, RowOf(c, sort));
      var i :| 0 <= i < |all| && all[i] == RowOf(c, sort);
    }
  }

  /** Whatever the candidates carry on each page: a position at which one stands on every page is shown as
      soon as the traversal has passed it, and not before. */
  lemma {:induction false} UnmovedIsShown<T(!new)>(requests: seq<Request<T>>, sort: SortOrder, before: Option<Position>, position: Position)
    requires WellFormed(requests)
    requires forall i | 0 <= i < |requests| :: StandsAt(requests[i].candidates, sort, position)
    requires Beyond(position, before, sort.dir)
    ensures var trail := Traverse(requests, sort, before);
            ShowsAt(trail.rows, position) <==> trail.done || !Beyond(position, trail.next, sort.dir)
  {
    hide Ordered, Precedes, StandsAt, ShowsAt;
    if requests == [] {
      NothingShown<T>(position);
    } else {
      var all := Ordered(requests[0].candidates, sort, before);
      StandingIsOrdered(requests[0].candidates, sort, before, position);
      OrderedIsTheRest(requests[0].candidates, sort, before);
      var limit := requests[0].limit;
      if |all| > limit {
        var rest := Traverse(requests[1..], sort, Some(all[limit - 1].position));
        TraversalAdvances(requests[1..], sort, Some(all[limit - 1].position));
        if Beyond(position, Some(all[limit - 1].position), sort.dir) {
          UnmovedIsShown(requests[1..], sort, Some(all[limit - 1].position), position);
        }
        ShownOnThisPageOrLater(all, limit, rest, position, sort.dir);
      }
    }
  }

  lemma NothingShown<T>(position: Position)
    ensures !ShowsAt<T>([], position)
  {}

  lemma ShowsAtJoin<T>(front: seq<Row<T>>, rest: seq<Row<T>>, position: Position)
    ensures ShowsAt(front + rest, position) <==> ShowsAt(front, position) || ShowsAt(rest, position)
  {
    var all := front + rest;
    if i :| 0 <= i < |front| && front[i].position == position { assert all[i] == front[i]; }
    if i :| 0 <= i < |rest| && rest[i].position == position { assert all[|front| + i] == rest[i]; }
  }

  lemma ShownOnThisPageOrLater<T>(all: seq<Row<T>>, limit: nat, rest: Trail<T>, position: Position, dir: SortDir)
    requires 0 < limit < |all| && Advancing(all, dir) && ShowsAt(all, position)
    requires AdvancesFrom(rest, Some(all[limit - 1].position), dir)
    requires Beyond(position, Some(all[limit - 1].position), dir) ==>
               (ShowsAt(rest.rows, position) <==> rest.done || !Beyond(position, rest.next, dir))
    ensures ShowsAt(all[..limit] + rest.rows, position) <==> rest.done || !Beyond(position, rest.next, dir)
  {
    hide Precedes;
    var boundary := all[limit - 1].position;
    var i :| 0 <= i < |all| && all[i].position == position;
    ShowsAtJoin(all[..limit], rest.rows, position);
    if i < limit {
      assert i < limit - 1 ==> Precedes(all[i].position, boundary, dir);
      if !rest.done { PassedStaysPassed(position, boundary, rest, dir); }
      assert all[..limit][i].position == position;
    } else {
      assert Precedes(boundary, all[i].position, dir);
      PrecedesStrict(position, position, dir);
      forall k | 0 <= k < limit ensures all[..limit][k].position != position {
        assert Precedes(all[k].position, all[i].position, dir);
      }
    }
  }

  lemma PassedStaysPassed<T>(position: Position, boundary: Position, rest: Trail<T>, dir: SortDir)
    requires position == boundary || Precedes(position, boundary, dir)
    requires AdvancesFrom(rest, Some(boundary), dir) && !rest.done
    ensures !Beyond(position, rest.next, dir)
  {
    hide Precedes;
    if rest.rows != [] {
      var last := rest.rows[|rest.rows| - 1];
      assert Beyond(last.position, Some(boundary), dir);
      if position != boundary { PrecedesTransitive(position, boundary, last.position, dir); }
    }
    PrecedesStrict(position, rest.next.value, dir);
  }

  /** Exactly one row stands at `position`, and it is what one of the requests offered there. */
  ghost predicate ShownOnce<T(!new)>(rows: seq<Row<T>>, requests: seq<Request<T>>, sort: SortOrder, position: Position) {
    exists i :: 0 <= i < |rows| && rows[i].position == position && Requested(requests, sort, rows[i])
                && forall k | 0 <= k < |rows| && k != i :: rows[k].position != position
  }

  ghost predicate Requested<T(!new)>(requests: seq<Request<T>>, sort: SortOrder, row: Row<T>) {
    exists r :: 0 <= r < |requests| && Offers(requests[r].candidates, sort, row)
  }

  /** Nothing is shown that was not among the candidates of one of the pages. */
  lemma {:induction false} ShownIsRequested<T(!new)>(requests: seq<Request<T>>, sort: SortOrder, before: Option<Position>, i: nat)
    requires WellFormed(requests) && i < |Traverse(requests, sort, before).rows|
    ensures Requested(requests, sort, Traverse(requests, sort, before).rows[i])
    decreases |requests|
  {
    hide Ordered, Offers, Requested, Advancing, Beyond;
    var all, limit := Ordered(requests[0].candidates, sort, before), requests[0].limit;
    OrderedIsTheRest(requests[0].candidates, sort, before);
    var rows := Traverse(requests, sort, before).rows;
    if |all| <= limit || i < limit {
      assert rows[i] == all[i] && all[i] in all;
      RequestedNow(requests, sort, all[i]);
    } else {
      var rest := Traverse(requests[1..], sort, Some(all[limit - 1].position)).rows;
      assert rows[i] == rest[i - limit];
      ShownIsRequested(requests[1..], sort, Some(all[limit - 1].position), i - limit);
      RequestedLater(requests, sort, rest[i - limit]);
    }
  }

  lemma RequestedNow<T(!new)>(requests: seq<Request<T>>, sort: SortOrder, row: Row<T>)
    requires requests != [] && Offers(requests[0].candidates, sort, row)
    ensures Requested(requests, sort, row)
  {}

  lemma RequestedLater<T(!new)>(requests: seq<Request<T>>, sort: SortOrder, row: Row<T>)
    requires requests != [] && Requested(requests[1..], sort, row)
    ensures Requested(requests, sort, row)
  {
    var r :| 0 <= r < |requests[1..]| && Offers(requests[1..][r].candidates, sort, row);
    assert requests[r + 1] == requests[1..][r];
  }

  /** Traversal under live change: followed to its end, a position at which a candidate stands on every page
      is shown exactly once, with what the candidate carried on one of the pages. */
  lemma UnmovedIsShownOnce<T(!new)>(requests: seq<Request<T>>, sort: SortOrder, position: Position)
    requires WellFormed(requests)
    requires forall i | 0 <= i < |requests| :: StandsAt(requests[i].candidates, sort, position)
    requires Traverse(requests, sort, None).done
    ensures ShownOnce(Traverse(requests, sort, None).rows, requests, sort, position)
  {
    hide Traverse, Precedes, StandsAt, Requested;
    var rows := Traverse(requests, sort, None).rows;
    UnmovedIsShown(requests, sort, None, position);
    TraversalAdvances(requests, sort, None);
    var i :| 0 <= i < |rows| && rows[i].position == position;
    ShownIsRequested(requests, sort, None, i);
    PrecedesStrict(position, position, sort.dir);
    forall k | 0 <= k < |rows| && k != i ensures rows[k].position != position {
      assert if k < i then Precedes(rows[k].position, rows[i].position, sort.dir) else Precedes(rows[i].position, rows[k].position, sort.dir);
    }
  }

  ghost predicate Positive(limits: seq<nat>) {
    forall i | 0 <= i < |limits| :: limits[i] > 0
  }

  function Total(limits: seq<nat>): nat {
    if limits == [] then 0 else limits[0] + Total(limits[1..])
  }

  function Repeated<T>(candidates: seq<Candidate<T>>, limits: seq<nat>): (requests: seq<Request<T>>)
    ensures |requests| == |limits|
    ensures forall i | 0 <= i < |limits| :: requests[i] == Request(candidates, limits[i])
  {
    seq(|limits|, i requires 0 <= i < |limits| => Request(candidates, limits[i]))
  }

  /** Fixed-set traversal: pages of any positive sizes show the sorted candidates from the front, each once,
      and the last page says so exactly when the sizes add up to all of them. */
  lemma {:induction false} FixedSetTraversal<T(!new)>(candidates: seq<Candidate<T>>, limits: seq<nat>, sort: SortOrder, before: Option<Position>)
    requires DistinctIds(candidates)
    requires Positive(limits)
    ensures var trail := Traverse(Repeated(candidates, limits), sort, before);
            var all := Ordered(candidates, sort, before);
            && trail.rows == Take(all, Total(limits))
            && (trail.done <==> limits != [] && Total(limits) >= |all|)
  {
    hide Ordered, DistinctIds, Traverse, Repeated, Take;
    var requests := Repeated(candidates, limits);
    var all := Ordered(candidates, sort, before);
    TraverseOne(requests, sort, before);
    if limits == [] {
      TakeNone(all);
    } else {
      RepeatedRest(candidates, limits);
      TakeWhole(all, Total(limits));
      if |all| > limits[0] {
        CursorDropsAPrefix(candidates, sort, before, limits[0]);
        FixedSetTraversal(candidates, limits[1..], sort, Some(all[limits[0] - 1].position));
        TakeJoins(all, limits[0], Total(limits[1..]));
      }
    }
  }

  lemma RepeatedRest<T>(candidates: seq<Candidate<T>>, limits: seq<nat>)
    requires limits != []
    ensures Repeated(candidates, limits)[1..] == Repeated(candidates, limits[1..])
  {}

  lemma TraverseOne<T>(requests: seq<Request<T>>, sort: SortOrder, before: Option<Position>)
    requires forall i | 0 <= i < |requests| :: requests[i].limit > 0
    ensures Traverse(requests, sort, before) ==
              if requests == [] then Trail([], before, false)
              else
                var all, limit := Ordered(requests[0].candidates, sort, before), requests[0].limit;
                if |all| <= limit then Trail(all, None, true)
                else
                  var rest := Traverse(requests[1..], sort, Some(all[limit - 1].position));
                  Trail(all[..limit] + rest.rows, rest.next, rest.done)
  {
    hide Ordered;
  }

  lemma TakeNone<T>(s: seq<T>)
    ensures Take(s, 0) == []
  {}

  lemma TakeWhole<T>(s: seq<T>, n: nat)
    ensures |s| <= n ==> Take(s, n) == s
  {}

  lemma TakeJoins<T>(s: seq<T>, m: nat, n: nat)
    requires m <= |s|
    ensures Take(s, m + n) == s[..m] + Take(s[m..], n)
  {}

  lemma {:induction false} PositiveTotal(limits: seq<nat>)
    requires Positive(limits)
    ensures Total(limits) >= |limits|
  {
    if limits != [] {
      PositiveTotal(limits[1..]);
    }
  }

  /** Following cursors over unchanged candidates ends, after no more pages than there are candidates, having
      shown each of them once in the view's order. */
  lemma FixedSetTraversalEnds<T(!new)>(candidates: seq<Candidate<T>>, limits: seq<nat>, sort: SortOrder)
    requires DistinctIds(candidates)
    requires limits != [] && |limits| >= |candidates| && Positive(limits)
    ensures var trail := Traverse(Repeated(candidates, limits), sort, None);
            && trail.done
            && Advancing(trail.rows, sort.dir)
            && multiset(trail.rows) == multiset(seq(|candidates|, i requires 0 <= i < |candidates| => RowOf(candidates[i], sort)))
  {
    FixedSetTraversal(candidates, limits, sort, None);
    PositiveTotal(limits);
    SortPermutes(Remaining(candidates, sort, None), RowLe(sort.dir));
    OrderedIsTheRest(candidates, sort, None);
    EverythingRemains(candidates, sort);
  }

  lemma {:induction false} EverythingRemains<T>(candidates: seq<Candidate<T>>, sort: SortOrder)
    ensures Remaining(candidates, sort, None) == seq(|candidates|, i requires 0 <= i < |candidates| => RowOf(candidates[i], sort))
  {
    if candidates != [] {
      var n := |candidates| - 1;
      EverythingRemains(candidates[..n], sort);
    }
  }

  // ---- Cursors ----

  /** A cursor a page gave out is accepted for a view exactly when that view asks for the same rows in the
      same order, and then continues from the last row of its page. */
  lemma CursorAcceptedIff<T(!new)>(candidates: seq<Candidate<T>>, view: View, limit: nat, before: Option<RawCursor>,
                                   other: View, hash: Context -> string)
    requires Injective(hash)
    requires PageOf(candidates, view, limit, before, hash).Ok?
    requires PageOf(candidates, view, limit, before, hash).value.nextCursor.Some?
    ensures var page := PageOf(candidates, view, limit, before, hash).value;
            var decoded := DecodeCursor(page.nextCursor.value, hash(ContextOf(other)), other.sort);
            && (decoded.Ok? <==> SameView(view, other))
            && (decoded.Ok? ==> IsLast(candidates, view.sort, decoded.value, page))
  {
    hide Ordered, ContextOf, Qualified, Offers, DistinctIds;
    FingerprintIff(view, other);
    var position := if before.Some? then Some(DecodeCursor(before.value, hash(ContextOf(view)), view.sort).value) else None;
    var ordered := Ordered(candidates, view.sort, position);
    OrderedIsTheRest(candidates, view.sort, position);
    var last := ordered[limit - 1];
    assert last in ordered;
    OfferedDecodes(candidates, view.sort, last, hash(ContextOf(view)));
    var page := PageOf(candidates, view, limit, before, hash).value;
    assert page.nextCursor.value == Readable(Cursor(hash(ContextOf(view)), last.position));
    assert page.items[|page.items| - 1] == last.item;
    assert IsLast(candidates, view.sort, last.position, page);
  }

  /** The position is that of the candidate the page ends with. */
  ghost predicate IsLast<T(!new)>(candidates: seq<Candidate<T>>, sort: SortOrder, position: Position, page: Page<T>) {
    && page.items != []
    && exists row :: Offers(candidates, sort, row) && row.position == position && row.item == page.items[|page.items| - 1]
  }

  lemma OfferedDecodes<T(!new)>(candidates: seq<Candidate<T>>, sort: SortOrder, row: Row<T>, context: string)
    requires DistinctIds(candidates) && Offers(candidates, sort, row)
    ensures DecodeCursor(Readable(Cursor(context, row.position)), context, sort) == Ok(row.position)
  {
    var c :| c in candidates && RowOf(c, sort) == row;
    var k :| 0 <= k < |candidates| && candidates[k] == c;
    assert candidates[k].id != "";
  }

  /** Following the cursors themselves: the items of each page, as long as the pages are given out. */
  function Follow<T>(requests: seq<Request<T>>, view: View, before: Option<RawCursor>, hash: Context -> string): (r: Result<seq<T>, Error>)
  {
    if requests == [] then Ok([])
    else
      var page := PageOf(requests[0].candidates, view, requests[0].limit, before, hash);
      if page.Err? then Err(page.error)
      else if page.value.nextCursor.None? then Ok(page.value.items)
      else
        var rest := Follow(requests[1..], view, page.value.nextCursor, hash);
        if rest.Err? then rest else Ok(page.value.items + rest.value)
  }

  lemma ItemsJoin<T(!new)>()
    ensures Items<T>([]) == []
    ensures forall a: seq<Row<T>>, b: seq<Row<T>> :: Items(a + b) == Items(a) + Items(b)
  {}

  /** Following real cursors of a qualified view shows what the traversal by positions shows. */
  lemma {:induction false} FollowIsTraverse<T(!new)>(requests: seq<Request<T>>, view: View, before: Option<RawCursor>, hash: Context -> string)
    requires WellFormed(requests) && Qualified(view)
    requires before.Some? ==> DecodeCursor(before.value, hash(ContextOf(view)), view.sort).Ok?
    ensures var position := if before.Some? then Some(DecodeCursor(before.value, hash(ContextOf(view)), view.sort).value) else None;
            Follow(requests, view, before, hash) == Ok(Items(Traverse(requests, view.sort, position).rows))
  {
    hide Ordered, ContextOf, Qualified, Offers, Items, Advancing, Beyond;
    ItemsJoin<T>();
    if requests != [] {
      var context := hash(ContextOf(view));
      var position := if before.Some? then Some(DecodeCursor(before.value, context, view.sort).value) else None;
      var all := Ordered(requests[0].candidates, view.sort, position);
      var limit := requests[0].limit;
      if |all| > limit {
        var last := all[limit - 1];
        OrderedIsTheRest(requests[0].candidates, view.sort, position);
        assert last in all;
        var cursor := Readable(Cursor(context, last.position));
        OfferedDecodes(requests[0].candidates, view.sort, last, context);
        FollowIsTraverse(requests[1..], view, Some(cursor), hash);
        var rest := Traverse(requests[1..], view.sort, Some(last.position));
        assert Items(all[..limit]) + Items(rest.rows) == Items(all[..limit] + rest.rows);
      }
    }
  }

  /** So what is shown twice has moved in between: further along than where it was shown before. */
  lemma RepeatedHasMovedOn<T(!new)>(requests: seq<Request<T>>, sort: SortOrder, before: Option<Position>, i: nat, j: nat)
    requires WellFormed(requests) && i < j < |Traverse(requests, sort, before).rows|
    requires Traverse(requests, sort, before).rows[i].position.id == Traverse(requests, sort, before).rows[j].position.id
    ensures var rows := Traverse(requests, sort, before).rows;
            Precedes(rows[i].position, rows[j].position, sort.dir) && rows[i].position.key != rows[j].position.key
  {
    TraversalAdvances(requests, sort, before);
    PrecedesStrict(Traverse(requests, sort, before).rows[i].position, Traverse(requests, sort, before).rows[j].position, sort.dir);
  }

  /** A traversal is no snapshot: a card that moves across the cursor is shown again. */
  lemma MovedCardIsRepeated()
    ensures var first := [Candidate("a", 1, "", "", 0), Candidate("c", 3, "", "", 0)];
            var moved := [Candidate("a", 4, "", "", 0), Candidate("c", 3, "", "", 0)];
            var trail := Traverse([Request(first, 1), Request(moved, 5)], SortOrder(ByDate, Asc), None);
            trail == Trail([Row(Position(Date(1), "a"), 0), Row(Position(Date(3), "c"), 0), Row(Position(Date(4), "a"), 0)], None, true)
  {
    var first := [Candidate("a", 1, "", "", 0), Candidate("c", 3, "", "", 0)];
    var moved := [Candidate("a", 4, "", "", 0), Candidate("c", 3, "", "", 0)];
    var sort := SortOrder(ByDate, Asc);
    var a, c, later := Row(Position(Date(1), "a"), 0), Row(Position(Date(3), "c"), 0), Row(Position(Date(4), "a"), 0);
    SortPair(a, c);
    SortPair(later, c);
    hide StringLe;
    ByDates(1, "a", 3, "c");
    ByDates(4, "a", 3, "c");
    ByDates(1, "a", 4, "a");
    assert PositionOf(first[0], ByDate) == a.position && PositionOf(first[1], ByDate) == c.position == PositionOf(moved[1], ByDate);
    assert PositionOf(moved[0], ByDate) == later.position;
    RemainingPair(first, None);
    RemainingPair(moved, Some(a.position));
    hide Remaining, Sort, PositionOf, PositionLe, Beyond;
    assert Ordered(first, sort, None) == [a, c];
    assert Ordered(moved, sort, Some(a.position)) == [c, later];
    TraverseTwo([Request(first, 1), Request(moved, 5)], sort, a, c, later);
  }

  lemma ByDates(x: int, id: string, y: int, other: string)
    requires x != y
    ensures PositionLe(Position(Date(x), id), Position(Date(y), other)) <==> x < y
    ensures Beyond(Position(Date(y), other), Some(Position(Date(x), id)), Asc) <==> x < y
  {}

  lemma RemainingPair(pair: seq<Candidate<int>>, before: Option<Position>)
    requires |pair| == 2
    requires Beyond(PositionOf(pair[0], ByDate), before, Asc) && Beyond(PositionOf(pair[1], ByDate), before, Asc)
    ensures Remaining(pair, SortOrder(ByDate, Asc), before)
         == [Row(PositionOf(pair[0], ByDate), pair[0].item), Row(PositionOf(pair[1], ByDate), pair[1].item)]
  {
    hide PositionOf, Beyond;
    assert pair[..1] == [pair[0]];
    RemainingNext(pair, 0, SortOrder(ByDate, Asc), before);
    RemainingNext(pair, 1, SortOrder(ByDate, Asc), before);
    assert pair[..2] == pair && pair[..0] == [];
  }

  lemma TraverseTwo(requests: seq<Request<int>>, sort: SortOrder, a: Row<int>, c: Row<int>, later: Row<int>)
    requires |requests| == 2 && requests[0].limit == 1 && requests[1].limit == 5
    requires Ordered(requests[0].candidates, sort, None) == [a, c]
    requires Ordered(requests[1].candidates, sort, Some(a.position)) == [c, later]
    ensures Traverse(requests, sort, None) == Trail([a, c, later], None, true)
  {
    hide Ordered;
    assert requests[1..] == [requests[1]];
    assert Traverse(requests[1..], sort, Some(a.position)) == Trail([c, later], None, true);
    assert [a, c][..1] + [c, later] == [a, c, later];
  }

  lemma SortPair(a: Row<int>, b: Row<int>)
    ensures Sort([a, b], RowLe(Asc)) == if PositionLe(a.position, b.position) then [a, b] else [b, a]
  {
    var le := RowLe<int>(Asc);
    assert [a, b][..1] == [a] && [a][..0] == [] && [a][1..] == [];
    assert Sort([], le) == [];
    assert Sort([a], le) == Insert(a, [], le) == [a];
    assert Insert(b, [], le) == [b];
    assert Sort([a, b], le) == Insert(b, [a], le);
  }

  // ---- A page, from the candidates' own fields ----

  /** A letter in lower case, as ASCII has it. */
  function Small(c: char): char {
    if 'A' <= c <= 'Z' then (c as int + 32) as char else c
  }

  /** Up to `k` the two texts agree but for the case of ASCII letters. */
  predicate AgreeTo(a: string, b: string, k: nat) {
    k <= |a| && k <= |b| && forall i :: 0 <= i < k ==> Small(a[i]) == Small(b[i])
  }

  /** Where they first differ, `a` has the lesser letter, or it ends there. */
  ghost predicate Less(a: string, b: string) {
    exists k: nat :: AgreeTo(a, b, k) && k < |b| && (k == |a| || Small(a[k]) < Small(b[k]))
  }

  predicate Same(a: string, b: string) {
    |a| == |b| && AgreeTo(a, b, |a|)
  }

  /** The same for ids, in which case counts. */
  ghost predicate LessId(a: string, b: string) {
    exists k: nat :: k <= |a| && k < |b| && a[..k] == b[..k] && (k == |a| || a[k] < b[k])
  }

  /** By its date, its sender or its subject, and then by its id, `c` comes before `d`. */
  ghost predicate Comes<T>(c: Candidate<T>, d: Candidate<T>, key: SortKey) {
    match key
    case ByDate => c.date < d.date || (c.date == d.date && LessId(c.id, d.id))
    case BySender => Less(c.sender, d.sender) || (Same(c.sender, d.sender) && LessId(c.id, d.id))
    case BySubject => Less(c.subject, d.subject) || (Same(c.subject, d.subject) && LessId(c.id, d.id))
  }

  /** And which of the two a view shows first. */
  ghost predicate ShownFirst<T>(c: Candidate<T>, d: Candidate<T>, sort: SortOrder) {
    if sort.dir.Asc? then Comes(c, d, sort.key) else Comes(d, c, sort.key)
  }

  /** Both texts without their first `n` letters; what was before them was the same. */
  lemma LessIdTail(a: string, b: string)
    requires a != [] && b != [] && a[0] == b[0]
    ensures LessId(a, b) <==> LessId(a[1..], b[1..])
  {
    if k: nat :| k <= |a| && k < |b| && a[..k] == b[..k] && (k == |a| || a[k] < b[k]) {
      assert k > 0;
      assert a[1..][..k - 1] == a[..k][1..] && b[1..][..k - 1] == b[..k][1..];
    }
    if k: nat :| k <= |a[1..]| && k < |b[1..]| && a[1..][..k] == b[1..][..k] && (k == |a[1..]| || a[1..][k] < b[1..][k]) {
      assert a[..k + 1] == [a[0]] + a[1..][..k] && b[..k + 1] == [b[0]] + b[1..][..k];
    }
  }

  lemma Heads(s: string)
    ensures forall k | 0 < k <= |s| :: s[..k][0] == s[0]
  {}

  lemma {:induction false} LessIdIs(a: string, b: string)
    ensures LessId(a, b) <==> !StringLe(b, a)
  {
    if a != [] && b != [] && a[0] == b[0] {
      LessIdTail(a, b);
      LessIdIs(a[1..], b[1..]);
    } else if a == [] && b != [] {
      assert a[..0] == b[..0];
    } else if b != [] {
      if a[0] < b[0] { assert a[..0] == b[..0]; }
      Heads(a);
      Heads(b);
    }
  }

  lemma {:induction false} SmallIsLower(s: string)
    ensures |Text.AsciiLower(s)| == |s| && forall i | 0 <= i < |s| :: Text.AsciiLower(s)[i] == Small(s[i])
  {
    if s != [] {
      SmallIsLower(s[1..]);
      forall i | 0 <= i < |s| ensures Text.AsciiLower(s)[i] == Small(s[i]) {
        if i > 0 { assert s[i] == s[1..][i - 1]; }
      }
    }
  }

  lemma LessIs(a: string, b: string)
    ensures Less(a, b) <==> !StringLe(Text.AsciiLower(b), Text.AsciiLower(a))
    ensures Same(a, b) <==> Text.AsciiLower(a) == Text.AsciiLower(b)
  {
    var x, y := Text.AsciiLower(a), Text.AsciiLower(b);
    SmallIsLower(a);
    SmallIsLower(b);
    LessIdIs(x, y);
    hide StringLe, Small;
    if LessId(x, y) {
      var k: nat :| k <= |x| && k < |y| && x[..k] == y[..k] && (k == |x| || x[k] < y[k]);
      forall i | 0 <= i < k ensures Small(a[i]) == Small(b[i]) { assert x[..k][i] == y[..k][i]; }
      assert AgreeTo(a, b, k);
    }
    if Less(a, b) {
      var k: nat :| AgreeTo(a, b, k) && k < |b| && (k == |a| || Small(a[k]) < Small(b[k]));
      assert x[..k] == y[..k];
    }
  }

  lemma ComesIs<T>(c: Candidate<T>, d: Candidate<T>, sort: SortOrder)
    ensures ShownFirst(c, d, sort) <==> Precedes(PositionOf(c, sort.key), PositionOf(d, sort.key), sort.dir)
  {
    LessIs(c.sender, d.sender);
    LessIs(d.sender, c.sender);
    LessIs(c.subject, d.subject);
    LessIs(d.subject, c.subject);
    LessIdIs(c.id, d.id);
    LessIdIs(d.id, c.id);
    StringLeTotal(Text.AsciiLower(c.sender), Text.AsciiLower(d.sender));
    StringLeTotal(Text.AsciiLower(c.subject), Text.AsciiLower(d.subject));
    hide Less, Same, LessId, StringLe, Text.AsciiLower;
  }

  /** Which candidates a page shows, by their places in the input. */
  ghost predicate Picks<T(!new)>(candidates: seq<Candidate<T>>, items: seq<T>, picks: seq<nat>) {
    |picks| == |items| && forall i | 0 <= i < |picks| :: picks[i] < |candidates| && candidates[picks[i]].item == items[i]
  }

  /** They stand in the view's order, one strictly before the next. */
  ghost predicate InOrder<T>(candidates: seq<Candidate<T>>, picks: seq<nat>, sort: SortOrder)
    requires forall i | 0 <= i < |picks| :: picks[i] < |candidates|
  {
    forall i, j | 0 <= i < j < |picks| :: ShownFirst(candidates[picks[i]], candidates[picks[j]], sort)
  }

  /** Those left out are behind a full page, or not behind the cursor's candidate. */
  ghost predicate LeavesTheRest<T>(candidates: seq<Candidate<T>>, picks: seq<nat>, sort: SortOrder, limit: nat, after: Option<Candidate<T>>)
    requires forall i | 0 <= i < |picks| :: picks[i] < |candidates|
  {
    forall m: nat | m < |candidates| && m !in picks ::
      || (after.Some? && !ShownFirst(after.value, candidates[m], sort))
      || (|picks| == limit && forall i | 0 <= i < |picks| :: ShownFirst(candidates[picks[i]], candidates[m], sort))
  }

  ghost predicate AllAfter<T>(candidates: seq<Candidate<T>>, picks: seq<nat>, sort: SortOrder, after: Option<Candidate<T>>)
    requires forall i | 0 <= i < |picks| :: picks[i] < |candidates|
  {
    after.Some? ==> forall i | 0 <= i < |picks| :: ShownFirst(after.value, candidates[picks[i]], sort)
  }

  /** The cursor stands where this candidate stood when it was issued. */
  ghost predicate CursorOf<T>(before: Option<RawCursor>, after: Option<Candidate<T>>, sort: SortOrder) {
    if before.None? then after.None?
    else after.Some? && before.value.Readable? && before.value.cursor.position == PositionOf(after.value, sort.key)
  }

  /** What one page is: among the candidates behind the one the cursor was issued at, or among all of them, the first
      in the view's order, as many as the limit. */
  ghost predicate IsPage<T(!new)>(candidates: seq<Candidate<T>>, items: seq<T>, sort: SortOrder, limit: nat, after: Option<Candidate<T>>) {
    exists picks :: Picks(candidates, items, picks) && InOrder(candidates, picks, sort)
                    && LeavesTheRest(candidates, picks, sort, limit, after) && AllAfter(candidates, picks, sort, after)
  }

  lemma PickRow<T(!new)>(candidates: seq<Candidate<T>>, sort: SortOrder, row: Row<T>) returns (k: nat)
    requires Offers(candidates, sort, row)
    ensures k < |candidates| && PositionOf(candidates[k], sort.key) == row.position && candidates[k].item == row.item
  {
    var c :| c in candidates && RowOf(c, sort) == row;
    k :| 0 <= k < |candidates| && candidates[k] == c;
  }

  lemma {:induction false} PickRows<T(!new)>(candidates: seq<Candidate<T>>, sort: SortOrder, rows: seq<Row<T>>) returns (picks: seq<nat>)
    requires forall i | 0 <= i < |rows| :: Offers(candidates, sort, rows[i])
    ensures |picks| == |rows|
    ensures forall i | 0 <= i < |picks| ::
              picks[i] < |candidates| && PositionOf(candidates[picks[i]], sort.key) == rows[i].position && candidates[picks[i]].item == rows[i].item
  {
    hide Offers;
    if rows == [] { return []; }
    var n := |rows| - 1;
    picks := PickRows(candidates, sort, rows[..n]);
    var k := PickRow(candidates, sort, rows[n]);
    picks := picks + [k];
  }

  /** The picks show the first rows. */
  ghost predicate PicksOf<T>(candidates: seq<Candidate<T>>, sort: SortOrder, rows: seq<Row<T>>, picks: seq<nat>) {
    |picks| == |rows| && forall i | 0 <= i < |picks| ::
      picks[i] < |candidates| && PositionOf(candidates[picks[i]], sort.key) == rows[i].position && candidates[picks[i]].item == rows[i].item
  }

  lemma PicksAreInOrder<T>(candidates: seq<Candidate<T>>, sort: SortOrder, rows: seq<Row<T>>, picks: seq<nat>)
    requires PicksOf(candidates, sort, rows, picks) && Advancing(rows, sort.dir)
    ensures InOrder(candidates, picks, sort)
  {
    hide ShownFirst, Precedes, PositionOf;
    forall i, j | 0 <= i < j < |picks| ensures ShownFirst(candidates[picks[i]], candidates[picks[j]], sort) {
      ComesIs(candidates[picks[i]], candidates[picks[j]], sort);
      assert Precedes(rows[i].position, rows[j].position, sort.dir);
    }
  }

  lemma PicksAreAfter<T>(candidates: seq<Candidate<T>>, sort: SortOrder, rows: seq<Row<T>>, picks: seq<nat>, after: Option<Candidate<T>>)
    requires PicksOf(candidates, sort, rows, picks)
    requires after.Some? ==> AllBeyond(rows, Some(PositionOf(after.value, sort.key)), sort.dir)
    ensures AllAfter(candidates, picks, sort, after)
  {
    hide ShownFirst, Precedes, PositionOf;
    if after.Some? {
      forall i | 0 <= i < |picks| ensures ShownFirst(after.value, candidates[picks[i]], sort) {
        ComesIs(after.value, candidates[picks[i]], sort);
        assert Beyond(rows[i].position, Some(PositionOf(after.value, sort.key)), sort.dir);
      }
    }
  }

  lemma RowsOfAPage<T(!new)>(candidates: seq<Candidate<T>>, sort: SortOrder, position: Option<Position>, limit: nat) returns (picks: seq<nat>)
    requires DistinctIds(candidates)
    ensures var rows := Take(Ordered(candidates, sort, position), limit);
            Advancing(rows, sort.dir) && AllBeyond(rows, position, sort.dir) && PicksOf(candidates, sort, rows, picks)
  {
    var all := Ordered(candidates, sort, position);
    OrderedIsTheRest(candidates, sort, position);
    hide Ordered, Offers, DistinctIds, Precedes, Beyond, PositionOf;
    forall i | 0 <= i < |all| ensures Offers(candidates, sort, all[i]) && Beyond(all[i].position, position, sort.dir) { assert all[i] in all; }
    picks := PickRows(candidates, sort, Take(all, limit));
  }

  lemma PageIsPage<T(!new)>(candidates: seq<Candidate<T>>, view: View, limit: nat, before: Option<RawCursor>, hash: Context -> string,
                            after: Option<Candidate<T>>)
    requires PageOf(candidates, view, limit, before, hash).Ok? && CursorOf(before, after, view.sort)
    ensures IsPage(candidates, PageOf(candidates, view, limit, before, hash).value.items, view.sort, limit, after)
  {
    var sort, items := view.sort, PageOf(candidates, view, limit, before, hash).value.items;
    var position := if after.Some? then Some(PositionOf(after.value, sort.key)) else None;
    PageItems(candidates, view, limit, before, hash, position);
    var all := Ordered(candidates, sort, position);
    var rows := Take(all, limit);
    var picks := RowsOfAPage(candidates, sort, position, limit);
    OrderedIsTheRest(candidates, sort, position);
    PicksAreInOrder(candidates, sort, rows, picks);
    PicksAreAfter(candidates, sort, rows, picks, after);
    hide PageOf, Ordered, PositionOf, Offers, DistinctIds, CursorOf, ShownFirst, Advancing, AllBeyond;
    forall m: nat | m < |candidates| && m !in picks
      ensures || (after.Some? && !ShownFirst(after.value, candidates[m], sort))
              || (|picks| == limit && forall i | 0 <= i < |picks| :: ShownFirst(candidates[picks[i]], candidates[m], sort))
    {
      LeftOut(candidates, sort, position, after, all, limit, picks, m);
    }
    assert Picks(candidates, items, picks);
  }

  lemma PageItems<T>(candidates: seq<Candidate<T>>, view: View, limit: nat, before: Option<RawCursor>, hash: Context -> string,
                     position: Option<Position>)
    requires PageOf(candidates, view, limit, before, hash).Ok?
    requires if before.None? then position.None?
             else position.Some? && before.value.Readable? && before.value.cursor.position == position.value
    ensures DistinctIds(candidates)
    ensures PageOf(candidates, view, limit, before, hash).value.items == Items(Take(Ordered(candidates, view.sort, position), limit))
  {
    hide Ordered, DistinctIds, ContextOf, Qualified, Continues;
  }

  /** A candidate that is not picked was not behind the cursor, or stands behind the cut. */
  lemma LeftOut<T(!new)>(candidates: seq<Candidate<T>>, sort: SortOrder, position: Option<Position>, after: Option<Candidate<T>>,
                         all: seq<Row<T>>, limit: nat, picks: seq<nat>, m: nat)
    requires m < |candidates| && m !in picks && DistinctIds(candidates)
    requires position == if after.Some? then Some(PositionOf(after.value, sort.key)) else None
    requires all == Ordered(candidates, sort, position) && Advancing(all, sort.dir)
    requires |picks| == |Take(all, limit)|
    requires forall i | 0 <= i < |picks| :: picks[i] < |candidates| && PositionOf(candidates[picks[i]], sort.key) == all[i].position
    ensures || (after.Some? && !ShownFirst(after.value, candidates[m], sort))
            || (|picks| == limit && forall i | 0 <= i < |picks| :: ShownFirst(candidates[picks[i]], candidates[m], sort))
  {
    var p := PositionOf(candidates[m], sort.key);
    if after.Some? { ComesIs(after.value, candidates[m], sort); }
    OrderedIsTheRest(candidates, sort, position);
    assert Offers(candidates, sort, RowOf(candidates[m], sort)) by { assert candidates[m] in candidates; }
    hide Ordered, Offers, ShownFirst, Precedes;
    if Beyond(p, position, sort.dir) {
      assert RowOf(candidates[m], sort) in all;
      var k :| 0 <= k < |all| && all[k] == RowOf(candidates[m], sort);
      OthersStandElsewhere(candidates, sort, picks, m);
      forall i | 0 <= i < |picks| ensures ShownFirst(candidates[picks[i]], candidates[m], sort) {
        ComesIs(candidates[picks[i]], candidates[m], sort);
        assert Precedes(all[i].position, all[k].position, sort.dir);
      }
    }
  }

  lemma OthersStandElsewhere<T>(candidates: seq<Candidate<T>>, sort: SortOrder, picks: seq<nat>, m: nat)
    requires DistinctIds(candidates) && m < |candidates| && m !in picks
    requires forall i | 0 <= i < |picks| :: picks[i] < |candidates|
    ensures forall i | 0 <= i < |picks| :: PositionOf(candidates[picks[i]], sort.key) != PositionOf(candidates[m], sort.key)
  {
    forall i | 0 <= i < |picks| ensures candidates[picks[i]].id != candidates[m].id {
      assert picks[i] in picks && picks[i] != m;
    }
  }

  /** A page is refused exactly for a limit of 0, a view or scope without a name, a cursor that is not one of this
      view's, or candidates without an id of their own. */
  lemma RefusedIff<T>(candidates: seq<Candidate<T>>, view: View, limit: nat, before: Option<RawCursor>, hash: Context -> string)
    ensures PageOf(candidates, view, limit, before, hash).Err? <==>
              || limit == 0
              || view.namespace == ""
              || (exists i :: 0 <= i < |view.scopes| && (view.scopes[i].account == "" || view.scopes[i].folder == ""))
              || (before.Some? && DecodeCursor(before.value, hash(ContextOf(view)), view.sort).Err?)
              || (exists i :: 0 <= i < |candidates| && candidates[i].id == "")
              || (exists i, j :: 0 <= i < j < |candidates| && candidates[i].id == candidates[j].id)
  {
    hide ContextOf, DecodeCursor, Ordered;
    if i :| 0 <= i < |view.scopes| && (view.scopes[i].account == "" || view.scopes[i].folder == "") {
      assert view.scopes[i] in view.scopes;
    }
  }
}
