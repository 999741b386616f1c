/** Profile ids: derived from a name, free, and such that the profile can be selected by it. */
module Profiles {
  import opened Numerals
  import opened Wrappers
  import Text

  const DEFAULT := "default"
  const FALLBACK := "profile"
  const DASH := '-'
  const DIGITS := "0123456789"

  predicate IsAlphanumeric(c: char) {
    'a' <= c <= 'z' || '0' <= c <= '9'
  }

  predicate Allowed(c: char) {
    IsAlphanumeric(c) || c == DASH
  }

  /** The pattern of profile ids: one letter or digit, then at most 39 of those or dashes. */
  predicate Matches(id: string) {
    1 <= |id| <= 40 && IsAlphanumeric(id[0]) && forall i :: 1 <= i < |id| ==> Allowed(id[i])
  }

  function Mapped(c: char): char {
    if IsAlphanumeric(c) then c else if 'A' <= c <= 'Z' then c + 'a' - 'A' else DASH
  }

  function MapName(name: string): string {
    seq(|name|, i requires 0 <= i < |name| => Mapped(name[i]))
  }

  /** Every run of dashes made one. */
  function Collapse(s: string): string {
    if |s| < 2 then s
    else if s[0] == DASH && s[1] == DASH then Collapse(s[1..])
    else [s[0]] + Collapse(s[1..])
  }

  function TrimLeft(s: string): string {
    if s != [] && s[0] == DASH then TrimLeft(s[1..]) else s
  }

  function TrimRight(s: string): string {
    if s != [] && s[|s| - 1] == DASH then TrimRight(s[..|s| - 1]) else s
  }

  function Trim(s: string): string {
    TrimRight(TrimLeft(s))
  }

  function Readable(name: string): string {
    var base := Trim(Collapse(MapName(name)));
    if |base| > 30 then Trim(base[..30]) else base
  }

  function Base(name: string): string {
    if Readable(name) == "" || Readable(name) == DEFAULT then FALLBACK else Readable(name)
  }

  // What a base is.

  predicate Tidy(s: string) {
    && (forall i :: 0 <= i < |s| ==> Allowed(s[i]))
    && (forall i :: 0 <= i < |s| - 1 ==> s[i] != DASH || s[i + 1] != DASH)
  }

  predicate Trimmed(s: string) {
    s == [] || (s[0] != DASH && s[|s| - 1] != DASH)
  }

  /** A name that is an id already. */
  predicate Canonical(s: string) {
    1 <= |s| <= 30 && Tidy(s) && Trimmed(s) && s != DEFAULT
  }

  lemma {:induction false} CollapseIsTidy(s: string)
    requires forall i | 0 <= i < |s| :: Allowed(s[i])
    ensures Tidy(Collapse(s))
    ensures s != [] ==> Collapse(s) != [] && Collapse(s)[0] == s[0]
    ensures Tidy(s) ==> Collapse(s) == s
  {
    if |s| >= 2 {
      CollapseIsTidy(s[1..]);
      var rest := Collapse(s[1..]);
      assert Tidy(s) ==> s[0] != DASH || s[1] != DASH;
      if Tidy(s) { TidySlice(s, 1, |s|); }
      assert s[1..] == s[1..|s|];
      assert rest[0] == s[1];
    }
  }

  lemma {:induction false} TrimLeftIs(s: string)
    requires Tidy(s)
    ensures Tidy(TrimLeft(s)) && |TrimLeft(s)| <= |s|
    ensures TrimLeft(s) != [] ==> TrimLeft(s)[0] != DASH
  {
    if s != [] && s[0] == DASH {
      TidySlice(s, 1, |s|);
      assert s[1..] == s[1..|s|];
      TrimLeftIs(s[1..]);
    }
  }

  lemma {:induction false} TrimRightIs(s: string)
    requires Tidy(s) && (s != [] ==> s[0] != DASH)
    ensures Tidy(TrimRight(s)) && |TrimRight(s)| <= |s| && Trimmed(TrimRight(s))
  {
    if s != [] && s[|s| - 1] == DASH {
      TidySlice(s, 0, |s| - 1);
      assert s[..|s| - 1] == s[0..|s| - 1];
      TrimRightIs(s[..|s| - 1]);
    }
  }

  lemma TidySlice(s: string, from: nat, to: nat)
    requires Tidy(s) && from <= to <= |s|
    ensures Tidy(s[from..to])
  {
    var t := s[from..to];
    assert forall i | 0 <= i < |t| :: t[i] == s[from + i];
    forall i | 0 <= i < |t| - 1 ensures t[i] != DASH || t[i + 1] != DASH {
      assert t[i] == s[from + i] && t[i + 1] == s[from + i + 1];
    }
  }

  lemma BaseIsCanonical(name: string)
    ensures Canonical(Base(name))
  {
    var mapped := MapName(name);
    CollapseIsTidy(mapped);
    TrimLeftIs(Collapse(mapped));
    TrimRightIs(TrimLeft(Collapse(mapped)));
    var base := Trim(Collapse(mapped));
    if |base| > 30 {
      TidySlice(base, 0, 30);
      assert base[..30] == base[0..30];
      TrimLeftIs(base[..30]);
      TrimRightIs(TrimLeft(base[..30]));
    }
  }

  /** A name is its own base exactly when it is an id already. */
  lemma OwnBase(name: string)
    ensures Base(name) == name <==> Canonical(name)
  {
    BaseIsCanonical(name);
    if Canonical(name) {
      assert MapName(name) == name;
      CollapseIsTidy(name);
      assert Trim(name) == name;
    }
  }

  // Numbered ids.

  function Decimal(n: nat): string {
    var ds := Digits(n);
    seq(|ds|, i requires 0 <= i < |ds| => DIGITS[ds[i]])
  }

  function Numbered(base: string, n: nat): (id: string)
    ensures |id| > |base|
  {
    base + [DASH] + Decimal(n)
  }

  /** The ids in the order in which they are tried. */
  function Attempt(base: string, n: nat): string
    requires n >= 1
  {
    if n == 1 then base else Numbered(base, n)
  }

  lemma DecimalIsInjective(n: nat, m: nat)
    requires Decimal(n) == Decimal(m)
    ensures n == m
  {
    var ns, ms := Digits(n), Digits(m);
    assert |Decimal(n)| == |ns| && |Decimal(m)| == |ms|;
    forall i | 0 <= i < |ns| ensures ns[i] == ms[i] {
      assert Decimal(n)[i] == DIGITS[ns[i]] && Decimal(m)[i] == DIGITS[ms[i]];
    }
    ValueOfDigits(n);
    ValueOfDigits(m);
    assert ns == ms;
  }

  lemma AttemptIsInjective(base: string, n: nat, m: nat)
    requires n >= 1 && m >= 1 && Attempt(base, n) == Attempt(base, m)
    ensures n == m
  {
    var k := |base| + 1;
    if n > 1 && m > 1 {
      assert Numbered(base, n)[k..] == Decimal(n) && Numbered(base, m)[k..] == Decimal(m);
      DecimalIsInjective(n, m);
    }
  }

  ghost predicate AllTaken(base: string, n: nat, used: set<string>) {
    forall k: nat | 1 <= k < n :: Attempt(base, k) in used
  }

  /** The pigeonhole: that many attempts are that many ids. */
  lemma {:induction false} AttemptsAreMany(base: string, n: nat, used: set<string>)
    requires n >= 1 && AllTaken(base, n, used)
    ensures n - 1 <= |used|
    decreases n
  {
    if n > 1 {
      var last := Attempt(base, n - 1);
      forall k: nat | 1 <= k < n - 1 ensures Attempt(base, k) in used - {last} {
        if Attempt(base, k) == last { AttemptIsInjective(base, k, n - 1); }
      }
      AttemptsAreMany(base, n - 1, used - {last});
    }
  }

  lemma AttemptIsNotDefault(name: string, n: nat)
    requires n >= 1
    ensures Attempt(Base(name), n) != DEFAULT
  {
    BaseIsCanonical(name);
    if n > 1 {
      assert Numbered(Base(name), n)[|Base(name)|] == DASH;
      assert forall i | 0 <= i < |DEFAULT| :: DEFAULT[i] != DASH;
    }
  }

  lemma AttemptMatches(name: string, n: nat)
    requires 1 <= n < 1_000_000_000
    ensures Matches(Attempt(Base(name), n))
  {
    var base := Base(name);
    BaseIsCanonical(name);
    if n > 1 {
      assert TenTo(9) == 1_000_000_000 by {
        assert TenTo(3) == 1000;
        assert TenTo(6) == 1_000_000;
      }
      DigitsWithin(n, 9);
      var id := Numbered(base, n);
      forall i | 1 <= i < |id| ensures Allowed(id[i]) {
        if i > |base| {
          assert id[i] == Decimal(n)[i - |base| - 1] == DIGITS[Digits(n)[i - |base| - 1]];
          DigitIsAllowed(Digits(n)[i - |base| - 1]);
        }
      }
    }
  }

  lemma DigitIsAllowed(d: Digit)
    ensures Allowed(DIGITS[d])
  {}

  function Used(taken: seq<string>): set<string> {
    set i | 0 <= i < |taken| :: taken[i]
  }

  /** The first free attempt, at its number. */
  ghost predicate IsNew(id: string, n: nat, name: string, taken: seq<string>) {
    && n >= 1 && id == Attempt(Base(name), n) && id !in taken
    && AllTaken(Base(name), n, Used(taken))
  }

  ghost predicate IsNewId(id: string, name: string, taken: seq<string>) {
    exists n :: IsNew(id, n, name, taken)
  }

  method NewProfileId(name: string, taken: seq<string>) returns (id: string)
    ensures IsNewId(id, name, taken)
  {
    var base := Base(name);
    var used := set i | 0 <= i < |taken| :: taken[i];
    id := base;
    ghost var n := 1;
    var next := 2;
    while id in used
      invariant used == Used(taken) && next == n + 1 && n >= 1
      invariant id == Attempt(base, n) && AllTaken(base, n, used)
      invariant n - 1 <= |used|
      decreases |used| + 1 - n
    {
      assert AllTaken(base, n + 1, used);
      AttemptsAreMany(base, n + 1, used);
      id := Numbered(base, next);
      n := n + 1;
      next := next + 1;
    }
    assert IsNew(id, n, name, taken);
  }

  lemma {:induction false} UsedIsFew(taken: seq<string>)
    ensures |Used(taken)| <= |taken|
  {
    if taken == [] {
      assert Used(taken) == {};
    } else {
      var n := |taken| - 1;
      UsedIsFew(taken[..n]);
      assert Used(taken) == Used(taken[..n]) + {taken[n]} by {
        forall id | id in Used(taken) ensures id in Used(taken[..n]) + {taken[n]} {
          var i :| 0 <= i < |taken| && taken[i] == id;
          assert i < n ==> taken[..n][i] == id;
        }
        forall id | id in Used(taken[..n]) ensures id in Used(taken) {
          var i :| 0 <= i < n && taken[..n][i] == id;
          assert taken[i] == id;
        }
      }
    }
  }

  /** Whatever the name, a new id is free and not the default's; among fewer than a billion profiles, the
      default one included, it is one that can be selected. */
  lemma NewIdIsUsable(id: string, name: string, taken: seq<string>)
    requires IsNewId(id, name, taken)
    ensures id !in taken && id != DEFAULT
    ensures DEFAULT in taken && |taken| < 1_000_000_000 ==> Matches(id)
  {
    var n :| IsNew(id, n, name, taken);
    AttemptIsNotDefault(name, n);
    if DEFAULT in taken && |taken| < 1_000_000_000 {
      UsedIsFew(taken);
      var others := Used(taken) - {DEFAULT};
      assert DEFAULT in Used(taken);
      forall k: nat | 1 <= k < n ensures Attempt(Base(name), k) in others { AttemptIsNotDefault(name, k); }
      AttemptsAreMany(Base(name), n, others);
      AttemptMatches(name, n);
    }
  }

  // Selecting a profile.

  /** The profile that opens for what was asked, given the list if it could be read. */
  function SelectProfile(asked: string, profiles: Option<seq<string>>): string {
    var id := Text.Trim(asked);
    if id != "" && id != DEFAULT && Matches(id) && profiles.Some? && id in profiles.value then id else DEFAULT
  }

  lemma MatchesIsTrimmed(id: string)
    requires Matches(id)
    ensures Text.Trim(id) == id
  {}

  /** A profile opens by the id it was given when it was created, and by no other, as long as the list can be read. */
  lemma NewProfileOpens(id: string, name: string, taken: seq<string>)
    requires IsNewId(id, name, taken)
    requires DEFAULT in taken && |taken| < 1_000_000_000
    ensures SelectProfile(id, Some(taken + [id])) == id
    ensures SelectProfile(id, Some(taken)) == DEFAULT
    ensures forall asked | Text.Trim(asked) != id ::
              SelectProfile(asked, Some(taken + [id])) == SelectProfile(asked, Some(taken))
  {
    NewIdIsUsable(id, name, taken);
    MatchesIsTrimmed(id);
    hide Text.Trim, Matches;
  }

  /** Capitals count as the small letters. */
  lemma CapitalsAreSmall(name: string, small: string)
    requires |name| == |small|
    requires forall i | 0 <= i < |name| :: small[i] == if 'A' <= name[i] <= 'Z' then (name[i] as int + 32) as char else name[i]
    ensures Base(name) == Base(small)
  {
    assert MapName(name) == MapName(small);
  }

  /** Everything but letters and digits counts as a dash. */
  lemma OthersAreDashes(name: string, dashed: string)
    requires |name| == |dashed|
    requires forall i | 0 <= i < |name| ::
               dashed[i] == if 'a' <= name[i] <= 'z' || 'A' <= name[i] <= 'Z' || '0' <= name[i] <= '9' then name[i] else '-'
    ensures Base(name) == Base(dashed)
  {
    assert MapName(name) == MapName(dashed);
  }

  lemma NamesWithoutABase()
    ensures Base("") == "profile" && Base("default") == "profile"
  {
    assert MapName("") == "" && MapName("default") == "default";
    assert Tidy("default");
    CollapseIsTidy("default");
  }
}
