/** The ids of mail threads: account, folder and either an encoded key or a message number. */
module ThreadId {
  import opened Wrappers
  import opened Base64
  import opened Numerals

  const SEPARATOR: bv8 := 0x23
  const ENCODED: Bytes := [0x74, 0x2e]
  const INBOX: Bytes := [0x49, 0x4e, 0x42, 0x4f, 0x58]
  const UID_PREFIX: Bytes := [0x75, 0x69, 0x64, 0x3a]
  const MAX_UID := 0xffff_ffff

  datatype Ids = Ids(account: Bytes, folder: Bytes, key: Bytes, uid: nat)

  function IndexOf(s: Bytes, c: bv8): (i: int)
    ensures -1 <= i < |s|
    ensures i >= 0 ==> s[i] == c
    ensures forall j | 0 <= j < (if i < 0 then |s| else i) :: s[j] != c
  {
    if s == [] then -1
    else if s[0] == c then 0
    else
      var i := IndexOf(s[1..], c);
      if i < 0 then -1 else i + 1
  }

  function LastIndexOf(s: Bytes, c: bv8): (i: int)
    ensures -1 <= i < |s|
    ensures i >= 0 ==> s[i] == c
    ensures forall j | i < j < |s| :: s[j] != c
  {
    if s == [] then -1
    else if s[|s| - 1] == c then |s| - 1
    else LastIndexOf(s[..|s| - 1], c)
  }

  function LowerLetter(c: bv8): bv8 {
    if 0x41 <= c <= 0x5a then c + 0x20 else c
  }

  predicate IsInbox(folder: Bytes) {
    |folder| == 5 && forall i :: 0 <= i < 5 ==> LowerLetter(folder[i]) == LowerLetter(INBOX[i])
  }

  function CanonThreadFolder(folder: Bytes): Bytes {
    if IsInbox(folder) then INBOX else folder
  }

  const DIGITS: Bytes := [0x30, 0x31, 0x32, 0x33, 0x34, 0x35, 0x36, 0x37, 0x38, 0x39]

  function Decimal(n: nat): (s: Bytes)
    ensures |s| >= 1
  {
    var ds := Digits(n);
    seq(|ds|, i requires 0 <= i < |ds| => DIGITS[ds[i]])
  }

  function DigitOf(c: bv8): Option<Digit> {
    if c == DIGITS[0] then Some(0) else if c == DIGITS[1] then Some(1)
    else if c == DIGITS[2] then Some(2) else if c == DIGITS[3] then Some(3)
    else if c == DIGITS[4] then Some(4) else if c == DIGITS[5] then Some(5)
    else if c == DIGITS[6] then Some(6) else if c == DIGITS[7] then Some(7)
    else if c == DIGITS[8] then Some(8) else if c == DIGITS[9] then Some(9)
    else None
  }

  predicate IsNumber(s: Bytes) {
    s != [] && forall i :: 0 <= i < |s| ==> DigitOf(s[i]).Some?
  }

  function Number(s: Bytes): nat
    requires IsNumber(s)
  {
    Value(seq(|s|, i requires 0 <= i < |s| => DigitOf(s[i]).value))
  }

  /** An unsigned number of 32 bits, in digits only. */
  function ParseUid(s: Bytes): Option<nat> {
    if IsNumber(s) && Number(s) <= MAX_UID then Some(Number(s)) else None
  }

  predicate StartsWith(s: Bytes, prefix: Bytes) {
    |s| >= |prefix| && s[..|prefix|] == prefix
  }

  function ParseKeyPart(account: Bytes, folder: Bytes, part: Bytes): Option<Ids> {
    if StartsWith(part, ENCODED) then
      var decoded := Base64.Decode(part[2..], RawUrlEncoding);
      if decoded.None? then None else Some(Ids(account, folder, decoded.value, 0))
    else
      var uid := ParseUid(part);
      if uid.None? then None else Some(Ids(account, folder, [], uid.value))
  }

  function ParseImapThreadId(id: Bytes): Option<Ids> {
    var first, last := IndexOf(id, SEPARATOR), LastIndexOf(id, SEPARATOR);
    if first <= 0 || last <= first then None
    else ParseKeyPart(id[..first], id[first + 1..last], id[last + 1..])
  }

  function Joined(account: Bytes, folder: Bytes, part: Bytes): Bytes {
    account + [SEPARATOR] + CanonThreadFolder(folder) + [SEPARATOR] + part
  }

  function FormatImapThreadId(account: Bytes, folder: Bytes, key: Bytes): Bytes {
    Joined(account, folder, ENCODED + Base64.Encode(key, RawUrlEncoding))
  }

  function FormatParsedImapThreadIdInFolder(ids: Ids, folder: Bytes): Bytes {
    if ids.key == [] && ids.uid > 0 then Joined(ids.account, folder, Decimal(ids.uid))
    else FormatImapThreadId(ids.account, folder, ids.key)
  }

  /** How the mail core writes the id of a thread; its own keys may stand for a message number. */
  function CoreThreadId(account: Bytes, folder: Bytes, key: Bytes): Bytes {
    if StartsWith(key, UID_PREFIX) then Joined(account, folder, key[4..])
    else FormatImapThreadId(account, folder, key)
  }

  /** What an account id must be for its threads to be found again. */
  predicate Plain(account: Bytes) {
    account != [] && SEPARATOR !in account
  }

  lemma JoinedParts(account: Bytes, folder: Bytes, part: Bytes)
    requires SEPARATOR !in account && SEPARATOR !in part
    ensures var id, last := Joined(account, folder, part), |account| + 1 + |CanonThreadFolder(folder)|;
            && IndexOf(id, SEPARATOR) == |account| && LastIndexOf(id, SEPARATOR) == last
            && id[..|account|] == account && id[|account| + 1..last] == CanonThreadFolder(folder) && id[last + 1..] == part
  {
    var id, last := Joined(account, folder, part), |account| + 1 + |CanonThreadFolder(folder)|;
    assert id[last + 1..] == part && id[..|account|] == account;
    assert id[|account|] == SEPARATOR && id[last] == SEPARATOR;
    assert forall i | 0 <= i < |account| :: id[i] == account[i];
    assert forall i | last < i < |id| :: id[i] == part[i - last - 1];
  }

  lemma ParseJoined(account: Bytes, folder: Bytes, part: Bytes)
    requires Plain(account) && SEPARATOR !in part
    ensures ParseImapThreadId(Joined(account, folder, part)) == ParseKeyPart(account, CanonThreadFolder(folder), part)
  {
    hide ParseKeyPart, IndexOf, LastIndexOf, CanonThreadFolder, Joined;
    JoinedParts(account, folder, part);
  }

  lemma ParsedIsPlain(id: Bytes)
    requires ParseImapThreadId(id).Some?
    ensures var ids := ParseImapThreadId(id).value;
            Plain(ids.account) && ids.uid <= MAX_UID && (ids.key == [] || ids.uid == 0)
  {
    var first := IndexOf(id, SEPARATOR);
    assert forall i | 0 <= i < first :: id[..first][i] == id[i];
  }

  lemma DigitsAreRead(d: Digit)
    ensures DigitOf(DIGITS[d]) == Some(d)
  {}

  lemma NumberOfDecimal(n: nat)
    ensures IsNumber(Decimal(n)) && Number(Decimal(n)) == n
  {
    var s, ds := Decimal(n), Digits(n);
    forall i | 0 <= i < |ds| ensures DigitOf(s[i]) == Some(ds[i]) {
      DigitsAreRead(ds[i]);
    }
    assert seq(|s|, i requires 0 <= i < |s| => DigitOf(s[i]).value) == ds;
    ValueOfDigits(n);
  }

  lemma NumberIsNoKey(s: Bytes)
    requires IsNumber(s)
    ensures SEPARATOR !in s && !StartsWith(s, ENCODED)
  {
    assert DigitOf(s[0]).Some? && DigitOf(ENCODED[0]).None? && DigitOf(SEPARATOR).None?;
    assert |s| >= 2 ==> s[..2][0] == s[0];
  }

  lemma EncodedPart(account: Bytes, folder: Bytes, key: Bytes)
    ensures SEPARATOR !in ENCODED + Base64.Encode(key, RawUrlEncoding)
    ensures ParseKeyPart(account, folder, ENCODED + Base64.Encode(key, RawUrlEncoding)) == Some(Ids(account, folder, key, 0))
  {
    Base64.RoundTrip(key, RawUrlEncoding);
    var encoded := Base64.Encode(key, RawUrlEncoding);
    var part := ENCODED + encoded;
    SeparatorIsNoLetter(key);
    hide Base64.Decode, Base64.Encode, ParseUid, Sextet;
    assert part[..2] == ENCODED && part[2..] == encoded;
    assert StartsWith(part, ENCODED);
  }

  lemma SeparatorIsNoLetter(key: Bytes)
    ensures SEPARATOR !in Base64.Encode(key, RawUrlEncoding)
  {
    UrlFormHasOnlyLetters(key);
    assert Sextet(SEPARATOR, RawUrlEncoding).None?;
    hide Base64.Encode, Sextet;
  }

  /** Exactly for the accounts that are not empty and have no separator, a thread id says again what it was
      made of, whatever the folder and the key. */
  lemma FormatParses(account: Bytes, folder: Bytes, key: Bytes)
    ensures ParseImapThreadId(FormatImapThreadId(account, folder, key)) == Some(Ids(account, CanonThreadFolder(folder), key, 0))
            <==> Plain(account)
  {
    EncodedPart(account, CanonThreadFolder(folder), key);
    var part := ENCODED + Base64.Encode(key, RawUrlEncoding);
    if Plain(account) { ParseJoined(account, folder, part); }
    if ParseImapThreadId(Joined(account, folder, part)).Some? { ParsedIsPlain(Joined(account, folder, part)); }
  }

  /** So threads that differ in account, folder or key have different ids. */
  lemma FormatIsInjective(account: Bytes, folder: Bytes, key: Bytes, account': Bytes, folder': Bytes, key': Bytes)
    requires Plain(account) && Plain(account')
    ensures FormatImapThreadId(account, folder, key) == FormatImapThreadId(account', folder', key') <==>
            account == account' && CanonThreadFolder(folder) == CanonThreadFolder(folder') && key == key'
  {
    FormatParses(account, folder, key);
    FormatParses(account', folder', key');
  }

  lemma CanonIsCanonical(folder: Bytes)
    ensures CanonThreadFolder(CanonThreadFolder(folder)) == CanonThreadFolder(folder)
    ensures CanonThreadFolder(folder) == folder <==> folder == INBOX || !IsInbox(folder)
  {}

  /** Formatting what was parsed keeps the thread exactly when it is named in one way only. */
  lemma FormatParsedParses(ids: Ids, folder: Bytes)
    requires ids.uid <= MAX_UID
    ensures ParseImapThreadId(FormatParsedImapThreadIdInFolder(ids, folder)) == Some(ids.(folder := CanonThreadFolder(folder)))
            <==> Plain(ids.account) && (ids.key == [] || ids.uid == 0)
  {
    hide ParseImapThreadId, Joined;
    var id := FormatParsedImapThreadIdInFolder(ids, folder);
    if ParseImapThreadId(id).Some? { ParsedIsPlain(id); }
    if Plain(ids.account) {
      if ids.key == [] && ids.uid > 0 {
        NumberOfDecimal(ids.uid);
        NumberIsNoKey(Decimal(ids.uid));
        ParseJoined(ids.account, folder, Decimal(ids.uid));
      } else {
        EncodedPart(ids.account, CanonThreadFolder(folder), ids.key);
        ParseJoined(ids.account, folder, ENCODED + Base64.Encode(ids.key, RawUrlEncoding));
      }
    }
  }

  /** A thread whose id was understood keeps account, key and number when it moves to any folder, and moving
      it there once more changes nothing. */
  lemma MovedThreadIsTheSame(id: Bytes, folder: Bytes)
    requires ParseImapThreadId(id).Some?
    ensures var ids := ParseImapThreadId(id).value;
            var moved := FormatParsedImapThreadIdInFolder(ids, folder);
            && ParseImapThreadId(moved) == Some(ids.(folder := CanonThreadFolder(folder)))
            && FormatParsedImapThreadIdInFolder(ParseImapThreadId(moved).value, folder) == moved
  {
    ParsedIsPlain(id);
    FormatParsedParses(ParseImapThreadId(id).value, folder);
  }

  lemma {:induction false} EncodedIsNotShorter(key: Bytes)
    ensures |Base64.Encode(key, RawUrlEncoding)| >= |key|
  {
    if |key| > 2 { EncodedIsNotShorter(key[3..]); }
  }

  /** The core and the bridge write the same id exactly for the keys that are not a message number. */
  lemma CoreAgrees(account: Bytes, folder: Bytes, key: Bytes)
    ensures CoreThreadId(account, folder, key) == FormatImapThreadId(account, folder, key) <==>
            !StartsWith(key, UID_PREFIX)
  {
    EncodedIsNotShorter(key);
  }

  /** And the bridge reads the core's id of a message number as that number. */
  lemma CoreNumberParses(account: Bytes, folder: Bytes, uid: nat)
    requires Plain(account) && uid <= MAX_UID
    ensures ParseImapThreadId(CoreThreadId(account, folder, UID_PREFIX + Decimal(uid)))
            == Some(Ids(account, CanonThreadFolder(folder), [], uid))
  {
    var key := UID_PREFIX + Decimal(uid);
    assert key[..4] == UID_PREFIX && key[4..] == Decimal(uid);
    NumberOfDecimal(uid);
    NumberIsNoKey(Decimal(uid));
    ParseJoined(account, folder, Decimal(uid));
  }

  /** One id in full: `a#INBOX#t.aw`, for the key `k` in the folder `inbox` of account `a`. */
  lemma OneId()
    ensures FormatImapThreadId([0x61], [0x69, 0x6e, 0x62, 0x6f, 0x78], [0x6b])
         == [0x61, 0x23, 0x49, 0x4e, 0x42, 0x4f, 0x58, 0x23, 0x74, 0x2e, 0x61, 0x77]
  {
    assert IsInbox([0x69, 0x6e, 0x62, 0x6f, 0x78]);
    assert Base64.Encode([0x6b], RawUrlEncoding) == [0x61, 0x77];
  }

  /** Message numbers have 32 bits. */
  lemma UidsAreSmall(n: nat)
    ensures ParseUid(Decimal(n)) == if n <= 4_294_967_295 then Some(n) else None
  {
    NumberOfDecimal(n);
  }
}
