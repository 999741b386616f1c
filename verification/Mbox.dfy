/** Writing and splitting mboxrd files: a `From ` line before each message, `>*From ` lines quoted once more,
    and a blank line after it. */
module Mbox {
  type Byte = b: int | 0 <= b < 256

  type Bytes = seq<Byte>

  const LF: Byte := 10
  const CR: Byte := 13
  const QUOTE: Byte := 62

  /** `From ` */
  const FROM: Bytes := [70, 114, 111, 109, 32]
  /** `- `, between it and the stamp */
  const DASH: Bytes := [45, 32]

  // ---- Lines ----

  /** Where the first line ends, its newline included. */
  function LineEnd(file: Bytes): (n: nat)
    ensures n <= |file| && (file != [] ==> n > 0)
    ensures forall i | 0 <= i < n - 1 :: file[i] != LF
    ensures n < |file| ==> file[n - 1] == LF
  {
    if file == [] then 0
    else if file[0] == LF then 1
    else
      var rest := LineEnd(file[1..]);
      if |file| == 1 then 1 else rest + 1
  }

  /** The lines of a file, each with its newline; only the last may lack one. */
  function Lines(file: Bytes): seq<Bytes>
    decreases |file|
  {
    if file == [] then [] else [file[..LineEnd(file)]] + Lines(file[LineEnd(file)..])
  }

  predicate EndsWith(s: Bytes, suffix: Bytes) {
    |s| >= |suffix| && s[|s| - |suffix|..] == suffix
  }

  predicate StartsWith(s: Bytes, prefix: Bytes) {
    |s| >= |prefix| && s[..|prefix|] == prefix
  }

  /** One line, complete. */
  predicate IsLine(line: Bytes) {
    line != [] && line[|line| - 1] == LF && forall i | 0 <= i < |line| - 1 :: line[i] != LF
  }

  function Join(lines: seq<Bytes>): Bytes {
    if lines == [] then [] else lines[0] + Join(lines[1..])
  }

  lemma {:induction false} LinesJoin(file: Bytes)
    ensures Join(Lines(file)) == file
    decreases |file|
  {
    if file != [] {
      LinesJoin(file[LineEnd(file)..]);
      assert file == file[..LineEnd(file)] + file[LineEnd(file)..];
      assert Lines(file)[1..] == Lines(file[LineEnd(file)..]);
    }
  }

  lemma LineEndOfLine(line: Bytes, rest: Bytes)
    requires IsLine(line)
    ensures LineEnd(line + rest) == |line|
  {
    var s := line + rest;
    var n := LineEnd(s);
    assert s[|line| - 1] == LF;
    assert forall i | 0 <= i < |line| - 1 :: s[i] != LF;
  }

  lemma LinesOfLine(line: Bytes, rest: Bytes)
    requires IsLine(line)
    ensures Lines(line + rest) == [line] + Lines(rest)
  {
    LineEndOfLine(line, rest);
    assert (line + rest)[..|line|] == line && (line + rest)[|line|..] == rest;
  }

  ghost predicate AllLines(lines: seq<Bytes>) {
    forall i | 0 <= i < |lines| :: IsLine(lines[i])
  }

  lemma {:induction false} LinesOfJoin(lines: seq<Bytes>, rest: Bytes)
    requires AllLines(lines)
    ensures Lines(Join(lines) + rest) == lines + Lines(rest)
  {
    hide Lines, IsLine;
    if lines == [] {
      assert Join(lines) + rest == rest;
    } else {
      var tail := Join(lines[1..]) + rest;
      LinesOfJoin(lines[1..], rest);
      LinesOfLine(lines[0], tail);
      assert Join(lines) + rest == lines[0] + tail;
      assert lines == [lines[0]] + lines[1..];
    }
  }

  lemma {:induction false} LinesAreLines(file: Bytes)
    requires file == [] || file[|file| - 1] == LF
    ensures AllLines(Lines(file))
    decreases |file|
  {
    if file != [] {
      var n := LineEnd(file);
      LinesAreLines(file[n..]);
      assert file[..n][n - 1] == LF;
    }
  }

  // ---- Quoting ----

  /** Any number of quote marks, then `From `. */
  predicate Quotable(line: Bytes) {
    StartsWith(line, FROM) || (line != [] && line[0] == QUOTE && Quotable(line[1..]))
  }

  function Quoted(line: Bytes): Bytes {
    if Quotable(line) then [QUOTE] + line else line
  }

  function Unquoted(line: Bytes): Bytes {
    if StartsWith(line, [QUOTE]) && Quotable(line) then line[1..] else line
  }

  function QuotedLines(lines: seq<Bytes>): (q: seq<Bytes>)
    ensures |q| == |lines|
  {
    if lines == [] then [] else [Quoted(lines[0])] + QuotedLines(lines[1..])
  }

  /** The quoting is undone exactly, and no quoted line starts a message. */
  lemma QuotedOnce(line: Bytes)
    ensures Unquoted(Quoted(line)) == line
    ensures !StartsWith(Quoted(line), FROM)
    ensures IsLine(line) ==> IsLine(Quoted(line))
  {
    if Quotable(line) {
      var q := [QUOTE] + line;
      assert q[..1] == [QUOTE] && q[1..] == line;
      assert q[0] == QUOTE && FROM[0] != QUOTE;
      assert |q| >= 5 ==> q[..5][0] == QUOTE;
      if IsLine(line) {
        assert q[|q| - 1] == line[|line| - 1];
        forall i | 0 <= i < |q| - 1 ensures q[i] != LF { assert i > 0 ==> q[i] == line[i - 1]; }
      }
    }
  }

  // ---- Writing ----

  predicate EndsInNewline(raw: Bytes) {
    raw != [] && raw[|raw| - 1] == LF
  }

  /** A message as a file holds it: its last line completed. */
  function Completed(raw: Bytes): Bytes {
    if EndsInNewline(raw) then raw else raw + [LF]
  }

  /** The line before a message; the stamp is a formatted date. */
  function Separator(stamp: Bytes): Bytes {
    FROM + DASH + stamp + [LF]
  }

  function EntryLines(raw: Bytes, stamp: Bytes): seq<Bytes> {
    [Separator(stamp)] + QuotedLines(Lines(Completed(raw))) + [[LF]]
  }

  method WriteMboxEntry(out: Bytes, raw: Bytes, stamp: Bytes) returns (written: Bytes)
    ensures written == out + Join(EntryLines(raw, stamp))
  {
    hide Join, QuotedLines, Lines, Quotable, Quoted, EndsInNewline;
    written := out + (FROM + DASH + stamp + [LF]);
    var lines := Lines(raw);
    ghost var head, body: Bytes := written, [];
    QuotedLinesNone(lines);
    for i := 0 to |lines|
      invariant body == Join(QuotedLines(lines[..i]))
      invariant written == head + body
    {
      QuotedLinesNext(lines, i);
      QuoteThenLine(written, lines[i]);
      AppendTwice(head, body, Quoted(lines[i]));
      if Quotable(lines[i]) {
        written := written + [QUOTE];
      }
      written := written + lines[i];
      body := body + Quoted(lines[i]);
    }
    assert lines[..|lines|] == lines;
    CompletedLines(raw);
    if !EndsInNewline(raw) {
      written := written + [LF];
    }
    AppendTwice(head, body, [LF]);
    ghost var whole := Join(QuotedLines(Lines(Completed(raw))));
    assert written == head + whole by { assert body + [] == body; }
    AppendTwice(head, whole, [LF]);
    written := written + [LF];
    JoinEntry(Separator(stamp), QuotedLines(Lines(Completed(raw))));
    AppendTwice(out, Separator(stamp), whole + [LF]);
    AppendTwice(Separator(stamp), whole, [LF]);
  }

  lemma AppendTwice(a: Bytes, b: Bytes, c: Bytes)
    ensures a + b + c == a + (b + c)
  {}

  lemma QuoteThenLine(written: Bytes, line: Bytes)
    ensures (if Quotable(line) then written + [QUOTE] else written) + line == written + Quoted(line)
  {}

  lemma QuotedLinesNone(lines: seq<Bytes>)
    ensures Join(QuotedLines(lines[..0])) == []
  {}

  lemma {:induction false} JoinAppends(a: seq<Bytes>, b: seq<Bytes>)
    ensures Join(a + b) == Join(a) + Join(b)
  {
    if a == [] {
      assert a + b == b;
    } else {
      assert (a + b)[1..] == a[1..] + b;
      JoinAppends(a[1..], b);
    }
  }

  lemma JoinEntry(first: Bytes, lines: seq<Bytes>)
    ensures Join([first] + lines + [[LF]]) == first + Join(lines) + [LF]
  {
    JoinAppends([first] + lines, [[LF]]);
    assert ([first] + lines)[1..] == lines;
    assert Join([[LF]]) == [LF] + Join([]) == [LF];
  }

  lemma {:induction false} QuotedLinesAppend(a: seq<Bytes>, b: seq<Bytes>)
    ensures QuotedLines(a + b) == QuotedLines(a) + QuotedLines(b)
  {
    if a == [] {
      assert a + b == b;
    } else {
      assert (a + b)[1..] == a[1..] + b;
      QuotedLinesAppend(a[1..], b);
    }
  }

  lemma QuotedLinesNext(lines: seq<Bytes>, i: nat)
    requires i < |lines|
    ensures Join(QuotedLines(lines[..i + 1])) == Join(QuotedLines(lines[..i])) + Quoted(lines[i])
  {
    assert lines[..i + 1] == lines[..i] + [lines[i]];
    QuotedLinesAppend(lines[..i], [lines[i]]);
    JoinAppends(QuotedLines(lines[..i]), [Quoted(lines[i])]);
    assert QuotedLines([lines[i]]) == [Quoted(lines[i])];
    assert Join([Quoted(lines[i])]) == Quoted(lines[i]) + Join([]) == Quoted(lines[i]);
  }

  lemma {:induction false} QuotableWithNewline(line: Bytes)
    ensures Quotable(line + [LF]) == Quotable(line)
  {
    StartsWithNewline(line);
    if line != [] {
      TailOfAppend(line, [LF]);
      QuotableWithNewline(line[1..]);
    }
  }

  lemma TailOfAppend(a: Bytes, b: Bytes)
    requires a != []
    ensures (a + b)[1..] == a[1..] + b && (a + b)[0] == a[0]
  {}

  lemma StartsWithNewline(line: Bytes)
    ensures StartsWith(line + [LF], FROM) == StartsWith(line, FROM)
  {
    var l := line + [LF];
    assert |line| >= 5 ==> l[..5] == line[..5];
    assert |line| == 4 ==> l[..5][4] == LF;
  }

  lemma QuotedLinesCons(line: Bytes, rest: seq<Bytes>)
    ensures QuotedLines([line] + rest) == [Quoted(line)] + QuotedLines(rest)
    ensures Join(QuotedLines([line] + rest)) == Quoted(line) + Join(QuotedLines(rest))
  {
    hide Quoted;
    assert ([line] + rest)[1..] == rest;
    var q := [Quoted(line)] + QuotedLines(rest);
    assert q[1..] == QuotedLines(rest);
  }

  lemma OneLine(raw: Bytes)
    requires raw != [] && LineEnd(raw) == |raw|
    ensures Lines(raw) == [raw] + []
    ensures Join(QuotedLines(Lines(raw))) == Quoted(raw)
  {
    hide Quoted;
    assert raw[..|raw|] == raw && raw[|raw|..] == [];
    QuotedLinesCons(raw, []);
    assert Join([]) == [];
  }

  lemma FirstIsLine(raw: Bytes, n: nat)
    requires n == LineEnd(raw) && n < |raw|
    ensures IsLine(raw[..n])
  {
    hide LineEnd;
    var line := raw[..n];
    assert raw != [] && n > 0 && line[n - 1] == raw[n - 1];
    assert forall i | 0 <= i < n - 1 :: line[i] == raw[i];
  }

  lemma CutBehindLine(line: Bytes, rest: Bytes)
    requires IsLine(line)
    ensures Lines(line + rest) == [line] + Lines(rest)
    ensures Lines(line + rest + [LF]) == [line] + Lines(rest + [LF])
  {
    hide IsLine, Lines;
    LinesOfLine(line, rest);
    LinesOfLine(line, rest + [LF]);
    assert line + rest + [LF] == line + (rest + [LF]);
  }

  /** Completing the last line before quoting is quoting and then completing it. */
  lemma {:induction false} CompletedLines(raw: Bytes)
    ensures Join(QuotedLines(Lines(Completed(raw)))) == Join(QuotedLines(Lines(raw))) + (if EndsInNewline(raw) then [] else [LF])
    decreases |raw|
  {
    hide Quoted, Lines, QuotedLines, Join, IsLine;
    if raw == [] {
      assert raw + [LF] == [LF];
      assert Join(QuotedLines(Lines([]))) == [] by { NoLines(); }
      assert LineEnd([LF]) == 1;
      OneLine([LF]);
      NewlineIsNotQuoted();
    } else if !EndsInNewline(raw) {
      var n := LineEnd(raw);
      if n == |raw| {
        OneLine(raw);
        CompletedIsOneLine(raw);
        OneLine(raw + [LF]);
        QuotableWithNewline(raw);
        QuotedWithNewline(raw);
      } else {
        var line, rest := raw[..n], raw[n..];
        CompletedLines(rest);
        assert rest[|rest| - 1] == raw[|raw| - 1];
        FirstIsLine(raw, n);
        CutBehindLine(line, rest);
        assert line + rest == raw;
        QuotedLinesCons(line, Lines(rest + [LF]));
        QuotedLinesCons(line, Lines(rest));
      }
    }
  }

  lemma NoLines()
    ensures Lines([]) == [] && Join(QuotedLines([])) == []
  {}

  lemma NewlineIsNotQuoted()
    ensures Quoted([LF]) == [LF]
  {}

  lemma QuotedWithNewline(raw: Bytes)
    requires Quotable(raw + [LF]) == Quotable(raw)
    ensures Quoted(raw + [LF]) == Quoted(raw) + [LF]
  {}

  lemma CompletedIsOneLine(raw: Bytes)
    requires raw != [] && LineEnd(raw) == |raw| && raw[|raw| - 1] != LF
    ensures LineEnd(raw + [LF]) == |raw| + 1
  {
    hide LineEnd;
    var longer := raw + [LF];
    assert forall i | 0 <= i < |raw| :: raw[i] != LF;
    assert forall i | 0 <= i < |raw| :: longer[i] == raw[i];
    assert LineEnd(longer) > 0;
  }

  // ---- Splitting ----

  datatype Current = Outside | Inside(message: Bytes)

  function Finished(current: Current): seq<Bytes> {
    if current.Inside? then [current.message] else []
  }

  /** The messages in lines, as they stand between separators; text before the first is none. */
  function Scan(lines: seq<Bytes>, current: Current): seq<Bytes>
    decreases |lines|
  {
    if lines == [] then Finished(current)
    else if StartsWith(lines[0], FROM) then Finished(current) + Scan(lines[1..], Inside([]))
    else Scan(lines[1..], Taking(current, lines[0]))
  }

  function Taking(current: Current, line: Bytes): Current {
    if current.Inside? then Inside(current.message + Unquoted(line)) else Outside
  }

  /** Ends in a line and a blank one. */
  predicate EndsBlank(message: Bytes) {
    EndsWith(message, [LF]) && (EndsWith(message, [LF, LF]) || EndsWith(message, [CR, LF, CR, LF]))
  }

  function Popped(message: Bytes): (r: Bytes)
    requires message != []
    ensures |r| < |message|
  {
    var r := message[..|message| - 1];
    if EndsWith(r, [CR]) then r[..|r| - 1] else r
  }

  /** The blank lines at the end of a message dropped. */
  function Trimmed(message: Bytes): Bytes
    decreases |message|
  {
    if EndsBlank(message) then Trimmed(Popped(message)) else message
  }

  function KeepTrimmed(messages: seq<Bytes>): seq<Bytes> {
    if messages == [] then []
    else (if Trimmed(messages[0]) != [] then [Trimmed(messages[0])] else []) + KeepTrimmed(messages[1..])
  }

  function Split(file: Bytes): seq<Bytes> {
    KeepTrimmed(Scan(Lines(file), Outside))
  }

  method TrimSeparator(raw: Bytes) returns (message: Bytes)
    ensures message == Trimmed(raw)
  {
    message := raw;
    while EndsWith(message, [LF]) && (EndsWith(message, [LF, LF]) || EndsWith(message, [CR, LF, CR, LF]))
      invariant Trimmed(message) == Trimmed(raw)
      decreases |message|
    {
      message := message[..|message| - 1];
      if EndsWith(message, [CR]) {
        message := message[..|message| - 1];
      }
    }
  }

  method SplitMbox(file: Bytes) returns (messages: seq<Bytes>)
    ensures messages == Split(file)
  {
    hide Unquoted, StartsWith, Quotable, Trimmed, Lines, Scan, KeepTrimmed;
    var found: seq<Bytes> := [];
    var current := Outside;
    var lines := Lines(file);
    assert lines[0..] == lines;
    for i := 0 to |lines|
      invariant found + Scan(lines[i..], current) == Scan(lines, Outside)
    {
      var line := lines[i];
      ScanNext(lines, i, current);
      if StartsWith(line, FROM) {
        if current.Inside? {
          found := found + [current.message];
        }
        current := Inside([]);
        continue;
      }
      if current.Outside? {
        continue;
      }
      var unquoted := if StartsWith(line, [QUOTE]) && Quotable(line) then line[1..] else line;
      current := Inside(current.message + unquoted);
    }
    ScanEnd(lines, current);
    if current.Inside? {
      found := found + [current.message];
    }
    assert found == Scan(lines, Outside);
    messages := [];
    assert found[0..] == found;
    for i := 0 to |found|
      invariant messages + KeepTrimmed(found[i..]) == KeepTrimmed(found)
    {
      KeepTrimmedNext(found, i);
      var message := TrimSeparator(found[i]);
      if message != [] {
        messages := messages + [message];
      }
    }
    KeepTrimmedEnd(found);
    assert messages == KeepTrimmed(found);
  }

  lemma ScanNext(lines: seq<Bytes>, i: nat, current: Current)
    requires i < |lines|
    ensures Scan(lines[i..], current)
         == if StartsWith(lines[i], FROM) then Finished(current) + Scan(lines[i + 1..], Inside([]))
            else Scan(lines[i + 1..], Taking(current, lines[i]))
    ensures StartsWith(lines[i], [QUOTE]) && Quotable(lines[i]) ==> |lines[i]| > 0 && Unquoted(lines[i]) == lines[i][1..]
    ensures !(StartsWith(lines[i], [QUOTE]) && Quotable(lines[i])) ==> Unquoted(lines[i]) == lines[i]
  {
    assert lines[i..][0] == lines[i] && lines[i..][1..] == lines[i + 1..];
  }

  lemma ScanEnd(lines: seq<Bytes>, current: Current)
    ensures Scan(lines[|lines|..], current) == Finished(current)
  {}

  lemma KeepTrimmedNext(found: seq<Bytes>, i: nat)
    requires i < |found|
    ensures KeepTrimmed(found[i..]) == (if Trimmed(found[i]) != [] then [Trimmed(found[i])] else []) + KeepTrimmed(found[i + 1..])
  {
    assert found[i..][0] == found[i] && found[i..][1..] == found[i + 1..];
  }

  lemma KeepTrimmedEnd(found: seq<Bytes>)
    ensures KeepTrimmed(found[|found|..]) == []
  {}

  // ---- The round trip ----

  /** What a message reads back as. */
  function Canonical(raw: Bytes): Bytes {
    Trimmed(Completed(raw))
  }

  /** Ends in a newline, and not in two line ends of one kind. Blank lines of mixed kinds at the end stay. */
  predicate IsCanonical(message: Bytes) {
    EndsInNewline(message) && !EndsBlank(message)
  }

  /** Blank lines only. */
  predicate Blank(s: Bytes) {
    || s == []
    || (s[0] == LF && Blank(s[1..]))
    || (s[0] == CR && |s| >= 2 && s[1] == LF && Blank(s[2..]))
  }

  lemma {:induction false} TrimmedIs(message: Bytes) returns (blank: Bytes)
    requires EndsInNewline(message)
    ensures IsCanonical(Trimmed(message))
    ensures message == Trimmed(message) + blank && Blank(blank)
    decreases |message|
  {
    hide EndsBlank, Blank, Popped;
    if EndsBlank(message) {
      var line := PoppedLine(message);
      blank := TrimmedIs(Popped(message));
      BlankAppends(blank, line);
      blank := blank + line;
    } else {
      blank := [];
      assert Blank(blank) by { NothingIsBlank(); }
    }
  }

  lemma NothingIsBlank()
    ensures Blank([])
  {}

  lemma PoppedLine(message: Bytes) returns (line: Bytes)
    requires EndsBlank(message)
    ensures message != [] && message == Popped(message) + line && (line == [LF] || line == [CR, LF])
    ensures EndsInNewline(Popped(message))
  {
    var n := |message|;
    if EndsWith(message, [LF, LF]) {
      assert message[n - 2..][0] == message[n - 2] && message[n - 2..][1] == message[n - 1];
      assert message[..n - 1][n - 2..] == [LF];
      return [LF];
    } else {
      var tail := message[n - 4..];
      assert tail == [CR, LF, CR, LF];
      assert tail[1] == message[n - 3] && tail[2] == message[n - 2] && tail[3] == message[n - 1];
      assert message[..n - 1][n - 2..] == [CR];
      return [CR, LF];
    }
  }

  lemma {:induction false} BlankAppends(a: Bytes, b: Bytes)
    requires Blank(a) && (b == [LF] || b == [CR, LF])
    ensures Blank(a + b)
  {
    if a == [] {
      assert a + b == b;
      assert Blank([]);
      if b == [LF] { assert b[1..] == []; } else { assert b[2..] == []; }
    } else if a[0] == LF {
      BlankAppends(a[1..], b);
      assert (a + b)[1..] == a[1..] + b;
    } else {
      BlankAppends(a[2..], b);
      assert (a + b)[2..] == a[2..] + b;
    }
  }

  /** Canonicalising completes the last line and drops surplus blank lines after it, nothing else; it
      changes a message just when it is not canonical yet. */
  lemma CanonicalIs(raw: Bytes) returns (blank: Bytes)
    ensures IsCanonical(Canonical(raw))
    ensures Completed(raw) == Canonical(raw) + blank && Blank(blank)
    ensures Canonical(raw) == raw <==> IsCanonical(raw)
    ensures Canonical(Canonical(raw)) == Canonical(raw)
  {
    hide Blank, EndsBlank;
    blank := TrimmedIs(Completed(raw));
  }

  /** The blank line a file has after a message belongs to neither. */
  lemma TrimmedWithSeparator(message: Bytes)
    requires EndsInNewline(message)
    ensures Trimmed(message + [LF]) == Trimmed(message)
  {
    var m := message + [LF];
    assert m[|m| - 2..] == [LF, LF] && m[|m| - 1..] == [LF];
    assert m[..|m| - 1] == message;
    assert message[|message| - 1..] == [LF];
    assert Popped(m) == message;
  }

  /** A file written entry by entry. */
  function File(entries: seq<(Bytes, Bytes)>): Bytes {
    if entries == [] then [] else Join(EntryLines(entries[0].0, entries[0].1)) + File(entries[1..])
  }

  ghost predicate OneLineStamps(entries: seq<(Bytes, Bytes)>) {
    forall i | 0 <= i < |entries| :: LF !in entries[i].1
  }

  function CanonicalAll(entries: seq<(Bytes, Bytes)>): seq<Bytes> {
    if entries == [] then [] else [Canonical(entries[0].0)] + CanonicalAll(entries[1..])
  }

  lemma SeparatorIsLine(stamp: Bytes)
    requires LF !in stamp
    ensures IsLine(Separator(stamp)) && StartsWith(Separator(stamp), FROM)
  {
    var s := Separator(stamp);
    var head := FROM + DASH;
    assert s == head + (stamp + [LF]);
    forall i | 0 <= i < |s| - 1 ensures s[i] != LF {
      if i < |head| { assert s[i] == head[i]; } else { assert s[i] == stamp[i - |head|]; }
    }
    assert s[..5] == FROM;
  }

  lemma {:induction false} QuotedLinesAreLines(lines: seq<Bytes>)
    requires AllLines(lines)
    ensures AllLines(QuotedLines(lines))
    ensures forall i | 0 <= i < |lines| :: !StartsWith(QuotedLines(lines)[i], FROM)
  {
    hide IsLine, Quoted, StartsWith;
    if lines != [] {
      QuotedOnce(lines[0]);
      assert forall i | 0 <= i < |lines[1..]| :: lines[1..][i] == lines[i + 1];
      QuotedLinesAreLines(lines[1..]);
      var q := QuotedLines(lines[1..]);
      forall i | 1 <= i < |lines| ensures QuotedLines(lines)[i] == q[i - 1] {}
    }
  }

  lemma ScanLine(lines: seq<Bytes>, line: Bytes, message: Bytes)
    requires lines != [] && !StartsWith(lines[0], FROM) && Unquoted(lines[0]) == line
    ensures Scan(lines, Inside(message)) == Scan(lines[1..], Inside(message + line))
  {
    hide StartsWith, Unquoted;
  }

  /** Quoted lines add up to what they were before quoting. */
  lemma {:induction false} ScanBody(lines: seq<Bytes>, rest: seq<Bytes>, message: Bytes)
    requires AllLines(lines)
    ensures Scan(QuotedLines(lines) + rest, Inside(message)) == Scan(rest, Inside(message + Join(lines)))
  {
    hide IsLine, Quoted, Unquoted, StartsWith, Scan;
    if lines == [] {
      assert QuotedLines(lines) + rest == rest;
      assert message + Join(lines) == message;
    } else {
      QuotedOnce(lines[0]);
      assert forall i | 0 <= i < |lines[1..]| :: lines[1..][i] == lines[i + 1];
      ScanBody(lines[1..], rest, message + lines[0]);
      var all := QuotedLines(lines) + rest;
      assert all[0] == Quoted(lines[0]) && all[1..] == QuotedLines(lines[1..]) + rest;
      ScanLine(all, lines[0], message);
      assert message + lines[0] + Join(lines[1..]) == message + Join(lines);
    }
  }

  /** One entry reads back as one message, with the blank line still on. */
  lemma ScanEntry(raw: Bytes, stamp: Bytes, rest: seq<Bytes>, current: Current)
    requires LF !in stamp
    ensures AllLines(EntryLines(raw, stamp))
    ensures Scan(EntryLines(raw, stamp) + rest, current) == Finished(current) + Scan(rest, Inside(Completed(raw) + [LF]))
  {
    hide IsLine, Quoted, StartsWith, Unquoted, Lines, QuotedLines;
    var lines := Lines(Completed(raw));
    LinesAreLines(Completed(raw));
    LinesJoin(Completed(raw));
    QuotedLinesAreLines(lines);
    SeparatorIsLine(stamp);
    NewlineIsLine();
    var q := QuotedLines(lines);
    var all := EntryLines(raw, stamp) + rest;
    assert all[0] == Separator(stamp) && all[1..] == q + ([[LF]] + rest);
    ScanBody(lines, [[LF]] + rest, []);
    assert [] + Join(lines) == Completed(raw);
    assert ([[LF]] + rest)[0] == [LF] && ([[LF]] + rest)[1..] == rest;
  }

  lemma NewlineIsLine()
    ensures IsLine([LF]) && !StartsWith([LF], FROM) && Unquoted([LF]) == [LF]
  {}

  lemma {:induction false} ScanFile(entries: seq<(Bytes, Bytes)>, current: Current)
    requires OneLineStamps(entries)
    ensures KeepTrimmed(Scan(Lines(File(entries)), current)) == KeepTrimmed(Finished(current)) + CanonicalAll(entries)
  {
    hide EntryLines, Lines, Canonical, Trimmed, IsLine, OneLineStamps;
    if entries == [] {
      NoLines();
      assert Finished(current) == Scan([], current);
      assert KeepTrimmed(Finished(current)) + [] == KeepTrimmed(Finished(current));
    } else {
      var (raw, stamp) := entries[0];
      FirstStamp(entries);
      var rest := Lines(File(entries[1..]));
      ScanEntry(raw, stamp, rest, current);
      LinesOfJoin(EntryLines(raw, stamp), File(entries[1..]));
      var message := Completed(raw) + [LF];
      ScanFile(entries[1..], Inside(message));
      KeepTrimmedAppends(Finished(current), Scan(rest, Inside(message)));
      CanonicalIsKept(raw);
      assert KeepTrimmed(Scan(Lines(File(entries)), current))
          == KeepTrimmed(Finished(current)) + ([Canonical(raw)] + CanonicalAll(entries[1..]));
    }
  }

  lemma FirstStamp(entries: seq<(Bytes, Bytes)>)
    requires OneLineStamps(entries) && entries != []
    ensures LF !in entries[0].1 && OneLineStamps(entries[1..])
  {
    assert forall i | 0 <= i < |entries[1..]| :: entries[1..][i] == entries[i + 1];
  }

  lemma CanonicalIsKept(raw: Bytes)
    ensures KeepTrimmed(Finished(Inside(Completed(raw) + [LF]))) == [Canonical(raw)]
  {
    hide Blank, EndsBlank, Trimmed;
    TrimmedWithSeparator(Completed(raw));
    var blank := TrimmedIs(Completed(raw));
    var one := [Completed(raw) + [LF]];
    assert one[1..] == [] && KeepTrimmed([]) == [];
  }

  lemma {:induction false} KeepTrimmedAppends(a: seq<Bytes>, b: seq<Bytes>)
    ensures KeepTrimmed(a + b) == KeepTrimmed(a) + KeepTrimmed(b)
  {
    hide Trimmed;
    if a == [] {
      assert a + b == b;
    } else {
      assert (a + b)[1..] == a[1..] + b;
      KeepTrimmedAppends(a[1..], b);
    }
  }

  /** Whatever the messages hold, a file of them splits into exactly them, in order, each canonicalised. */
  lemma MboxRoundTrip(entries: seq<(Bytes, Bytes)>)
    requires OneLineStamps(entries)
    ensures Split(File(entries)) == CanonicalAll(entries)
  {
    hide Lines, File, CanonicalAll;
    ScanFile(entries, Outside);
    assert KeepTrimmed(Finished(Outside)) == [];
  }

  // ---- In bytes ----

  /** `k` quote marks and then `From `. */
  predicate QuotesThenFrom(line: Bytes, k: nat) {
    k + 5 <= |line| && (forall i :: 0 <= i < k ==> line[i] == 62) && line[k..k + 5] == [70, 114, 111, 109, 32]
  }

  lemma NoQuotes(line: Bytes)
    ensures QuotesThenFrom(line, 0) <==> StartsWith(line, FROM)
  {
    assert |line| >= 5 ==> line[0..0 + 5] == line[..5];
  }

  lemma OneQuoteLess(line: Bytes, k: nat)
    requires line != []
    ensures QuotesThenFrom(line, k + 1) <==> line[0] == 62 && QuotesThenFrom(line[1..], k)
  {
    var rest := line[1..];
    assert forall i | 0 <= i < |rest| :: rest[i] == line[i + 1];
    if k + 6 <= |line| { assert rest[k..k + 5] == line[k + 1..k + 1 + 5]; }
    if QuotesThenFrom(line, k + 1) {
      forall i | 0 <= i < k ensures rest[i] == 62 { assert line[i + 1] == 62; }
    }
    if line[0] == 62 && QuotesThenFrom(rest, k) {
      forall i | 0 <= i < k + 1 ensures line[i] == 62 { assert i > 0 ==> line[i] == rest[i - 1]; }
    }
  }

  lemma {:induction false} QuotableIs(line: Bytes)
    ensures Quotable(line) <==> exists k: nat :: QuotesThenFrom(line, k)
    ensures Quotable(line) ==> Quoted(line) == [62] + line
  {
    NoQuotes(line);
    if line != [] {
      QuotableIs(line[1..]);
      hide QuotesThenFrom, StartsWith;
      if k: nat :| QuotesThenFrom(line, k) && k > 0 { OneQuoteLess(line, k - 1); }
      if k: nat :| QuotesThenFrom(line[1..], k) { OneQuoteLess(line, k); }
    }
  }

  /** The line before a message. */
  lemma SeparatorIs(stamp: Bytes)
    ensures Separator(stamp) == [70, 114, 111, 109, 32, 45, 32] + stamp + [10]
  {}

  function Separators(lines: seq<Bytes>): nat {
    if lines == [] then 0 else (if |lines[0]| >= 5 && lines[0][..5] == [70, 114, 111, 109, 32] then 1 else 0) + Separators(lines[1..])
  }

  /** Of lines from anywhere, every `From ` line starts a message, and nothing else does. */
  lemma {:induction false} ScanCounts(lines: seq<Bytes>, current: Current)
    ensures |Scan(lines, current)| == |Finished(current)| + Separators(lines)
    decreases |lines|
  {
    if lines != [] {
      if StartsWith(lines[0], FROM) { ScanCounts(lines[1..], Inside([])); } else { ScanCounts(lines[1..], Taking(current, lines[0])); }
    }
  }

  /** What stands before the first of them is dropped. */
  lemma {:induction false} PreambleIsDropped(preamble: seq<Bytes>, file: Bytes)
    requires AllLines(preamble)
    requires forall i | 0 <= i < |preamble| :: !(|preamble[i]| >= 5 && preamble[i][..5] == [70, 114, 111, 109, 32])
    ensures Split(Join(preamble) + file) == Split(file)
  {
    hide Trimmed, Lines;
    LinesOfJoin(preamble, file);
    ScanDrops(preamble, Lines(file));
  }

  lemma {:induction false} ScanDrops(preamble: seq<Bytes>, rest: seq<Bytes>)
    requires forall i | 0 <= i < |preamble| :: !(|preamble[i]| >= 5 && preamble[i][..5] == [70, 114, 111, 109, 32])
    ensures Scan(preamble + rest, Outside) == Scan(rest, Outside)
  {
    if preamble == [] {
      assert preamble + rest == rest;
    } else {
      assert (preamble + rest)[1..] == preamble[1..] + rest;
      ScanDrops(preamble[1..], rest);
    }
  }

  lemma CanonicalFormIs(message: Bytes)
    ensures IsCanonical(message) <==>
              var n := |message|;
              && n >= 1 && message[n - 1] == 10
              && !(n >= 2 && message[n - 2] == 10)
              && !(n >= 4 && message[n - 4..] == [13, 10, 13, 10])
  {
    var n := |message|;
    assert n >= 2 ==> message[n - 2..] == [message[n - 2], message[n - 1]];
    assert n >= 1 ==> message[n - 1..] == [message[n - 1]];
  }
}
