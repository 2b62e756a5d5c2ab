/** internal/config: agent.conf is printed by String and read back by Parse. */
module ConfigSpec {
  import opened Options
  import opened Text

  datatype Config = Config(
    serverUrl: string,
    machineId: string,
    insecureHttp: bool,
    logLevel: string,
    maxConcurrentRuns: int,
    maxTimeoutSeconds: int,
    maxOutputBytes: int,
    runAsAllowed: seq<string>)

  datatype Error =
    | LineTooLong
    | NoAssignment(line: nat)
    | DuplicateKey(line: nat, key: string)
    | UnknownKey(line: nat, key: string)
    | InvalidValue(line: nat, key: string)

  datatype Result = Ok(config: Config) | Err(error: Error)

  const DEFAULT := Config("", "", false, "info", 4, 259200, 104857600, [])

  const LOG_LEVELS := ["debug", "info", "warn", "error"]

  /** bufio.MaxScanTokenSize: a longer line makes the scanner fail. */
  const MAX_TOKEN := 65536

  const SERVER_URL := "server_url"
  const MACHINE_ID := "machine_id"
  const INSECURE_HTTP := "insecure_http"
  const LOG_LEVEL := "log_level"
  const MAX_CONCURRENT_RUNS := "max_concurrent_runs"
  const MAX_TIMEOUT_SECONDS := "max_timeout_seconds"
  const MAX_OUTPUT_BYTES := "max_output_bytes"
  const RUN_AS_ALLOWED := "run_as_allowed"

  const KEYS := {SERVER_URL, MACHINE_ID, INSECURE_HTTP, LOG_LEVEL, MAX_CONCURRENT_RUNS, MAX_TIMEOUT_SECONDS,
                 MAX_OUTPUT_BYTES, RUN_AS_ALLOWED}

  /** What Validate asks of everything but the URL, which net/url judges. */
  ghost predicate Valid(c: Config) {
    && c.logLevel in LOG_LEVELS
    && 1 <= c.maxConcurrentRuns <= 64
    && 1 <= c.maxTimeoutSeconds <= MAX_INT64 && 1 <= c.maxOutputBytes <= MAX_INT64
    && NamesValid(c.runAsAllowed)
  }

  ghost predicate NamesValid(names: seq<string>) {
    && (forall name :: name in names ==> name != [])
    && (forall i, j :: 0 <= i < j < |names| ==> names[i] != names[j])
  }

  // ----- printing

  function PrintBool(b: bool): string {
    if b then "true" else "false"
  }

  function PrintInt(n: int): string {
    if n < 0 then "-" + Itoa(-n) else Itoa(n)
  }

  function Pairs(c: Config): seq<(string, string)> {
    [(SERVER_URL, c.serverUrl), (MACHINE_ID, c.machineId), (INSECURE_HTTP, PrintBool(c.insecureHttp)),
     (LOG_LEVEL, c.logLevel), (MAX_CONCURRENT_RUNS, PrintInt(c.maxConcurrentRuns)),
     (MAX_TIMEOUT_SECONDS, PrintInt(c.maxTimeoutSeconds)), (MAX_OUTPUT_BYTES, PrintInt(c.maxOutputBytes))]
    + if c.runAsAllowed == [] then [] else [(RUN_AS_ALLOWED, Join(c.runAsAllowed, ", "))]
  }

  function LineOf(pair: (string, string)): string {
    pair.0 + " = " + pair.1
  }

  function Print(pairs: seq<(string, string)>): string {
    if pairs == [] then [] else LineOf(pairs[0]) + "\n" + Print(pairs[1..])
  }

  /** Config.String */
  function ToString(c: Config): string {
    Print(Pairs(c))
  }

  // ----- parsing

  function Lines(text: string): seq<string>
    decreases |text|
  {
    if text == [] then []
    else
      var i := Find(text, '\n');
      if i < |text| then [text[..i]] + Lines(text[i + 1..]) else [text]
  }

  function DropCR(line: string): string {
    if line != [] && line[|line| - 1] == '\r' then line[..|line| - 1] else line
  }

  function ByteLength(s: string): nat {
    if s == [] then 0
    else
      var c := s[0];
      (if c < '\U{80}' then 1 else if c < '\U{800}' then 2 else if c < '\U{10000}' then 3 else 4) + ByteLength(s[1..])
  }

  predicate IsWrapped(value: string) {
    |value| >= 2 && value[0] == '"' && value[|value| - 1] == '"'
  }

  function Unquote(value: string): string {
    if IsWrapped(value) then value[1..|value| - 1] else value
  }

  function TrimAll(parts: seq<string>): seq<string> {
    if parts == [] then [] else [TrimSpace(parts[0])] + TrimAll(parts[1..])
  }

  lemma {:induction false} TrimAllEach(parts: seq<string>)
    ensures |TrimAll(parts)| == |parts|
    ensures forall k :: 0 <= k < |parts| ==> TrimAll(parts)[k] == TrimSpace(parts[k])
    decreases |parts|
  {
    if parts != [] {
      TrimAllEach(parts[1..]);
    }
  }

  function SplitList(value: string): seq<string> {
    if TrimSpace(value) == [] then [] else TrimAll(Split(value, ','))
  }

  function ParseBool(s: string): Option<bool> {
    if s in ["1", "t", "T", "TRUE", "true", "True"] then Some(true)
    else if s in ["0", "f", "F", "FALSE", "false", "False"] then Some(false)
    else None
  }

  function Set(c: Config, key: string, value: string): Option<Config> {
    if key == SERVER_URL then Some(c.(serverUrl := value))
    else if key == MACHINE_ID then Some(c.(machineId := value))
    else if key == INSECURE_HTTP then
      var b := ParseBool(value);
      if b.Some? then Some(c.(insecureHttp := b.value)) else None
    else if key == LOG_LEVEL then Some(c.(logLevel := value))
    else if key == MAX_CONCURRENT_RUNS then
      var n := Atoi(value);
      if n.Some? then Some(c.(maxConcurrentRuns := n.value)) else None
    else if key == MAX_TIMEOUT_SECONDS then
      var n := Atoi(value);
      if n.Some? then Some(c.(maxTimeoutSeconds := n.value)) else None
    else if key == MAX_OUTPUT_BYTES then
      var n := Atoi(value);
      if n.Some? then Some(c.(maxOutputBytes := n.value)) else None
    else if key == RUN_AS_ALLOWED then Some(c.(runAsAllowed := SplitList(value)))
    else None
  }

  /** What one line of the file says. */
  datatype Meaning = TooLong | Ignored | Malformed | Setting(key: string, value: string)

  function MeaningOf(raw: string): Meaning {
    var text := TrimSpace(DropCR(raw));
    if ByteLength(raw) >= MAX_TOKEN then TooLong
    else if text == [] || text[0] == '#' then Ignored
    else
      var (key, value, found) := Cut(text, '=');
      if found then Setting(TrimSpace(key), Unquote(TrimSpace(value))) else Malformed
  }

  function ParseLines(c: Config, seen: set<string>, n: nat, lines: seq<string>): Result
    decreases |lines|
  {
    if lines == [] then Ok(c)
    else
      match MeaningOf(lines[0])
      case TooLong => Err(LineTooLong)
      case Ignored => ParseLines(c, seen, n + 1, lines[1..])
      case Malformed => Err(NoAssignment(n))
      case Setting(key, value) =>
        if key in seen then Err(DuplicateKey(n, key))
        else if key !in KEYS then Err(UnknownKey(n, key))
        else
          var next := Set(c, key, value);
          if next.None? then Err(InvalidValue(n, key)) else ParseLines(next.value, seen + {key}, n + 1, lines[1..])
  }

  /** Parse */
  function ParseText(text: string): Result {
    ParseLines(DEFAULT, {}, 1, Lines(text))
  }

  // ----- the order of the lines does not matter

  /** The configuration so far and the keys seen. */
  datatype Parsed = Parsed(config: Config, seen: set<string>)

  function Apply(p: Option<Parsed>, meaning: Meaning): Option<Parsed> {
    if p.None? || meaning.TooLong? || meaning.Malformed? then None
    else if meaning.Ignored? then p
    else
      var (key, value, c) := (meaning.key, meaning.value, p.value.config);
      if key in p.value.seen || key !in KEYS || Set(c, key, value).None? then None
      else Some(Parsed(Set(c, key, value).value, p.value.seen + {key}))
  }

  function Fold(p: Option<Parsed>, lines: seq<string>): Option<Parsed>
    decreases |lines|
  {
    if lines == [] then p else Fold(Apply(p, MeaningOf(lines[0])), lines[1..])
  }

  lemma {:induction false} NothingAfterAnError(lines: seq<string>)
    ensures Fold(None, lines) == None
    decreases |lines|
  {
    if lines != [] {
      NothingAfterAnError(lines[1..]);
    }
  }

  /** A file is accepted when every line can be applied, and line numbers show only in errors. */
  lemma {:induction false} ParseLinesFolds(c: Config, seen: set<string>, n: nat, lines: seq<string>)
    ensures
      var r, p := ParseLines(c, seen, n, lines), Fold(Some(Parsed(c, seen)), lines);
      && (r.Ok? <==> p.Some?)
      && (r.Ok? ==> r.config == p.value.config)
    decreases |lines|
  {
    hide MeaningOf, Set;
    if lines != [] {
      var rest := lines[1..];
      NothingAfterAnError(rest);
      match MeaningOf(lines[0]) {
        case Ignored => ParseLinesFolds(c, seen, n + 1, rest);
        case Setting(key, value) =>
          if key !in seen && key in KEYS && Set(c, key, value).Some? {
            ParseLinesFolds(Set(c, key, value).value, seen + {key}, n + 1, rest);
          }
        case _ =>
      }
    }
  }

  /** Whether a value is accepted does not depend on what is already set. */
  lemma SetAcceptsAnywhere(c: Config, d: Config, key: string, value: string)
    ensures Set(c, key, value).Some? <==> Set(d, key, value).Some?
  {
  }

  lemma SetsCommute(c: Config, k: string, v: string, l: string, w: string)
    requires k != l && Set(c, k, v).Some? && Set(c, l, w).Some?
    ensures Set(Set(c, k, v).value, l, w).Some? && Set(Set(c, l, w).value, k, v).Some?
    ensures Set(Set(c, k, v).value, l, w) == Set(Set(c, l, w).value, k, v)
  {
    hide Atoi, ParseBool, SplitList;
  }

  lemma ApplyCommutes(p: Option<Parsed>, a: Meaning, b: Meaning)
    ensures Apply(Apply(p, a), b) == Apply(Apply(p, b), a)
  {
    hide Set;
    if p.Some? && a.Setting? && b.Setting? {
      var c, seen := p.value.config, p.value.seen;
      var x, y := Set(c, a.key, a.value), Set(c, b.key, b.value);
      if x.Some? { SetAcceptsAnywhere(c, x.value, b.key, b.value); }
      if y.Some? { SetAcceptsAnywhere(c, y.value, a.key, a.value); }
      if a.key != b.key && x.Some? && y.Some? {
        SetsCommute(c, a.key, a.value, b.key, b.value);
        assert seen + {a.key} + {b.key} == seen + {b.key} + {a.key};
      }
    }
  }

  lemma {:induction false} FirstOrLater(p: Option<Parsed>, a: seq<string>, line: string, b: seq<string>)
    ensures Fold(p, a + [line] + b) == Fold(Apply(p, MeaningOf(line)), a + b)
    decreases |a|
  {
    hide MeaningOf, Apply;
    var all := a + [line] + b;
    if a == [] {
      assert all[0] == line && all[1..] == b && a + b == b;
    } else {
      assert all[0] == a[0] && all[1..] == a[1..] + [line] + b;
      assert (a + b)[0] == a[0] && (a + b)[1..] == a[1..] + b;
      var first := MeaningOf(a[0]);
      FirstOrLater(Apply(p, first), a[1..], line, b);
      ApplyCommutes(p, first, MeaningOf(line));
    }
  }

  lemma TakeOut(lines: seq<string>, other: seq<string>) returns (i: nat)
    requires other != [] && multiset(lines) == multiset(other)
    ensures i < |lines| && lines == lines[..i] + [other[0]] + lines[i + 1..]
    ensures multiset(lines[..i] + lines[i + 1..]) == multiset(other[1..])
  {
    var line := other[0];
    assert other == [line] + other[1..];
    assert line in multiset(other) && line in multiset(lines);
    i :| 0 <= i < |lines| && lines[i] == line;
    assert lines == lines[..i] + [line] + lines[i + 1..];
    assert multiset(lines) == multiset(lines[..i] + lines[i + 1..]) + multiset{line};
    assert multiset(lines[..i] + lines[i + 1..]) == multiset(lines) - multiset{line};
    assert multiset(other[1..]) == multiset(other) - multiset{line};
  }

  lemma {:induction false} FoldInAnyOrder(p: Option<Parsed>, lines: seq<string>, other: seq<string>)
    requires multiset(lines) == multiset(other)
    ensures Fold(p, lines) == Fold(p, other)
    decreases |other|
  {
    hide MeaningOf, Apply;
    if other == [] {
      assert |multiset(lines)| == 0;
    } else {
      var i := TakeOut(lines, other);
      var line, a, b := other[0], lines[..i], lines[i + 1..];
      FirstOrLater(p, a, line, b);
      FoldInAnyOrder(Apply(p, MeaningOf(line)), a + b, other[1..]);
    }
  }

  /** Whatever the order of its lines, a file is accepted or not, and means the same. */
  lemma AnyOrderParsesTheSame(text: string, other: string)
    requires multiset(Lines(text)) == multiset(Lines(other))
    ensures ParseText(text).Ok? <==> ParseText(other).Ok?
    ensures ParseText(text).Ok? ==> ParseText(other) == ParseText(text)
  {
    ParseLinesFolds(DEFAULT, {}, 1, Lines(text));
    ParseLinesFolds(DEFAULT, {}, 1, Lines(other));
    FoldInAnyOrder(Some(Parsed(DEFAULT, {})), Lines(text), Lines(other));
  }

  // ----- what Parse makes of what String prints

  /** What is left of a printed value once it is read. */
  function Read(value: string): string {
    Unquote(TrimSpace(value))
  }

  predicate Fits(line: string) {
    ByteLength(line) < MAX_TOKEN
  }

  function PrintedLines(pairs: seq<(string, string)>): seq<string> {
    if pairs == [] then [] else [LineOf(pairs[0])] + PrintedLines(pairs[1..])
  }

  ghost predicate OneLine(pair: (string, string)) {
    '\n' !in pair.0 && '\n' !in pair.1
  }

  lemma {:induction false} PrintsLines(pairs: seq<(string, string)>)
    requires forall pair :: pair in pairs ==> OneLine(pair)
    ensures Lines(Print(pairs)) == PrintedLines(pairs)
    decreases |pairs|
  {
    if pairs != [] {
      var line, rest := LineOf(pairs[0]), Print(pairs[1..]);
      assert OneLine(pairs[0]);
      FindFirst(line, '\n', rest);
      var text := line + "\n" + rest;
      assert text[..|line|] == line && text[|line| + 1..] == rest;
      PrintsLines(pairs[1..]);
    }
  }

  lemma DropCRIsTrimmed(raw: string)
    ensures TrimSpace(DropCR(raw)) == TrimSpace(raw)
  {
    if raw != [] && raw[|raw| - 1] == '\r' {
      var line := DropCR(raw);
      assert raw == [] + line + ['\r'];
      TrimSpaceDrops([], line, ['\r']);
    }
  }

  ghost predicate PlainKey(key: string) {
    && key != [] && key[0] != '#' && '=' !in key && '\n' !in key
    && !IsSpace(key[0]) && !IsSpace(key[|key| - 1])
  }

  lemma TrimPrinted(key: string, value: string) returns (rest: string)
    requires PlainKey(key)
    ensures TrimSpace(key + " = " + value) == key + " " + ['='] + rest
    ensures TrimSpace(rest) == TrimSpace(value)
  {
    hide *;
    var a, b := TrimSpaceSplits(value);
    var t := TrimSpace(value);
    if t == [] {
      rest := [];
      assert value == a + b;
      SpacesJoinPlain(a, b);
      PrintedEmpty(key, a + b);
      NothingTrimmed();
      TrimmedStays([]);
      assert key + " " + ['='] + rest == key + " =";
    } else {
      rest := " " + a + t;
      PrintedFull(key, a, t, b);
      assert value == a + t + b;
    }
  }

  lemma NothingTrimmed()
    ensures Trimmed([], IsSpace)
  {
  }

  lemma KeyStays(key: string)
    requires PlainKey(key)
    ensures Trimmed(key + " =", IsSpace)
  {
    assert (key + " =")[0] == key[0];
  }

  lemma SpacesJoin(a: string, b: string)
    requires All(a, IsSpace) && All(b, IsSpace)
    ensures All(" " + a + b, IsSpace) && All(" " + a, IsSpace)
  {
  }

  lemma SpacesJoinPlain(a: string, b: string)
    requires All(a, IsSpace) && All(b, IsSpace)
    ensures All(a + b, IsSpace)
  {
  }

  lemma PrintedEmpty(key: string, value: string)
    requires PlainKey(key) && All(value, IsSpace)
    ensures TrimSpace(key + " = " + value) == key + " ="
  {
    SpacesJoin(value, []);
    NothingButSpaces();
    KeyStays(key);
    hide *;
    assert key + " = " + value == [] + (key + " =") + (" " + value);
    TrimSpaceDrops([], key + " =", " " + value);
    TrimmedStays(key + " =");
  }

  lemma NothingButSpaces()
    ensures All([], IsSpace)
  {
  }

  lemma PrintedFull(key: string, a: string, t: string, b: string)
    requires PlainKey(key) && t != [] && Trimmed(t, IsSpace) && All(a, IsSpace) && All(b, IsSpace)
    ensures TrimSpace(key + " = " + (a + t + b)) == key + " " + ['='] + (" " + a + t)
    ensures TrimSpace(" " + a + t) == t
  {
    SpacesJoin(a, b);
    NothingButSpaces();
    LineStays(key, a, t);
    hide *;
    var kept := key + " " + ['='] + (" " + a + t);
    assert key + " = " + (a + t + b) == [] + kept + b;
    TrimSpaceDrops([], kept, b);
    TrimmedStays(kept);
    assert " " + a + t == (" " + a) + t + [];
    TrimSpaceDrops(" " + a, t, []);
    TrimmedStays(t);
  }

  lemma LineStays(key: string, a: string, t: string)
    requires PlainKey(key) && t != [] && Trimmed(t, IsSpace)
    ensures Trimmed(key + " " + ['='] + (" " + a + t), IsSpace)
  {
    hide IsSpace;
    var kept := key + " " + ['='] + (" " + a + t);
    assert kept[0] == key[0] && kept[|kept| - 1] == t[|t| - 1];
  }

  /** A printed line sets its key to what is left of the value. */
  lemma PrintedLineMeans(key: string, value: string)
    requires PlainKey(key) && Fits(LineOf((key, value)))
    ensures MeaningOf(LineOf((key, value))) == Setting(key, Read(value))
  {
    hide TrimLeft, TrimRight, TrimSpace, ByteLength, Find;
    var raw := LineOf((key, value));
    DropCRIsTrimmed(raw);
    var rest := TrimPrinted(key, value);
    FindFirst(key + " ", '=', rest);
    assert key + " " == [] + key + " ";
    TrimSpaceDrops([], key, " ");
    TrimmedStays(key);
  }

  // ----- the round trip

  lemma PrintIntReads(n: int)
    requires 1 <= n <= MAX_INT64
    ensures '\n' !in PrintInt(n) && Atoi(Read(PrintInt(n))) == Some(n)
  {
    var s := PrintInt(n);
    ItoaDigits(n);
    assert forall i :: 0 <= i < |s| ==> IsDigit(s[i]);
    AtoiItoa(n);
    assert IsDigit(s[0]) && IsDigit(s[|s| - 1]);
    TrimmedStays(s);
  }

  lemma PrintBoolReads(b: bool)
    ensures '\n' !in PrintBool(b) && ParseBool(Read(PrintBool(b))) == Some(b)
  {
    var s := PrintBool(b);
    TrimmedStays(s);
    assert Read(s) == s;
  }

  lemma LogLevelReads(level: string)
    requires level in LOG_LEVELS
    ensures '\n' !in level && Read(level) == level
  {
    TrimmedStays(level);
  }

  /** The text of a value that String prints and Parse gives back. */
  ghost predicate Clean(value: string) {
    '\n' !in value && Trimmed(value, IsSpace) && !IsWrapped(value)
  }

  lemma ReadExactly(value: string)
    ensures Read(value) == value <==> Trimmed(value, IsSpace) && !IsWrapped(value)
  {
    var a, b := TrimSpaceSplits(value);
    if Trimmed(value, IsSpace) {
      TrimmedStays(value);
    }
    if Read(value) == value {
      assert |value| == |a| + |TrimSpace(value)| + |b|;
      assert |TrimSpace(value)| == |value| && a == [] && b == [];
      assert TrimSpace(value) == value;
    }
  }

  ghost predicate CleanName(name: string) {
    ',' !in name && '\n' !in name && Trimmed(name, IsSpace)
  }

  /** A list with a first and a last name in quotes reads as one quoted value. */
  ghost predicate CleanList(names: seq<string>) {
    (forall name :: name in names ==> CleanName(name)) && !IsWrapped(Join(names, ", "))
  }

  lemma {:induction false} JoinEnds(names: seq<string>)
    requires names != [] && forall name :: name in names ==> name != [] && Trimmed(name, IsSpace)
    ensures Join(names, ", ") != [] && Trimmed(Join(names, ", "), IsSpace)
    decreases |names|
  {
    assert names[0] in names;
    if |names| > 1 {
      assert forall name :: name in names[1..] ==> name in names;
      JoinEnds(names[1..]);
      var rest := Join(names[1..], ", ");
      var all := Join(names, ", ");
      assert all == names[0] + ", " + rest;
      assert all[0] == names[0][0] && all[|all| - 1] == rest[|rest| - 1];
    }
  }

  lemma {:induction false} JoinHas(names: seq<string>, c: char)
    requires c != ',' && c != ' '
    ensures c in Join(names, ", ") <==> exists name :: name in names && c in name
    decreases |names|
  {
    if |names| > 1 {
      JoinHas(names[1..], c);
      assert names == [names[0]] + names[1..];
    }
  }

  lemma {:induction false} JoinedSplits(lead: string, names: seq<string>)
    requires lead == [] || lead == " "
    requires names != [] && forall name :: name in names ==> ',' !in name && Trimmed(name, IsSpace)
    ensures TrimAll(Split(lead + Join(names, ", "), ',')) == names
    decreases |names|
  {
    hide TrimSpace, Split;
    var part := lead + names[0];
    assert names[0] in names;
    assert part == lead + names[0] + [];
    TrimSpaceDrops(lead, names[0], []);
    TrimmedStays(names[0]);
    if |names| == 1 {
      SplitNone(part, ',');
      assert TrimAll([part]) == [names[0]];
    } else {
      var rest := " " + Join(names[1..], ", ");
      assert lead + Join(names, ", ") == part + [','] + rest;
      SplitFirst(part, ',', rest);
      assert forall name :: name in names[1..] ==> name in names;
      JoinedSplits(" ", names[1..]);
      assert ([part] + Split(rest, ','))[1..] == Split(rest, ',');
    }
  }

  ghost predicate ListPart(part: string, value: string) {
    ',' !in part && Trimmed(part, IsSpace) && forall c :: c in part ==> c in value
  }

  lemma {:induction false} TrimAllParts(parts: seq<string>, value: string)
    requires forall part :: part in parts ==> ',' !in part && (forall c :: c in part ==> c in value)
    ensures forall part :: part in TrimAll(parts) ==> ListPart(part, value)
    decreases |parts|
  {
    if parts != [] {
      var a, b := TrimSpaceSplits(parts[0]);
      assert forall c :: c in TrimSpace(parts[0]) ==> c in parts[0];
      assert parts[0] in parts && ListPart(TrimSpace(parts[0]), value);
      assert forall part :: part in parts[1..] ==> part in parts;
      TrimAllParts(parts[1..], value);
    }
  }

  lemma SplitListParts(value: string)
    ensures forall part :: part in SplitList(value) ==> ListPart(part, value)
  {
    if TrimSpace(value) != [] {
      SplitPartsLack(value, ',');
      TrimAllParts(Split(value, ','), value);
    }
  }

  lemma SplitListStarts(part: string, rest: string)
    requires ',' !in part
    ensures
      var names := SplitList(part + [','] + rest);
      names == [] || names[0] == TrimSpace(part)
  {
    hide TrimSpace, Split;
    SplitFirst(part, ',', rest);
  }

  lemma SplitListOnly(part: string)
    requires ',' !in part
    ensures SplitList(part) == [] || SplitList(part)[0] == TrimSpace(part)
  {
    hide TrimSpace, Split;
    SplitNone(part, ',');
  }

  /** Losing its first character changes a list's first name. */
  lemma FirstNameShrinks(names: seq<string>, x: string)
    requires names != [] && names[0] != [] && ',' !in names[0]
    requires IsWrapped(Join(names, ", ")) && x == Unquote(Join(names, ", "))
    ensures SplitList(x) != names
  {
    hide TrimSpace, Split, SplitList;
    var joined, first := Join(names, ", "), names[0];
    var tail := first[1..];
    assert forall c :: c in tail ==> c in first;
    if |names| == 1 {
      assert x == tail[..|tail| - 1];
      assert forall c :: c in x ==> c in tail;
      SplitListOnly(x);
      var a, b := TrimSpaceSplits(x);
    } else {
      var rest := " " + Join(names[1..], ", ");
      assert joined == first + [','] + rest;
      assert x == tail + [','] + rest[..|rest| - 1];
      SplitListStarts(tail, rest[..|rest| - 1]);
      var a, b := TrimSpaceSplits(tail);
    }
  }

  lemma ListReadsExactly(names: seq<string>)
    requires names != [] && NamesValid(names) && '\n' !in Join(names, ", ")
    ensures SplitList(Read(Join(names, ", "))) == names <==> CleanList(names)
  {
    hide Split, TrimAll, Join, TrimSpace, SplitList;
    var joined := Join(names, ", ");
    JoinHas(names, '\n');
    if SplitList(Read(joined)) == names {
      SplitListParts(Read(joined));
      forall name | name in names ensures CleanName(name) {
        assert ListPart(name, Read(joined));
      }
    }
    if forall name :: name in names ==> CleanName(name) {
      forall name | name in names ensures name != [] && Trimmed(name, IsSpace) && ',' !in name {
        assert CleanName(name);
      }
      CleanNamesRead(names);
    }
  }

  lemma CleanNamesRead(names: seq<string>)
    requires names != [] && forall name :: name in names ==> name != [] && Trimmed(name, IsSpace) && ',' !in name
    ensures SplitList(Read(Join(names, ", "))) == names <==> !IsWrapped(Join(names, ", "))
  {
    hide Split, TrimAll, Join, TrimSpace;
    var joined := Join(names, ", ");
    JoinEnds(names);
    TrimmedStays(joined);
    assert names[0] in names;
    if IsWrapped(joined) {
      FirstNameShrinks(names, Unquote(joined));
    } else {
      JoinedSplits([], names);
      assert [] + joined == joined;
    }
  }

  // What every parsed configuration is like.

  ghost predicate NoNewlines(c: Config) {
    '\n' !in c.serverUrl && '\n' !in c.machineId && (forall name :: name in c.runAsAllowed ==> '\n' !in name)
  }

  lemma {:induction false} LinesLackNewlines(text: string)
    ensures forall line :: line in Lines(text) ==> '\n' !in line
    decreases |text|
  {
    if text != [] {
      var i := Find(text, '\n');
      if i < |text| {
        LinesLackNewlines(text[i + 1..]);
      } else {
        assert text[..i] == text;
      }
    }
  }

  lemma ValueFromLine(raw: string)
    requires MeaningOf(raw).Setting? && '\n' !in raw
    ensures '\n' !in MeaningOf(raw).value
  {
    hide TrimLeft, TrimRight, TrimSpace, ByteLength, Find;
    var line := DropCR(raw);
    var a, b := TrimSpaceSplits(line);
    var text := TrimSpace(line);
    assert '\n' !in line && '\n' !in text;
    var (key, value, found) := Cut(text, '=');
    assert '\n' !in value;
    var a', b' := TrimSpaceSplits(value);
    assert '\n' !in TrimSpace(value);
  }

  lemma SetKeepsNoNewlines(c: Config, key: string, value: string)
    requires NoNewlines(c) && '\n' !in value && Set(c, key, value).Some?
    ensures NoNewlines(Set(c, key, value).value)
  {
    hide SplitList, Atoi, ParseBool;
    SplitListParts(value);
    forall name | name in SplitList(value) ensures '\n' !in name {
      assert ListPart(name, value);
    }
  }

  lemma {:induction false} ParsedHasNoNewlines(c: Config, seen: set<string>, n: nat, lines: seq<string>)
    requires NoNewlines(c) && forall line :: line in lines ==> '\n' !in line
    requires ParseLines(c, seen, n, lines).Ok?
    ensures NoNewlines(ParseLines(c, seen, n, lines).config)
    decreases |lines|
  {
    hide MeaningOf, Set, NoNewlines;
    if lines != [] {
      match MeaningOf(lines[0]) {
        case Setting(key, value) =>
          ValueFromLine(lines[0]);
          SetKeepsNoNewlines(c, key, value);
          ParsedHasNoNewlines(Set(c, key, value).value, seen + {key}, n + 1, lines[1..]);
        case Ignored =>
          ParsedHasNoNewlines(c, seen, n + 1, lines[1..]);
        case _ =>
      }
    }
  }

  lemma {:induction false} ParsedLinesFit(c: Config, seen: set<string>, n: nat, lines: seq<string>)
    requires ParseLines(c, seen, n, lines).Ok?
    ensures forall line :: line in lines ==> Fits(line)
    decreases |lines|
  {
    hide Set;
    if lines != [] {
      assert Fits(lines[0]);
      match MeaningOf(lines[0]) {
        case Setting(key, value) =>
          ParsedLinesFit(Set(c, key, value).value, seen + {key}, n + 1, lines[1..]);
        case Ignored =>
          ParsedLinesFit(c, seen, n + 1, lines[1..]);
        case _ =>
      }
    }
  }

  // Reading the printed lines one by one.

  function SetAll(c: Config, pairs: seq<(string, string)>): Option<Config>
    decreases |pairs|
  {
    if pairs == [] then Some(c)
    else
      var next := Set(c, pairs[0].0, Read(pairs[0].1));
      if next.None? then None else SetAll(next.value, pairs[1..])
  }

  ghost predicate Settable(pair: (string, string)) {
    PlainKey(pair.0) && pair.0 in KEYS && OneLine(pair) && Fits(LineOf(pair))
  }

  lemma {:induction false} PrintedLinesSet(c: Config, seen: set<string>, n: nat, pairs: seq<(string, string)>)
    requires forall pair :: pair in pairs ==> Settable(pair) && pair.0 !in seen
    requires forall i, j :: 0 <= i < j < |pairs| ==> pairs[i].0 != pairs[j].0
    requires SetAll(c, pairs).Some?
    ensures ParseLines(c, seen, n, PrintedLines(pairs)) == Ok(SetAll(c, pairs).value)
    decreases |pairs|
  {
    hide MeaningOf, Set, LineOf, Fits, Read;
    if pairs != [] {
      var pair, rest := pairs[0], pairs[1..];
      assert Settable(pair) && pair == (pair.0, pair.1);
      PrintedLineMeans(pair.0, pair.1);
      forall p | p in rest ensures Settable(p) && p.0 !in seen + {pair.0} {
        assert p in pairs;
      }
      PrintedLinesSet(Set(c, pair.0, Read(pair.1)).value, seen + {pair.0}, n + 1, rest);
      assert PrintedLines(pairs)[1..] == PrintedLines(rest);
    }
  }

  lemma SetAllStep(c: Config, pairs: seq<(string, string)>, i: nat)
    requires i < |pairs| && Set(c, pairs[i].0, Read(pairs[i].1)).Some?
    ensures SetAll(c, pairs[i..]) == SetAll(Set(c, pairs[i].0, Read(pairs[i].1)).value, pairs[i + 1..])
  {
    assert pairs[i..][1..] == pairs[i + 1..];
  }

  ghost function ReadBack(c: Config): Config {
    c.(serverUrl := Read(c.serverUrl), machineId := Read(c.machineId),
       runAsAllowed := if c.runAsAllowed == [] then [] else SplitList(Read(Join(c.runAsAllowed, ", "))))
  }

  lemma PairsSetAll(c: Config)
    requires Valid(c)
    ensures SetAll(DEFAULT, Pairs(c)) == Some(ReadBack(c))
  {
    hide Read, SplitList, Join, PrintInt, PrintBool, Atoi, ParseBool, SetAll;
    var p := Pairs(c);
    PrintBoolReads(c.insecureHttp);
    LogLevelReads(c.logLevel);
    PrintIntReads(c.maxConcurrentRuns);
    PrintIntReads(c.maxTimeoutSeconds);
    PrintIntReads(c.maxOutputBytes);
    var c1 := DEFAULT.(serverUrl := Read(c.serverUrl));
    var c2 := c1.(machineId := Read(c.machineId));
    var c3 := c2.(insecureHttp := c.insecureHttp);
    var c4 := c3.(logLevel := c.logLevel);
    var c5 := c4.(maxConcurrentRuns := c.maxConcurrentRuns);
    var c6 := c5.(maxTimeoutSeconds := c.maxTimeoutSeconds);
    var c7 := c6.(maxOutputBytes := c.maxOutputBytes);
    assert p[0..] == p;
    SetAllStep(DEFAULT, p, 0);
    SetAllStep(c1, p, 1);
    SetAllStep(c2, p, 2);
    SetAllStep(c3, p, 3);
    SetAllStep(c4, p, 4);
    SetAllStep(c5, p, 5);
    SetAllStep(c6, p, 6);
    SetAllEnds(c7, c, p);
  }

  lemma SetAllEnds(d: Config, c: Config, p: seq<(string, string)>)
    requires p == Pairs(c) && d.runAsAllowed == []
    ensures SetAll(d, p[7..]) == Some(d.(runAsAllowed := ReadBack(c).runAsAllowed))
  {
    hide Read, SplitList, Join, PrintInt, PrintBool, Atoi, ParseBool;
    if c.runAsAllowed == [] {
      assert p[7..] == [];
    } else {
      assert |p| == 8 && p[7] == (RUN_AS_ALLOWED, Join(c.runAsAllowed, ", "));
      SetAllStep(d, p, 7);
      assert p[8..] == [];
    }
  }

  ghost predicate AllFit(c: Config) {
    forall pair :: pair in Pairs(c) ==> Fits(LineOf(pair))
  }

  const KEY_LIST := [SERVER_URL, MACHINE_ID, INSECURE_HTTP, LOG_LEVEL, MAX_CONCURRENT_RUNS, MAX_TIMEOUT_SECONDS,
                     MAX_OUTPUT_BYTES, RUN_AS_ALLOWED]

  lemma KeysDiffer()
    ensures forall i, j :: 0 <= i < j < |KEY_LIST| ==> KEY_LIST[i] != KEY_LIST[j]
  {
    var lengths := [10, 10, 13, 9, 19, 19, 16, 14];
    assert forall i :: 0 <= i < 8 ==> |KEY_LIST[i]| == lengths[i];
    assert SERVER_URL[0] != MACHINE_ID[0];
    assert MAX_CONCURRENT_RUNS[4] != MAX_TIMEOUT_SECONDS[4];
  }

  predicate IsKeyChar(c: char) {
    c == '_' || 'a' <= c <= 'z'
  }

  lemma NoSpaceInKeys(c: char)
    requires IsKeyChar(c)
    ensures !IsSpace(c)
  {
  }

  lemma PlainKeys()
    ensures forall i :: 0 <= i < |KEY_LIST| ==> PlainKey(KEY_LIST[i]) && KEY_LIST[i] in KEYS
  {
    hide IsSpace;
    forall i | 0 <= i < |KEY_LIST| ensures PlainKey(KEY_LIST[i]) {
      var key := KEY_LIST[i];
      assert forall j :: 0 <= j < |key| ==> IsKeyChar(key[j]);
      NoSpaceInKeys(key[0]);
      NoSpaceInKeys(key[|key| - 1]);
    }
  }

  lemma PairsSettable(c: Config)
    requires Valid(c) && NoNewlines(c)
    ensures forall pair :: pair in Pairs(c) ==> PlainKey(pair.0) && pair.0 in KEYS && OneLine(pair)
    ensures forall i, j :: 0 <= i < j < |Pairs(c)| ==> Pairs(c)[i].0 != Pairs(c)[j].0
  {
    hide Read, SplitList, Join, PrintInt, PrintBool, Atoi, ParseBool, PlainKey;
    var pairs := Pairs(c);
    assert forall i :: 0 <= i < |pairs| ==> pairs[i].0 == KEY_LIST[i];
    KeysDiffer();
    PlainKeys();
    PrintBoolReads(c.insecureHttp);
    LogLevelReads(c.logLevel);
    PrintIntReads(c.maxConcurrentRuns);
    PrintIntReads(c.maxTimeoutSeconds);
    PrintIntReads(c.maxOutputBytes);
    JoinHas(c.runAsAllowed, '\n');
    forall i | 0 <= i < |pairs| ensures '\n' !in pairs[i].1 {
    }
    forall pair | pair in pairs ensures PlainKey(pair.0) && pair.0 in KEYS && OneLine(pair) {
      var i :| 0 <= i < |pairs| && pairs[i] == pair;
      KeyIsOneLine(pair.0);
    }
  }

  lemma KeyIsOneLine(key: string)
    requires PlainKey(key)
    ensures '\n' !in key
  {
  }

  lemma ReadsBack(c: Config)
    requires Valid(c) && NoNewlines(c)
    ensures Lines(ToString(c)) == PrintedLines(Pairs(c))
    ensures AllFit(c) ==> ParseText(ToString(c)) == Ok(ReadBack(c))
  {
    hide Pairs, ReadBack, Valid, NoNewlines, Fits, ParseLines, SetAll;
    PairsSettable(c);
    PrintsLines(Pairs(c));
    if AllFit(c) {
      forall pair | pair in Pairs(c) ensures Settable(pair) {
        assert Fits(LineOf(pair));
      }
      PairsSetAll(c);
      PrintedLinesSet(DEFAULT, {}, 1, Pairs(c));
    }
  }

  lemma {:induction false} PrintedIsALine(pairs: seq<(string, string)>, pair: (string, string))
    requires pair in pairs
    ensures LineOf(pair) in PrintedLines(pairs)
    decreases |pairs|
  {
    if pair != pairs[0] {
      PrintedIsALine(pairs[1..], pair);
    }
  }

  lemma OnlyLinesThatFit(c: Config)
    requires Valid(c) && NoNewlines(c) && ParseText(ToString(c)).Ok?
    ensures AllFit(c)
  {
    ReadsBack(c);
    ParsedLinesFit(DEFAULT, {}, 1, Lines(ToString(c)));
    forall pair | pair in Pairs(c) ensures Fits(LineOf(pair)) {
      PrintedIsALine(Pairs(c), pair);
    }
  }

  /** What a configuration must be like to survive being saved and loaded. */
  ghost predicate Printable(c: Config) {
    Clean(c.serverUrl) && Clean(c.machineId) && (c.runAsAllowed == [] || CleanList(c.runAsAllowed)) && AllFit(c)
  }

  lemma ReadBackExactly(c: Config)
    requires Valid(c) && NoNewlines(c)
    ensures ReadBack(c) == c <==>
      Clean(c.serverUrl) && Clean(c.machineId) && (c.runAsAllowed == [] || CleanList(c.runAsAllowed))
  {
    hide Read, SplitList, Join, CleanList;
    ReadExactly(c.serverUrl);
    ReadExactly(c.machineId);
    JoinHas(c.runAsAllowed, '\n');
    if c.runAsAllowed != [] {
      ListReadsExactly(c.runAsAllowed);
    }
  }

  /** Parse gives back what String printed exactly when the configuration is printable. */
  lemma RoundTrip(c: Config)
    requires Valid(c)
    ensures ParseText(ToString(c)) == Ok(c) <==> Printable(c)
  {
    hide ReadBack, Valid, Lines, ParseLines, ToString, AllFit;
    if Printable(c) {
      assert NoNewlines(c) by {
        forall name | name in c.runAsAllowed ensures '\n' !in name {
          assert CleanName(name);
        }
      }
      ReadsBack(c);
      ReadBackExactly(c);
    }
    if ParseText(ToString(c)) == Ok(c) {
      LinesLackNewlines(ToString(c));
      ParsedHasNoNewlines(DEFAULT, {}, 1, Lines(ToString(c)));
      OnlyLinesThatFit(c);
      ReadsBack(c);
      ReadBackExactly(c);
    }
  }

  /** Names without comma or white space can still be lost: quotes around the whole list are taken for quoting. */
  lemma QuotedListIsLost()
    ensures
      var c := DEFAULT.(serverUrl := "https://host", runAsAllowed := ["\"a", "b\""]);
      && Valid(c) && (forall name :: name in c.runAsAllowed ==> CleanName(name))
      && ParseText(ToString(c)) != Ok(c)
  {
    hide ToString, ParseText, AllFit, CleanName;
    var c := DEFAULT.(serverUrl := "https://host", runAsAllowed := ["\"a", "b\""]);
    assert Join(c.runAsAllowed, ", ") == "\"a, b\"";
    QuotedNamesAreClean();
    assert c.runAsAllowed[0][1] != c.runAsAllowed[1][1];
    RoundTrip(c);
  }

  lemma QuotedNamesAreClean()
    ensures CleanName("\"a") && CleanName("b\"")
  {
  }
}

module Config {
  import opened Options
  import opened Text
  import C = ConfigSpec

  /** Parse: one line after the other. */
  method Parse(text: string) returns (r: C.Result)
    ensures r == C.ParseText(text)
  {
    hide C.MeaningOf, C.Set, Find;
    var cfg, seen, line, rest := C.DEFAULT, {}, 1, text;
    while rest != []
      invariant C.ParseLines(cfg, seen, line, C.Lines(rest)) == C.ParseText(text)
      decreases |rest|
    {
      var i := Find(rest, '\n');
      var raw := rest[..i];
      var next := if i < |rest| then rest[i + 1..] else [];
      assert C.Lines(rest) == [raw] + C.Lines(next) by {
        if i == |rest| { assert raw == rest; }
      }
      assert C.Lines(rest)[0] == raw && C.Lines(rest)[1..] == C.Lines(next);
      rest := next;
      match C.MeaningOf(raw) {
        case TooLong => return C.Err(C.LineTooLong);
        case Ignored =>
        case Malformed => return C.Err(C.NoAssignment(line));
        case Setting(key, value) =>
          if key in seen {
            return C.Err(C.DuplicateKey(line, key));
          }
          seen := seen + {key};
          if key !in C.KEYS {
            return C.Err(C.UnknownKey(line, key));
          }
          var changed := C.Set(cfg, key, value);
          if changed.None? {
            return C.Err(C.InvalidValue(line, key));
          }
          cfg := changed.value;
      }
      line := line + 1;
    }
    return C.Ok(cfg);
  }

  /** splitList: trims the parts in place. */
  method SplitList(value: string) returns (parts: seq<string>)
    ensures parts == C.SplitList(value)
  {
    if TrimSpace(value) == [] {
      return [];
    }
    parts := Split(value, ',');
    ghost var cut := parts;
    var i := 0;
    while i < |parts|
      invariant 0 <= i <= |parts| == |cut|
      invariant forall k :: 0 <= k < |cut| ==> parts[k] == if k < i then TrimSpace(cut[k]) else cut[k]
    {
      parts := parts[i := TrimSpace(parts[i])];
      i := i + 1;
    }
    C.TrimAllEach(cut);
  }

  datatype ListError = EmptyEntry | ListedTwice(name: string)

  /** validateRunAsAllowed: says what is wrong with the first bad entry. */
  method ValidateRunAsAllowed(names: seq<string>) returns (err: Option<ListError>)
    ensures err.None? <==> C.NamesValid(names)
    ensures err.None? <==> [] !in names && forall i, j :: 0 <= i < j < |names| ==> names[i] != names[j]
    ensures err.Some? ==> exists i ::
      && 0 <= i < |names| && C.NamesValid(names[..i])
      && (err.value.EmptyEntry? ==> names[i] == [])
      && (err.value.ListedTwice? ==> names[i] == err.value.name && names[i] in names[..i])
  {
    var seen: set<string> := {};
    for i := 0 to |names|
      invariant forall name :: name in seen <==> name in names[..i]
      invariant C.NamesValid(names[..i])
    {
      var name := names[i];
      assert names[..i + 1] == names[..i] + [name];
      assert name in names;
      if name == [] {
        assert C.NamesValid(names[..i]) && names[i] == [];
        return Some(EmptyEntry);
      }
      if name in seen {
        var j :| 0 <= j < i && names[..i][j] == name;
        assert names[j] == names[i] == name;
        assert C.NamesValid(names[..i]) && names[i] in names[..i];
        return Some(ListedTwice(name));
      }
      seen := seen + {name};
    }
    assert names[..|names|] == names;
    return None;
  }
}
