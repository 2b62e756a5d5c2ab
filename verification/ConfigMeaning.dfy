/** internal/config/parse.go: what any file means, line by line and key by key. */
module ConfigMeaning {
  import opened Options
  import opened Text
  import opened ConfigSpec

  // ----- what one line means

  /** A line that is blank, or whose first character besides white space is a hash. */
  lemma CommentMeansNothing(space: string, comment: string)
    requires All(space, IsSpace) && ByteLength(space) < 65536 && ByteLength(space + "#" + comment) < 65536
    ensures MeaningOf(space).Ignored? && MeaningOf(space + "#" + comment).Ignored?
  {
    hide ByteLength, TrimSpace, IsSpace;
    DropCRIsTrimmed(space);
    DropCRIsTrimmed(space + "#" + comment);
    OnlySpace(space);
    HashStays(space, comment);
  }

  lemma OnlySpace(space: string)
    requires All(space, IsSpace)
    ensures TrimSpace(space) == []
  {
    assert space == space + [] + [];
    TrimSpaceDrops(space, [], []);
  }

  lemma HashStays(space: string, comment: string)
    requires All(space, IsSpace)
    ensures TrimSpace(space + "#" + comment) != [] && TrimSpace(space + "#" + comment)[0] == '#'
  {
    var text := "#" + comment;
    var a, b := TrimSpaceSplits(text);
    FirstIsKept(text, a, TrimSpace(text), b);
    assert space + "#" + comment == space + text + [];
    TrimSpaceDrops(space, text, []);
  }

  lemma FirstIsKept(text: string, a: string, kept: string, b: string)
    requires text == a + kept + b && All(a, IsSpace) && All(b, IsSpace) && text != [] && !IsSpace(text[0])
    ensures kept != [] && kept[0] == text[0]
  {
    assert text == a + (kept + b);
    FirstOf(a, kept + b);
    FirstOf(kept, b);
  }

  lemma FirstOf(a: string, b: string)
    ensures if a == [] then a + b == b else (a + b)[0] == a[0]
  {
  }

  ghost predicate KeyText(key: string) {
    key != [] && Trimmed(key, IsSpace) && '=' !in key && key[0] != '#'
  }

  /** However a line is spaced, its key is what stands before the first equals sign and its
      value what stands behind it, without the quotation marks around it. */
  lemma LineMeans(a: string, key: string, b: string, c: string, value: string, d: string)
    requires All(a, IsSpace) && All(b, IsSpace) && All(c, IsSpace) && All(d, IsSpace)
    requires KeyText(key) && Trimmed(value, IsSpace)
    requires ByteLength(a + key + b + "=" + c + value + d) < 65536
    ensures
      MeaningOf(a + key + b + "=" + c + value + d) ==
        Setting(key, if |value| >= 2 && value[0] == '"' && value[|value| - 1] == '"' then value[1..|value| - 1] else value)
  {
    hide ByteLength, TrimSpace, IsSpace, Find;
    var raw := a + key + b + "=" + c + value + d;
    DropCRIsTrimmed(raw);
    KeptLine(a, key, b, c, value, d);
    var rest := KeptRest(c, value);
    EqualsNotSpace(b);
    FindFirst(key + b, '=', rest);
    assert key + b == [] + key + b;
    NothingButSpaces();
    TrimSpaceDrops([], key, b);
    TrimmedStays(key);
    KeptRestTrims(c, value);
  }

  lemma EqualsNotSpace(b: string)
    requires All(b, IsSpace)
    ensures '=' !in b
  {
  }

  /** What trimming the line leaves behind its equals sign. */
  function KeptRest(c: string, value: string): string {
    if value == [] then [] else c + value
  }

  lemma KeptRestTrims(c: string, value: string)
    requires All(c, IsSpace) && Trimmed(value, IsSpace)
    ensures TrimSpace(KeptRest(c, value)) == value
  {
    NothingButSpaces();
    hide IsSpace, TrimSpace;
    if value == [] {
      TrimmedStays([]);
    } else {
      assert c + value == c + value + [];
      TrimSpaceDrops(c, value, []);
      TrimmedStays(value);
    }
  }

  lemma KeptLine(a: string, key: string, b: string, c: string, value: string, d: string)
    requires All(a, IsSpace) && All(b, IsSpace) && All(c, IsSpace) && All(d, IsSpace)
    requires KeyText(key) && Trimmed(value, IsSpace)
    ensures
      TrimSpace(a + key + b + "=" + c + value + d) == key + b + ['='] + KeptRest(c, value)
  {
    var kept := key + b + ['='] + KeptRest(c, value);
    var tail := if value == [] then c + d else d;
    assert All(tail, IsSpace);
    LineKept(key, b, c, value);
    hide IsSpace, TrimSpace;
    assert a + key + b + "=" + c + value + d == a + kept + tail;
    TrimSpaceDrops(a, kept, tail);
    TrimmedStays(kept);
  }

  lemma LineKept(key: string, b: string, c: string, value: string)
    requires KeyText(key) && Trimmed(value, IsSpace)
    ensures Trimmed(key + b + ['='] + KeptRest(c, value), IsSpace)
  {
    var kept := key + b + ['='] + KeptRest(c, value);
    assert !IsSpace('=');
    hide IsSpace;
    assert kept[0] == key[0];
    assert kept[|kept| - 1] == if value == [] then '=' else value[|value| - 1];
  }

  /** A line without an equals sign that is neither blank nor a comment. */
  lemma NoEqualsIsMalformed(raw: string)
    requires '=' !in raw && TrimSpace(raw) != [] && TrimSpace(raw)[0] != '#' && ByteLength(raw) < 65536
    ensures MeaningOf(raw).Malformed?
  {
    hide ByteLength, TrimSpace, IsSpace, Find;
    DropCRIsTrimmed(raw);
    var a, b := TrimSpaceSplits(raw);
    assert forall c :: c in TrimSpace(raw) ==> c in raw;
    FindNone(TrimSpace(raw), '=');
  }

  lemma TooLongIsTooLong(raw: string)
    ensures MeaningOf(raw).TooLong? <==> ByteLength(raw) >= 65536
  {
    hide ByteLength, TrimSpace, IsSpace, Find;
  }

  // ----- what one setting does

  const TRUTHS := ["1", "t", "T", "TRUE", "true", "True"]
  const FALSEHOODS := ["0", "f", "F", "FALSE", "false", "False"]

  /** The keys there are, and the values they take. */
  predicate Takes(key: string, value: string) {
    || key in {"server_url", "machine_id", "log_level", "run_as_allowed"}
    || (key == "insecure_http" && (value in TRUTHS || value in FALSEHOODS))
    || (key in {"max_concurrent_runs", "max_timeout_seconds", "max_output_bytes"} && Atoi(value).Some?)
  }

  /** The field of the key holds what the value says. */
  predicate Tells(c: Config, key: string, value: string) {
    && (key == "server_url" ==> c.serverUrl == value)
    && (key == "machine_id" ==> c.machineId == value)
    && (key == "insecure_http" ==> (c.insecureHttp <==> value in TRUTHS))
    && (key == "log_level" ==> c.logLevel == value)
    && (key == "max_concurrent_runs" ==> Atoi(value) == Some(c.maxConcurrentRuns))
    && (key == "max_timeout_seconds" ==> Atoi(value) == Some(c.maxTimeoutSeconds))
    && (key == "max_output_bytes" ==> Atoi(value) == Some(c.maxOutputBytes))
    && (key == "run_as_allowed" ==> c.runAsAllowed == SplitList(value))
  }

  /** The field of the key is the same. */
  predicate Same(c: Config, d: Config, key: string) {
    && (key == "server_url" ==> c.serverUrl == d.serverUrl)
    && (key == "machine_id" ==> c.machineId == d.machineId)
    && (key == "insecure_http" ==> c.insecureHttp == d.insecureHttp)
    && (key == "log_level" ==> c.logLevel == d.logLevel)
    && (key == "max_concurrent_runs" ==> c.maxConcurrentRuns == d.maxConcurrentRuns)
    && (key == "max_timeout_seconds" ==> c.maxTimeoutSeconds == d.maxTimeoutSeconds)
    && (key == "max_output_bytes" ==> c.maxOutputBytes == d.maxOutputBytes)
    && (key == "run_as_allowed" ==> c.runAsAllowed == d.runAsAllowed)
  }

  lemma SetTells(c: Config, key: string, value: string)
    ensures key in KEYS && Set(c, key, value).Some? <==> Takes(key, value)
    ensures Set(c, key, value).Some? ==> Tells(Set(c, key, value).value, key, value)
  {
    hide Atoi, SplitList;
  }

  lemma SetLeaves(c: Config, key: string, value: string, other: string)
    requires other != key && Set(c, key, value).Some?
    ensures Same(c, Set(c, key, value).value, other)
  {
    hide Atoi, SplitList, ParseBool;
  }

  lemma SameAndTells(c: Config, d: Config, key: string, value: string)
    requires Tells(c, key, value) && Same(c, d, key)
    ensures Tells(d, key, value)
  {
  }

  lemma SameTwice(c: Config, d: Config, e: Config, key: string)
    requires Same(c, d, key) && Same(d, e, key)
    ensures Same(c, e, key)
  {
  }

  // ----- what a whole file means

  predicate Says(line: string, key: string) {
    MeaningOf(line).Setting? && MeaningOf(line).key == key
  }

  predicate Fine(line: string) {
    MeaningOf(line).Ignored? || (MeaningOf(line).Setting? && Takes(MeaningOf(line).key, MeaningOf(line).value))
  }

  /** Every line is blank, a comment or a setting, and no key is set twice. */
  ghost predicate Acceptable(seen: set<string>, lines: seq<string>) {
    && (forall i :: 0 <= i < |lines| ==> Fine(lines[i]))
    && (forall i :: 0 <= i < |lines| && MeaningOf(lines[i]).Setting? ==> MeaningOf(lines[i]).key !in seen)
    && (forall i, j :: 0 <= i < j < |lines| && MeaningOf(lines[i]).Setting? ==> !Says(lines[j], MeaningOf(lines[i]).key))
  }

  ghost predicate Means(c: Config, d: Config, lines: seq<string>) {
    && (forall i :: 0 <= i < |lines| && MeaningOf(lines[i]).Setting? ==>
          Tells(d, MeaningOf(lines[i]).key, MeaningOf(lines[i]).value))
    && (forall key :: (forall i :: 0 <= i < |lines| ==> !Says(lines[i], key)) ==> Same(c, d, key))
  }

  lemma AcceptableCons(seen: set<string>, lines: seq<string>)
    requires lines != []
    ensures
      var (first, rest) := (MeaningOf(lines[0]), lines[1..]);
      Acceptable(seen, lines) <==>
        && Fine(lines[0])
        && (if first.Setting? then first.key !in seen && Acceptable(seen + {first.key}, rest) else Acceptable(seen, rest))
  {
    hide Takes, MeaningOf, Fine;
    var (first, rest) := (MeaningOf(lines[0]), lines[1..]);
    assert forall i :: 0 < i < |lines| ==> lines[i] == rest[i - 1];
    assert forall i :: 0 <= i < |rest| ==> rest[i] == lines[i + 1];
  }

  lemma {:induction false} FoldMeans(c: Config, seen: set<string>, lines: seq<string>)
    ensures Fold(Some(Parsed(c, seen)), lines).Some? <==> Acceptable(seen, lines)
    ensures Fold(Some(Parsed(c, seen)), lines).Some? ==> Means(c, Fold(Some(Parsed(c, seen)), lines).value.config, lines)
    decreases |lines|
  {
    hide MeaningOf, Takes, Tells, Same, Set, Acceptable, Means, Fine;
    if lines == [] {
      NoLines(c, seen);
    } else {
      var (m, rest) := (MeaningOf(lines[0]), lines[1..]);
      AcceptableCons(seen, lines);
      FineExactly(c, lines[0]);
      NothingAfterAnError(rest);
      if m.Ignored? {
        FoldMeans(c, seen, rest);
        if Acceptable(seen, rest) {
          MeansAfterIgnored(c, Fold(Some(Parsed(c, seen)), rest).value.config, lines);
        }
      } else if m.Setting? && m.key !in seen && m.key in KEYS && Set(c, m.key, m.value).Some? {
        var next := Set(c, m.key, m.value).value;
        FoldMeans(next, seen + {m.key}, rest);
        if Acceptable(seen + {m.key}, rest) {
          MeansAfterSetting(c, next, Fold(Some(Parsed(next, seen + {m.key})), rest).value.config, seen, lines);
        }
      }
    }
  }

  lemma NoLines(c: Config, seen: set<string>)
    ensures Acceptable(seen, []) && Means(c, c, [])
  {
  }

  lemma FineExactly(c: Config, line: string)
    ensures
      var m := MeaningOf(line);
      Fine(line) <==> m.Ignored? || (m.Setting? && m.key in KEYS && Set(c, m.key, m.value).Some?)
  {
    hide MeaningOf, Takes, Set;
    var m := MeaningOf(line);
    if m.Setting? {
      SetTells(c, m.key, m.value);
    }
  }

  lemma MeansAfterIgnored(c: Config, d: Config, lines: seq<string>)
    requires lines != [] && MeaningOf(lines[0]).Ignored? && Means(c, d, lines[1..])
    ensures Means(c, d, lines)
  {
    hide MeaningOf, Tells, Same;
    var rest := lines[1..];
    assert forall i :: 0 < i < |lines| ==> lines[i] == rest[i - 1];
    forall key | forall i :: 0 <= i < |lines| ==> !Says(lines[i], key) ensures Same(c, d, key) {
      assert forall i :: 0 <= i < |rest| ==> rest[i] == lines[i + 1] && !Says(rest[i], key);
    }
  }

  lemma MeansAfterSetting(c: Config, next: Config, d: Config, seen: set<string>, lines: seq<string>)
    requires lines != [] && MeaningOf(lines[0]).Setting?
    requires Set(c, MeaningOf(lines[0]).key, MeaningOf(lines[0]).value) == Some(next)
    requires Means(next, d, lines[1..]) && Acceptable(seen + {MeaningOf(lines[0]).key}, lines[1..])
    ensures Means(c, d, lines)
  {
    hide MeaningOf, Tells, Same, Set, Fine;
    var (m, rest) := (MeaningOf(lines[0]), lines[1..]);
    assert forall i :: 0 < i < |lines| ==> lines[i] == rest[i - 1];
    SetTells(c, m.key, m.value);
    assert Same(next, d, m.key) by {
      assert forall i :: 0 <= i < |rest| ==> !Says(rest[i], m.key);
    }
    SameAndTells(next, d, m.key, m.value);
    forall key | forall i :: 0 <= i < |lines| ==> !Says(lines[i], key) ensures Same(c, d, key) {
      assert !Says(lines[0], key);
      assert forall i :: 0 <= i < |rest| ==> rest[i] == lines[i + 1] && !Says(rest[i], key);
      SetLeaves(c, m.key, m.value, key);
      SameTwice(c, next, d, key);
    }
  }

  /** Exactly which files are accepted: every line is blank, a comment or a setting of a
      known key to a value it takes, and no key is set twice. */
  lemma ParseAcceptsExactly(text: string)
    ensures ParseText(text).Ok? <==> Acceptable({}, Lines(text))
  {
    ParseLinesFolds(DEFAULT, {}, 1, Lines(text));
    FoldMeans(DEFAULT, {}, Lines(text));
  }

  /** What an accepted file means: each key that a line sets has the value of that line, and
      every other one its default. */
  lemma AcceptedMeans(text: string)
    requires ParseText(text).Ok?
    ensures
      var c := ParseText(text).config;
      && (forall i :: 0 <= i < |Lines(text)| && MeaningOf(Lines(text)[i]).Setting? ==>
            Tells(c, MeaningOf(Lines(text)[i]).key, MeaningOf(Lines(text)[i]).value))
      && (forall key :: (forall i :: 0 <= i < |Lines(text)| ==> !Says(Lines(text)[i], key)) ==>
            Same(Config("", "", false, "info", 4, 259200, 104857600, []), c, key))
  {
    ParseLinesFolds(DEFAULT, {}, 1, Lines(text));
    FoldMeans(DEFAULT, {}, Lines(text));
    hide Lines, MeaningOf, Tells, Same, Fold;
  }

  /** The first line that cannot be applied is the one an error is about, and says which. */
  lemma {:induction false} ErrorTells(c: Config, seen: set<string>, n: nat, lines: seq<string>, i: nat)
    requires i < |lines| && Fold(Some(Parsed(c, seen)), lines[..i]).Some?
    requires Apply(Fold(Some(Parsed(c, seen)), lines[..i]), MeaningOf(lines[i])).None?
    ensures
      var (m, p) := (MeaningOf(lines[i]), Fold(Some(Parsed(c, seen)), lines[..i]).value);
      ParseLines(c, seen, n, lines) == Err(
        if m.TooLong? then LineTooLong
        else if m.Malformed? then NoAssignment(n + i)
        else if m.Setting? && m.key in p.seen then DuplicateKey(n + i, m.key)
        else if m.Setting? && m.key !in KEYS then UnknownKey(n + i, m.key)
        else if m.Setting? then InvalidValue(n + i, m.key)
        else LineTooLong)
    decreases |lines|
  {
    hide MeaningOf, Set;
    if i == 0 {
      assert lines[..0] == [];
    } else {
      var (m, rest) := (MeaningOf(lines[0]), lines[1..]);
      assert lines[..i][0] == lines[0] && lines[..i][1..] == rest[..i - 1] && rest[i - 1] == lines[i];
      NothingAfterAnError(rest[..i - 1]);
      if m.Ignored? {
        ErrorTells(c, seen, n + 1, rest, i - 1);
      } else if m.Setting? && m.key !in seen && m.key in KEYS && Set(c, m.key, m.value).Some? {
        ErrorTells(Set(c, m.key, m.value).value, seen + {m.key}, n + 1, rest, i - 1);
      }
    }
  }
}
