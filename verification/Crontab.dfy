/** internal/discovery/crontab: how a line of a crontab is read. */
module CrontabSpec {
  import opened Options
  import opened Text

  /** cronField, without the name its errors mention. */
  datatype Field = Field(min: int, max: int, names: seq<string>)

  const FIELDS := [
    Field(0, 59, []),
    Field(0, 23, []),
    Field(1, 31, []),
    Field(1, 12, ["jan", "feb", "mar", "apr", "may", "jun", "jul", "aug", "sep", "oct", "nov", "dec"]),
    Field(0, 7, ["sun", "mon", "tue", "wed", "thu", "fri", "sat"])]

  const NICKNAMES := ["@reboot", "@yearly", "@annually", "@monthly", "@weekly", "@daily", "@midnight", "@hourly"]

  datatype Error = UnknownNickname(nickname: string) | TooFewFields(count: nat) | InvalidField(index: nat)

  datatype Schedule = Ok(schedule: string, rest: string) | Err(error: Error)

  // ----- the grammar

  /** unicode.ToLower as far as its result can be ASCII. */
  function LowerChar(c: char): char {
    if 'A' <= c <= 'Z' then 'a' + (c - 'A')
    else if c == '\U{130}' then 'i'
    else if c == '\U{212a}' then 'k'
    else c
  }

  function ToLower(s: string): string {
    seq(|s|, i requires 0 <= i < |s| => LowerChar(s[i]))
  }

  /** validateValue */
  predicate ValueValid(f: Field, value: string) {
    && value != []
    && (ToLower(value) in f.names || (var n := Atoi(value); n.Some? && f.min <= n.value <= f.max))
  }

  /** validateItem */
  predicate ItemValid(f: Field, item: string) {
    var (value, step, hasStep) := Cut(item, '/');
    && (hasStep ==> var n := Atoi(step); n.Some? && n.value >= 1)
    && (value == "*" || (
          var (from, to, isRange) := Cut(value, '-');
          ValueValid(f, from) && (isRange ==> ValueValid(f, to))))
  }

  /** validate */
  predicate FieldValid(f: Field, field: string) {
    forall item :: item in Split(field, ',') ==> ItemValid(f, item)
  }

  function FindBlank(s: string): (i: nat)
    ensures i <= |s| && (forall k :: 0 <= k < i ==> !IsBlank(s[k])) && (i < |s| ==> IsBlank(s[i]))
  {
    if s == [] || IsBlank(s[0]) then 0 else 1 + FindBlank(s[1..])
  }

  /** cutField */
  function CutField(text: string): (string, string) {
    var t := TrimLeft(text, IsBlank);
    var i := FindBlank(t);
    if i == |t| then (t, []) else (t[..i], TrimLeft(t[i..], IsBlank))
  }

  function ReadFields(i: nat, done: seq<string>, text: string): Schedule
    requires i <= 5
    decreases 5 - i
  {
    if i == 5 then Ok(Join(done, " "), text)
    else
      var (value, rest) := CutField(text);
      if value == [] then Err(TooFewFields(i))
      else if !FieldValid(FIELDS[i], value) then Err(InvalidField(i))
      else ReadFields(i + 1, done + [value], rest)
  }

  /** cronSchedule */
  function CronSchedule(text: string): Schedule {
    if text != [] && text[0] == '@' then
      var (nickname, rest) := CutField(text);
      if ToLower(nickname) in NICKNAMES then Ok(nickname, rest) else Err(UnknownNickname(nickname))
    else
      ReadFields(0, [], text)
  }

  // ----- assignments

  predicate IsLetter(c: char) {
    c == '_' || 'A' <= c <= 'Z' || 'a' <= c <= 'z'
  }

  predicate IsName(name: string) {
    && name != []
    && ' ' !in name && '\t' !in name
    && forall i :: 0 <= i < |name| ==> IsLetter(name[i]) || (i > 0 && IsDigit(name[i]))
  }

  function Unquote(value: string): string {
    if |value| >= 2 && value[0] in {'"', '\''} && value[|value| - 1] == value[0]
    then value[1..|value| - 1] else value
  }

  /** environmentAssignment */
  function Assignment(text: string): Option<(string, string)> {
    var (name, value, found) := Cut(text, '=');
    if found && IsName(TrimSpace(name)) then Some((TrimSpace(name), Unquote(TrimSpace(value)))) else None
  }

  function TrimHyphen(text: string): string {
    if text != [] && text[0] == '-' then text[1..] else text
  }

  // ----- cutting fields

  ghost predicate Plain(field: string) {
    field != [] && forall k :: 0 <= k < |field| ==> !IsBlank(field[k])
  }

  ghost predicate Starts(text: string) {
    text == [] || !IsBlank(text[0])
  }

  lemma {:induction false} FindBlankAfter(field: string, s: string)
    requires forall k :: 0 <= k < |field| ==> !IsBlank(field[k])
    requires s == [] || IsBlank(s[0])
    ensures FindBlank(field + s) == |field|
    decreases |field|
  {
    if field == [] {
      assert field + s == s;
    } else {
      assert (field + s)[0] == field[0] && (field + s)[1..] == field[1..] + s;
      FindBlankAfter(field[1..], s);
    }
  }

  lemma CutFieldReads(lead: string, field: string, gap: string, rest: string)
    requires All(lead, IsBlank) && Plain(field) && All(gap, IsBlank) && Starts(rest)
    requires gap == [] ==> rest == []
    ensures CutField(lead + field + gap + rest) == (field, rest)
  {
    var tail := gap + rest;
    var t := field + tail;
    assert lead + field + gap + rest == lead + t;
    TrimLeftDrops(lead, t, IsBlank);
    assert TrimLeft(t, IsBlank) == t;
    assert tail != [] ==> tail[0] == gap[0];
    FindBlankAfter(field, tail);
    assert t[..|field|] == field && t[|field|..] == tail;
    TrimLeftDrops(gap, rest, IsBlank);
    if tail == [] {
      assert t == field;
    }
  }

  lemma CutFieldSplits(text: string) returns (lead: string, gap: string)
    ensures
      var (field, rest) := CutField(text);
      && text == lead + field + gap + rest
      && All(lead, IsBlank) && All(gap, IsBlank) && Starts(rest) && (field != [] ==> Plain(field))
      && (gap == [] ==> rest == [])
  {
    hide TrimLeft, FindBlank;
    var t := TrimLeft(text, IsBlank);
    var i := FindBlank(t);
    TrimLeftSplits(text, IsBlank);
    lead := text[..|text| - |t|];
    gap := AfterField(t, i);
    var (field, rest) := CutField(text);
    assert field == t[..i];
    assert text == lead + t;
    Reassociate(lead, t, i, gap, rest);
  }

  lemma Reassociate(lead: string, t: string, i: nat, gap: string, rest: string)
    requires i <= |t| && t[i..] == gap + rest
    ensures lead + t == lead + t[..i] + gap + rest
  {
    assert t == t[..i] + t[i..];
  }

  lemma AfterField(t: string, i: nat) returns (gap: string)
    requires i <= |t| && (i < |t| ==> IsBlank(t[i]))
    ensures
      var rest := if i == |t| then [] else TrimLeft(t[i..], IsBlank);
      && t[i..] == gap + rest && All(gap, IsBlank) && Starts(rest) && (gap == [] ==> rest == [])
  {
    var rest := TrimLeft(t[i..], IsBlank);
    TrimLeftSplits(t[i..], IsBlank);
    gap := t[i..][..|t[i..]| - |rest|];
  }

  // ----- five fields, however they are spaced

  /** The fields between gaps, and what follows them. */
  function Spread(gaps: seq<string>, fields: seq<string>, rest: string): string
    requires |gaps| == |fields| + 1
    decreases |fields|
  {
    if fields == [] then gaps[0] + rest else gaps[0] + fields[0] + Spread(gaps[1..], fields[1..], rest)
  }

  /** Blanks before the first field may be missing, and after the last one if nothing follows. */
  ghost predicate WellSpaced(gaps: seq<string>, fields: seq<string>, rest: string) {
    && |gaps| == |fields| + 1
    && (forall k :: 0 <= k < |gaps| ==> All(gaps[k], IsBlank))
    && (forall k :: 1 <= k < |fields| ==> gaps[k] != [])
    && (gaps[|fields|] == [] ==> rest == [])
    && Starts(rest)
  }

  /** Fields number i and up of a schedule. */
  ghost predicate ValidFrom(i: nat, fields: seq<string>)
    requires i + |fields| <= 5
  {
    forall k :: 0 <= k < |fields| ==> Plain(fields[k]) && FieldValid(FIELDS[i + k], fields[k])
  }

  lemma {:induction false} SpreadReads(i: nat, done: seq<string>, gaps: seq<string>, fields: seq<string>, rest: string)
    requires |fields| >= 1 && i + |fields| <= 5
    requires WellSpaced(gaps, fields, rest) && ValidFrom(i, fields)
    ensures ReadFields(i, done, Spread(gaps, fields, rest)) == ReadFields(i + |fields|, done + fields, rest)
    decreases |fields|
  {
    hide CutField, FieldValid, Join;
    var first, later := fields[0], fields[1..];
    assert FIELDS[i + 0] == FIELDS[i];
    assert done + fields == done + [first] + later;
    if later == [] {
      assert fields == [first];
      CutFieldReads(gaps[0], first, gaps[1], rest);
      assert Spread(gaps, fields, rest) == gaps[0] + first + gaps[1] + rest;
    } else {
      var tail := Spread([[]] + gaps[2..], later, rest);
      NextField(gaps, fields, rest);
      CutFieldReads(gaps[0], first, gaps[1], tail);
      forall k | 0 <= k < |later| ensures Plain(later[k]) && FieldValid(FIELDS[i + 1 + k], later[k]) {
        assert later[k] == fields[k + 1];
      }
      SpreadReads(i + 1, done + [first], [[]] + gaps[2..], later, rest);
    }
  }

  lemma FiveRead(gaps: seq<string>, fields: seq<string>, rest: string)
    requires |fields| == 5 && WellSpaced(gaps, fields, rest) && ValidFrom(0, fields)
    ensures ReadFields(0, [], Spread(gaps, fields, rest)) == Ok(Join(fields, " "), rest)
  {
    hide CutField, FieldValid, Join, Spread;
    SpreadReads(0, [], gaps, fields, rest);
    assert [] + fields == fields;
  }

  lemma NextField(gaps: seq<string>, fields: seq<string>, rest: string)
    requires |fields| >= 2 && WellSpaced(gaps, fields, rest) && Plain(fields[1])
    ensures
      var tail := Spread([[]] + gaps[2..], fields[1..], rest);
      && WellSpaced([[]] + gaps[2..], fields[1..], rest)
      && Spread(gaps, fields, rest) == gaps[0] + fields[0] + gaps[1] + tail
      && Starts(tail)
  {
    assert |gaps| == |fields| + 1;
    hide *;
    SpreadNext(gaps, fields, rest);
    StillSpaced(gaps, fields, rest);
    StartsPlain(fields[1], Spread(gaps[2..], fields[2..], rest));
  }

  lemma SpreadNext(gaps: seq<string>, fields: seq<string>, rest: string)
    requires |fields| >= 2 && |gaps| == |fields| + 1
    ensures
      var tail := Spread([[]] + gaps[2..], fields[1..], rest);
      && Spread(gaps, fields, rest) == gaps[0] + fields[0] + gaps[1] + tail
      && tail == fields[1] + Spread(gaps[2..], fields[2..], rest)
  {
    hide *;
    var gaps', after := [[]] + gaps[2..], Spread(gaps[2..], fields[2..], rest);
    assert gaps'[0] == [] && gaps'[1..] == gaps[2..] && gaps[1..][0] == gaps[1] && gaps[1..][1..] == gaps[2..];
    assert fields[1..][0] == fields[1] && fields[1..][1..] == fields[2..];
    SpreadOpens(gaps, fields, rest);
    SpreadOpens(gaps[1..], fields[1..], rest);
    SpreadOpens(gaps', fields[1..], rest);
    assert [] + fields[1] + after == fields[1] + after;
    Regroups(gaps[0] + fields[0], gaps[1], fields[1], after);
  }

  lemma SpreadOpens(gaps: seq<string>, fields: seq<string>, rest: string)
    requires fields != [] && |gaps| == |fields| + 1
    ensures Spread(gaps, fields, rest) == gaps[0] + fields[0] + Spread(gaps[1..], fields[1..], rest)
  {
  }

  lemma Regroups(a: string, b: string, c: string, d: string)
    ensures a + (b + c + d) == a + b + (c + d)
  {
  }

  lemma StillSpaced(gaps: seq<string>, fields: seq<string>, rest: string)
    requires |fields| >= 2 && WellSpaced(gaps, fields, rest)
    ensures WellSpaced([[]] + gaps[2..], fields[1..], rest)
  {
    hide Starts;
    var gaps' := [[]] + gaps[2..];
    forall k | 1 <= k < |gaps'| ensures gaps'[k] == gaps[k + 1] {
    }
  }

  lemma StartsPlain(field: string, after: string)
    requires Plain(field)
    ensures Starts(field + after)
  {
    assert (field + after)[0] == field[0];
  }

  lemma {:induction false} ReadsAreSpread(i: nat, done: seq<string>, text: string)
    returns (gaps: seq<string>, fields: seq<string>)
    requires i < 5 && ReadFields(i, done, text).Ok?
    ensures i + |fields| == 5
    ensures
      var r := ReadFields(i, done, text);
      && WellSpaced(gaps, fields, r.rest) && ValidFrom(i, fields)
      && text == Spread(gaps, fields, r.rest) && r.schedule == Join(done + fields, " ")
    decreases 5 - i
  {
    hide CutField, FieldValid, Join, Spread;
    var (first, rest) := CutField(text);
    var lead, gap := CutFieldSplits(text);
    if i == 4 {
      gaps, fields := [lead, gap], [first];
      SpreadOne(lead, first, gap, rest);
    } else {
      var r := ReadFields(i, done, text);
      var gaps', fields' := ReadsAreSpread(i + 1, done + [first], rest);
      StartsWithoutGap(gaps', fields', r.rest);
      assert Plain(fields'[0]);
      gaps, fields := [lead, gap] + gaps'[1..], [first] + fields';
      SpreadMore(lead, first, gap, gaps', fields', r.rest);
      assert done + [first] + fields' == done + fields;
      forall k | 0 <= k < |fields| ensures Plain(fields[k]) && FieldValid(FIELDS[i + k], fields[k]) {
        if k > 0 { assert fields[k] == fields'[k - 1]; }
      }
    }
  }

  lemma SpreadOne(lead: string, first: string, gap: string, rest: string)
    ensures Spread([lead, gap], [first], rest) == lead + first + gap + rest
  {
    assert Spread([lead, gap][1..], [first][1..], rest) == gap + rest;
  }

  lemma StartsWithoutGap(gaps: seq<string>, fields: seq<string>, rest: string)
    requires |fields| >= 1 && WellSpaced(gaps, fields, rest)
    ensures Starts(Spread(gaps, fields, rest)) ==> gaps[0] == []
    ensures fields[0] != [] ==> Spread(gaps, fields, rest) != []
  {
    if gaps[0] != [] {
      assert Spread(gaps, fields, rest)[0] == gaps[0][0];
    }
  }

  lemma SpreadMore(lead: string, first: string, gap: string, gaps: seq<string>, fields: seq<string>, rest: string)
    requires |fields| >= 1 && WellSpaced(gaps, fields, rest) && gaps[0] == []
    requires All(lead, IsBlank) && All(gap, IsBlank) && gap != []
    ensures
      var more := [lead, gap] + gaps[1..];
      && WellSpaced(more, [first] + fields, rest)
      && Spread(more, [first] + fields, rest) == lead + first + gap + Spread(gaps, fields, rest)
  {
    var more := [lead, gap] + gaps[1..];
    var after := Spread(gaps[1..], fields[1..], rest);
    assert ([first] + fields)[1..] == fields && more[1..] == [gap] + gaps[1..] && more[1..][1..] == gaps[1..];
    assert Spread(gaps, fields, rest) == [] + fields[0] + after;
    assert Spread(more[1..], fields, rest) == gap + fields[0] + after;
    forall k | 2 <= k < |more| ensures more[k] == gaps[k - 1] {
    }
  }

  /** A line is accepted exactly when it is five valid fields, whatever blanks separate them,
      and the schedule is those fields with single spaces. */
  lemma AcceptedExactly(text: string, schedule: string, rest: string)
    requires text == [] || text[0] != '@'
    ensures CronSchedule(text) == Ok(schedule, rest) <==>
      exists gaps, fields ::
        && |fields| == 5 && WellSpaced(gaps, fields, rest) && ValidFrom(0, fields)
        && text == Spread(gaps, fields, rest) && schedule == Join(fields, " ")
  {
    hide ReadFields, ValidFrom, Spread, Join;
    if CronSchedule(text) == Ok(schedule, rest) {
      var gaps, fields := ReadsAreSpread(0, [], text);
      assert [] + fields == fields;
    }
    forall gaps: seq<string>, fields: seq<string> |
      && |fields| == 5 && WellSpaced(gaps, fields, rest) && ValidFrom(0, fields)
      && text == Spread(gaps, fields, rest) && schedule == Join(fields, " ")
      ensures CronSchedule(text) == Ok(schedule, rest)
    {
      FiveRead(gaps, fields, rest);
    }
  }

  // ----- which items a field takes

  /** A list is valid exactly when both of its halves are. */
  lemma ListsExactly(f: Field, a: string, b: string)
    ensures FieldValid(f, a + "," + b) <==> FieldValid(f, a) && FieldValid(f, b)
  {
    hide ItemValid, Split;
    SplitBoth(a, b, ',');
    assert a + "," + b == a + [','] + b;
  }

  /** A step is valid exactly when it is positive and what it steps through is valid. */
  lemma StepsExactly(f: Field, value: string, k: nat)
    requires '/' !in value
    ensures ItemValid(f, value + "/" + Itoa(k)) <==> ItemValid(f, value) && 1 <= k <= MAX_INT64
  {
    hide ValueValid, Atoi;
    assert value + "/" + Itoa(k) == value + ['/'] + Itoa(k);
    FindFirst(value, '/', Itoa(k));
    FindNone(value, '/');
    AtoiItoaExactly(k);
  }

  lemma AtoiItoaExactly(n: nat)
    ensures Atoi(Itoa(n)) == if n <= MAX_INT64 then Some(n) else None
    ensures forall c :: c in Itoa(n) ==> IsDigit(c)
    ensures Itoa(n) != []
  {
    ItoaDigits(n);
    var s := Itoa(n);
    assert IsDigit(s[0]) && s[0..] == s;
  }

  lemma NamesAreWords(i: nat)
    requires i < 5
    ensures forall name :: name in FIELDS[i].names ==> name != [] && !IsDigit(name[0])
  {
  }

  /** A number is valid exactly within the field's bounds. */
  lemma NumbersExactly(i: nat, n: nat)
    requires i < 5
    ensures ValueValid(FIELDS[i], Itoa(n)) <==> FIELDS[i].min <= n <= FIELDS[i].max
  {
    hide Itoa, Atoi, ToLower;
    AtoiItoaExactly(n);
    NamesAreWords(i);
    LowerKeepsDigit(Itoa(n));
  }

  lemma LowerKeepsDigit(s: string)
    requires s != [] && forall c :: c in s ==> IsDigit(c)
    ensures ToLower(s) != [] && IsDigit(ToLower(s)[0])
  {
    assert s[0] in s;
    assert ToLower(s)[0] == LowerChar(s[0]) == s[0];
  }

  /** A range is valid exactly when both of its ends are, whichever is larger. */
  lemma RangesExactly(i: nat, a: nat, b: nat)
    requires i < 5
    ensures ItemValid(FIELDS[i], Itoa(a) + "-" + Itoa(b)) <==>
      FIELDS[i].min <= a <= FIELDS[i].max && FIELDS[i].min <= b <= FIELDS[i].max
  {
    hide Itoa, Atoi, ValueValid;
    var (from, to) := (Itoa(a), Itoa(b));
    AtoiItoaExactly(a);
    AtoiItoaExactly(b);
    var item := from + "-" + to;
    assert forall c :: c in item ==> IsDigit(c) || c == '-';
    FindNone(item, '/');
    assert item == from + ['-'] + to;
    FindFirst(from, '-', to);
    assert item != "*" by { assert item[0] == from[0] && from[0] in from; }
    NumbersExactly(i, a);
    NumbersExactly(i, b);
  }

  // ----- what a schedule starts with

  lemma {:induction false} DigitsAreDigits(s: string)
    requires Digits(s).Some?
    ensures All(s, IsDigit)
    decreases |s|
  {
    if s != [] {
      DigitsAreDigits(s[..|s| - 1]);
    }
  }

  predicate OpensField(c: char) {
    c == '*' || c == '+' || IsDigit(c)
  }

  lemma NumberOpens(value: string)
    requires value != [] && '-' !in value && Atoi(value).Some?
    ensures OpensField(value[0])
  {
    var sign := if value[0] == '+' then 1 else 0;
    DigitsAreDigits(value[sign..]);
  }

  lemma ItemOpens(item: string)
    requires ItemValid(FIELDS[0], item)
    ensures item != [] && OpensField(item[0])
  {
    hide Atoi;
    var (value, step, hasStep) := Cut(item, '/');
    if value != "*" {
      var (from, to, isRange) := Cut(value, '-');
      assert from == value[..Find(value, '-')];
      NumberOpens(from);
    }
  }

  lemma MinuteOpens(field: string)
    requires field != [] && FieldValid(FIELDS[0], field)
    ensures OpensField(field[0])
  {
    hide ItemValid;
    var item := Split(field, ',')[0];
    assert item == field[..Find(field, ',')];
    ItemOpens(item);
  }

  /** The first character that is not blank. */
  lemma ScheduleOpens(text: string) returns (lead: string, c: char, tail: string)
    requires CronSchedule(text).Ok?
    ensures text == lead + [c] + tail && All(lead, IsBlank)
    ensures OpensField(c) || (c == '@' && lead == [])
  {
    if text != [] && text[0] == '@' {
      hide *;
      lead, c, tail := [], text[0], text[1..];
      assert text == [text[0]] + text[1..];
      NoBlanks();
    } else {
      FirstIsMinute(text);
      hide *;
      var (field, rest) := CutField(text);
      var gap;
      lead, gap := CutFieldSplits(text);
      MinuteOpens(field);
      c, tail := field[0], field[1..] + gap + rest;
      OpensWith(lead, field, gap, rest);
    }
  }

  lemma NoBlanks()
    ensures All([], IsBlank)
  {
  }

  lemma FirstIsMinute(text: string)
    requires CronSchedule(text).Ok? && !(text != [] && text[0] == '@')
    ensures var field := CutField(text).0; field != [] && FieldValid(FIELDS[0], field)
  {
    hide FieldValid, CutField;
  }

  lemma OpensWith(lead: string, field: string, gap: string, rest: string)
    requires field != []
    ensures lead + field + gap + rest == lead + [field[0]] + (field[1..] + gap + rest)
  {
    assert field == [field[0]] + field[1..];
  }

  lemma NameOpens(lead: string, c: char, tail: string)
    requires All(lead, IsBlank) && !IsSpace(c) && c != '='
    ensures
      var i := Find(lead + [c] + tail, '=');
      var name := TrimSpace((lead + [c] + tail)[..i]);
      name != [] && name[0] == c
  {
    hide TrimRight;
    var text := lead + [c] + tail;
    var i := Find(text, '=');
    assert text == lead + ([c] + tail);
    assert '=' !in lead;
    FindSkips(lead, [c] + tail, '=');
    var t := text[|lead|..i];
    assert text[..i] == lead + t && t[0] == c;
    assert All(lead, IsSpace);
    TrimLeftDrops(lead, t, IsSpace);
    TrimRightKeepsFirst(t);
  }

  lemma {:induction false} TrimRightKeepsFirst(t: string)
    requires t != [] && !IsSpace(t[0])
    ensures TrimLeft(t, IsSpace) == t
    ensures TrimRight(t, IsSpace) != [] && TrimRight(t, IsSpace)[0] == t[0]
    decreases |t|
  {
    if |t| > 1 && IsSpace(t[|t| - 1]) {
      TrimRightKeepsFirst(t[..|t| - 1]);
    }
  }

  /** No line that holds a schedule, with or without the leading hyphen, reads as an assignment. */
  lemma ScheduleIsNoAssignment(text: string)
    requires CronSchedule(TrimHyphen(text)).Ok?
    ensures Assignment(text).None?
  {
    hide CronSchedule, TrimLeft, TrimRight;
    if text != [] && text[0] == '-' {
      NameOpens([], '-', text[1..]);
      assert text == [] + ['-'] + text[1..];
    } else {
      var lead, c, tail := ScheduleOpens(text);
      NameOpens(lead, c, tail);
    }
  }

  // ----- the schedule in the form it is reported

  function SingleBlanks(n: nat): seq<string> {
    seq(n, _ => " ")
  }

  lemma {:induction false} JoinIsSpread(lead: string, fields: seq<string>, rest: string)
    requires fields != []
    ensures lead + Join(fields, " ") + " " + rest == Spread([lead] + SingleBlanks(|fields|), fields, rest)
    decreases |fields|
  {
    var gaps, first, later := [lead] + SingleBlanks(|fields|), fields[0], fields[1..];
    assert gaps[1..] == SingleBlanks(|fields|);
    if later == [] {
      assert fields == [first] && gaps == [lead, " "];
      SpreadOne(lead, first, " ", rest);
      assert lead + first + " " + rest == lead + first + (" " + rest);
    } else {
      assert SingleBlanks(|fields|) == [" "] + SingleBlanks(|later|);
      JoinIsSpread(" ", later, rest);
      var tail := Join(later, " ");
      assert lead + (first + " " + tail) + " " + rest == lead + first + (" " + tail + " " + rest);
    }
  }

  /** A schedule as reported, followed by what followed it, reads as itself. */
  lemma ReportedReadsAsItself(text: string)
    requires CronSchedule(text).Ok?
    ensures
      var r := CronSchedule(text);
      forall rest :: (rest == [] || !IsBlank(rest[0])) ==> CronSchedule(r.schedule + " " + rest) == Ok(r.schedule, rest)
  {
    var r := CronSchedule(text);
    forall rest: string | Starts(rest) ensures CronSchedule(r.schedule + " " + rest) == Ok(r.schedule, rest) {
      if text != [] && text[0] == '@' {
        NicknameReads(text, rest);
      } else {
        FieldsRead(text, rest);
      }
    }
  }

  lemma FieldAtStart(text: string)
    requires text != [] && !IsBlank(text[0])
    ensures CutField(text).0 != [] && CutField(text).0[0] == text[0]
  {
  }

  lemma NicknameReads(text: string, rest: string)
    requires text != [] && text[0] == '@' && CronSchedule(text).Ok? && Starts(rest)
    ensures CronSchedule(CronSchedule(text).schedule + " " + rest) == Ok(CronSchedule(text).schedule, rest)
  {
    hide CutField, ToLower;
    var (nickname, r) := CutField(text);
    var lead, gap := CutFieldSplits(text);
    FieldAtStart(text);
    CutFieldReads([], nickname, " ", rest);
    assert [] + nickname + " " + rest == nickname + " " + rest;
  }

  lemma JoinStarts(fields: seq<string>)
    requires fields != [] && fields[0] != []
    ensures Join(fields, " ") != [] && Join(fields, " ")[0] == fields[0][0]
  {
  }

  lemma NoShorthand(text: string, rest: string)
    requires text != [] && OpensField(text[0])
    ensures (text + rest)[0] != '@'
  {
    assert (text + rest)[0] == text[0];
  }

  lemma FieldsRead(text: string, rest: string)
    requires (text == [] || text[0] != '@') && CronSchedule(text).Ok? && Starts(rest)
    ensures CronSchedule(CronSchedule(text).schedule + " " + rest) == Ok(CronSchedule(text).schedule, rest)
  {
    hide FieldValid, Spread, ReadFields;
    var gaps, fields := ReadsAreSpread(0, [], text);
    assert [] + fields == fields;
    var schedule := CronSchedule(text).schedule;
    var single := [[]] + SingleBlanks(5);
    JoinIsSpread([], fields, rest);
    assert [] + schedule + " " + rest == schedule + " " + rest;
    assert Plain(fields[0]) && FieldValid(FIELDS[0 + 0], fields[0]);
    MinuteOpens(fields[0]);
    JoinStarts(fields);
    assert schedule == Join(fields, " ") && OpensField(schedule[0]);
    FiveRead(single, fields, rest);
    NoShorthand(schedule, " " + rest);
    assert schedule + " " + rest == schedule + (" " + rest);
  }

  // ----- commands

  /** A command as cron unescapes it, up to the first percent sign that is not escaped. */
  function Unescape(text: string): string
    decreases |text|
  {
    if text == [] then []
    else if text[0] == '\\' && |text| > 1 && text[1] == '%' then "%" + Unescape(text[2..])
    else if text[0] == '%' then []
    else [text[0]] + Unescape(text[1..])
  }

  predicate EscapedAt(text: string, i: nat) {
    i + 1 < |text| && text[i] == '\\' && text[i + 1] == '%'
  }

  /** One step of a pass that has built the command as far as index i. */
  lemma UnescapeStep(text: string, i: nat, built: string)
    requires i < |text|
    ensures EscapedAt(text, i) ==> (built + "%") + Unescape(text[i + 2..]) == built + Unescape(text[i..])
    ensures !EscapedAt(text, i) && text[i] == '%' ==> built == built + Unescape(text[i..])
    ensures !EscapedAt(text, i) && text[i] != '%' ==>
      (built + [text[i]]) + Unescape(text[i + 1..]) == built + Unescape(text[i..])
  {
    var here := text[i..];
    assert here[1..] == text[i + 1..];
    if i + 1 < |text| {
      assert here[2..] == text[i + 2..];
    }
  }

  /** cronCommand */
  function CommandOf(text: string): string {
    TrimRight(Unescape(text), IsBlank)
  }

  /** How a command is written in a crontab. */
  function Escape(command: string): string {
    if command == [] then []
    else (if command[0] == '%' then "\\%" else [command[0]]) + Escape(command[1..])
  }

  /** What follows an unescaped percent sign is standard input and not part of the command. */
  lemma {:induction false} EscapedReadsAsItself(command: string, stdin: string)
    requires stdin == [] || (stdin[0] == '%' && (command == [] || command[|command| - 1] != '\\'))
    ensures Unescape(Escape(command) + stdin) == command
    decreases |command|
  {
    if command == [] {
      assert Escape(command) + stdin == stdin;
    } else {
      var c, later := command[0], command[1..];
      EscapedReadsAsItself(later, stdin);
      EscapeNext(command, stdin);
      hide *;
      EscapedHead(c, Escape(later) + stdin);
      assert command == [c] + later;
    }
  }

  function Head(c: char): string {
    if c == '%' then "\\%" else [c]
  }

  /** How an escaped command opens, and that the rest never adds a percent sign to a
      backslash before it. */
  lemma EscapeNext(command: string, stdin: string)
    requires command != []
    requires stdin == [] || (stdin[0] == '%' && command[|command| - 1] != '\\')
    ensures
      var rest := Escape(command[1..]) + stdin;
      && Escape(command) + stdin == Head(command[0]) + rest
      && (command[0] == '\\' && rest != [] ==> rest[0] != '%')
  {
    var later := command[1..];
    EscapeOpens(command);
    EscapeNeverOpens(later);
    hide *;
    Associates(Head(command[0]), Escape(later), stdin);
    if later == [] {
      assert command[|command| - 1] == command[0];
    }
    FirstOfBoth(Escape(later), stdin);
  }

  lemma FirstOfBoth(a: string, b: string)
    ensures if a == [] then a + b == b else (a + b)[0] == a[0]
  {
  }

  lemma EscapeOpens(command: string)
    requires command != []
    ensures Escape(command) == Head(command[0]) + Escape(command[1..])
  {
  }

  lemma Associates(a: string, b: string, c: string)
    ensures (a + b) + c == a + (b + c)
  {
  }

  lemma EscapedHead(c: char, rest: string)
    requires c == '\\' && rest != [] ==> rest[0] != '%'
    ensures Unescape(Head(c) + rest) == [c] + Unescape(rest)
  {
    if c == '%' {
      assert ("\\%" + rest)[2..] == rest;
    } else {
      assert ([c] + rest)[1..] == rest;
    }
  }

  lemma EscapeNeverOpens(command: string)
    ensures command != [] ==> Escape(command) != [] && Escape(command)[0] != '%'
    ensures command == [] ==> Escape(command) == []
  {
  }

  // ----- lines

  datatype Format = System | User

  datatype Note = BadSchedule(error: Error) | NotAUser(user: string) | NoCommand

  datatype Entry = Entry(
    raw: string, timezone: string, user: string, schedule: string, command: string, note: Option<Note>, isAgent: bool)

  /** isUserName */
  predicate IsUserName(name: string) {
    && name != [] && |name| <= 32 && name[0] != '-' && name[0] != '.'
    && forall k :: 0 <= k < |name| ==> IsLetter(name[k]) || IsDigit(name[k]) || name[k] == '-' || name[k] == '.'
  }

  // Whether a command runs this agent (internal/discovery/discovery.go).

  const AGENT_BINARY := "omj-agent"

  predicate IsQuote(c: char) {
    c == '"' || c == '\''
  }

  function FindSpace(s: string): (i: nat)
    ensures i <= |s| && (forall k :: 0 <= k < i ==> !IsSpace(s[k])) && (i < |s| ==> IsSpace(s[i]))
    ensures s != [] && !IsSpace(s[0]) ==> i > 0
  {
    if s == [] || IsSpace(s[0]) then 0 else 1 + FindSpace(s[1..])
  }

  /** strings.Fields */
  function Words(s: string): seq<string>
    decreases |s|
  {
    if s == [] then []
    else if IsSpace(s[0]) then Words(s[1..])
    else
      var i := FindSpace(s);
      [s[..i]] + Words(s[i..])
  }

  function LastSlash(path: string): int
    ensures -1 <= LastSlash(path) < |path|
  {
    if path == [] then -1
    else if path[|path| - 1] == '/' then |path| - 1
    else LastSlash(path[..|path| - 1])
  }

  /** filepath.Base */
  function Base(path: string): string {
    if path == [] then "."
    else
      var p := TrimRight(path, c => c == '/');
      var i := LastSlash(p);
      if p[i + 1..] == [] then "/" else p[i + 1..]
  }

  /** runsAgent for a command line. */
  predicate RunsAgent(command: string, executable: string) {
    exists word :: word in Words(command) && IsAgentWord(word, executable)
  }

  predicate IsAgentWord(word: string, executable: string) {
    var token := TrimRight(TrimLeft(word, IsQuote), IsQuote);
    token != [] && ((executable != [] && token == executable) || Base(token) == AGENT_BINARY)
  }

  /** A command that starts with the agent's own path is marked, whatever follows. */
  lemma OwnPathIsMarked(executable: string, arguments: string)
    requires executable != [] && All(executable, c => !IsSpace(c))
    requires !IsQuote(executable[0]) && !IsQuote(executable[|executable| - 1])
    ensures RunsAgent(executable + " " + arguments, executable)
  {
    var command := executable + " " + arguments;
    var i := FindSpace(command);
    assert command[|executable|] == ' ' && IsSpace(' ');
    assert forall k :: 0 <= k < |executable| ==> command[k] == executable[k] && !IsSpace(command[k]);
    assert i == |executable| && command[..i] == executable;
    assert Words(command)[0] == executable;
    assert IsAgentWord(executable, executable);
  }

  function WithCommand(agentPath: string, entry: Entry, rest: string): Entry {
    var command := CommandOf(rest);
    if command == [] then entry.(command := command, note := Some(NoCommand))
    else entry.(command := command, isAgent := RunsAgent(command, agentPath))
  }

  function WithRest(format: Format, agentPath: string, entry: Entry, rest: string): Entry {
    if format == User then WithCommand(agentPath, entry, rest)
    else
      var (user, command) := CutField(rest);
      if IsUserName(user) then WithCommand(agentPath, entry.(user := user), command)
      else entry.(note := Some(NotAUser(user)))
  }

  /** cronParser.parse: the timezone for the lines below, and the entry if the line describes one. */
  function ParseLine(format: Format, owner: string, agentPath: string, timezone: string, raw: string)
    : (string, Option<Entry>)
  {
    var text := TrimSpace(raw);
    if text == [] || text[0] == '#' then (timezone, None)
    else
      var a := Assignment(text);
      if a.Some? then (if a.value.0 == "CRON_TZ" || a.value.0 == "TZ" then a.value.1 else timezone, None)
      else
        var entry := Entry(raw, timezone, owner, "", "", None, false);
        match CronSchedule(TrimHyphen(text))
        case Err(error) => (timezone, Some(entry.(note := Some(BadSchedule(error)))))
        case Ok(schedule, rest) => (timezone, Some(WithRest(format, agentPath, entry.(schedule := schedule), rest)))
  }

  /** Every line that holds a schedule is reported, with the schedule it holds. */
  lemma ScheduledLinesAreReported(format: Format, owner: string, agentPath: string, timezone: string, raw: string)
    requires CronSchedule(TrimHyphen(TrimSpace(raw))).Ok?
    ensures
      var (tz, entry) := ParseLine(format, owner, agentPath, timezone, raw);
      && tz == timezone && entry.Some? && entry.value.timezone == timezone
      && entry.value.schedule == CronSchedule(TrimHyphen(TrimSpace(raw))).schedule
  {
    hide TrimSpace, Assignment, CronSchedule, RunsAgent;
    var text := TrimSpace(raw);
    ScheduleIsNoAssignment(text);
    NoComment(text);
  }

  lemma NoComment(text: string)
    requires CronSchedule(TrimHyphen(text)).Ok?
    ensures text != [] && text[0] != '#'
  {
    hide CronSchedule;
    var lead, c, tail := ScheduleOpens(TrimHyphen(text));
  }

  lemma {:induction false} EscapeEnds(command: string)
    requires command != []
    ensures Escape(command) != []
    ensures Escape(command)[|Escape(command)| - 1] == command[|command| - 1]
    ensures Escape(command)[0] == if command[0] == '%' then '\\' else command[0]
    decreases |command|
  {
    if |command| > 1 {
      EscapeEnds(command[1..]);
    }
  }

  /** What a schedule is when it is reported: it opens like a schedule and no blank leads. */
  lemma ReportedOpens(text: string)
    requires CronSchedule(text).Ok?
    ensures
      var schedule := CronSchedule(text).schedule;
      schedule != [] && (OpensField(schedule[0]) || schedule[0] == '@')
  {
    hide FieldValid, ReadFields, Spread;
    if text != [] && text[0] == '@' {
      FieldAtStart(text);
    } else {
      var gaps, fields := ReadsAreSpread(0, [], text);
      assert [] + fields == fields;
      assert Plain(fields[0]) && FieldValid(FIELDS[0 + 0], fields[0]);
      MinuteOpens(fields[0]);
      JoinStarts(fields);
    }
  }

  lemma NoSpaceOpens(c: char)
    requires OpensField(c) || c == '@'
    ensures !IsSpace(c) && c != '#' && c != '-'
  {
  }

  lemma EscapedCommand(command: string)
    requires command != [] && Trimmed(command, IsSpace)
    ensures CommandOf(Escape(command)) == command
    ensures Escape(command) != [] && !IsBlank(Escape(command)[0])
    ensures !IsSpace(Escape(command)[|Escape(command)| - 1])
  {
    hide Unescape, Escape;
    EscapedReadsAsItself(command, []);
    EscapeEnds(command);
    assert Escape(command) + [] == Escape(command);
  }

  lemma LineStays(text: string, rest: string)
    requires CronSchedule(text).Ok? && rest != [] && !IsSpace(rest[|rest| - 1])
    ensures
      var raw := CronSchedule(text).schedule + " " + rest;
      TrimSpace(raw) == raw && TrimHyphen(raw) == raw
  {
    hide CronSchedule, OpensField, TrimSpace, IsSpace;
    var schedule := CronSchedule(text).schedule;
    var raw := schedule + " " + rest;
    ReportedOpens(text);
    assert raw[0] == schedule[0] && raw[|raw| - 1] == rest[|rest| - 1];
    NoSpaceOpens(schedule[0]);
    TrimmedStays(raw);
  }

  /** Schedule, user and command come back from the line a crontab writes them in. */
  lemma EntryRoundTrip(format: Format, owner: string, agentPath: string, timezone: string,
                       text: string, user: string, command: string)
    requires CronSchedule(text).Ok? && IsUserName(user)
    requires command != [] && Trimmed(command, IsSpace)
    ensures
      var schedule := CronSchedule(text).schedule;
      var raw := schedule + " " + (if format == System then user + " " else []) + Escape(command);
      ParseLine(format, owner, agentPath, timezone, raw)
        == (timezone, Some(Entry(raw, timezone, if format == System then user else owner, schedule, command, None,
                                 RunsAgent(command, agentPath))))
  {
    hide CronSchedule, Assignment, TrimSpace, CutField, Escape, CommandOf, IsSpace, OpensField, RunsAgent;
    var schedule := CronSchedule(text).schedule;
    var rest := (if format == System then user + " " else []) + Escape(command);
    var raw := schedule + " " + (if format == System then user + " " else []) + Escape(command);
    assert raw == schedule + " " + rest;
    EscapedCommand(command);
    LineStays(text, rest);
    assert rest[0] == if format == System then user[0] else Escape(command)[0];
    ReportedReadsAsItself(text);
    ScheduledLinesAreReported(format, owner, agentPath, timezone, raw);
    ScheduleIsNoAssignment(raw);
    if format == System {
      CutFieldReads([], user, " ", Escape(command));
      assert [] + user + " " + Escape(command) == rest;
    } else {
      assert rest == Escape(command);
    }
  }
}

module Crontab {
  import opened Options
  import opened Text
  import opened C = CrontabSpec

  /** cronSchedule: cuts and checks one field after the other. */
  method ReadSchedule(text: string) returns (r: Schedule)
    ensures r == CronSchedule(text)
  {
    hide CutField, FieldValid, Join, ToLower;
    if text != [] && text[0] == '@' {
      var (nickname, rest) := CutField(text);
      return if ToLower(nickname) in NICKNAMES then Ok(nickname, rest) else Err(UnknownNickname(nickname));
    }
    var fields, rest := [], text;
    for i := 0 to 5
      invariant ReadFields(i, fields, rest) == CronSchedule(text)
    {
      var (value, after) := CutField(rest);
      rest := after;
      if value == [] {
        return Err(TooFewFields(i));
      }
      if !FieldValid(FIELDS[i], value) {
        return Err(InvalidField(i));
      }
      fields := fields + [value];
    }
    return Ok(Join(fields, " "), rest);
  }

  /** cronCommand: one pass that skips the backslash of an escaped percent sign. */
  method ReadCommand(text: string) returns (command: string)
    ensures command == CommandOf(text)
  {
    assert Unescape([]) == [] && text[0..] == text && text[|text|..] == [];
    hide Unescape, TrimRight;
    var built, i := [], 0;
    while i < |text|
      invariant 0 <= i <= |text|
      invariant built + Unescape(text[i..]) == Unescape(text)
    {
      UnescapeStep(text, i, built);
      if text[i] == '\\' && i + 1 < |text| && text[i + 1] == '%' {
        built := built + "%";
        i := i + 1;
      } else if text[i] == '%' {
        return TrimRight(built, IsBlank);
      } else {
        built := built + [text[i]];
      }
      i := i + 1;
    }
    assert built == Unescape(text);
    return TrimRight(built, IsBlank);
  }

  /** cronParser: the timezone an assignment sets holds for the lines below it. */
  class CronParser {
    const format: Format
    const owner: string
    const agentPath: string
    var timezone: string

    constructor (format: Format, owner: string, agentPath: string)
      ensures this.format == format && this.owner == owner && this.agentPath == agentPath && timezone == ""
    {
      this.format, this.owner, this.agentPath, timezone := format, owner, agentPath, "";
    }

    method Parse(raw: string) returns (entry: Option<Entry>)
      modifies this`timezone
      ensures (timezone, entry) == ParseLine(format, owner, agentPath, old(timezone), raw)
    {
      hide TrimSpace, Assignment, CronSchedule, CutField, CommandOf, RunsAgent;
      var text := TrimSpace(raw);
      if text == [] || text[0] == '#' {
        return None;
      }
      var a := Assignment(text);
      if a.Some? {
        if a.value.0 == "CRON_TZ" || a.value.0 == "TZ" {
          timezone := a.value.1;
        }
        return None;
      }
      var e := Entry(raw, timezone, owner, "", "", None, false);
      var s := ReadSchedule(TrimHyphen(text));
      if s.Err? {
        return Some(e.(note := Some(BadSchedule(s.error))));
      }
      e := e.(schedule := s.schedule);
      var rest := s.rest;
      if format == System {
        var (user, after) := CutField(rest);
        rest := after;
        if !IsUserName(user) {
          return Some(e.(note := Some(NotAUser(user))));
        }
        e := e.(user := user);
      }
      var command := ReadCommand(rest);
      e := e.(command := command);
      if command == [] {
        return Some(e.(note := Some(NoCommand)));
      }
      return Some(e.(isAgent := RunsAgent(command, agentPath)));
    }
  }
}
