/** internal/discovery/crontab.go: which fields a schedule takes, and what the lines mean
    that hold none. */
module CrontabMeaning {
  import opened Options
  import opened Text
  import opened CrontabSpec

  // ----- the five fields

  /** The numbers each field takes. */
  lemma BoundsExactly(n: nat)
    ensures ValueValid(FIELDS[0], Itoa(n)) <==> n <= 59
    ensures ValueValid(FIELDS[1], Itoa(n)) <==> n <= 23
    ensures ValueValid(FIELDS[2], Itoa(n)) <==> 1 <= n <= 31
    ensures ValueValid(FIELDS[3], Itoa(n)) <==> 1 <= n <= 12
    ensures ValueValid(FIELDS[4], Itoa(n)) <==> n <= 7
  {
    hide ValueValid, Itoa;
    NumbersExactly(0, n);
    NumbersExactly(1, n);
    NumbersExactly(2, n);
    NumbersExactly(3, n);
    NumbersExactly(4, n);
  }

  /** A word is no number. */
  lemma WordsAreNoNumbers(word: string)
    requires word != [] && All(word, IsWordChar)
    ensures Atoi(word).None?
  {
    var last := word[|word| - 1];
    assert IsWordChar(last) && !IsDigit(last);
    assert word[0..] == word && IsWordChar(word[0]);
  }

  predicate IsWordChar(c: char) {
    'A' <= c <= 'Z' || 'a' <= c <= 'z'
  }

  predicate IsMonth(word: string) {
    ToLower(word) in {"jan", "feb", "mar", "apr", "may", "jun", "jul", "aug", "sep", "oct", "nov", "dec"}
  }

  predicate IsWeekday(word: string) {
    ToLower(word) in {"sun", "mon", "tue", "wed", "thu", "fri", "sat"}
  }

  /** The words each field takes: months and days of the week, in any case. */
  lemma WordsExactly(word: string)
    requires word != [] && All(word, IsWordChar)
    ensures !ValueValid(FIELDS[0], word) && !ValueValid(FIELDS[1], word) && !ValueValid(FIELDS[2], word)
    ensures ValueValid(FIELDS[3], word) <==> IsMonth(word)
    ensures ValueValid(FIELDS[4], word) <==> IsWeekday(word)
  {
    hide ToLower, Atoi;
    WordsAreNoNumbers(word);
  }

  /** Case does not matter. */
  lemma CaseNeverMatters(word: string, other: string)
    requires |word| == |other|
    requires forall i :: 0 <= i < |word| ==>
      || word[i] == other[i]
      || ('a' <= word[i] <= 'z' && other[i] as int == word[i] as int - 32)
    ensures ToLower(word) == ToLower(other)
  {
    forall i | 0 <= i < |word| ensures LowerChar(word[i]) == LowerChar(other[i]) {
    }
  }

  lemma LowerStays(word: string)
    requires forall i :: 0 <= i < |word| ==> 'a' <= word[i] <= 'z' || word[i] == '@'
    ensures ToLower(word) == word
  {
  }

  /** A star takes any value of a field. */
  lemma StarIsValid(f: Field)
    ensures ItemValid(f, "*")
  {
    FindNone("*", '/');
  }

  /** A single item is valid as a list exactly when it is valid. */
  lemma ItemsExactly(f: Field, item: string)
    requires ',' !in item
    ensures FieldValid(f, item) <==> ItemValid(f, item)
  {
    hide ItemValid;
    SplitNone(item, ',');
    assert item in [item];
  }

  /** A value without a step or a range is valid as an item exactly when it is valid. */
  lemma ValuesExactly(f: Field, value: string)
    requires '/' !in value && '-' !in value && value != "*"
    ensures ItemValid(f, value) <==> ValueValid(f, value)
  {
    hide ValueValid;
    FindNone(value, '/');
    FindNone(value, '-');
    assert value[..|value|] == value;
  }

  /** Exactly the shorthands of cron are accepted, in any case. */
  lemma NicknamesExactly(nickname: string, gap: string, rest: string)
    requires nickname != [] && nickname[0] == '@' && Plain(nickname)
    requires All(gap, IsBlank) && Starts(rest) && (gap == [] ==> rest == [])
    ensures
      CronSchedule(nickname + gap + rest) ==
        if ToLower(nickname) in {"@reboot", "@yearly", "@annually", "@monthly", "@weekly", "@daily", "@midnight", "@hourly"}
        then Ok(nickname, rest)
        else Schedule.Err(UnknownNickname(nickname))
  {
    hide CutField, ToLower;
    var text := nickname + gap + rest;
    assert [] + nickname + gap + rest == text && text[0] == '@';
    CutFieldReads([], nickname, gap, rest);
  }

  /** However the fields are spaced, the first one that is missing or not valid is the one
      an error is about. */
  lemma ErrorsTell(gaps: seq<string>, fields: seq<string>, next: string, gap: string, rest: string)
    requires |gaps| == |fields| + 1 && |fields| < 5 && ValidFrom(0, fields) && All(gaps[0], IsBlank)
    requires fields != [] ==> WellSpaced(gaps, fields, next + gap + rest)
    requires if next == [] then gap + rest == [] else Plain(next) && All(gap, IsBlank) && Starts(rest) && (gap == [] ==> rest == [])
    requires var text := Spread(gaps, fields, next + gap + rest); text == [] || text[0] != '@'
    ensures
      var schedule := CronSchedule(Spread(gaps, fields, next + gap + rest));
      && (next == [] ==> schedule == Schedule.Err(TooFewFields(|fields|)))
      && (next != [] && !FieldValid(FIELDS[|fields|], next) ==> schedule == Schedule.Err(InvalidField(|fields|)))
  {
    hide CutField, FieldValid;
    var (n, tail) := (|fields|, next + gap + rest);
    if fields == [] {
      assert Spread(gaps, fields, tail) == gaps[0] + tail;
      FieldCut(gaps[0], next, gap, rest);
    } else {
      SpreadReads(0, [], gaps, fields, tail);
      assert [] + fields == fields;
      FieldCut([], next, gap, rest);
      assert [] + tail == tail;
    }
  }

  lemma FieldCut(lead: string, field: string, gap: string, rest: string)
    requires All(lead, IsBlank)
    requires if field == [] then gap + rest == [] else Plain(field) && All(gap, IsBlank) && Starts(rest) && (gap == [] ==> rest == [])
    ensures CutField(lead + (field + gap + rest)).0 == field
    ensures field != [] ==> CutField(lead + (field + gap + rest)).1 == rest
  {
    assert lead + (field + gap + rest) == lead + field + gap + rest;
    if field == [] {
      assert lead + (field + gap + rest) == lead + [];
      TrimLeftDrops(lead, [], IsBlank);
    } else {
      CutFieldReads(lead, field, gap, rest);
    }
  }

  // ----- assignments

  ghost predicate NameText(name: string) {
    && name != [] && !IsDigit(name[0])
    && forall i :: 0 <= i < |name| ==>
         name[i] == '_' || 'A' <= name[i] <= 'Z' || 'a' <= name[i] <= 'z' || '0' <= name[i] <= '9'
  }

  /** The value between a pair of equal quotation marks, or as it is. */
  predicate Unquotes(value: string, plain: string) {
    if |value| >= 2 && (value[0] == '"' || value[0] == '\'') && value[|value| - 1] == value[0]
    then value == [value[0]] + plain + [value[0]]
    else value == plain
  }

  /** However it is spaced, NAME = value reads as that name and the value without the
      quotation marks around it. */
  lemma AssignmentReads(a: string, name: string, b: string, c: string, value: string, d: string)
    requires All(a, IsSpace) && All(b, IsSpace) && All(c, IsSpace) && All(d, IsSpace)
    requires NameText(name) && Trimmed(value, IsSpace)
    ensures
      var found := Assignment(a + name + b + "=" + c + value + d);
      found.Some? && found.value.0 == name && Unquotes(value, found.value.1)
  {
    NameIsTrimmed(name);
    NoEqualsIn(a, name, b);
    UnquotesExactly(value);
    hide IsSpace, TrimSpace, NameText, Unquotes, CrontabSpec.Unquote, IsName, Find;
    var rest := c + value + d;
    assert a + name + b + "=" + c + value + d == (a + name + b) + ['='] + rest;
    FindFirst(a + name + b, '=', rest);
    TrimSpaceDrops(a, name, b);
    TrimmedStays(name);
    TrimSpaceDrops(c, value, d);
    TrimmedStays(value);
  }

  lemma NameIsTrimmed(name: string)
    requires NameText(name)
    ensures Trimmed(name, IsSpace) && IsName(name)
  {
    assert name[0] == name[0] && name[|name| - 1] == name[|name| - 1];
  }

  lemma NoEqualsIn(a: string, name: string, b: string)
    requires All(a, IsSpace) && NameText(name) && All(b, IsSpace)
    ensures '=' !in a + name + b
  {
    assert forall i :: 0 <= i < |a| ==> a[i] != '=';
    assert forall i :: 0 <= i < |name| ==> name[i] != '=';
    assert forall i :: 0 <= i < |b| ==> b[i] != '=';
  }

  lemma UnquotesExactly(value: string)
    ensures Unquotes(value, CrontabSpec.Unquote(value))
  {
  }

  /** And nothing else is an assignment. */
  lemma AssignmentExactly(text: string)
    ensures Assignment(text).Some? <==>
      exists name, rest :: text == name + ['='] + rest && '=' !in name && NameText(TrimSpace(name))
  {
    hide TrimSpace;
    if Assignment(text).Some? {
      var i := Find(text, '=');
      assert text == text[..i] + ['='] + text[i + 1..];
      NamesExactly(TrimSpace(text[..i]));
    }
    if name, rest :| text == name + ['='] + rest && '=' !in name && NameText(TrimSpace(name)) {
      FindFirst(name, '=', rest);
      NamesExactly(TrimSpace(name));
    }
  }

  lemma NamesExactly(name: string)
    ensures IsName(name) <==> NameText(name)
  {
    if NameText(name) {
      assert forall c :: c in name ==> c != ' ' && c != '\t';
    }
    if IsName(name) {
      assert IsLetter(name[0]);
    }
  }

  // ----- the lines that describe no entry

  /** A blank line or a comment. */
  lemma CommentsAreSkipped(format: Format, owner: string, agentPath: string, timezone: string, raw: string)
    requires TrimSpace(raw) == [] || TrimSpace(raw)[0] == '#'
    ensures ParseLine(format, owner, agentPath, timezone, raw) == (timezone, None)
  {
    hide TrimSpace, Assignment, CronSchedule, RunsAgent;
  }

  /** An assignment sets the timezone of the lines below it if its name is one of the two
      that do, and nothing otherwise. */
  lemma AssignmentsSetTimezones(format: Format, owner: string, agentPath: string, timezone: string,
                                name: string, c: string, value: string)
    requires NameText(name) && Trimmed(value, IsSpace) && All(c, IsSpace) && value != []
    ensures
      var (tz, entry) := ParseLine(format, owner, agentPath, timezone, name + "=" + c + value);
      && entry.None?
      && (if name == "CRON_TZ" || name == "TZ" then Unquotes(value, tz) else tz == timezone)
  {
    var raw := name + "=" + c + value;
    NothingAround();
    AssignmentReads([], name, [], c, value, []);
    NothingAdds(name, c, value);
    NameOpens(name, c, value);
    hide TrimSpace, IsSpace, Assignment, CronSchedule, RunsAgent, NameText, Unquotes;
    TrimmedStays(raw);
  }

  lemma NothingAdds(name: string, c: string, value: string)
    ensures [] + name + [] + "=" + c + value + [] == name + "=" + c + value
  {
    assert [] + name + [] == name;
  }

  lemma NothingAround()
    ensures All([], IsSpace)
  {
  }

  lemma NameOpens(name: string, c: string, value: string)
    requires NameText(name) && Trimmed(value, IsSpace) && value != []
    ensures
      var raw := name + "=" + c + value;
      raw != [] && raw[0] != '#' && Trimmed(raw, IsSpace)
  {
    var raw := name + "=" + c + value;
    assert raw[0] == name[0] && raw[|raw| - 1] == value[|value| - 1];
    NameIsTrimmed(name);
  }

  // ----- the lines that hold no proper job

  /** A line that is no comment and no assignment is always reported as it stands, and what
      is wrong with it is noted: its schedule, its user, or that it has no command. */
  lemma OtherLinesAreReported(format: Format, owner: string, agentPath: string, timezone: string, raw: string)
    requires
      var text := TrimSpace(raw);
      text != [] && text[0] != '#' && Assignment(text).None?
    ensures
      var schedule := CronSchedule(TrimHyphen(TrimSpace(raw)));
      var (tz, entry) := ParseLine(format, owner, agentPath, timezone, raw);
      && tz == timezone && entry.Some?
      && entry.value.raw == raw && entry.value.timezone == timezone
      && (schedule.Err? ==>
            && entry.value.note == Some(BadSchedule(schedule.error)) && entry.value.user == owner
            && entry.value.schedule == [] && entry.value.command == [] && !entry.value.isAgent)
      && (schedule.Ok? && format == System ==>
            var (user, rest) := CutField(schedule.rest);
            if !IsUserName(user) then
              && entry.value.note == Some(NotAUser(user)) && entry.value.user == owner
              && entry.value.command == [] && !entry.value.isAgent
            else
              && entry.value.user == user && entry.value.command == CommandOf(rest)
              && (entry.value.note == Some(NoCommand) <==> CommandOf(rest) == [])
              && (entry.value.note == None <==> CommandOf(rest) != []))
      && (schedule.Ok? && format == User ==>
            && entry.value.user == owner && entry.value.command == CommandOf(schedule.rest)
            && (entry.value.note == Some(NoCommand) <==> CommandOf(schedule.rest) == [])
            && (entry.value.note == None <==> CommandOf(schedule.rest) != []))
  {
    hide TrimSpace, Assignment, CronSchedule, CutField, CommandOf, RunsAgent, IsUserName;
  }

  /** A hyphen before the schedule changes nothing but the line as it stands. */
  lemma HyphenNeverMatters(format: Format, owner: string, agentPath: string, timezone: string, text: string)
    requires text != [] && text[0] != '-' && Trimmed(text, IsSpace) && CronSchedule(text).Ok?
    ensures
      var (tz, entry) := ParseLine(format, owner, agentPath, timezone, text);
      && entry.Some?
      && ParseLine(format, owner, agentPath, timezone, "-" + text) == (tz, Some(entry.value.(raw := "-" + text)))
  {
    hide Assignment, CronSchedule, RunsAgent, CutField, CommandOf, IsSpace, TrimSpace;
    HyphenStays(text);
    TrimmedStays(text);
    TrimmedStays("-" + text);
    assert ("-" + text)[1..] == text;
    ScheduleIsNoAssignment(text);
    ScheduleIsNoAssignment("-" + text);
    NoComment(text);
  }

  lemma HyphenStays(text: string)
    requires text != [] && Trimmed(text, IsSpace)
    ensures Trimmed("-" + text, IsSpace)
  {
    assert ("-" + text)[|text|] == text[|text| - 1] && !IsSpace('-');
  }

  /** The user names of cron.d files. */
  lemma UserNamesExactly(name: string)
    ensures IsUserName(name) <==>
      && 1 <= |name| <= 32 && name[0] !in {'-', '.'}
      && forall c :: c in name ==>
           c in {'_', '-', '.'} || 'a' <= c <= 'z' || 'A' <= c <= 'Z' || '0' <= c <= '9'
  {
    if IsUserName(name) {
      forall c | c in name
        ensures c in {'_', '-', '.'} || 'a' <= c <= 'z' || 'A' <= c <= 'Z' || '0' <= c <= '9'
      {
        var k :| 0 <= k < |name| && name[k] == c;
      }
    } else if 1 <= |name| <= 32 && name[0] !in {'-', '.'} {
      var k :| 0 <= k < |name| && !(IsLetter(name[k]) || IsDigit(name[k]) || name[k] == '-' || name[k] == '.');
      assert name[k] in name;
    }
  }

  // ----- commands

  /** The blanks behind a command are not part of it, nor is what follows an unescaped
      percent sign. */
  lemma CommandReads(command: string, blanks: string, stdin: string)
    requires (command == [] || !IsBlank(command[|command| - 1])) && All(blanks, IsBlank)
    requires stdin == [] || stdin[0] == '%'
    requires stdin != [] && blanks == [] && command != [] ==> command[|command| - 1] != '\\'
    ensures CommandOf(Escape(command) + blanks + stdin) == command
  {
    BlanksStay(command, blanks);
    var text := command + blanks;
    if stdin != [] && text != [] {
      LastOfBoth(command, blanks);
    }
    EscapedReadsAsItself(text, stdin);
    DropsTrailing(command, blanks, IsBlank);
  }

  lemma LastOfBoth(command: string, blanks: string)
    requires All(blanks, IsBlank) && command + blanks != []
    requires blanks == [] && command != [] ==> command[|command| - 1] != '\\'
    ensures (command + blanks)[|command + blanks| - 1] != '\\'
  {
    if blanks == [] {
      assert command + blanks == command;
    } else {
      assert (command + blanks)[|command + blanks| - 1] == blanks[|blanks| - 1];
      assert IsBlank(blanks[|blanks| - 1]);
    }
  }

  lemma {:induction false} BlanksStay(command: string, blanks: string)
    requires All(blanks, IsBlank)
    ensures Escape(command + blanks) == Escape(command) + blanks
    decreases |command|
  {
    if command == [] {
      assert command + blanks == blanks;
      NothingEscaped(blanks);
    } else {
      assert (command + blanks)[0] == command[0] && (command + blanks)[1..] == command[1..] + blanks;
      BlanksStay(command[1..], blanks);
    }
  }

  lemma {:induction false} NothingEscaped(blanks: string)
    requires All(blanks, IsBlank)
    ensures Escape(blanks) == blanks
    decreases |blanks|
  {
    if blanks != [] {
      assert IsBlank(blanks[0]);
      NothingEscaped(blanks[1..]);
    }
  }

  // ----- which jobs are the agent's own

  ghost predicate IsWord(word: string) {
    word != [] && forall k :: 0 <= k < |word| ==> !IsSpace(word[k])
  }

  /** A word: a stretch without white space between white space or the ends. */
  ghost predicate WordAt(s: string, i: nat, j: nat) {
    i < j <= |s| && IsWord(s[i..j]) && (i == 0 || IsSpace(s[i - 1])) && (j == |s| || IsSpace(s[j]))
  }

  ghost predicate HasWord(s: string, word: string) {
    exists i, j :: 0 <= i < j <= |s| && WordAt(s, i, j) && s[i..j] == word
  }

  lemma {:induction false} WordsAre(s: string, word: string)
    ensures word in Words(s) <==> HasWord(s, word)
    decreases |s|
  {
    hide IsSpace;
    if s == [] {
    } else if IsSpace(s[0]) {
      WordsAre(s[1..], word);
      SkipsSpace(s, word);
    } else {
      var i := FindSpace(s);
      WordsAre(s[i..], word);
      SkipsWord(s, i, word);
      assert Words(s) == [s[..i]] + Words(s[i..]);
    }
  }

  lemma WordOf(s: string, word: string) returns (i: nat, j: nat)
    requires HasWord(s, word)
    ensures i < j <= |s| && WordAt(s, i, j) && s[i..j] == word
  {
    hide WordAt;
    i, j :| 0 <= i < j <= |s| && WordAt(s, i, j) && s[i..j] == word;
  }

  lemma IsWordOf(s: string, i: nat, j: nat)
    requires i < j <= |s| && WordAt(s, i, j)
    ensures HasWord(s, s[i..j])
  {
  }

  /** A word is one wherever the text before it is cut off. */
  lemma StaysWord(lead: string, s: string, i: nat, j: nat)
    requires i < j <= |s| && (i == 0 && lead != [] ==> IsSpace(lead[|lead| - 1]))
    ensures WordAt(lead + s, |lead| + i, |lead| + j) <==> WordAt(s, i, j)
    ensures (lead + s)[|lead| + i..|lead| + j] == s[i..j]
  {
    hide IsSpace, IsWord;
    var (t, n) := (lead + s, |lead|);
    assert t[n + i..n + j] == s[i..j];
    assert i > 0 ==> t[n + i - 1] == s[i - 1];
    assert j < |s| ==> t[n + j] == s[j];
  }

  lemma SkipsSpace(s: string, word: string)
    requires s != [] && IsSpace(s[0])
    ensures HasWord(s, word) <==> HasWord(s[1..], word)
  {
    hide IsSpace, HasWord, WordAt;
    var (lead, rest) := (s[..1], s[1..]);
    assert s == lead + rest && lead[0] == s[0];
    if HasWord(s, word) {
      var i, j := WordOf(s, word);
      NoSpaceOpens(s, i, j);
      StaysWord(lead, rest, i - 1, j - 1);
      IsWordOf(rest, i - 1, j - 1);
    }
    if HasWord(rest, word) {
      WordStays(lead, rest, word);
    }
  }

  lemma NoSpaceOpens(s: string, i: nat, j: nat)
    requires i < j <= |s| && WordAt(s, i, j)
    ensures !IsSpace(s[i])
  {
    hide IsSpace;
    assert s[i..j][0] == s[i];
  }

  lemma WordStays(lead: string, rest: string, word: string)
    requires HasWord(rest, word) && lead != []
    requires IsSpace(lead[|lead| - 1]) || IsSpace(rest[0])
    ensures HasWord(lead + rest, word)
  {
    hide IsSpace, HasWord, WordAt;
    var i, j := WordOf(rest, word);
    NoSpaceOpens(rest, i, j);
    StaysWord(lead, rest, i, j);
    IsWordOf(lead + rest, |lead| + i, |lead| + j);
  }

  lemma SkipsWord(s: string, n: nat, word: string)
    requires 0 < n <= |s| && (forall k :: 0 <= k < n ==> !IsSpace(s[k])) && (n < |s| ==> IsSpace(s[n]))
    ensures HasWord(s, word) <==> word == s[..n] || HasWord(s[n..], word)
  {
    hide IsSpace, HasWord;
    var (lead, rest) := (s[..n], s[n..]);
    assert s == lead + rest && IsWord(lead) && (rest != [] ==> rest[0] == s[n]);
    OpensWithWord(lead, rest);
    hide IsWord;
    if HasWord(s, word) {
      WordBehind(lead, rest, word);
    }
    if HasWord(rest, word) {
      NoWords(rest, word);
      WordStays(lead, rest, word);
    }
  }

  lemma NoWords(s: string, word: string)
    requires HasWord(s, word)
    ensures s != []
  {
  }

  lemma OpensWithWord(lead: string, rest: string)
    requires IsWord(lead) && (rest != [] ==> IsSpace(rest[0]))
    ensures HasWord(lead + rest, lead)
  {
    hide IsSpace;
    var s := lead + rest;
    assert forall k :: 0 <= k < |lead| ==> s[k] == lead[k];
    assert rest != [] ==> s[|lead|] == rest[0];
    hide IsWord;
    assert s[0..|lead|] == lead;
    IsWordOf(s, 0, |lead|);
  }

  lemma WordBehind(lead: string, rest: string, word: string)
    requires IsWord(lead) && (rest != [] ==> IsSpace(rest[0])) && HasWord(lead + rest, word)
    ensures word == lead || HasWord(rest, word)
  {
    hide IsSpace, HasWord, WordAt, IsWord;
    var i, j := WordOf(lead + rest, word);
    FirstOrBehind(lead, rest, i, j);
    if i > |lead| {
      StaysWord(lead, rest, i - |lead|, j - |lead|);
      IsWordOf(rest, i - |lead|, j - |lead|);
    }
  }

  lemma FirstOrBehind(lead: string, rest: string, i: nat, j: nat)
    requires IsWord(lead) && (rest != [] ==> IsSpace(rest[0]))
    requires i < j <= |lead + rest| && WordAt(lead + rest, i, j)
    ensures i > |lead| || (lead + rest)[i..j] == lead
  {
    hide IsSpace;
    var (s, n) := (lead + rest, |lead|);
    assert rest != [] ==> s[n] == rest[0];
    assert forall k :: 0 <= k < n ==> s[k] == lead[k];
    assert forall k :: i <= k < j ==> s[i..j][k - i] == s[k];
    assert i == 0 ==> s[0..n] == lead;
  }

  /** Exactly the commands are marked in which some word, without the quotation marks
      around it, is the agent's own path or names its program. */
  lemma MarkedExactly(command: string, executable: string)
    ensures RunsAgent(command, executable) <==>
      exists word ::
        && HasWord(command, word)
        && (var token := TrimRight(TrimLeft(word, IsQuote), IsQuote);
            token != [] && ((executable != [] && token == executable) || Base(token) == "omj-agent"))
  {
    hide Words, HasWord, TrimLeft, TrimRight, Base;
    forall word ensures word in Words(command) <==> HasWord(command, word) {
      WordsAre(command, word);
    }
  }

  /** The base of a path is its last part, whatever directory it is in and however many
      slashes end it. */
  lemma BaseReads(dir: string, name: string, slashes: string)
    requires name != [] && '/' !in name && (dir == [] || dir[|dir| - 1] == '/')
    requires forall i :: 0 <= i < |slashes| ==> slashes[i] == '/'
    ensures Base(dir + name + slashes) == name
  {
    var p: char -> bool := c => c == '/';
    var path := dir + name;
    assert path[|path| - 1] == name[|name| - 1] && name[|name| - 1] in name;
    DropsTrailing(path, slashes, p);
    LastSlashOf(dir, name);
    assert path[|dir|..] == name;
  }

  lemma {:induction false} DropsTrailing(path: string, slashes: string, p: char -> bool)
    requires (path == [] || !p(path[|path| - 1])) && All(slashes, p)
    ensures TrimRight(path + slashes, p) == path
    decreases |slashes|
  {
    if slashes == [] {
      assert path + slashes == path;
    } else {
      var fewer := slashes[..|slashes| - 1];
      assert (path + slashes)[..|path + slashes| - 1] == path + fewer;
      assert p((path + slashes)[|path + slashes| - 1]);
      DropsTrailing(path, fewer, p);
    }
  }

  lemma {:induction false} LastSlashOf(dir: string, name: string)
    requires '/' !in name && (dir == [] || dir[|dir| - 1] == '/')
    ensures LastSlash(dir + name) == |dir| - 1
    decreases |name|
  {
    if name == [] {
      assert dir + name == dir;
    } else {
      var fewer := name[..|name| - 1];
      assert (dir + name)[..|dir + name| - 1] == dir + fewer;
      assert name[|name| - 1] in name;
      LastSlashOf(dir, fewer);
    }
  }
}
