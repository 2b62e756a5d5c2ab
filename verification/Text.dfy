/** The string functions of Go's standard library that the configuration and
    crontab parsers use, on strings of Unicode code points. */
module Text {
  import opened Options

  /** unicode.IsSpace */
  predicate IsSpace(c: char) {
    || c in {'\t', '\n', '\U{0b}', '\U{0c}', '\r', ' ', '\U{85}', '\U{a0}', '\U{1680}'}
    || '\U{2000}' <= c <= '\U{200a}'
    || c in {'\U{2028}', '\U{2029}', '\U{202f}', '\U{205f}', '\U{3000}'}
  }

  /** The white space of ASCII and of Latin-1. */
  lemma SpacesBelow256(c: char)
    requires c as int < 256
    ensures IsSpace(c) <==> 9 <= c as int <= 13 || c as int == 32 || c as int == 0x85 || c as int == 0xa0
  {
  }

  predicate IsBlank(c: char) {
    c == ' ' || c == '\t'
  }

  function TrimLeft(s: string, p: char -> bool): string {
    if s != [] && p(s[0]) then TrimLeft(s[1..], p) else s
  }

  function TrimRight(s: string, p: char -> bool): string {
    if s != [] && p(s[|s| - 1]) then TrimRight(s[..|s| - 1], p) else s
  }

  function TrimSpace(s: string): string {
    TrimRight(TrimLeft(s, IsSpace), IsSpace)
  }

  /** The index of the first c, or the length. */
  function Find(s: string, c: char): (i: nat)
    ensures i <= |s| && c !in s[..i] && (i < |s| ==> s[i] == c)
  {
    if s == [] || s[0] == c then 0 else 1 + Find(s[1..], c)
  }

  /** strings.Cut at a character. */
  function Cut(s: string, c: char): (string, string, bool) {
    var i := Find(s, c);
    if i < |s| then (s[..i], s[i + 1..], true) else (s, [], false)
  }

  function Split(s: string, c: char): (parts: seq<string>)
    ensures |parts| >= 1
    decreases |s|
  {
    var i := Find(s, c);
    if i < |s| then [s[..i]] + Split(s[i + 1..], c) else [s]
  }

  function Join(parts: seq<string>, sep: string): string {
    if parts == [] then []
    else if |parts| == 1 then parts[0]
    else parts[0] + sep + Join(parts[1..], sep)
  }

  // ----- trimming

  ghost predicate Trimmed(s: string, p: char -> bool) {
    s == [] || (!p(s[0]) && !p(s[|s| - 1]))
  }

  ghost predicate All(s: string, p: char -> bool) {
    forall i :: 0 <= i < |s| ==> p(s[i])
  }

  lemma {:induction false} TrimLeftSplits(s: string, p: char -> bool)
    ensures
      var t := TrimLeft(s, p);
      && |t| <= |s| && s[|s| - |t|..] == t && All(s[..|s| - |t|], p)
      && (t == [] || !p(t[0]))
    decreases |s|
  {
    var t := TrimLeft(s, p);
    if s != [] && p(s[0]) {
      var rest := s[1..];
      TrimLeftSplits(rest, p);
      hide TrimLeft;
      var n := |rest| - |t|;
      assert s == [s[0]] + rest && t == rest[n..];
      assert s[n + 1..] == rest[n..];
      var head := s[..n + 1];
      forall i | 0 <= i < |head| ensures p(head[i]) {
        if i > 0 {
          assert head[i] == rest[..n][i - 1];
        }
      }
    } else {
      assert s[0..] == s && s[..0] == [];
    }
  }

  lemma {:induction false} TrimRightSplits(s: string, p: char -> bool)
    ensures
      var t := TrimRight(s, p);
      && |t| <= |s| && s[..|t|] == t && All(s[|t|..], p)
      && (t == [] || !p(t[|t| - 1]))
    decreases |s|
  {
    var t := TrimRight(s, p);
    if s != [] && p(s[|s| - 1]) {
      var rest := s[..|s| - 1];
      TrimRightSplits(rest, p);
      hide TrimRight;
      assert s[..|t|] == rest[..|t|];
      var tail := s[|t|..];
      forall i | 0 <= i < |tail| ensures p(tail[i]) {
        if i < |rest| - |t| {
          assert tail[i] == rest[|t|..][i];
        }
      }
    } else {
      assert s[..|s|] == s && s[|s|..] == [];
    }
  }

  lemma {:induction false} TrimLeftDrops(a: string, s: string, p: char -> bool)
    requires All(a, p)
    ensures TrimLeft(a + s, p) == TrimLeft(s, p)
    decreases |a|
  {
    if a == [] {
      assert a + s == s;
    } else {
      assert (a + s)[0] == a[0] && (a + s)[1..] == a[1..] + s;
      TrimLeftDrops(a[1..], s, p);
    }
  }

  lemma {:induction false} TrimRightDrops(s: string, a: string, p: char -> bool)
    requires All(a, p)
    ensures TrimRight(s + a, p) == TrimRight(s, p)
    decreases |a|
  {
    if a == [] {
      assert s + a == s;
    } else {
      assert (s + a)[|s + a| - 1] == a[|a| - 1] && (s + a)[..|s + a| - 1] == s + a[..|a| - 1];
      TrimRightDrops(s, a[..|a| - 1], p);
    }
  }

  lemma TrimmedStays(s: string)
    requires Trimmed(s, IsSpace)
    ensures TrimSpace(s) == s
  {
  }

  /** Surrounding white space never matters. */
  lemma TrimSpaceDrops(a: string, s: string, b: string)
    requires All(a, IsSpace) && All(b, IsSpace)
    ensures TrimSpace(a + s + b) == TrimSpace(s)
  {
    assert a + s + b == a + (s + b);
    TrimLeftDrops(a, s + b, IsSpace);
    TrimLeftSplits(s, IsSpace);
    var t := TrimLeft(s, IsSpace);
    var lead := s[..|s| - |t|];
    assert s == lead + t;
    assert s + b == lead + (t + b);
    TrimLeftDrops(lead, t + b, IsSpace);
    if t == [] {
      assert t + b == b + [];
      TrimLeftDrops(b, [], IsSpace);
      assert TrimSpace(a + s + b) == [];
    } else {
      assert TrimLeft(t + b, IsSpace) == t + b;
      TrimRightDrops(t, b, IsSpace);
    }
  }

  /** A string is its trimmed middle between white space. */
  lemma TrimSpaceSplits(s: string) returns (a: string, b: string)
    ensures s == a + TrimSpace(s) + b && All(a, IsSpace) && All(b, IsSpace)
    ensures Trimmed(TrimSpace(s), IsSpace)
  {
    hide *;
    var t := TrimLeft(s, IsSpace);
    var m := TrimRight(t, IsSpace);
    TrimLeftSplits(s, IsSpace);
    TrimRightSplits(t, IsSpace);
    TrimSpaceIs(s);
    a, b := s[..|s| - |t|], t[|m|..];
    ThreeParts(s, t, m);
    MiddleIsTrimmed(t, m, IsSpace);
  }

  lemma TrimSpaceIs(s: string)
    ensures TrimSpace(s) == TrimRight(TrimLeft(s, IsSpace), IsSpace)
  {
  }

  lemma ThreeParts(s: string, t: string, m: string)
    requires |m| <= |t| <= |s| && s[|s| - |t|..] == t && t[..|m|] == m
    ensures s == s[..|s| - |t|] + m + t[|m|..]
  {
    assert t == m + t[|m|..];
    assert s == s[..|s| - |t|] + t;
  }

  lemma MiddleIsTrimmed(t: string, m: string, p: char -> bool)
    requires |m| <= |t| && t[..|m|] == m && (t == [] || !p(t[0])) && (m == [] || !p(m[|m| - 1]))
    ensures Trimmed(m, p)
  {
    if m != [] {
      assert m[0] == t[..|m|][0] == t[0];
    }
  }

  // ----- cutting and splitting

  lemma {:induction false} FindSkips(a: string, s: string, c: char)
    requires c !in a
    ensures Find(a + s, c) == |a| + Find(s, c)
    decreases |a|
  {
    if a == [] {
      assert a + s == s;
    } else {
      assert a[0] in a && (a + s)[0] == a[0] && (a + s)[1..] == a[1..] + s;
      FindSkips(a[1..], s, c);
    }
  }

  lemma FindFirst(a: string, c: char, s: string)
    requires c !in a
    ensures Find(a + [c] + s, c) == |a|
    ensures Cut(a + [c] + s, c) == (a, s, true)
  {
    assert a + [c] + s == a + ([c] + s);
    FindSkips(a, [c] + s, c);
    assert Find([c] + s, c) == 0;
    hide Find;
    SliceAround(a, c, s);
  }

  lemma SliceAround(a: string, c: char, s: string)
    ensures var u := a + [c] + s; |a| < |u| && u[..|a|] == a && u[|a| + 1..] == s
  {
  }

  lemma FindNone(a: string, c: char)
    requires c !in a
    ensures Find(a, c) == |a|
  {
    FindSkips(a, [], c);
    assert a + [] == a;
  }

  lemma SplitFirst(a: string, c: char, s: string)
    requires c !in a
    ensures Split(a + [c] + s, c) == [a] + Split(s, c)
  {
    FindFirst(a, c, s);
    var t := a + [c] + s;
    assert t[..|a|] == a && t[|a| + 1..] == s;
  }

  lemma SplitNone(a: string, c: char)
    requires c !in a
    ensures Split(a, c) == [a]
  {
    FindNone(a, c);
  }

  lemma {:induction false} SplitBoth(a: string, b: string, c: char)
    ensures Split(a + [c] + b, c) == Split(a, c) + Split(b, c)
    decreases |a|
  {
    hide Split, Find;
    var i := Find(a, c);
    SplitFirst(a[..i], c, b);
    if i == |a| {
      assert a[..i] == a;
      SplitNone(a, c);
    } else {
      var head, tail := a[..i], a[i + 1..];
      assert a == head + [c] + tail;
      SplitFirst(head, c, tail);
      SplitBoth(tail, b, c);
      SplitFirst(head, c, tail + [c] + b);
      assert a + [c] + b == head + [c] + (tail + [c] + b);
      assert [head] + (Split(tail, c) + Split(b, c)) == [head] + Split(tail, c) + Split(b, c);
    }
  }

  lemma {:induction false} SplitPartsLack(s: string, c: char)
    ensures forall part :: part in Split(s, c) ==> c !in part && (forall d :: d in part ==> d in s)
    decreases |s|
  {
    var i := Find(s, c);
    if i < |s| {
      SplitPartsLack(s[i + 1..], c);
      assert Split(s, c)[0] == s[..i];
      forall part | part in Split(s, c) ensures c !in part && (forall d :: d in part ==> d in s) {
        if part != s[..i] {
          assert part in Split(s[i + 1..], c);
        }
      }
    } else {
      assert s[..i] == s;
    }
  }

  // ----- numbers

  const MAX_INT64 := 9223372036854775807

  predicate IsDigit(c: char) {
    '0' <= c <= '9'
  }

  function DigitOf(n: nat): char
    requires n < 10
  {
    '0' + n as char
  }

  /** strconv.Itoa and %d of a number that is not negative. */
  function Itoa(n: nat): string {
    if n < 10 then [DigitOf(n)] else Itoa(n / 10) + [DigitOf(n % 10)]
  }

  function Digits(s: string): Option<nat> {
    if s == [] then Some(0)
    else
      var rest := Digits(s[..|s| - 1]);
      var c := s[|s| - 1];
      if rest.None? || !IsDigit(c) then None else Some(10 * rest.value + (c as int - '0' as int))
  }

  /** strconv.Atoi on a 64-bit machine, and strconv.ParseInt(s, 10, 64). */
  function Atoi(s: string): Option<int> {
    var sign := if s != [] && s[0] in {'+', '-'} then 1 else 0;
    var digits := Digits(s[sign..]);
    if |s| == sign || digits.None? then None
    else
      var size: int := digits.value;
      var n := if s[0] == '-' then -size else size;
      if -MAX_INT64 - 1 <= n <= MAX_INT64 then Some(n) else None
  }

  lemma {:induction false} ItoaDigits(n: nat)
    ensures Digits(Itoa(n)) == Some(n)
    ensures Itoa(n) != [] && All(Itoa(n), IsDigit)
    decreases n
  {
    if n < 10 {
      assert Itoa(n)[..0] == [];
    } else {
      ItoaDigits(n / 10);
      var s := Itoa(n);
      assert s[..|s| - 1] == Itoa(n / 10);
    }
  }

  lemma AtoiItoa(n: nat)
    requires n <= MAX_INT64
    ensures Atoi(Itoa(n)) == Some(n)
  {
    ItoaDigits(n);
    var s := Itoa(n);
    assert IsDigit(s[0]);
    assert s[0..] == s;
  }

  function Zeros(n: nat): string {
    if n == 0 then [] else "0" + Zeros(n - 1)
  }

  lemma {:induction false} LeadingZeros(zeros: nat, s: string)
    ensures Digits(Zeros(zeros) + s) == Digits(s)
    decreases |s|
  {
    if s == [] {
      assert Zeros(zeros) + [] == Zeros(zeros);
      OnlyZeros(zeros);
    } else {
      var (all, fewer) := (Zeros(zeros) + s, s[..|s| - 1]);
      LeadingZeros(zeros, fewer);
      assert all[..|all| - 1] == Zeros(zeros) + fewer && all[|all| - 1] == s[|s| - 1];
      hide Zeros, IsDigit;
    }
  }

  lemma {:induction false} OnlyZeros(zeros: nat)
    ensures Digits(Zeros(zeros)) == Some(0)
    decreases zeros
  {
    if zeros > 0 {
      var s := Zeros(zeros);
      OnlyZeros(zeros - 1);
      ZerosEnd(zeros);
      assert s[..|s| - 1] == Zeros(zeros - 1) && s[|s| - 1] == '0';
    }
  }

  lemma {:induction false} ZerosEnd(n: nat)
    requires n > 0
    ensures Zeros(n) == Zeros(n - 1) + "0" && |Zeros(n)| == n
    decreases n
  {
    if n > 1 {
      ZerosEnd(n - 1);
    } else {
      assert Zeros(0) == [] && Zeros(1) == "0" + [];
    }
  }

  lemma DigitsRead(zeros: nat, n: nat)
    ensures var s := Zeros(zeros) + Itoa(n); s != [] && All(s, IsDigit) && Digits(s) == Some(n)
  {
    ItoaDigits(n);
    LeadingZeros(zeros, Itoa(n));
    AllZeros(zeros);
  }

  lemma {:induction false} AllZeros(n: nat)
    ensures All(Zeros(n), IsDigit)
    decreases n
  {
    if n > 0 {
      AllZeros(n - 1);
    }
  }

  /** Digits that come to n, with any leading zeros, read as it with a sign or without, if
      it fits in 64 bits. */
  lemma AtoiReads(s: string, n: nat)
    requires s != [] && All(s, IsDigit) && Digits(s) == Some(n)
    ensures n <= 9223372036854775807 ==> Atoi(s) == Some(n) && Atoi("+" + s) == Some(n)
    ensures n > 9223372036854775807 ==> Atoi(s).None? && Atoi("+" + s).None?
    ensures n <= 9223372036854775808 ==> Atoi("-" + s).Some? && Atoi("-" + s).value + n == 0
    ensures n > 9223372036854775808 ==> Atoi("-" + s).None?
  {
    hide Digits;
    assert IsDigit(s[0]);
    assert s[0..] == s && ("+" + s)[1..] == s && ("-" + s)[1..] == s;
  }

  /** And nothing else is a number: every number is digits behind at most one sign. */
  lemma NumbersAreDigits(s: string)
    requires Atoi(s).Some?
    ensures
      var digits := if s != [] && (s[0] == '+' || s[0] == '-') then s[1..] else s;
      digits != [] && forall i :: 0 <= i < |digits| ==> '0' <= digits[i] <= '9'
  {
    var digits := if s != [] && (s[0] == '+' || s[0] == '-') then s[1..] else s;
    assert s[0..] == s;
    OnlyDigits(digits);
  }

  lemma {:induction false} OnlyDigits(s: string)
    requires Digits(s).Some?
    ensures forall i :: 0 <= i < |s| ==> IsDigit(s[i])
    decreases |s|
  {
    if s != [] {
      OnlyDigits(s[..|s| - 1]);
    }
  }
}
