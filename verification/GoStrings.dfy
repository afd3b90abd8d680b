/** The few operations of Go's `strings` and `strconv` packages the collectors use. */
module GoStrings {
  import opened Wrappers

  predicate HasPrefix(s: string, p: string) {
    p <= s
  }

  predicate HasSuffix(s: string, p: string) {
    |p| <= |s| && s[|s| - |p|..] == p
  }

  predicate OccursAt(s: string, sub: string, i: nat) {
    i <= |s| && sub <= s[i..]
  }

  predicate Contains(s: string, sub: string) {
    exists i :: 0 <= i <= |s| && OccursAt(s, sub, i)
  }

  lemma OccursWithItsChars(s: string, sub: string, c: char)
    requires Contains(s, sub) && c in sub
    ensures c in s
  {
    var i :| 0 <= i <= |s| && OccursAt(s, sub, i);
    var k :| 0 <= k < |sub| && sub[k] == c;
    assert s[i..][k] == c;
  }

  /** What begins with a character that is not in front cannot begin in front. */
  lemma OccursBehind(front: string, s: string, sub: string)
    requires sub != "" && sub[0] !in front
    ensures Contains(front + s, sub) <==> Contains(s, sub)
  {
    var t := front + s;
    if Contains(t, sub) {
      var i :| 0 <= i <= |t| && OccursAt(t, sub, i);
      assert t[i..][0] == sub[0] == t[i];
      assert i >= |front| && t[i..] == s[i - |front|..];
      assert OccursAt(s, sub, i - |front|);
    }
    if Contains(s, sub) {
      var i :| 0 <= i <= |s| && OccursAt(s, sub, i);
      assert t[|front| + i..] == s[i..];
      assert OccursAt(t, sub, |front| + i);
    }
  }

  /** unicode.IsSpace */
  predicate IsSpace(c: char) {
    || '\t' <= c <= '\r' || c == ' ' || c == '\U{85}' || c == '\U{A0}'
    || c == '\U{1680}' || '\U{2000}' <= c <= '\U{200A}' || c == '\U{2028}' || c == '\U{2029}'
    || c == '\U{202F}' || c == '\U{205F}' || c == '\U{3000}'
  }

  function TrimLeft(s: string): string {
    if s != "" && IsSpace(s[0]) then TrimLeft(s[1..]) else s
  }

  function TrimRight(s: string): string {
    if s != "" && IsSpace(s[|s| - 1]) then TrimRight(s[..|s| - 1]) else s
  }

  function TrimSpace(s: string): string {
    TrimRight(TrimLeft(s))
  }

  predicate AllSpace(s: string) {
    forall i :: 0 <= i < |s| ==> IsSpace(s[i])
  }

  /** `core` begins and ends with no white space, and `s` has nothing else around it. */
  ghost predicate IsTrimmed(s: string, core: string) {
    && (core != "" ==> !IsSpace(core[0]) && !IsSpace(core[|core| - 1]))
    && exists a, b :: AllSpace(a) && AllSpace(b) && s == a + core + b
  }

  lemma SpaceAround(a: string, b: string)
    requires AllSpace(a) && AllSpace(b)
    ensures AllSpace(a + b)
  {
    forall i | 0 <= i < |a + b| ensures IsSpace((a + b)[i]) {
      assert (a + b)[i] == if i < |a| then a[i] else b[i - |a|];
    }
  }

  lemma {:induction false} TrimLeftDrops(s: string) returns (a: string)
    ensures AllSpace(a) && s == a + TrimLeft(s) && (TrimLeft(s) != "" ==> !IsSpace(TrimLeft(s)[0]))
  {
    if s != "" && IsSpace(s[0]) {
      a := TrimLeftDrops(s[1..]);
      assert s == [s[0]] + s[1..];
      SpaceAround([s[0]], a);
      a := [s[0]] + a;
    } else {
      a := "";
    }
  }

  lemma {:induction false} TrimRightDrops(s: string) returns (b: string)
    ensures AllSpace(b) && s == TrimRight(s) + b
    ensures TrimRight(s) != "" ==> !IsSpace(TrimRight(s)[|TrimRight(s)| - 1]) && TrimRight(s)[0] == s[0]
  {
    if s != "" && IsSpace(s[|s| - 1]) {
      b := TrimRightDrops(s[..|s| - 1]);
      assert s == s[..|s| - 1] + [s[|s| - 1]];
      SpaceAround(b, [s[|s| - 1]]);
      b := b + [s[|s| - 1]];
    } else {
      b := "";
    }
  }

  lemma {:induction false} TrimLeftOf(a: string, s: string)
    requires AllSpace(a) && (s != "" ==> !IsSpace(s[0]))
    ensures TrimLeft(a + s) == s
  {
    if a == "" {
      assert a + s == s;
    } else {
      assert (a + s)[1..] == a[1..] + s;
      TrimLeftOf(a[1..], s);
    }
  }

  lemma {:induction false} TrimRightOf(s: string, b: string)
    requires AllSpace(b) && (s != "" ==> !IsSpace(s[|s| - 1]))
    ensures TrimRight(s + b) == s
    decreases |b|
  {
    if b == "" {
      assert s + b == s;
    } else {
      assert (s + b)[..|s + b| - 1] == s + b[..|b| - 1];
      TrimRightOf(s, b[..|b| - 1]);
    }
  }

  lemma TrimSpaceTrims(s: string)
    ensures IsTrimmed(s, TrimSpace(s))
  {
    var a := TrimLeftDrops(s);
    var b := TrimRightDrops(TrimLeft(s));
    assert s == a + TrimSpace(s) + b;
  }

  lemma TrimmedIsTrimSpace(s: string, core: string)
    requires IsTrimmed(s, core)
    ensures TrimSpace(s) == core
  {
    var a, b :| AllSpace(a) && AllSpace(b) && s == a + core + b;
    if core == "" {
      assert s == (a + b) + "";
      SpaceAround(a, b);
      TrimLeftOf(a + b, "");
    } else {
      assert s == a + (core + b);
      TrimLeftOf(a, core + b);
      TrimRightOf(core, b);
    }
  }

  /** Trimming finds the core of a string, and there is only one. */
  lemma TrimSpaceExactly(s: string, core: string)
    ensures TrimSpace(s) == core <==> IsTrimmed(s, core)
  {
    TrimSpaceTrims(s);
    if IsTrimmed(s, core) {
      TrimmedIsTrimSpace(s, core);
    }
  }

  /** A text read from an indented line. */
  lemma IndentIsTrimmed(core: string)
    requires core != "" && !IsSpace(core[0]) && !IsSpace(core[|core| - 1])
    ensures TrimSpace("\t" + core) == core && TrimSpace(" " + core) == core
  {
    AroundIsTrimmed("\t", core, "");
    AroundIsTrimmed(" ", core, "");
  }

  /** A text read with its line break. */
  lemma LineBreakIsTrimmed(core: string)
    requires core != "" && !IsSpace(core[0]) && !IsSpace(core[|core| - 1])
    ensures TrimSpace(core + "\n") == core && TrimSpace(core + "\r\n") == core
  {
    AroundIsTrimmed("", core, "\n");
    AroundIsTrimmed("", core, "\r\n");
  }

  lemma AroundIsTrimmed(a: string, core: string, b: string)
    requires AllSpace(a) && AllSpace(b) && core != "" && !IsSpace(core[0]) && !IsSpace(core[|core| - 1])
    ensures TrimSpace(a + core + b) == core
    ensures a == "" ==> TrimSpace(core + b) == core
    ensures b == "" ==> TrimSpace(a + core) == core
  {
    assert a + core + "" == a + core && "" + core + b == core + b;
    TrimSpaceExactly(a + core + b, core);
  }

  function Lower(c: char): char {
    if 'A' <= c <= 'Z' then c - 'A' + 'a' else c
  }

  function ToLower(s: string): string {
    seq(|s|, i requires 0 <= i < |s| => Lower(s[i]))
  }

  function Upper(c: char): char {
    if 'a' <= c <= 'z' then c - 'a' + 'A' else c
  }

  function ToUpper(s: string): string {
    seq(|s|, i requires 0 <= i < |s| => Upper(s[i]))
  }

  /** Strings that differ only in case have the same lower-case form, and one without capitals is its own. */
  lemma LowerOfUpper(s: string)
    ensures ToLower(ToUpper(s)) == ToLower(s)
    ensures (forall i :: 0 <= i < |s| ==> !('A' <= s[i] <= 'Z')) ==> ToLower(s) == s
  {
    forall c: char ensures Lower(Upper(c)) == Lower(c) {
    }
  }

  predicate IsDigit(c: char) {
    '0' <= c <= '9'
  }

  predicate AllDigits(s: string) {
    forall i :: 0 <= i < |s| ==> IsDigit(s[i])
  }

  function DigitsValue(s: string): nat
    requires AllDigits(s)
  {
    if s == "" then 0 else 10 * DigitsValue(s[..|s| - 1]) + (s[|s| - 1] as nat - '0' as nat)
  }

  lemma DigitValue(d: char)
    requires IsDigit(d)
    ensures DigitsValue([d]) == d as nat - '0' as nat
  {
    assert [d][..0] == "";
  }

  lemma DigitsSnoc(s: string, d: char)
    requires AllDigits(s) && IsDigit(d)
    ensures DigitsValue(s + [d]) == 10 * DigitsValue(s) + (d as nat - '0' as nat)
  {
    assert (s + [d])[..|s + [d]| - 1] == s;
  }

  function Digit(n: nat): char
    requires n < 10
  {
    n as char + '0'
  }

  /** How a number is written. */
  function Decimal(n: nat): string {
    if n < 10 then [Digit(n)] else Decimal(n / 10) + [Digit(n % 10)]
  }

  /** What is written for a number is read as that number. */
  lemma {:induction false} DecimalReads(n: nat)
    ensures Decimal(n) != "" && AllDigits(Decimal(n)) && DigitsValue(Decimal(n)) == n
  {
    if n < 10 {
      DigitValue(Digit(n));
    } else {
      DecimalReads(n / 10);
      DigitsSnoc(Decimal(n / 10), Digit(n % 10));
    }
  }

  function Zeros(k: nat): string {
    seq(k, _ => '0')
  }

  /** A string of digits is the number it is read as, but for leading zeros. */
  lemma {:induction false} DigitsAreDecimal(s: string) returns (k: nat)
    requires s != "" && AllDigits(s)
    ensures s == Zeros(k) + Decimal(DigitsValue(s))
    decreases |s|
  {
    var before, d := s[..|s| - 1], s[|s| - 1];
    DigitValue(d);
    assert s == before + [d];
    if before == "" {
      k := 0;
    } else {
      DigitsSnoc(before, d);
      k := DigitsAreDecimal(before);
      if DigitsValue(before) == 0 {
        assert Zeros(k) + ['0'] == Zeros(k + 1);
        k := k + 1;
      }
    }
  }

  /** strconv.ParseUint(s, 10, 64) */
  function ParseUint(s: string): Option<nat> {
    if s != "" && AllDigits(s) && DigitsValue(s) < 0x1_0000_0000_0000_0000 then Some(DigitsValue(s)) else None
  }

  /** strconv.Atoi on a string of digits. */
  function ParseDigits(s: string): Option<nat> {
    if s != "" && AllDigits(s) && DigitsValue(s) < 0x8000_0000_0000_0000 then Some(DigitsValue(s)) else None
  }

  /** strings.Split by one character; never empty. */
  function Split(s: string, separator: char): (parts: seq<string>)
    ensures |parts| >= 1
  {
    if s == "" then [""]
    else
      var rest := Split(s[1..], separator);
      if s[0] == separator then [""] + rest else [[s[0]] + rest[0]] + rest[1..]
  }

  function Join(parts: seq<string>, separator: char): string
    requires |parts| >= 1
  {
    if |parts| == 1 then parts[0] else parts[0] + [separator] + Join(parts[1..], separator)
  }

  /** Splitting and joining with the same separator gives back the string, and no part contains it. */
  lemma {:induction false} JoinSplit(s: string, separator: char)
    ensures Join(Split(s, separator), separator) == s
    ensures forall k :: 0 <= k < |Split(s, separator)| ==> separator !in Split(s, separator)[k]
  {
    if s != "" {
      JoinSplit(s[1..], separator);
      var rest := Split(s[1..], separator);
      if s[0] == separator {
        assert ([""] + rest)[1..] == rest;
      } else {
        var parts := [[s[0]] + rest[0]] + rest[1..];
        assert parts[1..] == rest[1..];
        assert Join(parts, separator) == [s[0]] + Join(rest, separator);
      }
    }
  }

  lemma {:induction false} FirstPart(part: string, separator: char, rest: string)
    requires separator !in part
    ensures Split(part + [separator] + rest, separator)[0] == part
  {
    var s := part + [separator] + rest;
    if part != "" {
      assert s[0] == part[0] && s[1..] == part[1..] + [separator] + rest;
      FirstPart(part[1..], separator, rest);
    }
  }

  /** And the other way round, for parts without the separator. */
  lemma {:induction false} SplitJoin(parts: seq<string>, separator: char)
    requires |parts| >= 1
    requires forall k :: 0 <= k < |parts| ==> separator !in parts[k]
    ensures Split(Join(parts, separator), separator) == parts
    decreases |parts|, |parts[0]|
  {
    var s := Join(parts, separator);
    if parts[0] == "" {
      if |parts| > 1 {
        assert s == [separator] + Join(parts[1..], separator);
        assert s[1..] == Join(parts[1..], separator);
        SplitJoin(parts[1..], separator);
      }
    } else {
      var shorter := parts[0 := parts[0][1..]];
      assert shorter[1..] == parts[1..];
      assert s[0] == parts[0][0] && s[0] in parts[0];
      assert s[1..] == Join(shorter, separator);
      SplitJoin(shorter, separator);
      assert [s[0]] + shorter[0] == parts[0];
    }
  }

  // ---- filepath.Base ----

  function DropTrailingSlashes(path: string): string {
    if path != "" && path[|path| - 1] == '/' then DropTrailingSlashes(path[..|path| - 1]) else path
  }

  function AfterLastSlash(path: string): string {
    if path == "" || path[|path| - 1] == '/' then "" else AfterLastSlash(path[..|path| - 1]) + [path[|path| - 1]]
  }

  function Base(path: string): string {
    var trimmed := DropTrailingSlashes(path);
    if path == "" then "." else if trimmed == "" then "/" else AfterLastSlash(trimmed)
  }

  lemma {:induction false} NameAfterSlash(directory: string, name: string)
    requires '/' !in name
    ensures AfterLastSlash(directory + "/" + name) == name
    decreases |name|
  {
    var path := directory + "/" + name;
    if name != "" {
      assert path[..|path| - 1] == directory + "/" + name[..|name| - 1];
      NameAfterSlash(directory, name[..|name| - 1]);
    }
  }

  /** The last element of a path is the name below its directory. */
  lemma BaseOfPath(directory: string, name: string)
    requires name != "" && '/' !in name
    ensures Base(directory + "/" + name) == name
  {
    var path := directory + "/" + name;
    assert path[|path| - 1] == name[|name| - 1];
    NameAfterSlash(directory, name);
  }
}
