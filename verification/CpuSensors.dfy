/** The part of `CPUCollector.Collect` that assigns temperature sensors to cores. */
module CpuSensors {
  import opened GoStrings
  import opened Wrappers

  datatype CPUCore = CPUCore(id: nat, usage: real, temperature: real)

  datatype Sensor = Sensor(sensorKey: string, temperature: real)

  // ---- Reading a sensor key ----

  /** The leading digits of `s`, as `\d+` takes them. */
  function LeadingDigits(s: string): (digits: string)
    ensures digits <= s && AllDigits(digits)
    ensures |digits| < |s| ==> !IsDigit(s[|digits|])
  {
    if s != "" && IsDigit(s[0]) then [s[0]] + LeadingDigits(s[1..]) else ""
  }

  function Group(key: string, prefix: string, i: nat): string
    requires i <= |key|
  {
    if prefix <= key[i..] then LeadingDigits(key[i + |prefix|..]) else ""
  }

  /** prefix(\d+)suffix matches at `i`; no backtracking helps, as no suffix in use begins with a digit. */
  predicate MatchesAt(key: string, prefix: string, suffix: string, i: nat)
    requires i <= |key|
  {
    Group(key, prefix, i) != "" && suffix <= key[i + |prefix| + |Group(key, prefix, i)|..]
  }

  /** The group of the leftmost match at or after `from`. */
  function FindNumber(key: string, prefix: string, suffix: string, from: nat): Option<string>
    requires from <= |key|
    decreases |key| - from
  {
    if MatchesAt(key, prefix, suffix, from) then Some(Group(key, prefix, from))
    else if from == |key| then None
    else FindNumber(key, prefix, suffix, from + 1)
  }

  ghost predicate NoMatchBetween(key: string, prefix: string, suffix: string, from: nat, to: nat)
    requires to <= |key|
  {
    forall j :: from <= j < to ==> !MatchesAt(key, prefix, suffix, j)
  }

  lemma FindsFurtherOn(key: string, prefix: string, suffix: string, from: nat)
    requires from < |key| && !MatchesAt(key, prefix, suffix, from)
    ensures FindNumber(key, prefix, suffix, from) == FindNumber(key, prefix, suffix, from + 1)
  {
  }

  lemma {:induction false} FindsLeftmostMatch(key: string, prefix: string, suffix: string, from: nat) returns (i: nat)
    requires from <= |key|
    ensures from <= i <= |key| && NoMatchBetween(key, prefix, suffix, from, i)
    ensures FindNumber(key, prefix, suffix, from) ==
            if MatchesAt(key, prefix, suffix, i) then Some(Group(key, prefix, i)) else None
    ensures !MatchesAt(key, prefix, suffix, i) ==> i == |key|
    decreases |key| - from
  {
    if MatchesAt(key, prefix, suffix, from) || from == |key| {
      i := from;
    } else {
      i := FindsLeftmostMatch(key, prefix, suffix, from + 1);
      forall j | from <= j < i ensures !MatchesAt(key, prefix, suffix, j) {
        assert j == from || from + 1 <= j;
      }
      FindsFurtherOn(key, prefix, suffix, from);
    }
  }

  function NumberIn(key: string, prefix: string, suffix: string): Option<nat> {
    match FindNumber(key, prefix, suffix, 0)
    case None => None
    case Some(digits) => ParseDigits(digits)
  }

  /** At `i` the key reads `prefix`, then the digits `d`, then `suffix`. */
  ghost predicate Spells(key: string, i: nat, prefix: string, d: string, suffix: string) {
    i <= |key| && d != "" && AllDigits(d) && prefix + d + suffix <= key[i..]
  }

  lemma MatchedIsSpelled(key: string, prefix: string, suffix: string, i: nat)
    requires i <= |key| && MatchesAt(key, prefix, suffix, i)
    ensures Spells(key, i, prefix, Group(key, prefix, i), suffix)
  {
    var group, rest := Group(key, prefix, i), key[i + |prefix|..];
    assert rest[|group|..] == key[i + |prefix| + |group|..];
    assert group + suffix <= rest;
    assert prefix + group + suffix == prefix + (group + suffix);
    assert key[i..] == prefix + rest;
  }

  lemma SpelledIsMatched(key: string, prefix: string, d: string, suffix: string, i: nat)
    requires (suffix == "" || !IsDigit(suffix[0])) && Spells(key, i, prefix, d, suffix)
    ensures MatchesAt(key, prefix, suffix, i) && d <= Group(key, prefix, i)
  {
    var rest := key[i + |prefix|..];
    assert prefix <= key[i..];
    assert d + suffix <= rest;
    LeadingDigitsBegin(d, rest[|d|..]);
    assert rest == d + rest[|d|..];
    if suffix != "" {
      assert rest[|d|] == suffix[0];
      LeadingDigitsOf(d, rest[|d|..]);
    }
    assert key[i + |prefix| + |d|..] == rest[|d|..];
  }

  lemma {:induction false} LeadingDigitsBegin(d: string, rest: string)
    requires AllDigits(d)
    ensures d <= LeadingDigits(d + rest)
  {
    if d != "" {
      assert (d + rest)[1..] == d[1..] + rest;
      LeadingDigitsBegin(d[1..], rest);
    }
  }

  lemma {:induction false} LeadingDigitsOf(d: string, rest: string)
    requires AllDigits(d) && (rest == "" || !IsDigit(rest[0]))
    ensures LeadingDigits(d + rest) == d
  {
    if d == "" {
      assert d + rest == rest;
    } else {
      assert (d + rest)[1..] == d[1..] + rest;
      LeadingDigitsOf(d[1..], rest);
    }
  }

  ghost predicate NotSpelledAt(key: string, prefix: string, suffix: string, i: nat) {
    forall d :: !Spells(key, i, prefix, d, suffix)
  }

  /** Where digits can be spelled between `prefix` and `suffix` first, and the longest that can be there. */
  ghost predicate IsNumberAt(key: string, prefix: string, suffix: string, i: nat, d: string) {
    && Spells(key, i, prefix, d, suffix)
    && (forall j: nat :: j < i ==> NotSpelledAt(key, prefix, suffix, j))
    && (forall e :: Spells(key, i, prefix, e, suffix) ==> |e| <= |d|)
  }

  /** `n` is the number in the key; it has to fit an int. */
  ghost predicate SpellsNumber(key: string, prefix: string, suffix: string, n: nat) {
    exists i: nat, d :: IsNumberAt(key, prefix, suffix, i, d) && DigitsValue(d) == n < 0x8000_0000_0000_0000
  }

  lemma NotSpelledIfUnmatched(key: string, prefix: string, suffix: string, i: nat)
    requires (suffix == "" || !IsDigit(suffix[0])) && i <= |key| && !MatchesAt(key, prefix, suffix, i)
    ensures NotSpelledAt(key, prefix, suffix, i)
  {
    forall d ensures !Spells(key, i, prefix, d, suffix) {
      if Spells(key, i, prefix, d, suffix) {
        SpelledIsMatched(key, prefix, d, suffix, i);
      }
    }
  }

  /** The first match begins where digits can first be spelled, and takes as many as it can. */
  lemma FirstMatchIsNumber(key: string, prefix: string, suffix: string, k: nat)
    requires suffix == "" || !IsDigit(suffix[0])
    requires k <= |key| && NoMatchBetween(key, prefix, suffix, 0, k) && MatchesAt(key, prefix, suffix, k)
    ensures IsNumberAt(key, prefix, suffix, k, Group(key, prefix, k))
  {
    MatchedIsSpelled(key, prefix, suffix, k);
    forall j: nat | j < k ensures NotSpelledAt(key, prefix, suffix, j) {
      NotSpelledIfUnmatched(key, prefix, suffix, j);
    }
    forall e | Spells(key, k, prefix, e, suffix) ensures |e| <= |Group(key, prefix, k)| {
      SpelledIsMatched(key, prefix, e, suffix, k);
    }
  }

  lemma SameDigits(s: string, prefix: string, d: string, e: string, suffix: string)
    requires |d| == |e| && prefix + d + suffix <= s && prefix + e + suffix <= s
    ensures d == e
  {
    forall k | 0 <= k < |d| ensures d[k] == e[k] {
      assert d[k] == (prefix + d + suffix)[|prefix| + k] == s[|prefix| + k];
      assert e[k] == (prefix + e + suffix)[|prefix| + k] == s[|prefix| + k];
    }
  }

  lemma NotBefore(key: string, prefix: string, suffix: string, i: nat, d: string, k: nat)
    requires Spells(key, i, prefix, d, suffix) && forall j: nat :: j < k ==> NotSpelledAt(key, prefix, suffix, j)
    ensures k <= i
  {
    assert i < k ==> NotSpelledAt(key, prefix, suffix, i);
  }

  lemma OneNumber(key: string, prefix: string, suffix: string, i: nat, d: string, k: nat, e: string)
    requires IsNumberAt(key, prefix, suffix, i, d) && IsNumberAt(key, prefix, suffix, k, e)
    ensures i == k && d == e
  {
    NotBefore(key, prefix, suffix, i, d, k);
    NotBefore(key, prefix, suffix, k, e, i);
    SameDigits(key[i..], prefix, d, e, suffix);
  }

  lemma NumberInExactly(key: string, prefix: string, suffix: string, n: nat)
    requires suffix == "" || !IsDigit(suffix[0])
    ensures NumberIn(key, prefix, suffix) == Some(n) <==> SpellsNumber(key, prefix, suffix, n)
  {
    var k := FindsLeftmostMatch(key, prefix, suffix, 0);
    if MatchesAt(key, prefix, suffix, k) {
      FirstMatchIsNumber(key, prefix, suffix, k);
      if SpellsNumber(key, prefix, suffix, n) {
        var i: nat, d :| IsNumberAt(key, prefix, suffix, i, d) && DigitsValue(d) == n < 0x8000_0000_0000_0000;
        OneNumber(key, prefix, suffix, i, d, k, Group(key, prefix, k));
      }
    } else {
      forall i: nat, d ensures !IsNumberAt(key, prefix, suffix, i, d) {
        if i <= |key| {
          NotSpelledIfUnmatched(key, prefix, suffix, i);
        }
      }
    }
  }

  /** What one sensor is taken for. */
  datatype Role = CoreSensor(core: nat) | InputSensor(index: nat) | PackageSensor | Ignored

  /** What the loop checks before it writes. */
  predicate InRange(role: Role, cores: nat) {
    (role.CoreSensor? ==> role.core < cores) && (role.InputSensor? ==> role.index < cores)
  }

  /** A core number comes first, then an input, then the package; numbers out of range do not count. */
  function Decide(core: Option<nat>, input: Option<nat>, package: bool, cores: nat): (role: Role)
    ensures InRange(role, cores)
  {
    if core.Some? && core.value < cores then CoreSensor(core.value)
    else if input.Some? && 0 <= input.value - 2 < cores then InputSensor(input.value - 2)
    else if package then PackageSensor
    else Ignored
  }

  function RoleOf(sensor: Sensor, cores: nat): (role: Role)
    ensures InRange(role, cores)
  {
    Decide(CoreIn(sensor.sensorKey), InputIn(sensor.sensorKey), NamesPackage(sensor.sensorKey), cores)
  }

  function CoreIn(key: string): Option<nat> {
    NumberIn(ToLower(key), "core_", "")
  }

  function InputIn(key: string): Option<nat> {
    var lower := ToLower(key);
    if HasPrefix(lower, "temp") && HasSuffix(lower, "_input") then NumberIn(lower, "temp", "_input") else None
  }

  predicate NamesPackage(key: string) {
    var lower := ToLower(key);
    Contains(lower, "package") || HasPrefix(lower, "cpu_temp") || lower == "temp1_input"
  }

  // ---- What a key stands for, by its text ----

  ghost predicate NamesCore(key: string, n: nat) {
    SpellsNumber(ToLower(key), "core_", "", n)
  }

  ghost predicate NamesInput(key: string, n: nat) {
    var lower := ToLower(key);
    HasPrefix(lower, "temp") && HasSuffix(lower, "_input") && SpellsNumber(lower, "temp", "_input", n)
  }

  ghost predicate NamesSomeCore(key: string, cores: nat) {
    exists n: nat :: n < cores && NamesCore(key, n)
  }

  /** The second `temp` sensor is that of core 0. */
  ghost predicate NamesSomeInput(key: string, cores: nat) {
    exists n: nat :: 2 <= n < cores + 2 && NamesInput(key, n)
  }

  lemma CoreNamed(key: string, cores: nat, n: nat)
    ensures CoreIn(key) == Some(n) <==> NamesCore(key, n)
    ensures NamesSomeCore(key, cores) <==> CoreIn(key).Some? && CoreIn(key).value < cores
  {
    forall m: nat ensures CoreIn(key) == Some(m) <==> NamesCore(key, m) {
      NumberInExactly(ToLower(key), "core_", "", m);
    }
  }

  lemma InputNamed(key: string, cores: nat, n: nat)
    ensures InputIn(key) == Some(n) <==> NamesInput(key, n)
    ensures NamesSomeInput(key, cores) <==> InputIn(key).Some? && 2 <= InputIn(key).value < cores + 2
  {
    forall m: nat ensures InputIn(key) == Some(m) <==> NamesInput(key, m) {
      NumberInExactly(ToLower(key), "temp", "_input", m);
    }
  }

  lemma Decided(core: Option<nat>, input: Option<nat>, package: bool, cores: nat, n: nat)
    ensures var role := Decide(core, input, package, cores);
            && (role == CoreSensor(n) <==> n < cores && core == Some(n))
            && (role == InputSensor(n) <==>
                  !(core.Some? && core.value < cores) && n < cores && input == Some(n + 2))
            && (role == PackageSensor <==>
                  && !(core.Some? && core.value < cores) && !(input.Some? && 2 <= input.value < cores + 2)
                  && package)
  {
  }

  /** Core numbers come first, then inputs, then the package; a number that is out of range does not count. */
  lemma RoleExactly(sensor: Sensor, cores: nat, n: nat)
    ensures var role, key := RoleOf(sensor, cores), sensor.sensorKey;
            && (role == CoreSensor(n) <==> n < cores && NamesCore(key, n))
            && (role == InputSensor(n) <==> !NamesSomeCore(key, cores) && n < cores && NamesInput(key, n + 2))
            && (role == PackageSensor <==>
                  !NamesSomeCore(key, cores) && !NamesSomeInput(key, cores) && NamesPackage(key))
  {
    Decided(CoreIn(sensor.sensorKey), InputIn(sensor.sensorKey), NamesPackage(sensor.sensorKey), cores, n);
    CoreNamed(sensor.sensorKey, cores, n);
    InputNamed(sensor.sensorKey, cores, n + 2);
  }

  lemma NoNumberWithoutChar(key: string, prefix: string, suffix: string, c: char)
    requires c in prefix && c !in key
    ensures NumberIn(key, prefix, suffix) == None
  {
    var i := FindsLeftmostMatch(key, prefix, suffix, 0);
    if MatchesAt(key, prefix, suffix, i) {
      assert OccursAt(key, prefix, i);
      OccursWithItsChars(key, prefix, c);
      assert false;
    }
  }

  /** What an int can be read from. */
  function IntOf(d: string): Option<nat>
    requires AllDigits(d)
  {
    if DigitsValue(d) < 0x8000_0000_0000_0000 then Some(DigitsValue(d)) else None
  }

  lemma NumberAtStart(key: string, prefix: string, d: string, suffix: string)
    requires key == prefix + d + suffix && d != "" && AllDigits(d) && (suffix == "" || !IsDigit(suffix[0]))
    ensures NumberIn(key, prefix, suffix) == IntOf(d)
  {
    assert key[0..] == key && key[|prefix|..] == d + suffix;
    LeadingDigitsOf(d, suffix);
    assert key[|prefix| + |d|..] == suffix;
    assert MatchesAt(key, prefix, suffix, 0) && Group(key, prefix, 0) == d;
  }

  lemma CoreKeyHasNumber(key: string, d: string)
    requires d != "" && AllDigits(d) && ToLower(key) == "core_" + d
    ensures CoreIn(key) == IntOf(d)
  {
    assert "core_" + d == "core_" + d + "";
    NumberAtStart("core_" + d, "core_", d, "");
  }

  lemma CoreKeyHasNothingElse(key: string, d: string)
    requires AllDigits(d) && ToLower(key) == "core_" + d
    ensures InputIn(key) == None && !NamesPackage(key)
  {
    var lower := "core_" + d;
    assert lower[0] == 'c' && lower[1] == 'o' && "temp"[0] == 't' && "cpu_temp"[1] == 'p';
    assert "package"[0] == 'p' && 'p' !in lower;
    if Contains(lower, "package") {
      OccursWithItsChars(lower, "package", 'p');
      assert false;
    }
  }

  /** In any case of letters, `core_` and a number is the sensor of that core, if there is one. */
  lemma CoreKey(sensor: Sensor, d: string, cores: nat)
    requires d != "" && AllDigits(d) && ToLower(sensor.sensorKey) == "core_" + d
    ensures RoleOf(sensor, cores) ==
            if IntOf(d).Some? && DigitsValue(d) < cores then CoreSensor(DigitsValue(d)) else Ignored
  {
    CoreKeyHasNumber(sensor.sensorKey, d);
    CoreKeyHasNothingElse(sensor.sensorKey, d);
  }

  lemma InputKeyHasNumber(key: string, d: string)
    requires d != "" && AllDigits(d) && ToLower(key) == "temp" + d + "_input"
    ensures InputIn(key) == IntOf(d)
  {
    var lower := "temp" + d + "_input";
    assert "temp" <= lower && lower[|lower| - 6..] == "_input";
    NumberAtStart(lower, "temp", d, "_input");
  }

  lemma InputKeyHasNothingElse(key: string, d: string)
    requires d != "" && AllDigits(d) && ToLower(key) == "temp" + d + "_input"
    ensures CoreIn(key) == None && (NamesPackage(key) <==> d == "1")
  {
    var lower := "temp" + d + "_input";
    assert 'r' !in lower && 'k' !in lower && lower[0] == 't' && "cpu_temp"[0] == 'c';
    assert "core_"[2] == 'r' && "package"[3] == 'k';
    NoNumberWithoutChar(lower, "core_", "", 'r');
    FirstInput(d);
    if Contains(lower, "package") {
      OccursWithItsChars(lower, "package", 'k');
      assert false;
    }
  }

  /** In any case of letters, the n-th `temp` input is that of core n - 2, and the first is the package. */
  lemma InputKey(sensor: Sensor, d: string, cores: nat)
    requires d != "" && AllDigits(d) && ToLower(sensor.sensorKey) == "temp" + d + "_input"
    ensures RoleOf(sensor, cores) ==
            if IntOf(d).Some? && 2 <= DigitsValue(d) < cores + 2 then InputSensor(DigitsValue(d) - 2)
            else if d == "1" then PackageSensor else Ignored
  {
    InputKeyHasNumber(sensor.sensorKey, d);
    InputKeyHasNothingElse(sensor.sensorKey, d);
    InputDecides(d, cores);
  }

  lemma InputDecides(d: string, cores: nat)
    requires AllDigits(d)
    ensures Decide(None, IntOf(d), d == "1", cores) ==
            if IntOf(d).Some? && 2 <= DigitsValue(d) < cores + 2 then InputSensor(DigitsValue(d) - 2)
            else if d == "1" then PackageSensor else Ignored
  {
  }

  lemma FirstInput(d: string)
    requires d != "" && AllDigits(d)
    ensures "temp" + d + "_input" == "temp1_input" <==> d == "1"
  {
    var key := "temp" + d + "_input";
    assert key[4..|key| - 6] == d;
    assert "temp1_input"[4..5] == "1" && |"temp1_input"| == 11;
  }

  /** A key that mentions the package and names neither a core nor an input is the package's. */
  lemma PackageKey(sensor: Sensor, cores: nat)
    requires Contains(ToLower(sensor.sensorKey), "package") && !Contains(ToLower(sensor.sensorKey), "core_")
    requires !HasSuffix(ToLower(sensor.sensorKey), "_input")
    ensures RoleOf(sensor, cores) == PackageSensor
  {
    var key := ToLower(sensor.sensorKey);
    var i := FindsLeftmostMatch(key, "core_", "", 0);
    assert MatchesAt(key, "core_", "", i) ==> OccursAt(key, "core_", i);
  }

  /** Letter case does not matter. */
  lemma CaseIsIgnored(key: string, t: real, cores: nat)
    ensures RoleOf(Sensor(ToUpper(key), t), cores) == RoleOf(Sensor(key, t), cores)
  {
    LowerOfUpper(key);
  }

  /** A sensor as the loop sees it. */
  datatype Reading = Reading(role: Role, temperature: real)

  function Readings(sensors: seq<Sensor>, cores: nat): seq<Reading> {
    seq(|sensors|, i requires 0 <= i < |sensors| => Reading(RoleOf(sensors[i], cores), sensors[i].temperature))
  }

  // ---- What the loop is to achieve ----

  /** With hyperthreading, a core sensor stands for the two logical siblings. */
  predicate Targets(role: Role, hyperthreading: bool, c: nat) {
    match role
    case CoreSensor(core) => if hyperthreading then c == 2 * core || c == 2 * core + 1 else c == core
    case InputSensor(index) => c == index
    case _ => false
  }

  /** The sensor would make the loop write past the end of the slice. */
  predicate Overruns(role: Role, cores: nat, hyperthreading: bool) {
    hyperthreading && role.CoreSensor? && 2 * role.core + 1 >= cores
  }

  /** The accepted core numbers that are safe under hyperthreading are exactly those of the lower half. */
  lemma SafeExactlyBelowHalf(readings: seq<Reading>, cores: nat)
    ensures (forall i :: 0 <= i < |readings| ==> !Overruns(readings[i].role, cores, true)) <==>
            (forall i :: 0 <= i < |readings| && readings[i].role.CoreSensor? ==> readings[i].role.core < cores / 2)
  {
    forall i | 0 <= i < |readings| && readings[i].role.CoreSensor?
      ensures Overruns(readings[i].role, cores, true) <==> readings[i].role.core >= cores / 2
    {
    }
  }

  /** `t` is the reading of the last of the first `n` sensors that targets core `c`, or else `unread`. */
  ghost predicate IsLastReading(readings: seq<Reading>, n: nat, hyperthreading: bool, c: nat, t: real, unread: real)
    requires n <= |readings|
  {
    || (exists i :: 0 <= i < n && Targets(readings[i].role, hyperthreading, c) && t == readings[i].temperature
                    && forall j :: i < j < n ==> !Targets(readings[j].role, hyperthreading, c))
    || (t == unread && forall i :: 0 <= i < n ==> !Targets(readings[i].role, hyperthreading, c))
  }

  ghost predicate IsLastPackage(readings: seq<Reading>, n: nat, t: real)
    requires n <= |readings|
  {
    || (exists i :: 0 <= i < n && readings[i].role == PackageSensor && t == readings[i].temperature
                    && forall j :: i < j < n ==> readings[j].role != PackageSensor)
    || (t == 0.0 && forall i :: 0 <= i < n ==> readings[i].role != PackageSensor)
  }

  predicate IsFallback(sensor: Sensor) {
    sensor.temperature > 0.0 && Contains(ToLower(sensor.sensorKey), "input")
  }

  /** The first positive sensor whose key mentions "input", or 0. */
  ghost predicate IsFirstFallback(sensors: seq<Sensor>, t: real) {
    || (exists i :: 0 <= i < |sensors| && IsFallback(sensors[i]) && t == sensors[i].temperature
                    && forall j :: 0 <= j < i ==> !IsFallback(sensors[j]))
    || (t == 0.0 && forall i :: 0 <= i < |sensors| ==> !IsFallback(sensors[i]))
  }

  /** The last package reading unless that is 0 or missing, and then the fallback. */
  ghost predicate IsPackageTemperature(sensors: seq<Sensor>, cores: nat, t: real) {
    || (t != 0.0 && IsLastPackageSensor(sensors, cores, t))
    || (IsLastPackageSensor(sensors, cores, 0.0) && IsFirstFallback(sensors, t))
  }

  // ---- The same, by the texts of the keys ----

  predicate StandsFor(n: nat, hyperthreading: bool, c: nat) {
    if hyperthreading then c == 2 * n || c == 2 * n + 1 else c == n
  }

  /** A core sensor stands for its core, or under hyperthreading for both siblings; an input for the core two below. */
  ghost predicate KeyTargets(key: string, cores: nat, hyperthreading: bool, c: nat) {
    || (exists n: nat :: n < cores && NamesCore(key, n) && StandsFor(n, hyperthreading, c))
    || (!NamesSomeCore(key, cores) && c < cores && NamesInput(key, c + 2))
  }

  ghost predicate KeyOverruns(key: string, cores: nat, hyperthreading: bool) {
    hyperthreading && exists n: nat :: n < cores <= 2 * n + 1 && NamesCore(key, n)
  }

  ghost predicate KeyIsPackage(key: string, cores: nat) {
    !NamesSomeCore(key, cores) && !NamesSomeInput(key, cores) && NamesPackage(key)
  }

  lemma KeyOfTarget(sensor: Sensor, cores: nat, hyperthreading: bool, c: nat)
    requires c < cores && Targets(RoleOf(sensor, cores), hyperthreading, c)
    ensures KeyTargets(sensor.sensorKey, cores, hyperthreading, c)
  {
    var role := RoleOf(sensor, cores);
    if role.CoreSensor? {
      RoleExactly(sensor, cores, role.core);
      assert StandsFor(role.core, hyperthreading, c);
    } else {
      RoleExactly(sensor, cores, c);
    }
  }

  lemma TargetOfKey(sensor: Sensor, cores: nat, hyperthreading: bool, c: nat)
    requires c < cores && KeyTargets(sensor.sensorKey, cores, hyperthreading, c)
    ensures Targets(RoleOf(sensor, cores), hyperthreading, c)
  {
    var key, n: nat := sensor.sensorKey, c;
    if NamesSomeCore(key, cores) {
      n :| n < cores && NamesCore(key, n) && StandsFor(n, hyperthreading, c);
    }
    RoleExactly(sensor, cores, n);
  }

  lemma OverrunByKey(sensor: Sensor, cores: nat, hyperthreading: bool)
    ensures Overruns(RoleOf(sensor, cores), cores, hyperthreading) <==>
              KeyOverruns(sensor.sensorKey, cores, hyperthreading)
  {
    var role := RoleOf(sensor, cores);
    if role.CoreSensor? {
      RoleExactly(sensor, cores, role.core);
    }
    if KeyOverruns(sensor.sensorKey, cores, hyperthreading) {
      var n: nat :| n < cores <= 2 * n + 1 && NamesCore(sensor.sensorKey, n);
      RoleExactly(sensor, cores, n);
    }
  }

  lemma PackageByKey(sensor: Sensor, cores: nat)
    ensures RoleOf(sensor, cores) == PackageSensor <==> KeyIsPackage(sensor.sensorKey, cores)
  {
    RoleExactly(sensor, cores, 0);
  }

  lemma TargetByKey(sensor: Sensor, cores: nat, hyperthreading: bool, c: nat)
    requires c < cores
    ensures Targets(RoleOf(sensor, cores), hyperthreading, c) <==>
              KeyTargets(sensor.sensorKey, cores, hyperthreading, c)
  {
    if Targets(RoleOf(sensor, cores), hyperthreading, c) {
      KeyOfTarget(sensor, cores, hyperthreading, c);
    } else if KeyTargets(sensor.sensorKey, cores, hyperthreading, c) {
      TargetOfKey(sensor, cores, hyperthreading, c);
    }
  }

  /** Which cores the usual keys target: `core_n` those of its number, the n-th `temp` input core n - 2. */
  lemma UsualKeys(key: string, d: string, cores: nat, hyperthreading: bool, c: nat)
    requires d != "" && AllDigits(d) && c < cores
    ensures ToLower(key) == "core_" + d ==>
              (KeyTargets(key, cores, hyperthreading, c) <==>
                 IntOf(d).Some? && DigitsValue(d) < cores && StandsFor(DigitsValue(d), hyperthreading, c))
    ensures ToLower(key) == "temp" + d + "_input" ==>
              && (KeyTargets(key, cores, hyperthreading, c) <==> IntOf(d).Some? && DigitsValue(d) == c + 2)
              && (KeyIsPackage(key, cores) <==> d == "1")
  {
    var sensor := Sensor(key, 0.0);
    TargetByKey(sensor, cores, hyperthreading, c);
    PackageByKey(sensor, cores);
    if ToLower(key) == "core_" + d {
      CoreKey(sensor, d, cores);
      CoreTargets(d, cores, hyperthreading, c);
    }
    if ToLower(key) == "temp" + d + "_input" {
      InputKey(sensor, d, cores);
      InputTargets(d, cores, hyperthreading, c);
    }
  }

  lemma CoreTargets(d: string, cores: nat, hyperthreading: bool, c: nat)
    requires AllDigits(d) && c < cores
    ensures var role := if IntOf(d).Some? && DigitsValue(d) < cores then CoreSensor(DigitsValue(d)) else Ignored;
            Targets(role, hyperthreading, c) <==>
              IntOf(d).Some? && DigitsValue(d) < cores && StandsFor(DigitsValue(d), hyperthreading, c)
  {
  }

  lemma InputTargets(d: string, cores: nat, hyperthreading: bool, c: nat)
    requires AllDigits(d) && c < cores
    ensures var role := if IntOf(d).Some? && 2 <= DigitsValue(d) < cores + 2 then InputSensor(DigitsValue(d) - 2)
                        else if d == "1" then PackageSensor else Ignored;
            && (Targets(role, hyperthreading, c) <==> IntOf(d).Some? && DigitsValue(d) == c + 2)
            && (role == PackageSensor <==> d == "1")
  {
    if d == "1" {
      DigitValue('1');
    }
  }

  /** `t` is the temperature of the last sensor whose key targets core `c`, or else `unread`. */
  ghost predicate IsLastSensor(sensors: seq<Sensor>, cores: nat, hyperthreading: bool, c: nat, t: real, unread: real) {
    || (exists i :: 0 <= i < |sensors| && KeyTargets(sensors[i].sensorKey, cores, hyperthreading, c)
                    && t == sensors[i].temperature
                    && forall j :: i < j < |sensors| ==> !KeyTargets(sensors[j].sensorKey, cores, hyperthreading, c))
    || (t == unread && forall i :: 0 <= i < |sensors| ==> !KeyTargets(sensors[i].sensorKey, cores, hyperthreading, c))
  }

  lemma LastSensorIsRead(sensors: seq<Sensor>, cores: nat, hyperthreading: bool, c: nat, t: real, unread: real)
    requires c < cores
    ensures IsLastReading(Readings(sensors, cores), |sensors|, hyperthreading, c, t, unread) <==>
              IsLastSensor(sensors, cores, hyperthreading, c, t, unread)
  {
    var readings := Readings(sensors, cores);
    forall i | 0 <= i < |sensors|
      ensures Targets(readings[i].role, hyperthreading, c) <==>
                KeyTargets(sensors[i].sensorKey, cores, hyperthreading, c)
    {
      TargetByKey(sensors[i], cores, hyperthreading, c);
    }
  }

  ghost predicate IsLastPackageSensor(sensors: seq<Sensor>, cores: nat, t: real) {
    || (exists i :: 0 <= i < |sensors| && KeyIsPackage(sensors[i].sensorKey, cores) && t == sensors[i].temperature
                    && forall j :: i < j < |sensors| ==> !KeyIsPackage(sensors[j].sensorKey, cores))
    || (t == 0.0 && forall i :: 0 <= i < |sensors| ==> !KeyIsPackage(sensors[i].sensorKey, cores))
  }

  lemma LastPackageIsRead(sensors: seq<Sensor>, cores: nat, t: real)
    ensures IsLastPackage(Readings(sensors, cores), |sensors|, t) <==> IsLastPackageSensor(sensors, cores, t)
  {
    var readings := Readings(sensors, cores);
    forall i | 0 <= i < |sensors|
      ensures readings[i].role == PackageSensor <==> KeyIsPackage(sensors[i].sensorKey, cores)
    {
      PackageByKey(sensors[i], cores);
    }
  }

  ghost predicate SomeOverruns(sensors: seq<Sensor>, cores: nat, hyperthreading: bool) {
    exists i :: 0 <= i < |sensors| && KeyOverruns(sensors[i].sensorKey, cores, hyperthreading)
  }

  lemma OverrunIsRead(sensors: seq<Sensor>, cores: nat, hyperthreading: bool)
    ensures var readings := Readings(sensors, cores);
            (exists i :: 0 <= i < |readings| && Overruns(readings[i].role, cores, hyperthreading)) <==>
              SomeOverruns(sensors, cores, hyperthreading)
  {
    var readings := Readings(sensors, cores);
    forall i | 0 <= i < |sensors|
      ensures Overruns(readings[i].role, cores, hyperthreading) <==>
                KeyOverruns(sensors[i].sensorKey, cores, hyperthreading)
    {
      OverrunByKey(sensors[i], cores, hyperthreading);
    }
  }

  lemma NextReading(readings: seq<Reading>, i: nat, hyperthreading: bool, c: nat, t: real, unread: real)
    requires i < |readings| && IsLastReading(readings, i, hyperthreading, c, t, unread)
    ensures IsLastReading(readings, i + 1, hyperthreading, c,
                          if Targets(readings[i].role, hyperthreading, c) then readings[i].temperature else t, unread)
  {
  }

  lemma NextPackage(readings: seq<Reading>, i: nat, t: real)
    requires i < |readings| && IsLastPackage(readings, i, t)
    ensures IsLastPackage(readings, i + 1, if readings[i].role == PackageSensor then readings[i].temperature else t)
  {
  }

  // ---- The loop ----

  /** One sensor: `panicked` is Go's index-out-of-range panic, after which the first sibling may have been written. */
  method Apply(cores: array<CPUCore>, reading: Reading, hyperthreading: bool, package: real)
    returns (packageTemp: real, panicked: bool)
    requires InRange(reading.role, cores.Length)
    modifies cores
    ensures panicked == Overruns(reading.role, cores.Length, hyperthreading)
    ensures packageTemp == if reading.role == PackageSensor then reading.temperature else package
    ensures forall c :: 0 <= c < cores.Length ==>
              cores[c] == if Targets(reading.role, hyperthreading, c)
                          then old(cores[c]).(temperature := reading.temperature) else old(cores[c])
  {
    packageTemp, panicked := package, false;
    match reading.role {
      case CoreSensor(core) =>
        if hyperthreading {
          if 2 * core >= cores.Length {
            panicked := true;
            return;
          }
          cores[2 * core] := cores[2 * core].(temperature := reading.temperature);
          if 2 * core + 1 >= cores.Length {
            panicked := true;
            return;
          }
          cores[2 * core + 1] := cores[2 * core + 1].(temperature := reading.temperature);
        } else {
          cores[core] := cores[core].(temperature := reading.temperature);
        }
      case InputSensor(index) => cores[index] := cores[index].(temperature := reading.temperature);
      case PackageSensor => packageTemp := reading.temperature;
      case Ignored =>
    }
  }

  method FallbackTemperature(sensors: seq<Sensor>) returns (t: real)
    ensures IsFirstFallback(sensors, t)
  {
    for i := 0 to |sensors|
      invariant forall j :: 0 <= j < i ==> !IsFallback(sensors[j])
    {
      if sensors[i].temperature > 0.0 {
        if Contains(ToLower(sensors[i].sensorKey), "input") {
          assert IsFallback(sensors[i]);
          return sensors[i].temperature;
        }
      }
    }
    return 0.0;
  }

  /** `cores` after the first `n` sensors. */
  twostate predicate Assigned(cores: array<CPUCore>, readings: seq<Reading>, n: nat, hyperthreading: bool)
    requires n <= |readings|
    reads cores
  {
    forall c :: 0 <= c < cores.Length ==>
      && cores[c].id == old(cores[c].id) && cores[c].usage == old(cores[c].usage)
      && IsLastReading(readings, n, hyperthreading, c, cores[c].temperature, old(cores[c].temperature))
  }

  method AssignReadings(cores: array<CPUCore>, readings: seq<Reading>, hyperthreading: bool)
    returns (packageTemp: real, panicked: bool)
    requires forall i :: 0 <= i < |readings| ==> InRange(readings[i].role, cores.Length)
    modifies cores
    ensures panicked <==> exists i :: 0 <= i < |readings| && Overruns(readings[i].role, cores.Length, hyperthreading)
    ensures !panicked ==> Assigned(cores, readings, |readings|, hyperthreading)
    ensures !panicked ==> IsLastPackage(readings, |readings|, packageTemp)
  {
    packageTemp, panicked := 0.0, false;
    for i := 0 to |readings|
      invariant forall j :: 0 <= j < i ==> !Overruns(readings[j].role, cores.Length, hyperthreading)
      invariant Assigned(cores, readings, i, hyperthreading)
      invariant IsLastPackage(readings, i, packageTemp)
    {
      NextPackage(readings, i, packageTemp);
      forall c | 0 <= c < cores.Length
        ensures IsLastReading(readings, i + 1, hyperthreading, c,
                              if Targets(readings[i].role, hyperthreading, c) then readings[i].temperature
                              else cores[c].temperature,
                              old(cores[c].temperature))
      {
        NextReading(readings, i, hyperthreading, c, cores[c].temperature, old(cores[c].temperature));
      }
      packageTemp, panicked := Apply(cores, readings[i], hyperthreading, packageTemp);
      if panicked {
        return;
      }
    }
  }

  /**
   The call panics exactly when some sensor overruns. Otherwise every core ends with the reading of
   the last sensor that targets it, both siblings alike under hyperthreading, and keeps its own
   temperature if none does; ids and usages are not touched.
   */
  method AssignTemperatures(cores: array<CPUCore>, sensors: seq<Sensor>, hyperthreading: bool)
    returns (packageTemp: real, panicked: bool)
    modifies cores
    ensures panicked <==> SomeOverruns(sensors, cores.Length, hyperthreading)
    ensures !panicked ==> forall c :: 0 <= c < cores.Length ==>
              && cores[c].id == old(cores[c].id) && cores[c].usage == old(cores[c].usage)
              && IsLastSensor(sensors, cores.Length, hyperthreading, c, cores[c].temperature,
                              old(cores[c].temperature))
    ensures !panicked ==> IsPackageTemperature(sensors, cores.Length, packageTemp)
  {
    packageTemp, panicked := AssignReadings(cores, Readings(sensors, cores.Length), hyperthreading);
    OverrunIsRead(sensors, cores.Length, hyperthreading);
    if !panicked {
      LastPackageIsRead(sensors, cores.Length, packageTemp);
      forall c | 0 <= c < cores.Length
        ensures IsLastSensor(sensors, cores.Length, hyperthreading, c, cores[c].temperature,
                             old(cores[c].temperature))
      {
        LastSensorIsRead(sensors, cores.Length, hyperthreading, c, cores[c].temperature, old(cores[c].temperature));
      }
      if packageTemp == 0.0 {
        packageTemp := FallbackTemperature(sensors);
      }
    }
  }

  /** One core per usage figure, not yet given a temperature. */
  method BuildCores(percents: seq<real>) returns (cores: array<CPUCore>)
    ensures fresh(cores) && cores.Length == |percents|
    ensures forall c :: 0 <= c < |percents| ==> cores[c] == CPUCore(c, percents[c], 0.0)
  {
    cores := new CPUCore[|percents|](_ => CPUCore(0, 0.0, 0.0));
    for i := 0 to |percents|
      invariant forall c :: 0 <= c < i ==> cores[c] == CPUCore(c, percents[c], 0.0)
    {
      cores[i] := CPUCore(i, percents[i], 0.0);
    }
  }

  /**
   The cores as they are reported: core `c` has number `c` and its own usage, and its temperature is the
   last reading that targets it, or 0 if there is none or the sensors cannot be read.
   */
  method CollectCores(percents: seq<real>, sensors: Option<seq<Sensor>>, hyperthreading: bool)
    returns (cores: array<CPUCore>, packageTemp: real, panicked: bool)
    ensures fresh(cores) && cores.Length == |percents|
    ensures sensors.None? ==> !panicked && packageTemp == 0.0
    ensures sensors.None? ==> forall c :: 0 <= c < |percents| ==> cores[c] == CPUCore(c, percents[c], 0.0)
    ensures sensors.Some? ==>
              && (panicked <==> SomeOverruns(sensors.value, |percents|, hyperthreading))
              && (!panicked ==> forall c :: 0 <= c < |percents| ==>
                    && cores[c].id == c && cores[c].usage == percents[c]
                    && IsLastSensor(sensors.value, |percents|, hyperthreading, c, cores[c].temperature, 0.0))
              && (!panicked ==> IsPackageTemperature(sensors.value, |percents|, packageTemp))
  {
    cores := BuildCores(percents);
    packageTemp, panicked := 0.0, false;
    if sensors.Some? {
      label built:
      packageTemp, panicked := AssignTemperatures(cores, sensors.value, hyperthreading);
      if !panicked {
        forall c | 0 <= c < |percents|
          ensures cores[c].id == c && cores[c].usage == percents[c]
          ensures IsLastSensor(sensors.value, |percents|, hyperthreading, c, cores[c].temperature, 0.0)
        {
          assert old@built(cores[c]) == CPUCore(c, percents[c], 0.0);
        }
      }
    }
  }
}
