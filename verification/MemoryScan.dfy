/**
 `getMemoryHardwareInfo`: one pass over the lines of `dmidecode -t memory` with a flag that says
 whether the current line belongs to a memory device.
 */
module MemoryScan {
  import opened GoStrings
  import opened Wrappers

  // ---- What one line says ----

  predicate MentionsDevice(line: string) {
    Contains(line, "Memory Device")
  }

  predicate IsPopulatedSize(line: string) {
    HasPrefix(line, "Size:") && !Contains(line, "No Module Installed")
  }

  /** Up to the first space: the first element of strings.Split(s, " "). */
  function FirstWord(s: string): string {
    Split(s, ' ')[0]
  }

  function SpeedOf(line: string): Option<nat> {
    if HasPrefix(line, "Speed:") then
      var info := TrimSpace(line[6..]);
      if Contains(info, "MT/s") then ParseUint(FirstWord(info)) else None
    else None
  }

  function FormFactorOf(line: string): Option<string> {
    if HasPrefix(line, "Form Factor:") then
      var formFactor := TrimSpace(line[12..]);
      if formFactor != "Unknown" then Some(formFactor) else None
    else None
  }

  /** A line as the scan sees it. */
  datatype Line = Line(header: bool, blank: bool, populated: bool, speed: Option<nat>, formFactor: Option<string>)

  /** What a trimmed line says. */
  function Read(line: string): Line {
    Line(MentionsDevice(line), line == "", IsPopulatedSize(line), SpeedOf(line), FormFactorOf(line))
  }

  function ReadAll(texts: seq<string>): (lines: seq<Line>)
    ensures |lines| == |texts| && forall i :: 0 <= i < |lines| ==> lines[i] == Read(TrimSpace(texts[i]))
  {
    seq(|texts|, i requires 0 <= i < |texts| => Read(TrimSpace(texts[i])))
  }

  // ---- What the lines mean together ----

  /** A header at `j` still governs line `i`: no blank line lies between them. */
  ghost predicate Governs(lines: seq<Line>, j: nat, i: nat)
    requires j <= i <= |lines|
  {
    j < |lines| && lines[j].header && forall k :: j <= k < i ==> !lines[k].blank
  }

  /** Line `i` is at or below a device header of its own block. */
  ghost predicate InDevice(lines: seq<Line>, i: nat)
    requires i < |lines|
  {
    exists j :: 0 <= j <= i && Governs(lines, j, i)
  }

  /** The flag between two lines: some header above is still open. */
  ghost predicate Open(lines: seq<Line>, i: nat)
    requires i <= |lines|
  {
    exists j :: 0 <= j < i && Governs(lines, j, i)
  }

  /** Line `i` of a device reports an installed module. */
  ghost predicate IsPopulated(lines: seq<Line>, i: nat)
    requires i < |lines|
  {
    InDevice(lines, i) && lines[i].populated
  }

  /** How many of the first `n` lines are headers. */
  function Headers(lines: seq<Line>, n: nat): nat
    requires n <= |lines|
  {
    if n == 0 then 0 else Headers(lines, n - 1) + (if lines[n - 1].header then 1 else 0)
  }

  /** How many of the first `n` lines report an installed module of a device. */
  ghost function Populated(lines: seq<Line>, n: nat): nat
    requires n <= |lines|
  {
    if n == 0 then 0 else Populated(lines, n - 1) + (if IsPopulated(lines, n - 1) then 1 else 0)
  }

  /** Line `i` of a device gives a usable speed; a parsed speed of 0 leaves the field unset. */
  ghost predicate GivesSpeed(lines: seq<Line>, i: nat)
    requires i < |lines|
  {
    InDevice(lines, i) && lines[i].speed.Some? && lines[i].speed.value != 0
  }

  ghost predicate GivesFormFactor(lines: seq<Line>, i: nat)
    requires i < |lines|
  {
    InDevice(lines, i) && lines[i].formFactor.Some? && lines[i].formFactor.value != ""
  }

  /** `speed` is the one of the first of the lines below `n` that gives one, else 0. */
  ghost predicate IsFirstSpeed(lines: seq<Line>, n: nat, speed: nat)
    requires n <= |lines|
  {
    if speed == 0 then forall i :: 0 <= i < n ==> !GivesSpeed(lines, i)
    else exists i :: 0 <= i < n && GivesSpeed(lines, i) && lines[i].speed == Some(speed)
                     && forall j :: 0 <= j < i ==> !GivesSpeed(lines, j)
  }

  ghost predicate IsFirstFormFactor(lines: seq<Line>, n: nat, formFactor: string)
    requires n <= |lines|
  {
    if formFactor == "" then forall i :: 0 <= i < n ==> !GivesFormFactor(lines, i)
    else exists i :: 0 <= i < n && GivesFormFactor(lines, i) && lines[i].formFactor == Some(formFactor)
                     && forall j :: 0 <= j < i ==> !GivesFormFactor(lines, j)
  }

  // ---- The loop ----

  function Uint16(n: nat): nat {
    n % 0x1_0000
  }

  lemma Wraps(n: nat)
    ensures Uint16(Uint16(n) + 1) == Uint16(n + 1)
  {
  }

  /** The loop's variables. */
  datatype Progress = Progress(
    totalSlots: nat, usedSlots: nat, inMemoryDevice: bool, dataRate: nat, formFactor: string)

  function NextSpeed(speed: nat, line: Line): nat {
    if speed == 0 && line.speed.Some? then line.speed.value else speed
  }

  function NextFormFactor(formFactor: string, line: Line): string {
    if formFactor == "" && line.formFactor.Some? then line.formFactor.value else formFactor
  }

  /** One turn of the loop. */
  function Next(p: Progress, line: Line): Progress {
    var inDevice := p.inMemoryDevice || line.header;
    Progress(
      if line.header then Uint16(p.totalSlots + 1) else p.totalSlots,
      if inDevice && line.populated then Uint16(p.usedSlots + 1) else p.usedSlots,
      inDevice && !line.blank,
      if inDevice then NextSpeed(p.dataRate, line) else p.dataRate,
      if inDevice then NextFormFactor(p.formFactor, line) else p.formFactor)
  }

  // ---- What a listing says, as text ----

  /** A line of a device block other than its size. */
  datatype Field = Speed(digits: string) | NoSpeed(text: string) | FormFactor(text: string) | Other(line: string)

  /** A device block with its one size line, or lines that belong to other blocks. */
  datatype Block = Device(title: string, before: seq<Field>, size: string, after: seq<Field>)
                 | OtherBlock(lines: seq<string>)

  function SpeedText(digits: string): string {
    "Speed: " + digits + " MT/s"
  }

  function FieldText(f: Field): string {
    match f
    case Speed(digits) => "\t" + SpeedText(digits)
    case NoSpeed(text) => "\t" + ("Speed: " + text)
    case FormFactor(text) => "\t" + ("Form Factor: " + text)
    case Other(line) => "\t" + line
  }

  function FieldTexts(fields: seq<Field>): (texts: seq<string>)
    ensures |texts| == |fields| && forall k :: 0 <= k < |texts| ==> texts[k] == FieldText(fields[k])
  {
    seq(|fields|, k requires 0 <= k < |fields| => FieldText(fields[k]))
  }

  function SizeText(size: string): string {
    "\t" + ("Size: " + size)
  }

  function BlockTexts(b: Block): seq<string> {
    match b
    case Device(title, before, size, after) =>
      [title] + FieldTexts(before) + [SizeText(size)] + FieldTexts(after) + [""]
    case OtherBlock(lines) => lines
  }

  function Listing(blocks: seq<Block>): seq<string> {
    if blocks == [] then [] else Listing(blocks[..|blocks| - 1]) + BlockTexts(blocks[|blocks| - 1])
  }

  /** Something is there, with no white space around it, and it is not the header. */
  predicate IsPlain(text: string) {
    text != "" && !IsSpace(text[0]) && !IsSpace(text[|text| - 1]) && !MentionsDevice(text)
  }

  predicate IsProperField(f: Field) {
    match f
    case Speed(digits) => digits != "" && AllDigits(digits)
    case NoSpeed(text) => IsPlain(text) && !Contains(text, "MT/s")
    case FormFactor(text) => IsPlain(text)
    case Other(line) =>
      IsPlain(line) && !HasPrefix(line, "Size:") && !HasPrefix(line, "Speed:") && !HasPrefix(line, "Form Factor:")
  }

  predicate AreProper(fields: seq<Field>) {
    forall k :: 0 <= k < |fields| ==> IsProperField(fields[k])
  }

  /** `Memory Device`, or a longer title that mentions it. */
  predicate IsTitle(title: string) {
    && title != "" && !IsSpace(title[0]) && !IsSpace(title[|title| - 1]) && Contains(title, "Memory Device")
    && !HasPrefix(title, "Size:") && !HasPrefix(title, "Speed:") && !HasPrefix(title, "Form Factor:")
  }

  /** Lines of other blocks may say what they like, as long as they do not mention a device. */
  predicate IsProperBlock(b: Block) {
    match b
    case Device(title, before, size, after) =>
      IsTitle(title) && AreProper(before) && IsPlain(size) && AreProper(after)
    case OtherBlock(lines) => forall k :: 0 <= k < |lines| ==> !MentionsDevice(TrimSpace(lines[k]))
  }

  ghost predicate IsListing(texts: seq<string>, blocks: seq<Block>) {
    texts == Listing(blocks) && forall k :: 0 <= k < |blocks| ==> IsProperBlock(blocks[k])
  }

  function Devices(blocks: seq<Block>): nat {
    if blocks == [] then 0 else Devices(blocks[..|blocks| - 1]) + (if blocks[|blocks| - 1].Device? then 1 else 0)
  }

  predicate HasModule(b: Block) {
    b.Device? && !Contains(b.size, "No Module Installed")
  }

  function Modules(blocks: seq<Block>): nat {
    if blocks == [] then 0 else Modules(blocks[..|blocks| - 1]) + (if HasModule(blocks[|blocks| - 1]) then 1 else 0)
  }

  /** The lines of all device blocks but the sizes, in order. */
  function Fields(blocks: seq<Block>): seq<Field> {
    if blocks == [] then []
    else
      var last := blocks[|blocks| - 1];
      Fields(blocks[..|blocks| - 1]) + if last.Device? then last.before + last.after else []
  }

  /** The rate a line gives: its digits, if they are a uint64 other than 0. */
  function RateOf(f: Field): nat {
    if f.Speed? && AllDigits(f.digits) && DigitsValue(f.digits) < 0x1_0000_0000_0000_0000 then DigitsValue(f.digits)
    else 0
  }

  ghost predicate IsFirstRate(fields: seq<Field>, rate: nat) {
    if rate == 0 then forall i :: 0 <= i < |fields| ==> RateOf(fields[i]) == 0
    else exists i :: 0 <= i < |fields| && RateOf(fields[i]) == rate && forall j :: 0 <= j < i ==> RateOf(fields[j]) == 0
  }

  predicate GivesForm(f: Field) {
    f.FormFactor? && f.text != "Unknown" && f.text != ""
  }

  ghost predicate IsFirstForm(fields: seq<Field>, formFactor: string) {
    if formFactor == "" then forall i :: 0 <= i < |fields| ==> !GivesForm(fields[i])
    else exists i :: 0 <= i < |fields| && GivesForm(fields[i]) && fields[i].text == formFactor
                     && forall j :: 0 <= j < i ==> !GivesForm(fields[j])
  }

  // ---- How its lines are read ----

  lemma BeginsWithSize(line: string)
    requires HasPrefix(line, "Size:")
    ensures line != "" && SpeedOf(line) == None && FormFactorOf(line) == None
  {
    assert line[0] == 'S' && line[1] == 'i' && "Speed:"[1] == 'p' && "Form Factor:"[0] == 'F';
  }

  lemma BeginsWithSpeed(line: string)
    requires HasPrefix(line, "Speed:")
    ensures line != "" && !IsPopulatedSize(line) && FormFactorOf(line) == None
  {
    assert line[0] == 'S' && line[1] == 'p' && "Size:"[1] == 'i' && "Form Factor:"[0] == 'F';
  }

  lemma BeginsWithFormFactor(line: string)
    requires HasPrefix(line, "Form Factor:")
    ensures line != "" && !IsPopulatedSize(line) && SpeedOf(line) == None
  {
    assert line[0] == 'F' && "Size:"[0] == 'S' && "Speed:"[0] == 'S';
  }

  lemma SizeIsRead(size: string)
    requires IsPlain(size)
    ensures Read(TrimSpace(SizeText(size))) == SizeLineOf(!Contains(size, "No Module Installed"))
  {
    var body := "Size: " + size;
    assert body[0] == 'S' && body[|body| - 1] == size[|size| - 1] && body[..5] == "Size:";
    IndentIsTrimmed(body);
    BeginsWithSize(body);
    OccursBehind("Size: ", size, "Memory Device");
    SizeIsJudged(size);
  }

  lemma SizeIsJudged(size: string)
    ensures IsPopulatedSize("Size: " + size) <==> !Contains(size, "No Module Installed")
  {
    assert ("Size: " + size)[..5] == "Size:";
    OccursBehind("Size: ", size, "No Module Installed");
  }

  lemma RateWithUnit(digits: string)
    ensures Contains(digits + " MT/s", "MT/s")
    ensures AllDigits(digits) ==> FirstWord(digits + " MT/s") == digits
  {
    var info := digits + " MT/s";
    assert info[|digits| + 1..] == "MT/s";
    assert OccursAt(info, "MT/s", |digits| + 1);
    assert info == digits + [' '] + "MT/s";
    if AllDigits(digits) {
      FirstPart(digits, ' ', "MT/s");
    }
  }

  lemma SpeedIsParsed(digits: string)
    requires digits != "" && AllDigits(digits)
    ensures SpeedOf(SpeedText(digits)) == ParseUint(digits)
  {
    var body, info := SpeedText(digits), digits + " MT/s";
    assert body[..6] == "Speed:" && body[6..] == " " + info;
    assert info[0] == digits[0] && info[|info| - 1] == 's';
    IndentIsTrimmed(info);
    RateWithUnit(digits);
  }

  lemma SpeedIsNoHeader(digits: string)
    requires AllDigits(digits)
    ensures !MentionsDevice(SpeedText(digits))
  {
    assert 'y' !in SpeedText(digits) && "Memory Device"[5] == 'y';
    if MentionsDevice(SpeedText(digits)) {
      OccursWithItsChars(SpeedText(digits), "Memory Device", 'y');
      assert false;
    }
  }

  lemma SpeedIsRead(digits: string)
    requires digits != "" && AllDigits(digits)
    ensures Read(TrimSpace(FieldText(Speed(digits)))) == FieldLine(Speed(digits))
  {
    var body := SpeedText(digits);
    assert body[0] == 'S' && body[|body| - 1] == 's' && body[..6] == "Speed:";
    IndentIsTrimmed(body);
    BeginsWithSpeed(body);
    SpeedIsNoHeader(digits);
    SpeedIsParsed(digits);
  }

  lemma NoSpeedIsParsed(text: string)
    requires IsPlain(text) && !Contains(text, "MT/s")
    ensures SpeedOf("Speed: " + text) == None
  {
    var body := "Speed: " + text;
    assert body[..6] == "Speed:" && body[6..] == " " + text;
    IndentIsTrimmed(text);
  }

  lemma NoSpeedIsRead(text: string)
    requires IsPlain(text) && !Contains(text, "MT/s")
    ensures Read(TrimSpace(FieldText(NoSpeed(text)))) == FieldLine(NoSpeed(text))
  {
    var body := "Speed: " + text;
    assert body[0] == 'S' && body[|body| - 1] == text[|text| - 1] && body[..6] == "Speed:";
    IndentIsTrimmed(body);
    BeginsWithSpeed(body);
    OccursBehind("Speed: ", text, "Memory Device");
    NoSpeedIsParsed(text);
  }

  lemma FormFactorIsParsed(text: string)
    requires IsPlain(text)
    ensures FormFactorOf("Form Factor: " + text) == if text == "Unknown" then None else Some(text)
  {
    var body := "Form Factor: " + text;
    assert body[..12] == "Form Factor:" && body[12..] == " " + text;
    IndentIsTrimmed(text);
  }

  lemma FormFactorIsRead(text: string)
    requires IsPlain(text)
    ensures Read(TrimSpace(FieldText(FormFactor(text)))) == FieldLine(FormFactor(text))
  {
    var body := "Form Factor: " + text;
    assert body[0] == 'F' && body[|body| - 1] == text[|text| - 1] && body[..12] == "Form Factor:";
    IndentIsTrimmed(body);
    BeginsWithFormFactor(body);
    OccursBehind("Form Factor: ", text, "Memory Device");
    FormFactorIsParsed(text);
  }

  const HEADER: Line := Line(true, false, false, None, None)
  const BLANK: Line := Line(false, true, false, None, None)

  function SizeLineOf(installed: bool): Line {
    Line(false, false, installed, None, None)
  }

  /** What the scan makes of another line of a device block. */
  function FieldLine(f: Field): Line {
    Line(false, false, false,
         if f.Speed? then ParseUint(f.digits) else None,
         if f.FormFactor? && f.text != "Unknown" then Some(f.text) else None)
  }

  function FieldLines(fields: seq<Field>): (lines: seq<Line>)
    ensures |lines| == |fields| && forall k :: 0 <= k < |lines| ==> lines[k] == FieldLine(fields[k])
  {
    seq(|fields|, k requires 0 <= k < |fields| => FieldLine(fields[k]))
  }

  lemma FieldIsRead(f: Field)
    requires IsProperField(f)
    ensures Read(TrimSpace(FieldText(f))) == FieldLine(f)
  {
    match f
    case Speed(digits) => SpeedIsRead(digits);
    case NoSpeed(text) => NoSpeedIsRead(text);
    case FormFactor(text) => FormFactorIsRead(text);
    case Other(line) => IndentIsTrimmed(line);
  }

  lemma FieldsAreRead(fields: seq<Field>)
    requires AreProper(fields)
    ensures ReadAll(FieldTexts(fields)) == FieldLines(fields)
  {
    forall k | 0 <= k < |fields| ensures ReadAll(FieldTexts(fields))[k] == FieldLines(fields)[k] {
      FieldIsRead(fields[k]);
    }
  }

  lemma TitleAndBlankAreRead(title: string)
    requires IsTitle(title)
    ensures Read(TrimSpace(title)) == HEADER && Read(TrimSpace("")) == BLANK
  {
    AroundIsTrimmed("", title, "");
    TooShort("", "Memory Device");
  }

  /** The usual title is one. */
  lemma UsualTitle()
    ensures IsTitle("Memory Device")
  {
    assert OccursAt("Memory Device", "Memory Device", 0);
    assert "Memory Device"[0] == 'M' && "Speed:"[0] == 'S' && "Form Factor:"[0] == 'F' && "Size:"[0] == 'S';
  }

  lemma ReadBoth(a: seq<string>, b: seq<string>)
    ensures ReadAll(a + b) == ReadAll(a) + ReadAll(b)
  {
  }

  function DeviceLines(before: seq<Field>, installed: bool, after: seq<Field>): seq<Line> {
    [HEADER] + FieldLines(before) + [SizeLineOf(installed)] + FieldLines(after) + [BLANK]
  }

  lemma DeviceIsRead(b: Block)
    requires b.Device? && IsProperBlock(b)
    ensures ReadAll(BlockTexts(b)) == DeviceLines(b.before, HasModule(b), b.after)
  {
    var head, size := [b.title], [SizeText(b.size)];
    var begin, after := FieldTexts(b.before), FieldTexts(b.after);
    TitleAndBlankAreRead(b.title);
    SizeIsRead(b.size);
    FieldsAreRead(b.before);
    FieldsAreRead(b.after);
    ReadBoth(head, begin);
    ReadBoth(head + begin, size);
    ReadBoth(head + begin + size, after);
    ReadBoth(head + begin + size + after, [""]);
    assert ReadAll(head) == [HEADER] && ReadAll(size) == [SizeLineOf(HasModule(b))] && ReadAll([""]) == [BLANK];
  }

  // ---- What the scan makes of the whole ----

  /** The loop's variables after `lines`. */
  function After(p: Progress, lines: seq<Line>): Progress {
    if lines == [] then p else Next(After(p, lines[..|lines| - 1]), lines[|lines| - 1])
  }

  const AT_START: Progress := Progress(0, 0, false, 0, "")

  lemma {:induction false} AfterBoth(p: Progress, a: seq<Line>, b: seq<Line>)
    ensures After(p, a + b) == After(After(p, a), b)
    decreases |b|
  {
    if b == [] {
      assert a + b == a;
    } else {
      assert (a + b)[..|a + b| - 1] == a + b[..|b| - 1];
      AfterBoth(p, a, b[..|b| - 1]);
    }
  }

  lemma AfterMore(p: Progress, lines: seq<Line>, line: Line)
    ensures After(p, lines + [line]) == Next(After(p, lines), line)
  {
    assert (lines + [line])[..|lines|] == lines;
  }

  /** The speed and the form factor found so far. */
  datatype Found = Found(rate: nat, formFactor: string)

  const NOTHING: Found := Found(0, "")

  function Finds(found: Found, f: Field): Found {
    Found(if found.rate == 0 then RateOf(f) else found.rate,
          if found.formFactor == "" && GivesForm(f) then f.text else found.formFactor)
  }

  function FindsAll(found: Found, fields: seq<Field>): Found {
    if fields == [] then found else Finds(FindsAll(found, fields[..|fields| - 1]), fields[|fields| - 1])
  }

  lemma {:induction false} FindsBoth(found: Found, a: seq<Field>, b: seq<Field>)
    ensures FindsAll(found, a + b) == FindsAll(FindsAll(found, a), b)
    decreases |b|
  {
    if b == [] {
      assert a + b == a;
    } else {
      assert (a + b)[..|a + b| - 1] == a + b[..|b| - 1];
      FindsBoth(found, a, b[..|b| - 1]);
    }
  }

  /** What is found is the first of each. */
  lemma {:induction false} FindsTheFirst(fields: seq<Field>)
    ensures IsFirstRate(fields, FindsAll(NOTHING, fields).rate)
    ensures IsFirstForm(fields, FindsAll(NOTHING, fields).formFactor)
  {
    if fields != [] {
      var n := |fields| - 1;
      FindsTheFirst(fields[..n]);
      assert forall i :: 0 <= i < n ==> fields[..n][i] == fields[i];
    }
  }

  /** What is found in the devices of a listing. */
  function FoundIn(blocks: seq<Block>): Found {
    if blocks == [] then NOTHING
    else
      var earlier, last := FoundIn(blocks[..|blocks| - 1]), blocks[|blocks| - 1];
      if last.Device? then FindsAll(FindsAll(earlier, last.before), last.after) else earlier
  }

  lemma {:induction false} FoundInFields(blocks: seq<Block>)
    ensures FoundIn(blocks) == FindsAll(NOTHING, Fields(blocks))
  {
    if blocks != [] {
      var before, last := blocks[..|blocks| - 1], blocks[|blocks| - 1];
      FoundInFields(before);
      if last.Device? {
        FindsBoth(NOTHING, Fields(before), last.before + last.after);
        FindsBoth(FoundIn(before), last.before, last.after);
      } else {
        assert Fields(before) + [] == Fields(before);
      }
    }
  }

  /** The variables when these many devices and modules have been seen and this has been found. */
  function Told(devices: nat, modules: nat, inDevice: bool, found: Found): Progress {
    Progress(Uint16(devices), Uint16(modules), inDevice, found.rate, found.formFactor)
  }

  lemma FieldIsTold(devices: nat, modules: nat, found: Found, f: Field)
    requires IsProperField(f)
    ensures Next(Told(devices, modules, true, found), FieldLine(f)) == Told(devices, modules, true, Finds(found, f))
  {
  }

  lemma {:induction false} FieldsAreTold(devices: nat, modules: nat, found: Found, fields: seq<Field>)
    requires AreProper(fields)
    ensures After(Told(devices, modules, true, found), FieldLines(fields)) ==
            Told(devices, modules, true, FindsAll(found, fields))
  {
    if fields != [] {
      var n := |fields| - 1;
      FieldsAreTold(devices, modules, found, fields[..n]);
      FieldIsTold(devices, modules, FindsAll(found, fields[..n]), fields[n]);
      assert FieldLines(fields) == FieldLines(fields[..n]) + [FieldLine(fields[n])];
      AfterMore(Told(devices, modules, true, found), FieldLines(fields[..n]), FieldLine(fields[n]));
    }
  }

  lemma DeviceBegins(devices: nat, modules: nat, found: Found)
    ensures Next(Told(devices, modules, false, found), HEADER) == Told(devices + 1, modules, true, found)
  {
    Wraps(devices);
  }

  lemma SizeIsTold(devices: nat, modules: nat, found: Found, installed: bool)
    ensures Next(Told(devices, modules, true, found), SizeLineOf(installed)) ==
            Told(devices, modules + (if installed then 1 else 0), true, found)
  {
    Wraps(modules);
  }

  lemma DeviceEnds(devices: nat, modules: nat, found: Found)
    ensures Next(Told(devices, modules, true, found), BLANK) == Told(devices, modules, false, found)
  {
  }

  lemma {:induction false} OthersAreIgnored(p: Progress, lines: seq<Line>)
    requires !p.inMemoryDevice && forall k :: 0 <= k < |lines| ==> !lines[k].header
    ensures After(p, lines) == p
  {
    if lines != [] {
      OthersAreIgnored(p, lines[..|lines| - 1]);
    }
  }

  function AfterDevice(p: Progress, before: seq<Field>, installed: bool, after: seq<Field>): Progress {
    Next(After(Next(After(Next(p, HEADER), FieldLines(before)), SizeLineOf(installed)), FieldLines(after)), BLANK)
  }

  lemma AfterDeviceLines(p: Progress, before: seq<Field>, installed: bool, after: seq<Field>)
    ensures After(p, DeviceLines(before, installed, after)) == AfterDevice(p, before, installed, after)
  {
    var a, b := FieldLines(before), FieldLines(after);
    AfterMore(p, [], HEADER);
    assert [] + [HEADER] == [HEADER];
    AfterBoth(p, [HEADER], a);
    AfterMore(p, [HEADER] + a, SizeLineOf(installed));
    AfterBoth(p, [HEADER] + a + [SizeLineOf(installed)], b);
    AfterMore(p, [HEADER] + a + [SizeLineOf(installed)] + b, BLANK);
  }

  lemma DeviceIsTold(devices: nat, modules: nat, found: Found, before: seq<Field>, installed: bool, after: seq<Field>)
    requires AreProper(before) && AreProper(after)
    ensures AfterDevice(Told(devices, modules, false, found), before, installed, after) ==
            Told(devices + 1, modules + (if installed then 1 else 0), false,
                 FindsAll(FindsAll(found, before), after))
  {
    var more, half := modules + (if installed then 1 else 0), FindsAll(found, before);
    DeviceBegins(devices, modules, found);
    FieldsAreTold(devices + 1, modules, found, before);
    SizeIsTold(devices + 1, modules, half, installed);
    FieldsAreTold(devices + 1, more, half, after);
    DeviceEnds(devices + 1, more, FindsAll(half, after));
  }

  lemma AfterLine(lines: seq<Line>, i: nat)
    requires i < |lines|
    ensures After(AT_START, lines[..i + 1]) == Next(After(AT_START, lines[..i]), lines[i])
  {
    assert lines[..i + 1][..i] == lines[..i];
  }

  /** What the blocks come to, and one more of them. */
  datatype Tally = Tally(devices: nat, modules: nat, found: Found) {
    function Between(): Progress {
      Told(devices, modules, false, found)
    }

    function Add(b: Block): Tally {
      if b.Device? then Tally(devices + 1, modules + (if HasModule(b) then 1 else 0),
                              FindsAll(FindsAll(found, b.before), b.after))
      else this
    }
  }

  function TallyOf(blocks: seq<Block>): Tally {
    if blocks == [] then Tally(0, 0, NOTHING) else TallyOf(blocks[..|blocks| - 1]).Add(blocks[|blocks| - 1])
  }

  lemma {:induction false} TallyCounts(blocks: seq<Block>)
    ensures TallyOf(blocks) == Tally(Devices(blocks), Modules(blocks), FoundIn(blocks))
  {
    if blocks != [] {
      TallyCounts(blocks[..|blocks| - 1]);
    }
  }

  lemma AfterDeviceTexts(p: Progress, b: Block)
    requires b.Device? && IsProperBlock(b)
    ensures After(p, ReadAll(BlockTexts(b))) == AfterDevice(p, b.before, HasModule(b), b.after)
  {
    DeviceIsRead(b);
    AfterDeviceLines(p, b.before, HasModule(b), b.after);
  }

  lemma DeviceIsAdded(tally: Tally, b: Block)
    requires b.Device? && AreProper(b.before) && AreProper(b.after)
    ensures AfterDevice(tally.Between(), b.before, HasModule(b), b.after) == tally.Add(b).Between()
  {
    DeviceIsTold(tally.devices, tally.modules, tally.found, b.before, HasModule(b), b.after);
  }

  lemma BlockIsTold(tally: Tally, b: Block)
    requires IsProperBlock(b)
    ensures After(tally.Between(), ReadAll(BlockTexts(b))) == tally.Add(b).Between()
  {
    if b.Device? {
      AfterDeviceTexts(tally.Between(), b);
      DeviceIsAdded(tally, b);
    } else {
      OthersAreIgnored(tally.Between(), ReadAll(b.lines));
    }
  }

  lemma AfterTexts(p: Progress, a: seq<string>, b: seq<string>)
    ensures After(p, ReadAll(a + b)) == After(After(p, ReadAll(a)), ReadAll(b))
  {
    ReadBoth(a, b);
    AfterBoth(p, ReadAll(a), ReadAll(b));
  }

  /** Where the loop stands after a listing. */
  lemma {:induction false} ListingIsTold(texts: seq<string>, blocks: seq<Block>)
    requires IsListing(texts, blocks)
    ensures After(AT_START, ReadAll(texts)) == TallyOf(blocks).Between()
    decreases |blocks|
  {
    if blocks == [] {
      assert ReadAll(texts) == [];
    } else {
      var before, last := blocks[..|blocks| - 1], blocks[|blocks| - 1];
      ListingIsTold(Listing(before), before);
      AfterTexts(AT_START, Listing(before), BlockTexts(last));
      BlockIsTold(TallyOf(before), last);
    }
  }

  /**
   What the hardware information says of a listing of device blocks between other lines: one slot for each device
   block, a used one for each whose size does not say that nothing is installed, the first usable speed and the first
   known form factor of the devices.
   */
  ghost predicate Reports(blocks: seq<Block>, totalSlots: nat, usedSlots: nat, dataRate: nat, formFactor: string) {
    && totalSlots == Uint16(Devices(blocks)) && usedSlots == Uint16(Modules(blocks))
    && IsFirstRate(Fields(blocks), dataRate) && IsFirstForm(Fields(blocks), formFactor)
  }

  lemma ListingsAreReported(texts: seq<string>)
    ensures var p := After(AT_START, ReadAll(texts));
            forall blocks :: IsListing(texts, blocks) ==>
              Reports(blocks, p.totalSlots, p.usedSlots, p.dataRate, p.formFactor)
  {
    var p := After(AT_START, ReadAll(texts));
    forall blocks | IsListing(texts, blocks)
      ensures Reports(blocks, p.totalSlots, p.usedSlots, p.dataRate, p.formFactor)
    {
      ListingIsTold(texts, blocks);
      TallyCounts(blocks);
      FoundInFields(blocks);
      FindsTheFirst(Fields(blocks));
    }
  }

  // ---- The loop itself ----

  class HardwareInfo {
    var dataRate: nat
    var formFactor: string
    var totalSlotCount: nat   // uint16
    var usingSlotCount: nat   // uint16

    constructor ()
      ensures dataRate == 0 && formFactor == ""
    {
      dataRate, formFactor, totalSlotCount, usingSlotCount := 0, "", 0, 0;
    }

    method Scan(texts: seq<string>)
      requires dataRate == 0 && formFactor == ""
      modifies this
      ensures IsReading(texts, totalSlotCount, usingSlotCount, dataRate, formFactor)
    {
      var totalSlots, usedSlots, inMemoryDevice := ScanLines(texts);
      ScanConcludes(texts, totalSlots, usedSlots, inMemoryDevice, dataRate, formFactor);
      totalSlotCount := totalSlots;
      usingSlotCount := usedSlots;
    }

    method ScanLines(texts: seq<string>) returns (totalSlots: nat, usedSlots: nat, inMemoryDevice: bool)
      requires dataRate == 0 && formFactor == ""
      modifies this`dataRate, this`formFactor
      ensures Progress(totalSlots, usedSlots, inMemoryDevice, dataRate, formFactor) == After(AT_START, ReadAll(texts))
    {
      ghost var lines := ReadAll(texts);
      totalSlots, usedSlots, inMemoryDevice := 0, 0, false;
      for i := 0 to |texts|
        invariant Progress(totalSlots, usedSlots, inMemoryDevice, dataRate, formFactor) == After(AT_START, lines[..i])
      {
        AfterLine(lines, i);
        totalSlots, usedSlots, inMemoryDevice :=
          ReadLine(TrimSpace(texts[i]), lines[i], totalSlots, usedSlots, inMemoryDevice);
      }
      assert lines[..|texts|] == lines;
    }

    /** The body of the loop. */
    method ReadLine(line: string, ghost said: Line, total: nat, used: nat, open: bool)
      returns (totalSlots: nat, usedSlots: nat, inMemoryDevice: bool)
      requires said == Read(line)
      modifies this`dataRate, this`formFactor
      ensures Progress(totalSlots, usedSlots, inMemoryDevice, dataRate, formFactor) ==
              Next(Progress(total, used, open, old(dataRate), old(formFactor)), said)
    {
      totalSlots, usedSlots, inMemoryDevice := total, used, open;
      if MentionsDevice(line) {
        inMemoryDevice := true;
        totalSlots := Uint16(totalSlots + 1);
      }
      if inMemoryDevice {
        if IsPopulatedSize(line) {
          usedSlots := Uint16(usedSlots + 1);
        }
        ReadSpeed(line);
        ReadFormFactor(line);
      }
      if line == "" {
        inMemoryDevice := false;
      }
    }

    method ReadSpeed(line: string)
      modifies this`dataRate
      ensures dataRate == NextSpeed(old(dataRate), Read(line))
    {
      if HasPrefix(line, "Speed:") && dataRate == 0 {
        var speedInfo := TrimSpace(line[6..]);
        if Contains(speedInfo, "MT/s") {
          var speed := ParseUint(FirstWord(speedInfo));
          if speed.Some? {
            dataRate := speed.value;
          }
        }
      }
    }

    method ReadFormFactor(line: string)
      modifies this`formFactor
      ensures formFactor == NextFormFactor(old(formFactor), Read(line))
    {
      if HasPrefix(line, "Form Factor:") && formFactor == "" {
        var factor := TrimSpace(line[12..]);
        if factor != "Unknown" {
          formFactor := factor;
        }
      }
    }
  }

  /** What the loop's variables say about the first `n` lines. */
  ghost predicate Scanned(lines: seq<Line>, n: nat, p: Progress)
    requires n <= |lines|
  {
    && p.totalSlots == Uint16(Headers(lines, n))
    && p.usedSlots == Uint16(Populated(lines, n))
    && (p.inMemoryDevice <==> Open(lines, n))
    && IsFirstSpeed(lines, n, p.dataRate)
    && IsFirstFormFactor(lines, n, p.formFactor)
  }

  lemma ScanLine(lines: seq<Line>, i: nat, p: Progress)
    requires i < |lines| && Scanned(lines, i, p)
    ensures Scanned(lines, i + 1, Next(p, lines[i]))
  {
    FlagLine(lines, i);
    Wraps(Headers(lines, i));
    Wraps(Populated(lines, i));
    SpeedLine(lines, i, p.dataRate);
    FormFactorLine(lines, i, p.formFactor);
  }

  lemma {:induction false} AfterIsScanned(lines: seq<Line>, n: nat)
    requires n <= |lines|
    ensures Scanned(lines, n, After(AT_START, lines[..n]))
  {
    if n == 0 {
    } else {
      AfterIsScanned(lines, n - 1);
      assert lines[..n][..n - 1] == lines[..n - 1];
      ScanLine(lines, n - 1, After(AT_START, lines[..n - 1]));
    }
  }

  /** What the four figures mean, line by line and for a listing of blocks. */
  ghost predicate IsReading(texts: seq<string>, totalSlots: nat, usedSlots: nat, dataRate: nat, formFactor: string) {
    var lines := ReadAll(texts);
    && totalSlots == Uint16(Headers(lines, |lines|))
    && usedSlots == Uint16(Populated(lines, |lines|))
    && IsFirstSpeed(lines, |lines|, dataRate)
    && IsFirstFormFactor(lines, |lines|, formFactor)
    && forall blocks :: IsListing(texts, blocks) ==> Reports(blocks, totalSlots, usedSlots, dataRate, formFactor)
  }

  lemma ScanConcludes(texts: seq<string>, totalSlots: nat, usedSlots: nat, inMemoryDevice: bool, dataRate: nat,
                      formFactor: string)
    requires Progress(totalSlots, usedSlots, inMemoryDevice, dataRate, formFactor) == After(AT_START, ReadAll(texts))
    ensures IsReading(texts, totalSlots, usedSlots, dataRate, formFactor)
  {
    var lines := ReadAll(texts);
    AfterIsScanned(lines, |lines|);
    assert lines[..|lines|] == lines;
    ListingsAreReported(texts);
  }

  lemma SpeedLine(lines: seq<Line>, i: nat, before: nat)
    requires i < |lines| && IsFirstSpeed(lines, i, before)
    ensures IsFirstSpeed(lines, i + 1, if InDevice(lines, i) then NextSpeed(before, lines[i]) else before)
  {
  }

  lemma FormFactorLine(lines: seq<Line>, i: nat, before: string)
    requires i < |lines| && IsFirstFormFactor(lines, i, before)
    ensures IsFirstFormFactor(lines, i + 1, if InDevice(lines, i) then NextFormFactor(before, lines[i]) else before)
  {
  }

  lemma FlagLine(lines: seq<Line>, i: nat)
    requires i < |lines|
    ensures InDevice(lines, i) <==> Open(lines, i) || lines[i].header
    ensures Open(lines, i + 1) <==> InDevice(lines, i) && !lines[i].blank
  {
    if lines[i].header {
      assert Governs(lines, i, i);
    }
    if InDevice(lines, i) && !lines[i].blank {
      var j :| 0 <= j <= i && Governs(lines, j, i);
      assert Governs(lines, j, i + 1);
    }
    if Open(lines, i + 1) {
      var j :| 0 <= j < i + 1 && Governs(lines, j, i + 1);
      assert Governs(lines, j, i);
      assert !lines[i].blank;
    }
  }

  // ---- Used slots against all slots ----

  ghost predicate HeaderBetween(lines: seq<Line>, a: nat, b: nat)
    requires b < |lines|
  {
    exists j :: a < j <= b && lines[j].header
  }

  /** An installed module below `n` after another one of the same header. */
  ghost predicate IsSurplus(lines: seq<Line>, i: nat)
    requires i < |lines|
  {
    IsPopulated(lines, i) && exists j :: 0 <= j < i && IsPopulated(lines, j) && !HeaderBetween(lines, j, i)
  }

  ghost function Surplus(lines: seq<Line>, n: nat): nat
    requires n <= |lines|
  {
    if n == 0 then 0 else Surplus(lines, n - 1) + (if IsSurplus(lines, n - 1) then 1 else 0)
  }

  /** Below `n`, header `h` has no installed module before the next header. */
  ghost predicate IsSpare(lines: seq<Line>, h: nat, n: nat)
    requires h < n <= |lines|
  {
    lines[h].header && forall i :: h <= i < n && IsPopulated(lines, i) ==> HeaderBetween(lines, h, i)
  }

  /** How many of the headers below `m` are spare among the first `n` lines. */
  ghost function SpareBelow(lines: seq<Line>, m: nat, n: nat): nat
    requires m <= n <= |lines|
  {
    if m == 0 then 0 else SpareBelow(lines, m - 1, n) + (if IsSpare(lines, m - 1, n) then 1 else 0)
  }

  ghost function Spare(lines: seq<Line>, n: nat): nat
    requires n <= |lines|
  {
    SpareBelow(lines, n, n)
  }

  lemma {:induction false} NearestHeader(lines: seq<Line>, j: nat, n: nat) returns (h: nat)
    requires j < n <= |lines| && lines[j].header
    ensures h < n && lines[h].header && forall k :: h < k < n ==> !lines[k].header
    decreases n
  {
    if lines[n - 1].header {
      h := n - 1;
    } else {
      h := NearestHeader(lines, j, n - 1);
    }
  }

  /** One more line ends no header's wait unless it is an installed module that the header is nearest to. */
  lemma StaysSpare(lines: seq<Line>, h: nat, n: nat)
    requires h < n < |lines| && (IsPopulated(lines, n) ==> HeaderBetween(lines, h, n))
    ensures IsSpare(lines, h, n + 1) == IsSpare(lines, h, n)
  {
  }

  lemma {:induction false} SameSpare(lines: seq<Line>, m: nat, n: nat)
    requires m <= n < |lines|
    requires forall h: nat :: h < m && lines[h].header && IsPopulated(lines, n) ==> HeaderBetween(lines, h, n)
    ensures SpareBelow(lines, m, n + 1) == SpareBelow(lines, m, n)
  {
    if m == 0 {
    } else {
      SameSpare(lines, m - 1, n);
      if lines[m - 1].header {
        StaysSpare(lines, m - 1, n);
      }
    }
  }

  /** An installed module on a line that is no header takes its nearest header, if that is still spare. */
  lemma {:induction false} TakesNearest(lines: seq<Line>, m: nat, n: nat, h: nat)
    requires h < m <= n < |lines| && IsPopulated(lines, n)
    requires lines[h].header && forall k :: h < k <= n ==> !lines[k].header
    ensures SpareBelow(lines, m, n + 1) == SpareBelow(lines, m, n) - (if IsSpare(lines, h, n) then 1 else 0)
    decreases m
  {
    if h == m - 1 {
      forall k: nat | k < m - 1 && lines[k].header ensures HeaderBetween(lines, k, n) {
        assert lines[h].header;
      }
      SameSpare(lines, m - 1, n);
      assert !HeaderBetween(lines, h, n);
      assert !IsSpare(lines, h, n + 1);
    } else {
      TakesNearest(lines, m - 1, n, h);
      assert !lines[m - 1].header;
    }
  }

  /** The module on line `n` is surplus exactly if its nearest header is not spare any more. */
  lemma SurplusExactly(lines: seq<Line>, n: nat, h: nat)
    requires h < n < |lines| && IsPopulated(lines, n)
    requires lines[h].header && forall k :: h < k <= n ==> !lines[k].header
    ensures IsSurplus(lines, n) <==> !IsSpare(lines, h, n)
  {
    if IsSurplus(lines, n) {
      var j :| 0 <= j < n && IsPopulated(lines, j) && !HeaderBetween(lines, j, n);
      assert j >= h;
      assert !HeaderBetween(lines, h, j);
    }
    if !IsSpare(lines, h, n) {
      var i :| h <= i < n && IsPopulated(lines, i) && !HeaderBetween(lines, h, i);
      assert !HeaderBetween(lines, i, n);
    }
  }

  /** Installed modules and spare headers balance headers and surplus modules, whatever the lines. */
  lemma {:induction false} SlotsBalance(lines: seq<Line>, n: nat)
    requires n <= |lines|
    ensures Populated(lines, n) + Spare(lines, n) == Headers(lines, n) + Surplus(lines, n)
  {
    if n == 0 {
    } else {
      var m := n - 1;
      SlotsBalance(lines, m);
      if lines[m].header {
        HeaderBalances(lines, m);
      } else if IsPopulated(lines, m) {
        var j :| 0 <= j <= m && Governs(lines, j, m);
        var h := NearestHeader(lines, j, m);
        TakesNearest(lines, m, m, h);
        SurplusExactly(lines, m, h);
      } else {
        SameSpare(lines, m, m);
      }
    }
  }

  /** A new header closes the segments above it and begins its own. */
  lemma HeaderBalances(lines: seq<Line>, m: nat)
    requires m < |lines| && lines[m].header
    ensures !IsSurplus(lines, m)
    ensures Spare(lines, m + 1) == Spare(lines, m) + (if IsPopulated(lines, m) then 0 else 1)
  {
    SameSpare(lines, m, m);
    assert IsSpare(lines, m, m + 1) <==> !IsPopulated(lines, m);
  }

  /**
   The reported counts, below 2^16: used slots are at most all slots exactly if there are no more surplus modules than
   spare headers.
   */
  lemma UsedAtMostTotalExactly(lines: seq<Line>)
    requires Headers(lines, |lines|) < 0x1_0000 && Populated(lines, |lines|) < 0x1_0000
    ensures Uint16(Populated(lines, |lines|)) <= Uint16(Headers(lines, |lines|)) <==>
              Surplus(lines, |lines|) <= Spare(lines, |lines|)
  {
    SlotsBalance(lines, |lines|);
    NoWrap(Populated(lines, |lines|));
    NoWrap(Headers(lines, |lines|));
  }

  lemma NoWrap(n: nat)
    requires n < 0x1_0000
    ensures Uint16(n) == n
  {
  }

  /** A device reports one installed module at most: between two such lines there is a header. */
  ghost predicate OneModulePerDevice(lines: seq<Line>) {
    forall a, b ::
      0 <= a < b < |lines| && IsPopulated(lines, a) && IsPopulated(lines, b) ==> HeaderBetween(lines, a, b)
  }

  lemma {:induction false} NoSurplus(lines: seq<Line>, n: nat)
    requires n <= |lines| && OneModulePerDevice(lines)
    ensures Surplus(lines, n) == 0
  {
    if n == 0 {
    } else {
      NoSurplus(lines, n - 1);
    }
  }

  /** Then installed modules and spare headers are all headers, in every prefix. */
  lemma UsedAtMostTotalBelow(lines: seq<Line>, n: nat)
    requires n <= |lines| && OneModulePerDevice(lines)
    ensures Populated(lines, n) + Spare(lines, n) == Headers(lines, n)
  {
    SlotsBalance(lines, n);
    NoSurplus(lines, n);
  }

  /** In particular with at most one installed module reported per device. */
  lemma UsedAtMostTotal(lines: seq<Line>)
    requires OneModulePerDevice(lines) && Headers(lines, |lines|) < 0x1_0000
    ensures Uint16(Populated(lines, |lines|)) <= Uint16(Headers(lines, |lines|))
  {
    UsedAtMostTotalBelow(lines, |lines|);
    NoWrap(Populated(lines, |lines|));
    NoWrap(Headers(lines, |lines|));
  }

  /** One header followed by two size lines: more used slots than slots. */
  lemma TwoSizeLinesOvercount(texts: seq<string>)
    requires texts == ["Memory Device", "Size: 1", "Size: 2"]
    ensures Headers(ReadAll(texts), 3) == 1 && Populated(ReadAll(texts), 3) == 2
  {
    DeviceLine();
    SizeLine("Size: 1", '1');
    SizeLine("Size: 2", '2');
    OneHeaderTwoSizes(ReadAll(texts));
  }

  lemma OneHeaderTwoSizes(lines: seq<Line>)
    requires |lines| == 3 && lines[0].header && !lines[0].blank && !lines[0].populated
    requires forall k :: 1 <= k < 3 ==> !lines[k].header && !lines[k].blank && lines[k].populated
    ensures Headers(lines, 3) == 1 && Populated(lines, 3) == 2
  {
    assert Governs(lines, 0, 1) && Governs(lines, 0, 2);
    assert IsPopulated(lines, 1) && IsPopulated(lines, 2) && !IsPopulated(lines, 0);
    for n := 0 to 3
      invariant Headers(lines, n) == (if n == 0 then 0 else 1)
      invariant Populated(lines, n) == (if n == 0 then 0 else n - 1)
    {
      OneLineMore(lines, n);
    }
  }

  lemma OneLineMore(lines: seq<Line>, n: nat)
    requires n < |lines|
    ensures Headers(lines, n + 1) == Headers(lines, n) + (if lines[n].header then 1 else 0)
    ensures Populated(lines, n + 1) == Populated(lines, n) + (if IsPopulated(lines, n) then 1 else 0)
  {
  }

  lemma DeviceLine()
    ensures var line := Read(TrimSpace("Memory Device")); line.header && !line.blank && !line.populated
  {
    assert TrimSpace("Memory Device") == "Memory Device";
    assert OccursAt("Memory Device", "Memory Device", 0);
    assert "Memory Device"[0] == 'M' && "Size:"[0] == 'S';
  }

  lemma SizeLine(text: string, digit: char)
    requires text == "Size: " + [digit] && IsDigit(digit)
    ensures var line := Read(TrimSpace(text)); !line.header && !line.blank && line.populated
  {
    assert text[0] == 'S' && text[6] == digit;
    assert TrimSpace(text) == text;
    assert |text| == 7;
    TooShort(text, "Memory Device");
    TooShort(text, "No Module Installed");
    assert text[..5] == "Size:";
  }

  lemma TooShort(s: string, sub: string)
    requires |s| < |sub|
    ensures !Contains(s, sub)
  {
  }
}
