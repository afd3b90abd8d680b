/**
 From a partition name to the disk that carries it: the memoised `getBlockDeviceFromPartition`
 and the recursive `getDiskInfo`.
 */
module BlockDevices {
  import opened GoStrings
  import opened Sequences
  import opened Wrappers

  /** What the two functions read below /sys/block. A directory that cannot be listed has no `slaves` entry. */
  datatype Sysfs = Sysfs(
    blocks: set<string>,
    slaves: map<string, seq<string>>,
    models: map<string, string>,
    rotational: map<string, string>)

  // ---- The regular expression p?\d+$ ----

  /** A match from `i` reaches the end of the string. */
  ghost predicate MatchesFrom(s: string, i: nat) {
    i < |s| && (AllDigits(s[i..]) || (s[i] == 'p' && i + 1 < |s| && AllDigits(s[i + 1..])))
  }

  /** Replacing the leftmost match, which is the only one, by nothing. */
  ghost predicate IsReplaced(s: string, r: string) {
    if exists i :: MatchesFrom(s, i) then
      r <= s && MatchesFrom(s, |r|) && forall i :: 0 <= i < |r| ==> !MatchesFrom(s, i)
    else r == s
  }

  /** Where the trailing digits begin. */
  function DigitsStart(s: string): (k: nat)
    ensures k <= |s| && AllDigits(s[k..]) && (k > 0 ==> !IsDigit(s[k - 1]))
  {
    if s != "" && IsDigit(s[|s| - 1]) then
      var k := DigitsStart(s[..|s| - 1]);
      assert s[k..] == s[..|s| - 1][k..] + [s[|s| - 1]];
      k
    else |s|
  }

  /** The maximal run of trailing digits and one 'p' before it. */
  function StripPartition(s: string): (r: string)
    ensures r <= s
  {
    var k := DigitsStart(s);
    if k == |s| then s else if k > 0 && s[k - 1] == 'p' then s[..k - 1] else s[..k]
  }

  /** A match starts at the trailing digits, or one 'p' before them. */
  lemma MatchBounds(s: string, i: nat)
    requires MatchesFrom(s, i)
    ensures var k := DigitsStart(s); k < |s| && k <= i + 1 && (i < k ==> s[i] == 'p')
  {
    var k := DigitsStart(s);
    var from := if AllDigits(s[i..]) then i else i + 1;
    assert IsDigit(s[from..][|s| - 1 - from]);
  }

  lemma StripReplacesLeftmostMatch(s: string)
    ensures IsReplaced(s, StripPartition(s))
  {
    var k, r := DigitsStart(s), StripPartition(s);
    if k < |s| {
      assert MatchesFrom(s, |r|);
    }
    forall i: nat | MatchesFrom(s, i)
      ensures k < |s| && |r| <= i
    {
      MatchBounds(s, i);
    }
  }

  // ---- The resolver and its memo table ----

  /** getBlockDeviceFromPartition without its cache. */
  function Resolve(fs: Sysfs, partition: string): string {
    if HasPrefix(partition, "dm-") then partition
    else
      var baseName := StripPartition(partition);
      if baseName != partition && baseName in fs.blocks then baseName else partition
  }

  class BlockDeviceCache {
    var cache: map<string, string>

    ghost predicate Valid(fs: Sysfs)
      reads this
    {
      forall p :: p in cache ==> cache[p] == Resolve(fs, p)
    }

    constructor (ghost fs: Sysfs)
      ensures Valid(fs) && cache == map[]
    {
      cache := map[];
    }

    method GetBlockDevice(fs: Sysfs, partition: string) returns (device: string)
      requires Valid(fs)
      modifies this
      ensures Valid(fs) && device == Resolve(fs, partition) && cache == old(cache)[partition := device]
    {
      if partition in cache {
        return cache[partition];
      }
      if HasPrefix(partition, "dm-") {
        cache := cache[partition := partition];
        return partition;
      }
      var baseName := StripPartition(partition);
      if baseName != partition {
        if baseName in fs.blocks {
          cache := cache[partition := baseName];
          return baseName;
        }
      }
      cache := cache[partition := partition];
      return partition;
    }

    /** Follow first slaves down to a device that is not a mapper with slaves; `steps` bounds the way there. */
    method GetDiskInfo(fs: Sysfs, name: string, ghost steps: nat) returns (modelName: string, diskType: string)
      requires Valid(fs) && LeafWithin(fs, name, steps)
      modifies this
      ensures Valid(fs)
      ensures (modelName, diskType) == InfoOf(fs, Leaf(fs, name, steps))
      ensures IsInfoOf(fs, Leaf(fs, name, steps), modelName, diskType)
      decreases steps
    {
      InfoIsRead(fs, Leaf(fs, name, steps));
      modelName, diskType := "N/A", "N/A";
      var baseDeviceName := GetBlockDevice(fs, name);
      if HasPrefix(baseDeviceName, "dm-") {
        if baseDeviceName in fs.slaves && |fs.slaves[baseDeviceName]| > 0 {
          modelName, diskType := GetDiskInfo(fs, fs.slaves[baseDeviceName][0], steps - 1);
          return;
        }
      }
      if baseDeviceName in fs.models {
        modelName := TrimSpace(fs.models[baseDeviceName]);
      }
      if baseDeviceName in fs.rotational {
        var rotational := TrimSpace(fs.rotational[baseDeviceName]);
        if rotational == "0" {
          diskType := "SSD";
        } else if rotational == "1" {
          diskType := "HDD";
        }
      }
    }
  }

  // ---- Partition names as the kernel forms them ----

  /** The name of partition `number` of `disk`: a 'p' separates it from a disk name that ends in a digit. */
  function PartitionName(disk: string, number: string): string {
    if disk != "" && IsDigit(disk[|disk| - 1]) then disk + "p" + number else disk + number
  }

  lemma {:induction false} DigitsStartOf(stem: string, digits: string)
    requires AllDigits(digits) && (stem == "" || !IsDigit(stem[|stem| - 1]))
    ensures DigitsStart(stem + digits) == |stem|
    decreases |digits|
  {
    if digits == "" {
      assert stem + digits == stem;
    } else {
      assert (stem + digits)[..|stem + digits| - 1] == stem + digits[..|digits| - 1];
      DigitsStartOf(stem, digits[..|digits| - 1]);
    }
  }

  lemma StripDigits(stem: string, digits: string)
    requires digits != "" && AllDigits(digits) && (stem == "" || !IsDigit(stem[|stem| - 1]))
    ensures StripPartition(stem + digits) ==
            if stem != "" && stem[|stem| - 1] == 'p' then stem[..|stem| - 1] else stem
  {
    DigitsStartOf(stem, digits);
    var s := stem + digits;
    assert s[..|stem|] == stem;
    if stem != "" {
      assert s[|stem| - 1] == stem[|stem| - 1];
      assert s[..|stem| - 1] == stem[..|stem| - 1];
    }
  }

  lemma StripOfPartition(disk: string, number: string)
    requires number != "" && AllDigits(number)
    ensures StripPartition(PartitionName(disk, number)) ==
            if disk != "" && disk[|disk| - 1] == 'p' then disk[..|disk| - 1] else disk
  {
    if disk != "" && IsDigit(disk[|disk| - 1]) {
      StripDigits(disk + "p", number);
      assert (disk + "p")[..|disk|] == disk;
    } else {
      StripDigits(disk, number);
    }
  }

  /**
   The resolver inverts the kernel's naming exactly for the disks under /sys/block whose name does
   not end in 'p' (and is not taken for a device mapper): partitions of `sdp` are not found.
   */
  lemma ResolvesPartitionsOfDisk(fs: Sysfs, disk: string, number: string)
    requires number != "" && AllDigits(number)
    ensures Resolve(fs, PartitionName(disk, number)) == disk <==>
              && disk in fs.blocks
              && !HasPrefix(PartitionName(disk, number), "dm-")
              && (disk == "" || disk[|disk| - 1] != 'p')
  {
    StripOfPartition(disk, number);
  }

  // ---- Resolving twice ----

  /** A block device whose name would itself be stripped to another block device. */
  predicate Nested(fs: Sysfs, device: string) {
    && device in fs.blocks && !HasPrefix(device, "dm-")
    && StripPartition(device) != device && StripPartition(device) in fs.blocks
  }

  /**
   `getDiskInfo` resolves a name its caller has resolved already; that changes nothing exactly when no device is
   nested.
   */
  lemma ResolvingTwice(fs: Sysfs)
    ensures (forall p :: Resolve(fs, Resolve(fs, p)) == Resolve(fs, p)) <==>
            (forall d :: d in fs.blocks ==> !Nested(fs, d))
  {
    if forall d :: d in fs.blocks ==> !Nested(fs, d) {
      forall p ensures Resolve(fs, Resolve(fs, p)) == Resolve(fs, p) {
        ResolvedOnce(fs, p);
      }
    } else {
      var d :| d in fs.blocks && Nested(fs, d);
      var p := NestedMoves(fs, d);
    }
  }

  lemma ResolvedOnce(fs: Sysfs, p: string)
    requires !Nested(fs, Resolve(fs, p))
    ensures Resolve(fs, Resolve(fs, p)) == Resolve(fs, p)
  {
    var d := Resolve(fs, p);
    assert d != p ==> d in fs.blocks;
  }

  lemma NestedMoves(fs: Sysfs, d: string) returns (p: string)
    requires Nested(fs, d)
    ensures Resolve(fs, Resolve(fs, p)) != Resolve(fs, p)
  {
    p := d + "p1";
    StripOfP1(d);
    assert Resolve(fs, p) == d;
    assert Resolve(fs, d) == StripPartition(d);
  }

  lemma StripOfP1(d: string)
    ensures StripPartition(d + "p1") == d
    ensures !HasPrefix(d, "dm-") ==> !HasPrefix(d + "p1", "dm-")
  {
    assert d + "p1" == (d + "p") + "1";
    StripDigits(d + "p", "1");
    assert (d + "p")[..|d|] == d;
    if HasPrefix(d + "p1", "dm-") {
      assert (d + "p1")[2] == '-' && (d + "p1")[0] == 'd' && (d + "p1")[1] == 'm';
      assert |d| >= 3;
      assert d[..3] == "dm-";
    }
  }

  // ---- The recursion of getDiskInfo ----

  /** The first slave of the device `name` resolves to, if that is a mapper with slaves. */
  function FirstSlave(fs: Sysfs, name: string): Option<string> {
    var device := Resolve(fs, name);
    if HasPrefix(device, "dm-") && device in fs.slaves && |fs.slaves[device]| > 0
    then Some(fs.slaves[device][0])
    else None
  }

  ghost predicate LeafWithin(fs: Sysfs, name: string, steps: nat)
    decreases steps
  {
    match FirstSlave(fs, name)
    case None => true
    case Some(slave) => steps > 0 && LeafWithin(fs, slave, steps - 1)
  }

  ghost function Leaf(fs: Sysfs, name: string, steps: nat): string
    requires LeafWithin(fs, name, steps)
    decreases steps
  {
    match FirstSlave(fs, name)
    case None => Resolve(fs, name)
    case Some(slave) => Leaf(fs, slave, steps - 1)
  }

  function InfoOf(fs: Sysfs, device: string): (string, string) {
    (if device in fs.models then TrimSpace(fs.models[device]) else "N/A",
     if device !in fs.rotational then "N/A"
     else if TrimSpace(fs.rotational[device]) == "0" then "SSD"
     else if TrimSpace(fs.rotational[device]) == "1" then "HDD"
     else "N/A")
  }

  /** SSD or HDD as the rotational text is 0 or 1 between white space, and the model's text without the white space. */
  ghost predicate IsInfoOf(fs: Sysfs, device: string, modelName: string, diskType: string) {
    && (if device in fs.models then IsTrimmed(fs.models[device], modelName) else modelName == "N/A")
    && (diskType == "SSD" <==> device in fs.rotational && IsTrimmed(fs.rotational[device], "0"))
    && (diskType == "HDD" <==> device in fs.rotational && IsTrimmed(fs.rotational[device], "1"))
    && (diskType == "SSD" || diskType == "HDD" || diskType == "N/A")
  }

  lemma InfoIsRead(fs: Sysfs, device: string)
    ensures IsInfoOf(fs, device, InfoOf(fs, device).0, InfoOf(fs, device).1)
  {
    if device in fs.models {
      TrimSpaceExactly(fs.models[device], TrimSpace(fs.models[device]));
    }
    if device in fs.rotational {
      TrimSpaceExactly(fs.rotational[device], "0");
      TrimSpaceExactly(fs.rotational[device], "1");
    }
    assert "SSD"[0] != "HDD"[0] && "SSD"[0] != "N/A"[0] && "HDD"[0] != "N/A"[0];
  }

  /** A stack of mappers: each is built first of all on the name after it. */
  ghost predicate IsStack(fs: Sysfs, stack: seq<string>) {
    stack != [] && forall i :: 0 <= i < |stack| - 1 ==> IsMapperOn(fs, stack[i], stack[i + 1])
  }

  predicate IsMapperOn(fs: Sysfs, mapper: string, below: string) {
    && HasPrefix(mapper, "dm-") && mapper in fs.slaves
    && fs.slaves[mapper] != [] && fs.slaves[mapper][0] == below
  }

  /** From the top of a stack on a partition the recursion returns with the disk of that partition. */
  lemma {:induction false} StackLeadsToDisk(fs: Sysfs, stack: seq<string>, disk: string, number: string)
    requires IsStack(fs, stack) && stack[|stack| - 1] == PartitionName(disk, number)
    requires number != "" && AllDigits(number) && disk in fs.blocks
    requires (disk == "" || disk[|disk| - 1] != 'p') && !HasPrefix(disk, "dm-")
    requires !HasPrefix(PartitionName(disk, number), "dm-")
    ensures LeafWithin(fs, stack[0], |stack| - 1) && Leaf(fs, stack[0], |stack| - 1) == disk
    decreases |stack|
  {
    if |stack| == 1 {
      ResolvesPartitionsOfDisk(fs, disk, number);
    } else {
      assert IsMapperOn(fs, stack[0], stack[1]);
      forall i | 0 <= i < |stack[1..]| - 1 ensures IsMapperOn(fs, stack[1..][i], stack[1..][i + 1]) {
        assert IsMapperOn(fs, stack[i + 1], stack[i + 2]);
      }
      StackLeadsToDisk(fs, stack[1..], disk, number);
    }
  }

  /** Any rank that falls from every mapper to its first slave bounds the recursion, from every name. */
  lemma {:induction false} WellFoundedSlavesTerminate(fs: Sysfs, rank: string -> nat, name: string)
    requires forall n :: FirstSlave(fs, n).Some? ==> rank(FirstSlave(fs, n).value) < rank(n)
    ensures LeafWithin(fs, name, rank(name))
    decreases rank(name)
  {
    if FirstSlave(fs, name).Some? {
      var slave := FirstSlave(fs, name).value;
      WellFoundedSlavesTerminate(fs, rank, slave);
      MoreSteps(fs, slave, rank(slave), rank(name) - 1);
    }
  }

  lemma {:induction false} MoreSteps(fs: Sysfs, name: string, a: nat, b: nat)
    requires LeafWithin(fs, name, a) && a <= b
    ensures LeafWithin(fs, name, b) && Leaf(fs, name, b) == Leaf(fs, name, a)
    decreases a
  {
    if FirstSlave(fs, name).Some? {
      MoreSteps(fs, FirstSlave(fs, name).value, a - 1, b - 1);
    }
  }

  // ---- When the recursion ends ----

  /** The name `steps` calls further down, if the recursion gets that far. */
  ghost function Walk(fs: Sysfs, name: string, steps: nat): Option<string>
    decreases steps
  {
    if steps == 0 then Some(name)
    else
      match FirstSlave(fs, name)
      case None => None
      case Some(slave) => Walk(fs, slave, steps - 1)
  }

  /** Some name is met twice on the way down. */
  ghost predicate ComesBack(fs: Sysfs, name: string) {
    exists i: nat, j: nat :: i < j && MeetsAgain(fs, name, i, j)
  }

  ghost predicate MeetsAgain(fs: Sysfs, name: string, i: nat, j: nat) {
    Walk(fs, name, i).Some? && Walk(fs, name, i) == Walk(fs, name, j)
  }

  lemma {:induction false} EndsWhereWalkDoes(fs: Sysfs, name: string, steps: nat)
    ensures LeafWithin(fs, name, steps) <==> Walk(fs, name, steps + 1).None?
    decreases steps
  {
    if FirstSlave(fs, name).Some? {
      if steps == 0 {
        assert Walk(fs, FirstSlave(fs, name).value, 0).Some?;
      } else {
        EndsWhereWalkDoes(fs, FirstSlave(fs, name).value, steps - 1);
      }
    }
  }

  lemma {:induction false} WalkOn(fs: Sysfs, name: string, i: nat, more: nat)
    ensures Walk(fs, name, i + more) ==
            if Walk(fs, name, i).None? then None else Walk(fs, Walk(fs, name, i).value, more)
    decreases i
  {
    if i == 0 {
    } else if FirstSlave(fs, name).Some? {
      WalkOn(fs, FirstSlave(fs, name).value, i - 1, more);
    }
  }

  /** Round a cycle of any length the way goes on for as many steps as one likes. */
  lemma {:induction false} CycleGoesOn(fs: Sysfs, name: string, period: nat, steps: nat)
    requires period > 0 && Walk(fs, name, period) == Some(name)
    ensures Walk(fs, name, steps).Some?
    decreases steps
  {
    if steps < period {
      WalkOn(fs, name, steps, period - steps);
    } else {
      CycleGoesOn(fs, name, period, steps - period);
      WalkOn(fs, name, period, steps - period);
    }
  }

  /** A way that comes back never ends. */
  lemma CycleNeverEnds(fs: Sysfs, name: string, steps: nat)
    requires ComesBack(fs, name)
    ensures !LeafWithin(fs, name, steps)
  {
    var i: nat, j: nat :| i < j && MeetsAgain(fs, name, i, j);
    var met := Walk(fs, name, i).value;
    WalkOn(fs, name, i, j - i);
    EndsWhereWalkDoes(fs, name, steps);
    if steps + 1 <= i {
      WalkOn(fs, name, steps + 1, i - (steps + 1));
    } else {
      CycleGoesOn(fs, met, j - i, steps + 1 - i);
      WalkOn(fs, name, i, steps + 1 - i);
    }
  }

  /** The devices the first `n` names of a way resolve to. */
  ghost function Devices(fs: Sysfs, name: string, n: nat): (devices: seq<string>)
    requires forall k: nat :: k < n ==> Walk(fs, name, k).Some?
    ensures |devices| == n && forall k: nat :: k < n ==> devices[k] == Resolve(fs, Walk(fs, name, k).value)
  {
    seq(n, k requires 0 <= k < n => Resolve(fs, Walk(fs, name, k).value))
  }

  lemma OneStepOn(fs: Sysfs, name: string, k: nat)
    requires Walk(fs, name, k).Some?
    ensures Walk(fs, name, k + 1) == FirstSlave(fs, Walk(fs, name, k).value)
  {
    WalkOn(fs, name, k, 1);
    var here := Walk(fs, name, k).value;
    assert FirstSlave(fs, here).Some? ==> Walk(fs, FirstSlave(fs, here).value, 0) == FirstSlave(fs, here);
  }

  /** A way with more steps than there are mappers passes one device twice, and its slave is met again. */
  lemma LongWaysComeBack(fs: Sysfs, name: string)
    requires !LeafWithin(fs, name, |fs.slaves|)
    ensures ComesBack(fs, name)
  {
    var n := |fs.slaves| + 1;
    EndsWhereWalkDoes(fs, name, |fs.slaves|);
    forall k: nat | k <= n ensures Walk(fs, name, k).Some? {
      WalkOn(fs, name, k, n - k);
    }
    var devices := Devices(fs, name, n);
    forall d | d in devices ensures d in fs.slaves.Keys {
      var k: nat :| k < n && devices[k] == d;
      OneStepOn(fs, name, k);
    }
    assert |fs.slaves.Keys| == |fs.slaves|;
    var i, j := Repeats(devices, fs.slaves.Keys);
    OneStepOn(fs, name, i);
    OneStepOn(fs, name, j);
    assert MeetsAgain(fs, name, i + 1, j + 1);
  }

  /** What a caller can check beforehand: follow at most as many first slaves as there are mappers. */
  ghost predicate Ends(fs: Sysfs, name: string) {
    LeafWithin(fs, name, |fs.slaves|)
  }

  /** The recursion returns at some depth. */
  ghost predicate Returns(fs: Sysfs, name: string) {
    exists steps: nat :: LeafWithin(fs, name, steps)
  }

  /** The exact condition for `getDiskInfo` to return: the way of first slaves meets no name twice. */
  lemma EndsExactly(fs: Sysfs, name: string)
    ensures Returns(fs, name) <==> !ComesBack(fs, name)
    ensures Returns(fs, name) <==> Ends(fs, name)
  {
    if ComesBack(fs, name) {
      forall steps: nat ensures !LeafWithin(fs, name, steps) {
        CycleNeverEnds(fs, name, steps);
      }
    }
    if !Ends(fs, name) {
      LongWaysComeBack(fs, name);
    } else {
      var bound: nat := |fs.slaves|;
      assert LeafWithin(fs, name, bound);
      assert Returns(fs, name);
    }
  }

  /** Two mappers that are each other's first slave: from neither does the recursion return. */
  lemma MutualMappersNeverEnd(fs: Sysfs, steps: nat)
    requires fs == Sysfs({"dm-0", "dm-1"}, map["dm-0" := ["dm-1"], "dm-1" := ["dm-0"]], map[], map[])
    ensures !LeafWithin(fs, "dm-0", steps) && !LeafWithin(fs, "dm-1", steps)
  {
    assert "dm-0"[..3] == "dm-" && "dm-1"[..3] == "dm-";
    assert FirstSlave(fs, "dm-0") == Some("dm-1") && FirstSlave(fs, "dm-1") == Some("dm-0");
    MutualSlavesComeBack(fs, "dm-0", "dm-1");
    MutualSlavesComeBack(fs, "dm-1", "dm-0");
    CycleNeverEnds(fs, "dm-0", steps);
    CycleNeverEnds(fs, "dm-1", steps);
  }

  lemma MutualSlavesComeBack(fs: Sysfs, a: string, b: string)
    requires FirstSlave(fs, a) == Some(b) && FirstSlave(fs, b) == Some(a)
    ensures ComesBack(fs, a)
  {
    OneStepOn(fs, a, 0);
    OneStepOn(fs, a, 1);
    assert MeetsAgain(fs, a, 0, 2);
  }

  /** In particular, a mapper that is its own first slave is never left. */
  lemma SlaveCycleNeverEnds(fs: Sysfs, name: string, steps: nat)
    requires FirstSlave(fs, name) == Some(name)
    ensures !LeafWithin(fs, name, steps)
  {
    OneStepOn(fs, name, 0);
    assert MeetsAgain(fs, name, 0, 1);
    CycleNeverEnds(fs, name, steps);
  }

  /** Where the recursion ends is not a mapper with slaves. */
  lemma {:induction false} LeafIsNoMapper(fs: Sysfs, name: string, steps: nat)
    requires LeafWithin(fs, name, steps)
    ensures var leaf := Leaf(fs, name, steps);
            !(HasPrefix(leaf, "dm-") && leaf in fs.slaves && |fs.slaves[leaf]| > 0)
    decreases steps
  {
    if FirstSlave(fs, name).Some? {
      LeafIsNoMapper(fs, FirstSlave(fs, name).value, steps - 1);
    }
  }
}
