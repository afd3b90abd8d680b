/** The loop of `collectDiskMetrics`: one row of metrics for every mounted partition worth reporting. */
module DiskMetrics {
  import opened BlockDevices
  import opened Counters
  import opened GoStrings
  import Sequences
  import opened Wrappers

  /** The four counters that are also reported per second. */
  datatype Flow = ReadBytes | WriteBytes | Reads | Writes

  datatype IoCounters = IoCounters(
    readBytes: Uint64, writeBytes: Uint64, readCount: Uint64, writeCount: Uint64,
    readTime: Uint64, writeTime: Uint64, inProgress: Uint64, ioTime: Uint64)
  {
    function Of(flow: Flow): Uint64 {
      match flow
      case ReadBytes => readBytes
      case WriteBytes => writeBytes
      case Reads => readCount
      case Writes => writeCount
    }
  }

  type Readings = map<string, IoCounters>

  datatype Partition = Partition(device: string, mountPoint: string, fsType: string)

  datatype Usage = Usage(
    total: Uint64, used: Uint64, free: Uint64, usedPercent: real,
    inodesTotal: Uint64, inodesUsed: Uint64, inodesFree: Uint64)

  datatype Space = Space(
    total: int, used: int, free: int, usagePercent: real, inodesTotal: int, inodesUsed: int, inodesFree: int)

  datatype IoStats = IoStats(
    readBytes: int, writeBytes: int, readCount: int, writeCount: int,
    readTime: int, writeTime: int, inProgress: int, ioTime: int,
    readBytesPerSec: real, writeBytesPerSec: real, readsPerSec: real, writesPerSec: real)
  {
    function PerSec(flow: Flow): real {
      match flow
      case ReadBytes => readBytesPerSec
      case WriteBytes => writeBytesPerSec
      case Reads => readsPerSec
      case Writes => writesPerSec
    }
  }

  datatype Row = Row(
    device: string, mountPoint: string, fsType: string, isSystemDisk: bool, isPageFileDisk: bool,
    space: Space, modelName: string, diskType: string, io: IoStats)

  const NO_SPACE: Space := Space(0, 0, 0, 0.0, 0, 0, 0)
  const NO_STATS: IoStats := IoStats(0, 0, 0, 0, 0, 0, 0, 0, 0.0, 0.0, 0.0, 0.0)

  predicate Ignored(fsType: string) {
    fsType in [
      "autofs", "binfmt_misc", "bpf", "cgroup", "cgroup2", "configfs", "debugfs", "devpts", "devtmpfs", "fusectl",
      "hugetlbfs", "mqueue", "nsfs", "overlay", "proc", "pstore", "securityfs", "squashfs", "sysfs", "tracefs", "tmpfs"]
  }

  /** What one collection compares: the readings swapped out, those swapped in, and the seconds between. */
  datatype Comparison = Comparison(previous: Readings, current: Readings, first: bool, seconds: real) {
    /** The rate shown for the counters filed under `key`. */
    function Rate(key: string, flow: Flow): real
      requires seconds > 0.0 && key in current
    {
      if key in previous && !first
      then PerSecond(Delta(previous[key].Of(flow), current[key].Of(flow)), seconds)
      else 0.0
    }

    function Stats(key: string): IoStats
      requires seconds > 0.0 && key in current
    {
      var c := current[key];
      IoStats(
        AsInt64(c.readBytes), AsInt64(c.writeBytes), AsInt64(c.readCount), AsInt64(c.writeCount),
        AsInt64(c.readTime), AsInt64(c.writeTime), AsInt64(c.inProgress), AsInt64(c.ioTime),
        Rate(key, ReadBytes), Rate(key, WriteBytes), Rate(key, Reads), Rate(key, Writes))
    }
  }

  /** A rate times the seconds is the difference, for a device that was there before. */
  lemma RateTimesSeconds(c: Comparison, key: string, flow: Flow, rate: real)
    requires c.seconds > 0.0 && !c.first && key in c.previous && key in c.current && rate == c.Rate(key, flow)
    ensures rate * c.seconds == Delta(c.previous[key].Of(flow), c.current[key].Of(flow)) as real
  {
    RateTimesDuration(Delta(c.previous[key].Of(flow), c.current[key].Of(flow)), c.seconds);
  }

  /** What the system answers about one partition; no usage when statfs fails. */
  datatype Answer = Answer(usage: Option<Usage>, block: string, modelName: string, diskType: string)

  /** The key under which a partition's counters are found, if any: for nvme the disk comes first. */
  function IoKey(name: string, block: string, current: Readings): (key: Option<string>)
    ensures key.Some? ==> key.value in current && (key.value == name || key.value == block)
    ensures key.None? <==> name !in current && block !in current
  {
    if HasPrefix(name, "nvme") && block in current then Some(block)
    else if name in current then Some(name)
    else if block in current then Some(block)
    else None
  }

  /**
   When both are there, an nvme partition shows the counters of its disk and any other partition its own; and the
   counters of the one not preferred are shown exactly if those of the other are missing.
   */
  lemma IoKeyPrefers(name: string, block: string, current: Readings)
    requires name != block
    ensures var key, disk := IoKey(name, block, current), HasPrefix(name, "nvme");
            && (key == Some(block) <==> block in current && (disk || name !in current))
            && (key == Some(name) <==> name in current && (!disk || block !in current))
  {
  }

  function SpaceOf(usage: Option<Usage>): Space {
    match usage
    case None => NO_SPACE
    case Some(u) =>
      Space(AsInt64(u.total), AsInt64(u.used), AsInt64(u.free), u.usedPercent,
            AsInt64(u.inodesTotal), AsInt64(u.inodesUsed), AsInt64(u.inodesFree))
  }

  function RowOf(p: Partition, answer: Answer, c: Comparison): Row
    requires c.seconds > 0.0
  {
    var key := IoKey(Base(p.device), answer.block, c.current);
    Row(p.device, p.mountPoint, p.fsType, p.mountPoint == "/", p.fsType == "swap", SpaceOf(answer.usage),
        answer.modelName, answer.diskType, if key.Some? then c.Stats(key.value) else NO_STATS)
  }

  /** The row of partition `k`, unless it is ignored. */
  function EntryOf(p: Partition, answer: Answer, c: Comparison): Option<Row>
    requires c.seconds > 0.0
  {
    if Ignored(p.fsType) then None else Some(RowOf(p, answer, c))
  }

  function Entries(partitions: seq<Partition>, answers: seq<Answer>, c: Comparison): (entries: seq<Option<Row>>)
    requires |answers| == |partitions| && c.seconds > 0.0
    ensures |entries| == |partitions|
    ensures forall k :: 0 <= k < |entries| ==> entries[k] == EntryOf(partitions[k], answers[k], c)
  {
    seq(|partitions|, k requires 0 <= k < |partitions| => EntryOf(partitions[k], answers[k], c))
  }

  function RowsOf(partitions: seq<Partition>, answers: seq<Answer>, c: Comparison): seq<Row>
    requires |answers| == |partitions| && c.seconds > 0.0
  {
    if partitions == [] then []
    else
      var k := |partitions| - 1;
      var rows := RowsOf(partitions[..k], answers[..k], c);
      if Ignored(partitions[k].fsType) then rows else rows + [RowOf(partitions[k], answers[k], c)]
  }

  lemma {:induction false} RowsArePresent(partitions: seq<Partition>, answers: seq<Answer>, c: Comparison)
    requires |answers| == |partitions| && c.seconds > 0.0
    ensures RowsOf(partitions, answers, c) == Sequences.Present(Entries(partitions, answers, c))
  {
    if partitions == [] {
    } else {
      var n := |partitions| - 1;
      RowsArePresent(partitions[..n], answers[..n], c);
      assert Entries(partitions, answers, c)[..n] == Entries(partitions[..n], answers[..n], c);
    }
  }

  /** How many of the first `k` partitions are reported. */
  function Position(partitions: seq<Partition>, k: nat): nat
    requires k <= |partitions|
  {
    if k == 0 then 0 else Position(partitions, k - 1) + (if Ignored(partitions[k - 1].fsType) then 0 else 1)
  }

  lemma {:induction false} PositionIsCount(partitions: seq<Partition>, entries: seq<Option<Row>>, k: nat)
    requires k <= |partitions| == |entries|
    requires forall i :: 0 <= i < |entries| ==> (entries[i].None? <==> Ignored(partitions[i].fsType))
    ensures Position(partitions, k) == Sequences.CountPresent(entries, k)
  {
    if k == 0 {
    } else {
      PositionIsCount(partitions, entries, k - 1);
    }
  }

  /** Every partition that is not ignored has its row, at the place its predecessors leave it; there are no others. */
  lemma RowsInOrder(partitions: seq<Partition>, answers: seq<Answer>, c: Comparison, k: nat)
    requires |answers| == |partitions| && c.seconds > 0.0
    ensures |RowsOf(partitions, answers, c)| == Position(partitions, |partitions|)
    ensures k < |partitions| && !Ignored(partitions[k].fsType) ==>
              && Position(partitions, k) < |RowsOf(partitions, answers, c)|
              && RowsOf(partitions, answers, c)[Position(partitions, k)] == RowOf(partitions[k], answers[k], c)
  {
    var entries := Entries(partitions, answers, c);
    RowsArePresent(partitions, answers, c);
    Sequences.PresentInOrder(entries, k);
    PositionIsCount(partitions, entries, |partitions|);
    if k < |partitions| {
      PositionIsCount(partitions, entries, k);
    }
  }

  /** The rate a row shows is that of its counters. */
  lemma RowShowsRate(p: Partition, answer: Answer, c: Comparison, flow: Flow)
    requires c.seconds > 0.0
    ensures var key := IoKey(Base(p.device), answer.block, c.current);
            RowOf(p, answer, c).io.PerSec(flow) == if key.Some? then c.Rate(key.value, flow) else 0.0
  {
  }

  predicate AreSmall(c: IoCounters) {
    && c.readBytes < WRAP / 2 && c.writeBytes < WRAP / 2 && c.readCount < WRAP / 2 && c.writeCount < WRAP / 2
    && c.readTime < WRAP / 2 && c.writeTime < WRAP / 2 && c.inProgress < WRAP / 2 && c.ioTime < WRAP / 2
  }

  predicate ShowsCounters(io: IoStats, c: IoCounters) {
    && io.readBytes == c.readBytes && io.readCount == c.readCount && io.readTime == c.readTime
    && io.writeBytes == c.writeBytes && io.writeCount == c.writeCount && io.writeTime == c.writeTime
    && io.inProgress == c.inProgress && io.ioTime == c.ioTime
  }

  predicate IsSmall(u: Usage) {
    && u.total < WRAP / 2 && u.used < WRAP / 2 && u.free < WRAP / 2
    && u.inodesTotal < WRAP / 2 && u.inodesUsed < WRAP / 2 && u.inodesFree < WRAP / 2
  }

  predicate ShowsUsage(space: Space, u: Usage) {
    && space.total == u.total && space.used == u.used && space.free == u.free
    && space.usagePercent == u.usedPercent && space.inodesTotal == u.inodesTotal
    && space.inodesUsed == u.inodesUsed && space.inodesFree == u.inodesFree
  }

  /** What a row says of its partition: figures below 2^63 as they are, and none where the system has none. */
  lemma RowShows(p: Partition, answer: Answer, c: Comparison)
    requires c.seconds > 0.0
    ensures var row, key := RowOf(p, answer, c), IoKey(Base(p.device), answer.block, c.current);
            && row.device == p.device && row.mountPoint == p.mountPoint && row.fsType == p.fsType
            && (row.isSystemDisk <==> p.mountPoint == "/") && (row.isPageFileDisk <==> p.fsType == "swap")
            && (answer.usage.Some? && IsSmall(answer.usage.value) ==> ShowsUsage(row.space, answer.usage.value))
            && (answer.usage.None? ==> row.space == NO_SPACE)
            && (key.Some? && AreSmall(c.current[key.value]) ==> ShowsCounters(row.io, c.current[key.value]))
            && (key.None? ==> row.io == NO_STATS)
  {
  }

  /**
   With the system's answers: the usage is the partition's own, the counters are those of the partition or of its
   block device, and model and type are those of the device it leads to.
   */
  lemma RowShowsDevice(fs: Sysfs, p: Partition, usage: Option<Usage>, c: Comparison)
    requires c.seconds > 0.0 && DeviceEnds(fs, p)
    ensures var row, block := RowOf(p, AnswerOf(fs, p, usage), c), Resolve(fs, Base(p.device));
            var key := IoKey(Base(p.device), block, c.current);
            && IsInfoOf(fs, Leaf(fs, block, |fs.slaves|), row.modelName, row.diskType)
            && (usage.Some? && IsSmall(usage.value) ==> ShowsUsage(row.space, usage.value))
            && (usage.None? ==> row.space == NO_SPACE)
            && (key.Some? && AreSmall(c.current[key.value]) ==> ShowsCounters(row.io, c.current[key.value]))
  {
    var answer := AnswerOf(fs, p, usage);
    InfoIsRead(fs, Leaf(fs, Resolve(fs, Base(p.device)), |fs.slaves|));
    RowShows(p, answer, c);
  }

  /** File systems that hold data are reported, and those the kernel makes up are not. */
  lemma DataIsReported()
    ensures forall f :: f in ["ext4", "xfs", "btrfs", "vfat", "ntfs", "zfs", "nfs"] ==> !Ignored(f)
    ensures forall f :: f in ["proc", "sysfs", "tmpfs", "devtmpfs", "overlay", "squashfs", "cgroup2"] ==> Ignored(f)
  {
  }

  // ---- The loop ----

  /** For every partition that is reported, `getDiskInfo` returns. */
  ghost predicate DevicesEnd(fs: Sysfs, partitions: seq<Partition>) {
    forall k :: 0 <= k < |partitions| && !Ignored(partitions[k].fsType) ==> DeviceEnds(fs, partitions[k])
  }

  ghost predicate DeviceEnds(fs: Sysfs, p: Partition) {
    Ends(fs, Resolve(fs, Base(p.device)))
  }

  ghost function AnswerOf(fs: Sysfs, p: Partition, usage: Option<Usage>): Answer {
    var block := Resolve(fs, Base(p.device));
    var info := if Ends(fs, block) then InfoOf(fs, Leaf(fs, block, |fs.slaves|)) else ("N/A", "N/A");
    Answer(usage, block, info.0, info.1)
  }

  ghost function AnswersOf(fs: Sysfs, partitions: seq<Partition>, usages: seq<Option<Usage>>): (r: seq<Answer>)
    requires |usages| == |partitions|
    ensures |r| == |partitions| && forall k :: 0 <= k < |r| ==> r[k] == AnswerOf(fs, partitions[k], usages[k])
  {
    seq(|partitions|, k requires 0 <= k < |partitions| => AnswerOf(fs, partitions[k], usages[k]))
  }

  /** `usages` are the answers of statfs. */
  method BuildRows(cache: BlockDeviceCache, fs: Sysfs, partitions: seq<Partition>, usages: seq<Option<Usage>>,
                   c: Comparison) returns (metrics: seq<Row>)
    requires cache.Valid(fs) && DevicesEnd(fs, partitions)
    requires |usages| == |partitions| && c.seconds > 0.0
    modifies cache
    ensures cache.Valid(fs)
    ensures metrics == RowsOf(partitions, AnswersOf(fs, partitions, usages), c)
  {
    metrics := [];
    ghost var entries := Entries(partitions, AnswersOf(fs, partitions, usages), c);
    for k := 0 to |partitions|
      invariant cache.Valid(fs)
      invariant metrics == Sequences.Present(entries[..k])
    {
      var entry := BuildEntry(cache, fs, partitions[k], usages[k], c);
      Sequences.PresentSnoc(entries, k);
      if entry.None? {
        continue;
      }
      metrics := metrics + [entry.value];
    }
    assert entries[..|partitions|] == entries;
    RowsArePresent(partitions, AnswersOf(fs, partitions, usages), c);
  }

  /** One turn of the loop; nothing for a file system that is ignored. */
  method BuildEntry(cache: BlockDeviceCache, fs: Sysfs, p: Partition, usage: Option<Usage>, c: Comparison)
    returns (entry: Option<Row>)
    requires cache.Valid(fs) && (!Ignored(p.fsType) ==> DeviceEnds(fs, p)) && c.seconds > 0.0
    modifies cache
    ensures cache.Valid(fs) && entry == EntryOf(p, AnswerOf(fs, p, usage), c)
  {
    if Ignored(p.fsType) {
      return None;
    }
    var row := BuildRow(cache, fs, p, usage, c);
    return Some(row);
  }

  /** The row of a partition that is not ignored. */
  method BuildRow(cache: BlockDeviceCache, fs: Sysfs, p: Partition, usage: Option<Usage>, c: Comparison)
    returns (row: Row)
    requires cache.Valid(fs) && DeviceEnds(fs, p) && c.seconds > 0.0
    modifies cache
    ensures cache.Valid(fs) && row == RowOf(p, AnswerOf(fs, p, usage), c)
  {
    row := Row(p.device, p.mountPoint, p.fsType, p.mountPoint == "/", p.fsType == "swap", NO_SPACE, "", "", NO_STATS);
    if usage.Some? {
      var u := usage.value;
      row := row.(space := Space(AsInt64(u.total), AsInt64(u.used), AsInt64(u.free), u.usedPercent,
                                 AsInt64(u.inodesTotal), AsInt64(u.inodesUsed), AsInt64(u.inodesFree)));
    }
    var ioDeviceName := Base(p.device);
    var blockDeviceName := cache.GetBlockDevice(fs, ioDeviceName);
    var modelName, diskType := cache.GetDiskInfo(fs, blockDeviceName, |fs.slaves|);
    row := row.(modelName := modelName, diskType := diskType);
    if HasPrefix(ioDeviceName, "nvme") && blockDeviceName in c.current {
      ioDeviceName := blockDeviceName;
    }
    var ok := ioDeviceName in c.current;
    if !ok {
      ok := blockDeviceName in c.current;
      if ok {
        ioDeviceName := blockDeviceName;
      }
    }
    if ok {
      var stats := BuildStats(ioDeviceName, c);
      row := row.(io := stats);
    }
  }

  /** The counters as they are, and their rates when the device was there before. */
  method BuildStats(name: string, c: Comparison) returns (stats: IoStats)
    requires c.seconds > 0.0 && name in c.current
    ensures stats == c.Stats(name)
  {
    var currentIO := c.current[name];
    stats := IoStats(
      AsInt64(currentIO.readBytes), AsInt64(currentIO.writeBytes),
      AsInt64(currentIO.readCount), AsInt64(currentIO.writeCount),
      AsInt64(currentIO.readTime), AsInt64(currentIO.writeTime),
      AsInt64(currentIO.inProgress), AsInt64(currentIO.ioTime),
      0.0, 0.0, 0.0, 0.0);
    if name in c.previous && !c.first {
      var prevIO := c.previous[name];
      stats := stats.(
        readBytesPerSec := PerSecond(Delta(prevIO.readBytes, currentIO.readBytes), c.seconds),
        writeBytesPerSec := PerSecond(Delta(prevIO.writeBytes, currentIO.writeBytes), c.seconds),
        readsPerSec := PerSecond(Delta(prevIO.readCount, currentIO.readCount), c.seconds),
        writesPerSec := PerSecond(Delta(prevIO.writeCount, currentIO.writeCount), c.seconds));
    }
  }
}
