/**
 `NetworkCollector`: one background goroutine collects and fills the cache; `Collect` only reads it.
 A round is one successful collection.
 */
module NetworkCollector {
  import opened Counters
  import opened GoStrings
  import opened Goroutines
  import opened Wrappers

  /** The two counters that are also reported per second. */
  datatype Direction = Received | Sent

  datatype IoCounters = IoCounters(
    name: string, bytesRecv: Uint64, bytesSent: Uint64, packetsRecv: Uint64, packetsSent: Uint64,
    errin: Uint64, errout: Uint64, dropin: Uint64, dropout: Uint64)
  {
    function Of(direction: Direction): Uint64 {
      match direction
      case Received => bytesRecv
      case Sent => bytesSent
    }
  }

  type Readings = map<string, IoCounters>

  datatype Interface = Interface(name: string, mac: string, mtu: int, flags: seq<string>, addrs: seq<string>) {
    /** Loopback interfaces and those that are down are skipped. */
    predicate Reported() {
      "loopback" !in flags && Status() == "up"
    }

    function Status(): string {
      if "up" in flags then "up" else "down"
    }
  }

  datatype Row = Row(
    name: string, mac: string, mtu: int, status: string, connectionType: string, ipv4: string, ipv6: string,
    rxBytes: int, txBytes: int, rxPackets: int, txPackets: int,
    rxErrors: int, txErrors: int, rxDropped: int, txDropped: int,
    rxBytesPerSec: real, txBytesPerSec: real)
  {
    function PerSec(direction: Direction): real {
      match direction
      case Received => rxBytesPerSec
      case Sent => txBytesPerSec
    }
  }

  function InterfaceType(name: string): string {
    var lowerName := ToLower(name);
    if HasPrefix(lowerName, "eth") || HasPrefix(lowerName, "en") then "Ethernet"
    else if HasPrefix(lowerName, "wl") then "Wi-Fi"
    else if HasPrefix(lowerName, "docker") || HasPrefix(lowerName, "br-") || HasPrefix(lowerName, "veth") then "Virtual"
    else "Unknown"
  }

  /** Later entries replace earlier ones of the same name. */
  function ByName(counters: seq<IoCounters>): Readings {
    if counters == [] then map[]
    else
      var last := counters[|counters| - 1];
      ByName(counters[..|counters| - 1])[last.name := last]
  }

  ghost predicate Named(counters: seq<IoCounters>, name: string) {
    exists c :: c in counters && c.name == name
  }

  /** A name is found exactly if some entry has it. */
  lemma {:induction false} FindsTheNamed(counters: seq<IoCounters>, name: string)
    ensures name in ByName(counters) <==> Named(counters, name)
  {
    if counters == [] {
    } else {
      var before, last := counters[..|counters| - 1], counters[|counters| - 1];
      FindsTheNamed(before, name);
      assert counters == before + [last];
      assert last in counters;
      if Named(before, name) {
        var c :| c in before && c.name == name;
        assert c in counters;
      }
    }
  }

  /** What is found is the last entry of that name. */
  lemma {:induction false} FindsTheLast(counters: seq<IoCounters>, k: nat)
    requires k < |counters| && forall j :: k < j < |counters| ==> counters[j].name != counters[k].name
    ensures counters[k].name in ByName(counters) && ByName(counters)[counters[k].name] == counters[k]
  {
    if k < |counters| - 1 {
      FindsTheLast(counters[..|counters| - 1], k);
    }
  }

  function Address(addr: string): string {
    Split(addr, '/')[0]
  }

  /** The last address of the family: those with a colon are taken for IPv6. */
  function LastAddress(addrs: seq<string>, ipv6: bool): string {
    if addrs == [] then ""
    else
      var ip := Address(addrs[|addrs| - 1]);
      if (':' in ip) == ipv6 then ip else LastAddress(addrs[..|addrs| - 1], ipv6)
  }

  /** What one round compares; `seconds` is not positive when the clock has not moved. */
  datatype Comparison = Comparison(previous: Readings, current: Readings, seconds: real) {
    function Rate(name: string, direction: Direction): real
      requires name in current
    {
      if name in previous && seconds > 0.0
      then PerSecond(Delta(previous[name].Of(direction), current[name].Of(direction)), seconds)
      else 0.0
    }
  }

  /** A rate times the seconds is the difference, if time has passed, and else 0. */
  lemma RateTimesSeconds(c: Comparison, name: string, direction: Direction)
    requires name in c.previous && name in c.current
    ensures c.Rate(name, direction) * c.seconds ==
            if c.seconds > 0.0
            then Delta(c.previous[name].Of(direction), c.current[name].Of(direction)) as real
            else 0.0
  {
    if c.seconds > 0.0 {
      RateTimesDuration(Delta(c.previous[name].Of(direction), c.current[name].Of(direction)), c.seconds);
    }
  }

  function RowOf(iface: Interface, c: Comparison): Row {
    var row := Row(iface.name, iface.mac, iface.mtu, iface.Status(), InterfaceType(iface.name),
                   LastAddress(iface.addrs, false), LastAddress(iface.addrs, true), 0, 0, 0, 0, 0, 0, 0, 0, 0.0, 0.0);
    if iface.name in c.current then WithCounters(row, iface.name, c) else row
  }

  function WithCounters(row: Row, name: string, c: Comparison): Row
    requires name in c.current
  {
    var counter := c.current[name];
    row.(rxBytes := AsInt64(counter.bytesRecv), txBytes := AsInt64(counter.bytesSent),
         rxPackets := AsInt64(counter.packetsRecv), txPackets := AsInt64(counter.packetsSent),
         rxErrors := AsInt64(counter.errin), txErrors := AsInt64(counter.errout),
         rxDropped := AsInt64(counter.dropin), txDropped := AsInt64(counter.dropout),
         rxBytesPerSec := c.Rate(name, Received), txBytesPerSec := c.Rate(name, Sent))
  }

  function RowsOf(interfaces: seq<Interface>, c: Comparison): seq<Row> {
    if interfaces == [] then []
    else
      var last := interfaces[|interfaces| - 1];
      RowsOf(interfaces[..|interfaces| - 1], c) + (if last.Reported() then [RowOf(last, c)] else [])
  }

  // ---- Rounds ----

  datatype Round = Round(interfaces: seq<Interface>, readings: Readings, at: nat, rows: seq<Row>)

  /** The saturated difference to the zero time: the longest `time.Duration`. */
  const LONGEST: nat := 0x7fff_ffff_ffff_ffff

  function SecondsBetween(previous: Option<nat>, now: nat): real {
    (if previous.None? then LONGEST as real else now as real - previous.value as real) / NANOS_PER_SECOND
  }

  function Previous(rounds: seq<Round>): Readings {
    if rounds == [] then map[] else rounds[|rounds| - 1].readings
  }

  function PreviousTime(rounds: seq<Round>): Option<nat> {
    if rounds == [] then None else Some(rounds[|rounds| - 1].at)
  }

  function ComparisonAt(rounds: seq<Round>, k: nat): Comparison
    requires k < |rounds|
  {
    Comparison(Previous(rounds[..k]), rounds[k].readings, SecondsBetween(PreviousTime(rounds[..k]), rounds[k].at))
  }

  ghost predicate RoundInv(rounds: seq<Round>, k: nat) {
    k < |rounds| ==> rounds[k].rows == RowsOf(rounds[k].interfaces, ComparisonAt(rounds, k))
  }

  /**
   Every round's rows come from its own counters and those of the round before; failures in between leave no trace.
   */
  ghost predicate Linked(rounds: seq<Round>) {
    forall k: nat :: RoundInv(rounds, k)
  }

  lemma LinkedSnoc(rounds: seq<Round>, next: Round)
    requires Linked(rounds)
    requires next.rows ==
             RowsOf(next.interfaces,
                    Comparison(Previous(rounds), next.readings, SecondsBetween(PreviousTime(rounds), next.at)))
    ensures Linked(rounds + [next])
  {
    var more := rounds + [next];
    forall k: nat ensures RoundInv(more, k) {
      assert RoundInv(rounds, k);
      assert k < |rounds| ==> more[..k] == rounds[..k];
      assert more[..|rounds|] == rounds;
    }
  }

  class Collector {
    var cachedMetrics: seq<Row>
    var cachedTime: Option<nat>
    var prevCounters: Readings
    var prevTime: Option<nat>
    ghost var rounds: seq<Round>
    ghost var published: nat  // how many rounds have reached the cache

    ghost predicate Valid()
      reads this
    {
      && Linked(rounds)
      && prevCounters == Previous(rounds) && prevTime == PreviousTime(rounds)
      && published <= |rounds| <= published + 1
      && cachedMetrics == (if published == 0 then [] else rounds[published - 1].rows)
    }

    constructor ()
      ensures Valid() && rounds == [] && published == 0
    {
      cachedMetrics, cachedTime, prevCounters, prevTime := [], None, map[], None;
      rounds, published := [], 0;
    }

    /** `collectNetworkMetrics`: the system's answers and the time are parameters. An error changes nothing. */
    method CollectNetworkMetrics(interfaces: Option<seq<Interface>>, ioCounters: Option<seq<IoCounters>>, now: nat)
      returns (metrics: Option<seq<Row>>)
      requires Valid() && published == |rounds|
      modifies this`prevCounters, this`prevTime, this`rounds
      ensures Valid()
      ensures metrics.Some? <==> interfaces.Some? && ioCounters.Some?
      ensures metrics.None? ==> rounds == old(rounds)
      ensures metrics.Some? ==>
              rounds == old(rounds) + [Round(interfaces.value, ByName(ioCounters.value), now, metrics.value)]
    {
      if interfaces.None? || ioCounters.None? {
        return None;
      }
      var countersMap := MapByName(ioCounters.value);
      var deltaTime := SecondsBetween(prevTime, now);
      var rows := BuildRows(interfaces.value, Comparison(prevCounters, countersMap, deltaTime));
      LinkedSnoc(rounds, Round(interfaces.value, countersMap, now, rows));
      prevCounters, prevTime := countersMap, Some(now);
      rounds := rounds + [Round(interfaces.value, countersMap, now, rows)];
      return Some(rows);
    }

    /** Under Lock. */
    method Publish(metrics: seq<Row>, now: nat)
      requires Valid() && |rounds| == published + 1 && metrics == rounds[published].rows
      modifies this`cachedMetrics, this`cachedTime, this`published
      ensures Valid() && published == |rounds| && cachedMetrics == metrics && cachedTime == Some(now)
    {
      cachedMetrics, cachedTime := metrics, Some(now);
      published := published + 1;
    }

    /** `collectAndCache`: one turn of the only goroutine that collects. */
    method CollectAndCache(interfaces: Option<seq<Interface>>, ioCounters: Option<seq<IoCounters>>, now: nat,
        later: nat)
      requires Valid() && published == |rounds|
      modifies this
      ensures Valid() && published == |rounds|
      ensures interfaces.None? || ioCounters.None? ==> rounds == old(rounds) && cachedTime == old(cachedTime)
      ensures interfaces.Some? && ioCounters.Some? ==>
                && |rounds| == |old(rounds)| + 1 && rounds[..|old(rounds)|] == old(rounds) && cachedTime == Some(later)
                && rounds[|old(rounds)|].interfaces == interfaces.value
                && rounds[|old(rounds)|].readings == ByName(ioCounters.value) && rounds[|old(rounds)|].at == now
    {
      var metrics := CollectNetworkMetrics(interfaces, ioCounters, now);
      if metrics.None? {
        return;
      }
      Publish(metrics.value, later);
    }

    /** Whenever it is called, even between a round and its publication, and however old the cache is. */
    method Collect() returns (metrics: seq<Row>)
      requires Valid()
      ensures published == 0 ==> metrics == []
      ensures published > 0 ==>
                metrics == RowsOf(rounds[published - 1].interfaces, ComparisonAt(rounds, published - 1))
    {
      assert published > 0 ==> RoundInv(rounds, published - 1);
      return cachedMetrics;
    }
  }

  method MapByName(ioCounters: seq<IoCounters>) returns (countersMap: Readings)
    ensures countersMap == ByName(ioCounters)
  {
    countersMap := map[];
    for i := 0 to |ioCounters|
      invariant countersMap == ByName(ioCounters[..i])
    {
      assert ioCounters[..i + 1][..i] == ioCounters[..i];
      countersMap := countersMap[ioCounters[i].name := ioCounters[i]];
    }
    assert ioCounters[..|ioCounters|] == ioCounters;
  }

  /** The loop over the interfaces. */
  method BuildRows(interfaces: seq<Interface>, c: Comparison) returns (metrics: seq<Row>)
    ensures metrics == RowsOf(interfaces, c)
  {
    metrics := [];
    for k := 0 to |interfaces|
      invariant metrics == RowsOf(interfaces[..k], c)
    {
      assert interfaces[..k + 1][..k] == interfaces[..k];
      var iface := interfaces[k];
      var status := iface.Status();
      var isLoopback := HasFlag(iface.flags, "loopback");
      if isLoopback || status != "up" {
        continue;
      }
      var row := BuildRow(iface, status, c);
      metrics := metrics + [row];
    }
    assert interfaces[..|interfaces|] == interfaces;
  }

  method HasFlag(flags: seq<string>, wanted: string) returns (found: bool)
    ensures found <==> wanted in flags
  {
    found := false;
    for k := 0 to |flags|
      invariant found <==> wanted in flags[..k]
    {
      if flags[k] == wanted {
        found := true;
        break;
      }
    }
  }

  method BuildRow(iface: Interface, status: string, c: Comparison) returns (metric: Row)
    requires status == iface.Status()
    ensures metric == RowOf(iface, c)
  {
    metric := Row(iface.name, iface.mac, iface.mtu, status, InterfaceType(iface.name), "", "", 0, 0, 0, 0, 0, 0, 0, 0,
        0.0, 0.0);
    var ipv4, ipv6 := BuildAddresses(iface.addrs);
    metric := metric.(ipv4 := ipv4, ipv6 := ipv6);
    if iface.name in c.current {
      var counter := c.current[iface.name];
      metric := metric.(rxBytes := AsInt64(counter.bytesRecv), txBytes := AsInt64(counter.bytesSent),
                        rxPackets := AsInt64(counter.packetsRecv), txPackets := AsInt64(counter.packetsSent),
                        rxErrors := AsInt64(counter.errin), txErrors := AsInt64(counter.errout),
                        rxDropped := AsInt64(counter.dropin), txDropped := AsInt64(counter.dropout));
      if iface.name in c.previous && c.seconds > 0.0 {
        var prevCounter := c.previous[iface.name];
        metric := metric.(rxBytesPerSec := PerSecond(Delta(prevCounter.bytesRecv, counter.bytesRecv), c.seconds),
                          txBytesPerSec := PerSecond(Delta(prevCounter.bytesSent, counter.bytesSent), c.seconds));
      }
    }
  }

  method BuildAddresses(addrs: seq<string>) returns (ipv4: string, ipv6: string)
    ensures ipv4 == LastAddress(addrs, false) && ipv6 == LastAddress(addrs, true)
  {
    ipv4, ipv6 := "", "";
    for k := 0 to |addrs|
      invariant ipv4 == LastAddress(addrs[..k], false) && ipv6 == LastAddress(addrs[..k], true)
    {
      assert addrs[..k + 1][..k] == addrs[..k];
      var ip := Address(addrs[k]);
      if ':' in ip {
        ipv6 := ip;
      } else {
        ipv4 := ip;
      }
    }
    assert addrs[..|addrs|] == addrs;
  }

  // ---- What a row shows ----

  /** Of an address with its prefix length the address is kept. */
  lemma AddressOfCidr(ip: string, bits: string)
    requires '/' !in ip
    ensures Address(ip + "/" + bits) == ip
  {
    assert ip + "/" + bits == ip + ['/'] + bits;
    FirstPart(ip, '/', bits);
  }

  /** The addresses as the system lists them, each with its prefix length. */
  ghost predicate AreCidrs(addrs: seq<string>, ips: seq<string>, bits: seq<string>) {
    && |addrs| == |ips| == |bits|
    && forall k :: 0 <= k < |ips| ==> '/' !in ips[k] && addrs[k] == ips[k] + "/" + bits[k]
  }

  /** `shown` is the last of the addresses that is of the family, with a colon for IPv6 and without for IPv4. */
  ghost predicate IsLastOfFamily(ips: seq<string>, ipv6: bool, shown: string) {
    || (exists k :: 0 <= k < |ips| && shown == ips[k] && (':' in ips[k]) == ipv6
                    && forall j :: k < j < |ips| ==> (':' in ips[j]) != ipv6)
    || (shown == "" && forall k :: 0 <= k < |ips| ==> (':' in ips[k]) != ipv6)
  }

  lemma {:induction false} LastOfFamily(addrs: seq<string>, ips: seq<string>, bits: seq<string>, ipv6: bool)
    requires AreCidrs(addrs, ips, bits)
    ensures IsLastOfFamily(ips, ipv6, LastAddress(addrs, ipv6))
  {
    if addrs != [] {
      var n := |addrs| - 1;
      AddressOfCidr(ips[n], bits[n]);
      LastOfFamily(addrs[..n], ips[..n], bits[..n], ipv6);
      if (':' in ips[n]) != ipv6 {
        FamilyGoesOn(ips, ipv6, LastAddress(addrs[..n], ipv6));
      }
    }
  }

  lemma FamilyGoesOn(ips: seq<string>, ipv6: bool, shown: string)
    requires ips != [] && (':' in ips[|ips| - 1]) != ipv6 && IsLastOfFamily(ips[..|ips| - 1], ipv6, shown)
    ensures IsLastOfFamily(ips, ipv6, shown)
  {
    assert forall k :: 0 <= k < |ips| - 1 ==> ips[..|ips| - 1][k] == ips[k];
  }

  /** What a row says of its interface; the counters are those filed under its name, below 2^63 as they are. */
  lemma RowShows(iface: Interface, c: Comparison, ips: seq<string>, bits: seq<string>)
    requires AreCidrs(iface.addrs, ips, bits) && iface.Reported()
    ensures var row := RowOf(iface, c);
            && row.name == iface.name && row.mac == iface.mac && row.mtu == iface.mtu && row.status == "up"
            && IsLastOfFamily(ips, false, row.ipv4) && IsLastOfFamily(ips, true, row.ipv6)
            && (iface.name in c.current && AreSmall(c.current[iface.name]) ==>
                  ShowsCounters(row, c.current[iface.name]))
            && (iface.name !in c.current ==> row.rxBytes == row.txBytes == row.rxPackets == row.txPackets == 0)
  {
    LastOfFamily(iface.addrs, ips, bits, false);
    LastOfFamily(iface.addrs, ips, bits, true);
  }

  predicate AreSmall(c: IoCounters) {
    && c.bytesRecv < WRAP / 2 && c.bytesSent < WRAP / 2 && c.packetsRecv < WRAP / 2 && c.packetsSent < WRAP / 2
    && c.errin < WRAP / 2 && c.errout < WRAP / 2 && c.dropin < WRAP / 2 && c.dropout < WRAP / 2
  }

  /** What came in is shown as received and what went out as sent. */
  predicate ShowsCounters(row: Row, c: IoCounters) {
    && row.rxBytes == c.bytesRecv && row.rxPackets == c.packetsRecv
    && row.rxErrors == c.errin && row.rxDropped == c.dropin
    && row.txBytes == c.bytesSent && row.txPackets == c.packetsSent
    && row.txErrors == c.errout && row.txDropped == c.dropout
  }

  lemma LowerBegins(front: string, rest: string)
    ensures ToLower(front + rest) == ToLower(front) + ToLower(rest)
  {
  }

  /** In any case of letters, names that begin with `eth` or `en` are wired. */
  lemma EthernetByName(front: string, rest: string)
    requires ToLower(front) == "eth" || ToLower(front) == "en"
    ensures InterfaceType(front + rest) == "Ethernet"
  {
    LowerBegins(front, rest);
  }

  lemma WifiByName(front: string, rest: string)
    requires ToLower(front) == "wl"
    ensures InterfaceType(front + rest) == "Wi-Fi"
  {
    LowerBegins(front, rest);
    assert ToLower(front + rest)[0] == 'w' && "eth"[0] == 'e' && "en"[0] == 'e';
  }

  lemma VirtualByName(front: string, rest: string)
    requires ToLower(front) == "docker" || ToLower(front) == "br-" || ToLower(front) == "veth"
    ensures InterfaceType(front + rest) == "Virtual"
  {
    LowerBegins(front, rest);
    assert ToLower(front + rest)[0] == ToLower(front)[0];
    assert "eth"[0] == 'e' && "en"[0] == 'e' && "wl"[0] == 'w';
    assert "docker"[0] == 'd' && "br-"[0] == 'b' && "veth"[0] == 'v';
  }

  // ---- What the rates add up to ----

  ghost predicate IsReported(interfaces: seq<Interface>, c: Comparison, row: Row) {
    exists iface :: iface in interfaces && "up" in iface.flags && "loopback" !in iface.flags && row == RowOf(iface, c)
  }

  /** A reported interface has its row, and every row belongs to one. */
  lemma {:induction false} RowsAreTheReported(interfaces: seq<Interface>, c: Comparison, row: Row)
    ensures row in RowsOf(interfaces, c) <==> IsReported(interfaces, c, row)
  {
    if interfaces == [] {
    } else {
      var before, last := interfaces[..|interfaces| - 1], interfaces[|interfaces| - 1];
      RowsAreTheReported(before, c, row);
      assert interfaces == before + [last];
      if IsReported(before, c, row) {
        var iface :| iface in before && iface.Reported() && row == RowOf(iface, c);
        assert iface in interfaces;
      }
    }
  }

  lemma RowShowsRate(interfaces: seq<Interface>, c: Comparison, row: Row, direction: Direction)
    requires row in RowsOf(interfaces, c) && row.name in c.current
    ensures row.PerSec(direction) == c.Rate(row.name, direction)
  {
    RowsAreTheReported(interfaces, c, row);
  }

  /** The interface is in the counters of rounds `lo` to `hi`. */
  ghost predicate Present(rounds: seq<Round>, name: string, lo: nat, hi: nat) {
    lo <= hi < |rounds| && forall k :: lo <= k <= hi ==> name in rounds[k].readings
  }

  ghost function Chain(rounds: seq<Round>, name: string, direction: Direction, lo: nat, hi: nat): (r: seq<Uint64>)
    requires Present(rounds, name, lo, hi)
    ensures |r| == hi - lo + 1 && forall i :: 0 <= i < |r| ==> r[i] == rounds[lo + i].readings[name].Of(direction)
  {
    seq<Uint64>(hi - lo + 1, i requires 0 <= i < hi - lo + 1 => rounds[lo + i].readings[name].Of(direction))
  }

  /** Some row of the round for the interface shows the rate. */
  ghost predicate Shows(round: Round, name: string, direction: Direction, rate: real) {
    exists row :: row in round.rows && row.name == name && row.PerSec(direction) == rate
  }

  /** Rounds `lo + 1` on show these rates. */
  ghost predicate Shown(rounds: seq<Round>, name: string, direction: Direction, lo: nat, shown: seq<real>)
    requires lo + |shown| < |rounds|
  {
    forall k :: 0 <= k < |shown| ==> Shows(rounds[lo + 1 + k], name, direction, shown[k])
  }

  ghost function SecondsBefore(rounds: seq<Round>, k: nat): real
    requires 0 < k < |rounds|
  {
    (rounds[k].at as real - rounds[k - 1].at as real) / NANOS_PER_SECOND
  }

  /** The clock has not moved since the round before, so the rates are shown as 0. */
  ghost predicate Stalled(rounds: seq<Round>, k: nat)
    requires 0 < k < |rounds|
  {
    rounds[k].at <= rounds[k - 1].at
  }

  ghost function Amounts(rounds: seq<Round>, lo: nat, shown: seq<real>): (r: seq<real>)
    requires lo + |shown| < |rounds|
    ensures |r| == |shown| && forall k :: 0 <= k < |r| ==> r[k] == shown[k] * SecondsBefore(rounds, lo + 1 + k)
  {
    seq(|shown|, k requires 0 <= k < |shown| => shown[k] * SecondsBefore(rounds, lo + 1 + k))
  }

  /** What round `k` has to show and does not. */
  ghost function Unshown(rounds: seq<Round>, name: string, direction: Direction, k: nat): real
    requires 0 < k < |rounds| && name in rounds[k - 1].readings && name in rounds[k].readings
  {
    if Stalled(rounds, k)
    then Delta(rounds[k - 1].readings[name].Of(direction), rounds[k].readings[name].Of(direction)) as real
    else 0.0
  }

  ghost function Lost(rounds: seq<Round>, name: string, direction: Direction, lo: nat, hi: nat): (r: seq<real>)
    requires Present(rounds, name, lo, hi)
    ensures |r| == hi - lo && forall k :: 0 <= k < |r| ==> r[k] == Unshown(rounds, name, direction, lo + 1 + k)
  {
    seq(hi - lo, k requires 0 <= k < hi - lo => Unshown(rounds, name, direction, lo + 1 + k))
  }

  /** One shown rate, multiplied back, is the difference of the two readings, unless the clock has not moved. */
  lemma ShownDelta(rounds: seq<Round>, name: string, direction: Direction, k: nat, rate: real)
    requires Linked(rounds) && 0 < k < |rounds| && Shows(rounds[k], name, direction, rate)
    requires name in rounds[k - 1].readings && name in rounds[k].readings
    ensures rate * SecondsBefore(rounds, k) + Unshown(rounds, name, direction, k) ==
            Delta(rounds[k - 1].readings[name].Of(direction), rounds[k].readings[name].Of(direction)) as real
    ensures Stalled(rounds, k) ==> rate == 0.0
  {
    assert RoundInv(rounds, k);
    assert rounds[..k][|rounds[..k]| - 1] == rounds[k - 1];
    var c := ComparisonAt(rounds, k);
    var row :| row in rounds[k].rows && row.name == name && row.PerSec(direction) == rate;
    RowShowsRate(rounds[k].interfaces, c, row, direction);
    StalledExactly(rounds, k);
    RateTimesSeconds(c, name, direction);
  }

  lemma StalledExactly(rounds: seq<Round>, k: nat)
    requires 0 < k < |rounds|
    ensures Stalled(rounds, k) <==> SecondsBefore(rounds, k) <= 0.0
  {
  }

  /** What is shown and what is lost, taken together, are the differences of the readings. */
  lemma AmountsAndLosses(rounds: seq<Round>, name: string, direction: Direction, lo: nat, shown: seq<real>)
    requires Linked(rounds) && Present(rounds, name, lo, lo + |shown|) && Shown(rounds, name, direction, lo, shown)
    ensures Sum(Amounts(rounds, lo, shown)) + Sum(Lost(rounds, name, direction, lo, lo + |shown|))
            == DeltaSum(Chain(rounds, name, direction, lo, lo + |shown|)) as real
  {
    var chain := Chain(rounds, name, direction, lo, lo + |shown|);
    var part, rest := Amounts(rounds, lo, shown), Lost(rounds, name, direction, lo, lo + |shown|);
    var whole := seq(|shown|, k requires 0 <= k < |shown| => part[k] + rest[k]);
    forall k: nat ensures IsDelta(chain, whole, k) {
      if k < |shown| {
        ShareIsDelta(rounds, name, direction, lo, shown, k);
      }
    }
    DeltasAddUp(chain, whole);
    SumSplits(whole, part, rest);
  }

  lemma ShareIsDelta(rounds: seq<Round>, name: string, direction: Direction, lo: nat, shown: seq<real>, k: nat)
    requires Linked(rounds) && Present(rounds, name, lo, lo + |shown|) && Shown(rounds, name, direction, lo, shown)
    requires k < |shown|
    ensures var chain := Chain(rounds, name, direction, lo, lo + |shown|);
            Amounts(rounds, lo, shown)[k] + Lost(rounds, name, direction, lo, lo + |shown|)[k]
            == Delta(chain[k], chain[k + 1]) as real
  {
    ShownDelta(rounds, name, direction, lo + 1 + k, shown[k]);
  }

  /** No round is stalled while the counter moves. */
  ghost predicate NothingLost(rounds: seq<Round>, name: string, direction: Direction, lo: nat, hi: nat)
    requires Present(rounds, name, lo, hi)
  {
    forall k: nat :: lo < k <= hi ==> NothingLostAt(rounds, name, direction, k)
  }

  ghost predicate NothingLostAt(rounds: seq<Round>, name: string, direction: Direction, k: nat)
    requires 0 < k < |rounds| && name in rounds[k - 1].readings && name in rounds[k].readings
  {
    Stalled(rounds, k) ==> rounds[k - 1].readings[name].Of(direction) == rounds[k].readings[name].Of(direction)
  }

  lemma UnshownVanishes(rounds: seq<Round>, name: string, direction: Direction, k: nat)
    requires 0 < k < |rounds| && name in rounds[k - 1].readings && name in rounds[k].readings
    ensures Unshown(rounds, name, direction, k) >= 0.0
    ensures Unshown(rounds, name, direction, k) == 0.0 <==> NothingLostAt(rounds, name, direction, k)
  {
    DeltaCases(rounds[k - 1].readings[name].Of(direction), rounds[k].readings[name].Of(direction));
  }

  lemma LossesVanish(rounds: seq<Round>, name: string, direction: Direction, lo: nat, hi: nat)
    requires Present(rounds, name, lo, hi)
    ensures Sum(Lost(rounds, name, direction, lo, hi)) >= 0.0
    ensures Sum(Lost(rounds, name, direction, lo, hi)) == 0.0 <==> NothingLost(rounds, name, direction, lo, hi)
  {
    var lost := Lost(rounds, name, direction, lo, hi);
    forall k | 0 <= k < |lost|
      ensures lost[k] >= 0.0 && (lost[k] == 0.0 <==> NothingLostAt(rounds, name, direction, lo + 1 + k))
    {
      UnshownVanishes(rounds, name, direction, lo + 1 + k);
    }
    SumOfNonnegative(lost);
    if Sum(lost) == 0.0 {
      forall k: nat | lo < k <= hi ensures NothingLostAt(rounds, name, direction, k) {
        assert lost[k - lo - 1] == 0.0;
      }
    }
  }

  /**
   For an interface present throughout, the rates shown times the seconds between rounds, with what is lost in
   rounds for which the clock has not moved, add up to last minus first reading mod 2^64, and to exactly that
   number just when the readings ascend. Nothing is lost exactly if the counter stands still in those rounds.
   */
  lemma RatesAddUp(rounds: seq<Round>, name: string, direction: Direction, lo: nat, shown: seq<real>)
    requires Linked(rounds) && Present(rounds, name, lo, lo + |shown|) && Shown(rounds, name, direction, lo, shown)
    ensures var hi := lo + |shown|;
            var chain, lost := Chain(rounds, name, direction, lo, hi), Sum(Lost(rounds, name, direction, lo, hi));
            && Sum(Amounts(rounds, lo, shown)) + lost == DeltaSum(chain) as real
            && DeltaSum(chain) % WRAP == Delta(chain[0], chain[|shown|])
            && (chain[0] as real + Sum(Amounts(rounds, lo, shown)) + lost == chain[|shown|] as real <==>
               Ascending(chain))
            && lost >= 0.0 && (lost == 0.0 <==> NothingLost(rounds, name, direction, lo, hi))
  {
    AmountsAndLosses(rounds, name, direction, lo, shown);
    LossesVanish(rounds, name, direction, lo, lo + |shown|);
    ChainSum(Chain(rounds, name, direction, lo, lo + |shown|));
  }

  /** `t` is where the counter stood at each round from `lo` on. */
  ghost predicate ReadsCounter(rounds: seq<Round>, name: string, direction: Direction, lo: nat, t: seq<int>)
    requires t != [] && Present(rounds, name, lo, lo + |t| - 1)
  {
    AreReadingsOf(Chain(rounds, name, direction, lo, lo + |t| - 1), t)
  }

  /**
   A counter that never goes back but may pass 2^64 any number of times: the amounts shown are its true growth
   exactly when no two neighbouring rounds are a whole turn apart and nothing is lost.
   */
  lemma RatesShowTrueGrowth(rounds: seq<Round>, name: string, direction: Direction, lo: nat, shown: seq<real>,
      t: seq<int>)
    requires Linked(rounds) && Present(rounds, name, lo, lo + |shown|) && Shown(rounds, name, direction, lo, shown)
    requires |t| == |shown| + 1 && ReadsCounter(rounds, name, direction, lo, t) && Grows(t)
    ensures var hi := lo + |shown|;
            && Sum(Amounts(rounds, lo, shown)) ==
               (t[|shown|] - t[0] - WRAP * Turns(t)) as real - Sum(Lost(rounds, name, direction, lo, hi))
            && (Sum(Amounts(rounds, lo, shown)) == (t[|shown|] - t[0]) as real <==>
                  ShortSteps(t) && NothingLost(rounds, name, direction, lo, hi))
            && (t[|shown|] - t[0] < WRAP ==> ShortSteps(t))
  {
    var lost := Sum(Lost(rounds, name, direction, lo, lo + |shown|));
    AmountsAgainstCounter(rounds, name, direction, lo, shown, t);
    LossesVanish(rounds, name, direction, lo, lo + |shown|);
    GrowthIsShown(t, Sum(Amounts(rounds, lo, shown)), lost);
  }

  lemma GrowthIsShown(t: seq<int>, shown: real, lost: real)
    requires t != [] && Grows(t) && lost >= 0.0
    requires shown == (t[|t| - 1] - t[0] - WRAP * Turns(t)) as real - lost
    ensures shown == (t[|t| - 1] - t[0]) as real <==> ShortSteps(t) && lost == 0.0
    ensures t[|t| - 1] - t[0] < WRAP ==> ShortSteps(t)
  {
    TurnsOfGrowing(t);
    ShortfallVanishes(shown, t[|t| - 1] - t[0], Turns(t), lost);
  }

  /** However the counter moves, what is shown falls short of its growth by the turns and the losses. */
  lemma AmountsAgainstCounter(rounds: seq<Round>, name: string, direction: Direction, lo: nat, shown: seq<real>,
      t: seq<int>)
    requires Linked(rounds) && Present(rounds, name, lo, lo + |shown|) && Shown(rounds, name, direction, lo, shown)
    requires |t| == |shown| + 1 && ReadsCounter(rounds, name, direction, lo, t)
    ensures Sum(Amounts(rounds, lo, shown)) ==
            (t[|shown|] - t[0] - WRAP * Turns(t)) as real - Sum(Lost(rounds, name, direction, lo, lo + |shown|))
    ensures Grows(t) && t[|shown|] - t[0] < WRAP ==> Turns(t) == 0
  {
    AmountsAndLosses(rounds, name, direction, lo, shown);
    SumOfSteps(Chain(rounds, name, direction, lo, lo + |shown|), t);
    TrueGrowth(Chain(rounds, name, direction, lo, lo + |shown|), t);
  }
}
