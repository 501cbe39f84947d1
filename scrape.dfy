/**
 * One scrape of the three status documents into a fresh metrics registry:
 * the inventory join map, the client signal-quality counts, and the walk
 * over the AP status records with its running totals, per-AP gauges,
 * controller gauges and per-radio noise floor and airtime gauges.
 */
module Scrape {
  import opened Js
  import opened Rules
  import Airtime

  /** One time series: a metric name and its label pairs in declaration order. */
  datatype Key = Key(name: string, labels: seq<(string, string)>)

  /** The value of every time series set in the registry of one probe. */
  type Registry = map<Key, Number>

  const ScrapeSuccess := "ruckus_exporter_last_scrape_success"
  const TotalClients := "ruckus_unleashed_network_clients_total"
  const TotalAps := "ruckus_unleashed_network_aps_total"
  const TotalRxBytes := "ruckus_unleashed_network_rx_bytes_total"
  const TotalTxBytes := "ruckus_unleashed_network_tx_bytes_total"
  const ApRoleCount := "ruckus_unleashed_ap_role_count"
  const ApNoiseFloor := "ruckus_unleashed_ap_noise_floor_dbm"
  const ApAirtime := "ruckus_unleashed_ap_airtime_utilization_percent"
  const ControllerCpu := "ruckus_unleashed_controller_cpu_usage_percent"
  const ControllerMem := "ruckus_unleashed_controller_memory_usage_percent"
  const ControllerUptime := "ruckus_unleashed_controller_uptime_seconds"
  const ApStatus := "ruckus_unleashed_ap_status"
  const ApUptime := "ruckus_unleashed_ap_uptime_seconds"
  const ApClients := "ruckus_unleashed_ap_clients"
  const ApRxBytes := "ruckus_unleashed_ap_rx_bytes_total"
  const ApTxBytes := "ruckus_unleashed_ap_tx_bytes_total"
  const ApCpu := "ruckus_unleashed_ap_cpu_utilization"
  const ApMemUsage := "ruckus_unleashed_ap_memory_usage_percent"
  const ApClientSignalQuality := "ruckus_unleashed_ap_client_signal_quality_count"

  /** `0`, the last operand of the numeric fallbacks. */
  const NumZero: Value := Some(Num(0, 0))

  // ---------------------------------------------------------------------
  // The inventory join map `apMap`

  /** The display name and model recorded for an AP, as label text. */
  datatype Meta = Meta(name: string, model: string)

  /** `String(ap.mac || ap["mac-address"] || "").toLowerCase()`. */
  function InventoryMac(ap: Node): string {
    Lower(ToText(Or(Or(Get(ap, "mac"), Get(ap, "mac-address")), Some(Str("")))))
  }

  /** The first truthy of `ap-name`, `devname`, `device-name` and the MAC; of `model`, `display-model` and "unknown". */
  function InventoryMeta(ap: Node, mac: string): Meta {
    Meta(
      ToText(Or(Or(Or(Get(ap, "ap-name"), Get(ap, "devname")), Get(ap, "device-name")), Some(Str(mac)))),
      ToText(Or(Or(Get(ap, "model"), Get(ap, "display-model")), Some(Str("unknown")))))
  }

  /** What the inventory walk reads from one record: its lower-cased MAC and the meta stored under it. */
  function InventoryEntry(ap: Node): (string, Meta) {
    (InventoryMac(ap), InventoryMeta(ap, InventoryMac(ap)))
  }

  function InventoryEntries(aps: seq<Node>): (r: seq<(string, Meta)>)
    ensures |r| == |aps|
  {
    if aps == [] then [] else InventoryEntries(aps[..|aps| - 1]) + [InventoryEntry(aps[|aps| - 1])]
  }

  lemma {:induction false} InventoryEntriesAt(aps: seq<Node>)
    ensures forall i :: 0 <= i < |aps| ==> InventoryEntries(aps)[i] == InventoryEntry(aps[i])
  {
    if aps != [] {
      InventoryEntriesAt(aps[..|aps| - 1]);
    }
  }

  lemma InventoryEntriesStep(aps: seq<Node>, i: nat)
    requires i < |aps|
    ensures InventoryEntries(aps[..i + 1]) == InventoryEntries(aps[..i]) + [InventoryEntry(aps[i])]
  {
    assert aps[..i + 1][..i] == aps[..i];
  }

  /** The map built from entries in order: each entry with a non-empty MAC overwrites that key. */
  function Keyed(entries: seq<(string, Meta)>): map<string, Meta> {
    if entries == [] then map[]
    else
      var e := entries[|entries| - 1];
      var m := Keyed(entries[..|entries| - 1]);
      if e.0 != "" then m[e.0 := e.1] else m
  }

  /** `apMap` after the inventory records `aps`. */
  function Inventory(aps: seq<Node>): map<string, Meta> {
    Keyed(InventoryEntries(aps))
  }

  /** `findAll(invJson, "ap").forEach(...)` filling `apMap`. */
  method BuildInventory(aps: seq<Node>) returns (apMap: map<string, Meta>)
    ensures apMap == Inventory(aps)
  {
    apMap := map[];
    var i := 0;
    while i < |aps|
      invariant 0 <= i <= |aps|
      invariant apMap == Keyed(InventoryEntries(aps[..i]))
    {
      var ap := aps[i];
      var mac := InventoryMac(ap);
      if mac != "" {
        apMap := apMap[mac := InventoryMeta(ap, mac)];
      }
      InventoryEntriesStep(aps, i);
      KeyedStep(InventoryEntries(aps[..i]), InventoryEntry(ap));
      i := i + 1;
    }
    assert aps[..i] == aps;
  }

  lemma KeyedStep(entries: seq<(string, Meta)>, e: (string, Meta))
    ensures Keyed(entries + [e]) == if e.0 != "" then Keyed(entries)[e.0 := e.1] else Keyed(entries)
  {
    assert (entries + [e])[..|entries|] == entries;
  }

  lemma {:induction false} KeyedKeys(entries: seq<(string, Meta)>, k: string)
    ensures k in Keyed(entries) <==> k != "" && exists i :: 0 <= i < |entries| && entries[i].0 == k
  {
    if entries != [] {
      var init := entries[..|entries| - 1];
      KeyedKeys(init, k);
      if k in Keyed(init) {
        var i :| 0 <= i < |init| && init[i].0 == k;
        assert entries[i] == init[i];
      }
      if k != "" && (exists i :: 0 <= i < |entries| && entries[i].0 == k) {
        var i :| 0 <= i < |entries| && entries[i].0 == k;
        if i < |init| {
          assert init[i] == entries[i];
        }
      }
    }
  }

  lemma {:induction false} KeyedLastWins(entries: seq<(string, Meta)>, i: nat)
    requires i < |entries| && entries[i].0 != ""
    requires forall j :: i < j < |entries| ==> entries[j].0 != entries[i].0
    ensures entries[i].0 in Keyed(entries) && Keyed(entries)[entries[i].0] == entries[i].1
  {
    var init := entries[..|entries| - 1];
    if i < |entries| - 1 {
      assert init[i] == entries[i];
      KeyedLastWins(init, i);
    }
  }

  /** An entry exists exactly for the non-empty MACs some record carries. */
  lemma InventoryKeys(aps: seq<Node>, k: string)
    ensures k in Inventory(aps) <==> k != "" && exists i :: 0 <= i < |aps| && InventoryMac(aps[i]) == k
  {
    var entries := InventoryEntries(aps);
    InventoryEntriesAt(aps);
    KeyedKeys(entries, k);
    if exists i :: 0 <= i < |aps| && InventoryMac(aps[i]) == k {
      var i :| 0 <= i < |aps| && InventoryMac(aps[i]) == k;
      assert entries[i].0 == k;
    }
  }

  /** The entry for a MAC holds the meta of the last record carrying that MAC. */
  lemma InventoryLastWins(aps: seq<Node>, i: nat)
    requires i < |aps| && InventoryMac(aps[i]) != ""
    requires forall j :: i < j < |aps| ==> InventoryMac(aps[j]) != InventoryMac(aps[i])
    ensures var mac := InventoryMac(aps[i]);
      mac in Inventory(aps) && Inventory(aps)[mac] == InventoryMeta(aps[i], mac)
  {
    var entries := InventoryEntries(aps);
    InventoryEntriesAt(aps);
    forall j | i < j < |entries|
      ensures entries[j].0 != entries[i].0
    {
      assert entries[j].0 == InventoryMac(aps[j]);
    }
    KeyedLastWins(entries, i);
  }

  /** Every key is already lower-case. */
  lemma InventoryLowerCase(aps: seq<Node>, k: string)
    requires k in Inventory(aps)
    ensures Lower(k) == k
  {
    var entries := InventoryEntries(aps);
    InventoryEntriesAt(aps);
    KeyedKeys(entries, k);
    var i :| 0 <= i < |entries| && entries[i].0 == k;
    LowerIdempotent(ToText(Or(Or(Get(aps[i], "mac"), Get(aps[i], "mac-address")), Some(Str("")))));
  }

  // ---------------------------------------------------------------------
  // Client signal quality

  /** The bucket a client record increments, if its cleaned RSSI is not zero. */
  function SignalKey(apMap: map<string, Meta>, c: Node): Option<Key> {
    var apMac := Lower(ToText(Or(Get(c, "ap"), Some(Str("")))));
    var name := if apMac in apMap then apMap[apMac].name else ToText(Or(Get(c, "ap-name"), Some(Str("Unknown-AP"))));
    match SignalQuality(Clean(Or(Get(c, "rssi"), NumZero)))
    case None => None
    case Some(q) =>
      Some(Key(ApClientSignalQuality,
        [("name", name), ("mac", apMac), ("radio", ClientBand(Get(c, "radio-band"))), ("quality", QualityLabel(q))]))
  }

  /** `inc(labels)`: a series not yet set starts from zero. */
  function Inc(reg: Registry, k: Key): Registry {
    reg[k := if k in reg then Add(reg[k], Finite(1.0)) else Finite(1.0)]
  }

  /** The registry after counting the records `cs` into an empty one, each under the key `key` gives it, if any. */
  function CountBy(key: Node -> Option<Key>, cs: seq<Node>): Registry {
    if cs == [] then map[]
    else
      var reg := CountBy(key, cs[..|cs| - 1]);
      match key(cs[|cs| - 1])
      case None => reg
      case Some(k) => Inc(reg, k)
  }

  /** The number of records that `key` puts under `k`. */
  function KeyCount(key: Node -> Option<Key>, cs: seq<Node>, k: Key): nat {
    if cs == [] then 0
    else KeyCount(key, cs[..|cs| - 1], k) + (if key(cs[|cs| - 1]) == Some(k) then 1 else 0)
  }

  function SignalKeyOf(apMap: map<string, Meta>): Node -> Option<Key> {
    c => SignalKey(apMap, c)
  }

  /** The registry after counting the client records `cs` into an empty one. */
  function SignalCounts(apMap: map<string, Meta>, cs: seq<Node>): Registry {
    CountBy(SignalKeyOf(apMap), cs)
  }

  /** The number of client records classified into bucket `k`. */
  function ClientCount(apMap: map<string, Meta>, cs: seq<Node>, k: Key): nat {
    KeyCount(SignalKeyOf(apMap), cs, k)
  }

  /** `allClients.forEach(...)` on the fresh registry of a probe. */
  method CountSignals(apMap: map<string, Meta>, clients: seq<Node>) returns (reg: Registry)
    ensures reg == SignalCounts(apMap, clients)
  {
    reg := map[];
    var i := 0;
    while i < |clients|
      invariant 0 <= i <= |clients|
      invariant reg == SignalCounts(apMap, clients[..i])
    {
      var k := SignalKey(apMap, clients[i]);
      SignalCountsStep(apMap, clients, i);
      if k.Some? {
        reg := Inc(reg, k.value);
      }
      i := i + 1;
    }
    assert clients[..i] == clients;
  }

  lemma SignalCountsStep(apMap: map<string, Meta>, cs: seq<Node>, i: nat)
    requires i < |cs|
    ensures var reg := SignalCounts(apMap, cs[..i]); var k := SignalKey(apMap, cs[i]);
      SignalCounts(apMap, cs[..i + 1]) == if k.Some? then Inc(reg, k.value) else reg
  {
    assert cs[..i + 1][..i] == cs[..i];
    assert SignalKeyOf(apMap)(cs[..i + 1][i]) == SignalKey(apMap, cs[i]);
  }

  /**
   * Each bucket holds the number of this probe's client records classified
   * into it, is set exactly when that number is positive, and is a signal
   * quality series.
   */
  lemma SignalCountsAreCounts(apMap: map<string, Meta>, cs: seq<Node>, k: Key)
    ensures k in SignalCounts(apMap, cs) <==> ClientCount(apMap, cs, k) > 0
    ensures k in SignalCounts(apMap, cs) ==> SignalCounts(apMap, cs)[k] == Finite(ClientCount(apMap, cs, k) as real)
    ensures k in SignalCounts(apMap, cs) ==> k.name == ApClientSignalQuality
  {
    var key := SignalKeyOf(apMap);
    forall c: Node
      ensures key(c).Some? ==> key(c).value.name == ApClientSignalQuality
    {
      SignalKeyName(apMap, c);
    }
    CountByCounts(key, cs, k);
  }

  /** Counting with a key function that only gives signal quality keys keeps every series equal to its count. */
  lemma {:induction false} CountByCounts(key: Node -> Option<Key>, cs: seq<Node>, k: Key)
    requires forall c: Node :: key(c).Some? ==> key(c).value.name == ApClientSignalQuality
    ensures k in CountBy(key, cs) <==> KeyCount(key, cs, k) > 0
    ensures k in CountBy(key, cs) ==> CountBy(key, cs)[k] == Finite(KeyCount(key, cs, k) as real)
    ensures k in CountBy(key, cs) ==> k.name == ApClientSignalQuality
  {
    if cs != [] {
      var init := cs[..|cs| - 1];
      CountByCounts(key, init, k);
      IncCounts(CountBy(key, init), key(cs[|cs| - 1]), KeyCount(key, init, k), k);
    }
  }

  lemma SignalKeyName(apMap: map<string, Meta>, c: Node)
    ensures SignalKey(apMap, c).Some? ==> SignalKey(apMap, c).value.name == ApClientSignalQuality
  {
  }

  /** One optional `inc` keeps a series' value equal to its count. */
  lemma IncCounts(reg: Registry, x: Option<Key>, n: nat, k: Key)
    requires (k in reg <==> n > 0) && (k in reg ==> reg[k] == Finite(n as real) && k.name == ApClientSignalQuality)
    requires x.Some? ==> x.value.name == ApClientSignalQuality
    ensures var reg' := if x.Some? then Inc(reg, x.value) else reg;
      var n' := n + (if x == Some(k) then 1 else 0);
      (k in reg' <==> n' > 0) && (k in reg' ==> reg'[k] == Finite(n' as real) && k.name == ApClientSignalQuality)
  {
  }

  /** A client with a zero (or missing) RSSI counts nowhere. */
  lemma ZeroRssiUncounted(apMap: map<string, Meta>, c: Node)
    requires Clean(Get(c, "rssi")) == Finite(0.0)
    ensures SignalKey(apMap, c) == None
  {
    CleanOrZero(Get(c, "rssi"));
  }

  // ---------------------------------------------------------------------
  // What the status walk reads from a record

  /** `ap.mac || ap["mac-address"]`, not lower-cased. */
  function StatusMac(ap: Node): Value {
    Or(Get(ap, "mac"), Get(ap, "mac-address"))
  }

  /** `apMap[mac] || { name: ap["ap-name"] || mac, model: (ap.model || "unknown").toUpperCase() }`. */
  function StatusMeta(apMap: map<string, Meta>, ap: Node): Result<Meta> {
    var mac := ToText(StatusMac(ap));
    if mac in apMap then Ok(apMap[mac])
    else
      match FallbackModel(ap)
      case Ok(model) => Ok(Meta(ToText(Or(Get(ap, "ap-name"), StatusMac(ap))), model))
      case TypeError => TypeError
  }

  function Labels(meta: Meta, mac: string): seq<(string, string)> {
    [("name", meta.name), ("mac", mac), ("model", meta.model)]
  }

  /** `parseInt(ap["uptime"] || ap["up-time"] || 0)`. */
  function Uptime(ap: Node): Number {
    ParseInt(Or(Or(Get(ap, "uptime"), Get(ap, "up-time")), NumZero))
  }

  /** `parseInt(ap["num-sta"] || 0)`. */
  function Stations(ap: Node): Number {
    ParseInt(Or(Get(ap, "num-sta"), NumZero))
  }

  /** `clean(ap["lan_stats_rx_byte"] || ap["rx-byte"] || 0)`. */
  function RxBytes(ap: Node): Number {
    Clean(Or(Or(Get(ap, "lan_stats_rx_byte"), Get(ap, "rx-byte")), NumZero))
  }

  /** `clean(ap["lan_stats_tx_byte"] || ap["tx-byte"] || 0)`. */
  function TxBytes(ap: Node): Number {
    Clean(Or(Or(Get(ap, "lan_stats_tx_byte"), Get(ap, "tx-byte")), NumZero))
  }

  /** What is read from one radio: its band, its noise floor when truthy, its airtime sample when present. */
  datatype RadioView = RadioView(band: string, noise: Option<Number>, airtime: Option<Airtime.Sample>)

  function ReadRadio(ap: Node, r: Node): RadioView {
    RadioView(
      RadioBand(r),
      if Truthy(Get(r, "noisefloor")) then Some(Clean(Get(r, "noisefloor"))) else None,
      if Get(r, "airtime-total").Some? then
        Some(Airtime.Sample(Clean(Get(r, "airtime-total")), ParseInt(Or(Get(ap, "uptime"), NumZero))))
      else None)
  }

  function ReadRadios(ap: Node, rs: seq<Node>): (r: seq<RadioView>)
    ensures |r| == |rs|
  {
    if rs == [] then [] else ReadRadios(ap, rs[..|rs| - 1]) + [ReadRadio(ap, rs[|rs| - 1])]
  }

  /** `ap.radio` when it is an array; nothing otherwise. */
  function RadioList(ap: Node): seq<Node> {
    var r := Get(ap, "radio");
    if r.Some? && r.value.Arr? then r.value.items else []
  }

  /** What is read from one status record that has a MAC and does not throw. */
  datatype ApView = ApView(
    mac: string, labels: seq<(string, string)>, role: string,
    uptime: Number, stations: Number, rx: Number, tx: Number, memory: Option<Number>,
    cpu: Number, controllerMemory: Option<Number>, radios: seq<RadioView>,
    statusLabels: seq<(string, string)>, online: real)

  /** A status record: skipped without a MAC, throwing from the model or role fallback, or read. */
  datatype Read = Skipped | Throws | Record(view: ApView)

  function ReadStatus(apMap: map<string, Meta>, ap: Node): Read {
    if !Truthy(StatusMac(ap)) then Skipped
    else
      match StatusMeta(apMap, ap)
      case TypeError => Throws
      case Ok(meta) =>
        match Role(ap)
        case TypeError => Throws
        case Ok(role) =>
          var mac := ToText(StatusMac(ap));
          var labels := Labels(meta, mac);
          Record(ApView(mac, labels, role, Uptime(ap), Stations(ap), RxBytes(ap), TxBytes(ap), ApMemory(ap),
            Clean(Get(ap, "cpu_util")), ControllerMemoryAsWritten(ap), ReadRadios(ap, RadioList(ap)),
            labels + [("ip", ToText(Get(ap, "ip"))), ("fw", ToText(Get(ap, "firmware-version"))), ("role", role)],
            OnlineStatus(ap)))
  }

  /**
   * A record is skipped exactly when it has no truthy MAC, throws exactly when
   * the model fallback or the role throws, and is otherwise read with its
   * lower-cased role, both memory gauges (the controller one under the raw
   * `mem_total` guard) and its client, RX and TX amounts.
   */
  lemma ReadStatusCases(apMap: map<string, Meta>, ap: Node)
    ensures var r := ReadStatus(apMap, ap);
      (r.Skipped? <==> !Truthy(StatusMac(ap))) &&
      (r.Throws? <==> Truthy(StatusMac(ap)) && (StatusMeta(apMap, ap).TypeError? || Role(ap).TypeError?)) &&
      (r.Record? ==> r.view.role == Role(ap).value && r.view.memory == ApMemory(ap) && r.view.controllerMemory == ControllerMemoryAsWritten(ap)) &&
      (r.Record? ==> r.view.stations == Stations(ap) && r.view.rx == RxBytes(ap) && r.view.tx == TxBytes(ap))
  {
  }

  /** A record with a MAC and a truthy role that is not a string throws. */
  lemma RoleThrows(apMap: map<string, Meta>, ap: Node)
    requires Truthy(StatusMac(ap)) && Truthy(Get(ap, "role")) && !Get(ap, "role").value.Str?
    ensures ReadStatus(apMap, ap) == Throws
  {
  }

  /** An AP missing from the inventory whose model is truthy but not a string throws. */
  lemma ModelThrows(apMap: map<string, Meta>, ap: Node)
    requires Truthy(StatusMac(ap)) && ToText(StatusMac(ap)) !in apMap
    requires Truthy(Get(ap, "model")) && !Get(ap, "model").value.Str?
    ensures ReadStatus(apMap, ap) == Throws
  {
  }

  // ---------------------------------------------------------------------
  // What the status walk does with a record

  /** `netClients`, `netAps`, `netRx`, `netTx`, `masterCount` and `memberCount`. */
  datatype Totals = Totals(clients: Number, aps: nat, rx: Number, tx: Number, masters: nat, members: nat)

  const NoTotals := Totals(Finite(0.0), 0, Finite(0.0), Finite(0.0), 0, 0)

  /** The registry, the running totals and the airtime state as the walk goes. */
  datatype Scan = Scan(reg: Registry, totals: Totals, air: Airtime.State)

  /** The walk so far: still going, or stopped by a `TypeError` with the state it had reached. */
  datatype Progress = Running(scan: Scan) | Threw(scan: Scan)

  /** The registry and airtime state during the radio walk of one record. */
  datatype RadioScan = RadioScan(reg: Registry, air: Airtime.State)

  /** One radio: the noise floor gauge, then the airtime observation under `mac-band`. */
  function RadioEffect(s: RadioScan, mac: string, labels: seq<(string, string)>, v: RadioView): RadioScan {
    var radioLabels := labels + [("radio", v.band)];
    var reg := if v.noise.Some? then s.reg[Key(ApNoiseFloor, radioLabels) := v.noise.value] else s.reg;
    if v.airtime.None? then RadioScan(reg, s.air)
    else
      var o := Airtime.Step(s.air, mac + "-" + v.band, v.airtime.value);
      RadioScan(if o.emitted.Some? then reg[Key(ApAirtime, radioLabels) := Finite(o.emitted.value)] else reg, o.state)
  }

  function RadioEffects(s: RadioScan, mac: string, labels: seq<(string, string)>, vs: seq<RadioView>): RadioScan {
    if vs == [] then s else RadioEffect(RadioEffects(s, mac, labels, vs[..|vs| - 1]), mac, labels, vs[|vs| - 1])
  }

  /** The unlabelled controller gauges a master record sets. */
  function ControllerEffect(reg: Registry, v: ApView): Registry {
    var r := reg[Key(ControllerCpu, []) := v.cpu][Key(ControllerUptime, []) := v.uptime];
    if v.controllerMemory.Some? then r[Key(ControllerMem, []) := v.controllerMemory.value] else r
  }

  /** The totals after one record with a MAC. */
  function Count(t: Totals, v: ApView): Totals {
    var master := v.role == "master";
    Totals(Add(t.clients, v.stations), t.aps + 1, Add(t.rx, v.rx), Add(t.tx, v.tx),
      t.masters + (if master then 1 else 0), t.members + (if master then 0 else 1))
  }

  /** One read record's gauges in source order, and its totals. */
  function ApEffect(s: Scan, v: ApView): Scan {
    var reg := s.reg[Key(ApUptime, v.labels) := v.uptime][Key(ApRxBytes, v.labels) := v.rx][Key(ApTxBytes, v.labels) := v.tx];
    var reg1 := if v.memory.Some? then reg[Key(ApMemUsage, v.labels) := v.memory.value] else reg;
    var reg2 := if v.role == "master" then ControllerEffect(reg1, v) else reg1;
    var radios := RadioEffects(RadioScan(reg2, s.air), v.mac, v.labels, v.radios);
    var reg3 := radios.reg[Key(ApStatus, v.statusLabels) := Finite(v.online)][Key(ApClients, v.labels) := v.stations][Key(ApCpu, v.labels) := v.cpu];
    Scan(reg3, Count(s.totals, v), radios.air)
  }

  function StatusStep(s: Scan, r: Read): Result<Scan> {
    match r
    case Skipped => Ok(s)
    case Throws => TypeError
    case Record(v) => Ok(ApEffect(s, v))
  }

  /** The progress of the walk after one more record: a throw ends it. */
  function Advance(p: Progress, r: Read): Progress {
    match p
    case Threw(s) => Threw(s)
    case Running(s) =>
      match StatusStep(s, r)
      case Ok(s') => Running(s')
      case TypeError => Threw(s)
  }

  /** The walk over the status records `aps` in order; a throw ends it. */
  function Status(apMap: map<string, Meta>, s0: Scan, aps: seq<Node>): Progress {
    if aps == [] then Running(s0)
    else Advance(Status(apMap, s0, aps[..|aps| - 1]), ReadStatus(apMap, aps[|aps| - 1]))
  }

  lemma StatusAt(apMap: map<string, Meta>, s0: Scan, aps: seq<Node>, i: nat)
    requires i < |aps|
    ensures Status(apMap, s0, aps[..i + 1]) == Advance(Status(apMap, s0, aps[..i]), ReadStatus(apMap, aps[i]))
  {
    assert aps[..i + 1][..i] == aps[..i];
  }

  // ---------------------------------------------------------------------
  // The imperative walk

  /** `ap.radio.forEach(...)`. */
  method ObserveRadios(reg0: Registry, mac: string, labels: seq<(string, string)>, vs: seq<RadioView>, store: Airtime.Store)
    returns (reg: Registry)
    requires store.Valid()
    modifies store
    ensures store.Valid()
    ensures RadioScan(reg, store.Contents()) == RadioEffects(RadioScan(reg0, old(store.Contents())), mac, labels, vs)
  {
    reg := reg0;
    ghost var s0 := RadioScan(reg0, store.Contents());
    var i := 0;
    while i < |vs|
      invariant 0 <= i <= |vs|
      invariant store.Valid()
      invariant RadioScan(reg, store.Contents()) == RadioEffects(s0, mac, labels, vs[..i])
    {
      var v := vs[i];
      RadioEffectsStep(s0, mac, labels, vs, i);
      var radioLabels := labels + [("radio", v.band)];
      if v.noise.Some? {
        reg := reg[Key(ApNoiseFloor, radioLabels) := v.noise.value];
      }
      if v.airtime.Some? {
        var emitted := store.Observe(mac + "-" + v.band, v.airtime.value);
        if emitted.Some? {
          reg := reg[Key(ApAirtime, radioLabels) := Finite(emitted.value)];
        }
      }
      i := i + 1;
    }
    assert vs[..i] == vs;
  }

  lemma RadioEffectsStep(s: RadioScan, mac: string, labels: seq<(string, string)>, vs: seq<RadioView>, i: nat)
    requires i < |vs|
    ensures RadioEffects(s, mac, labels, vs[..i + 1]) == RadioEffect(RadioEffects(s, mac, labels, vs[..i]), mac, labels, vs[i])
  {
    assert vs[..i + 1][..i] == vs[..i];
  }

  /** The body of `findAll(statJson, "ap").forEach(...)` for one record, once read. */
  method ObserveStatus(read: Read, reg0: Registry, totals0: Totals, store: Airtime.Store)
    returns (reg: Registry, totals: Totals, threw: bool)
    requires store.Valid()
    modifies store
    ensures store.Valid()
    ensures var r := StatusStep(Scan(reg0, totals0, old(store.Contents())), read);
      (threw <==> r.TypeError?) &&
      (threw ==> reg == reg0 && store.Contents() == old(store.Contents())) &&
      (!threw ==> r.value == Scan(reg, totals, store.Contents()))
  {
    reg, totals, threw := reg0, totals0, false;
    if read.Skipped? {
      return;
    }
    totals := totals.(aps := totals.aps + 1);
    if read.Throws? {
      threw := true;
      return;
    }
    var v := read.view;
    totals := totals.(clients := Add(totals.clients, v.stations), rx := Add(totals.rx, v.rx), tx := Add(totals.tx, v.tx));
    reg := reg[Key(ApUptime, v.labels) := v.uptime][Key(ApRxBytes, v.labels) := v.rx][Key(ApTxBytes, v.labels) := v.tx];
    if v.memory.Some? {
      reg := reg[Key(ApMemUsage, v.labels) := v.memory.value];
    }
    if v.role == "master" {
      totals := totals.(masters := totals.masters + 1);
      reg := reg[Key(ControllerCpu, []) := v.cpu][Key(ControllerUptime, []) := v.uptime];
      if v.controllerMemory.Some? {
        reg := reg[Key(ControllerMem, []) := v.controllerMemory.value];
      }
    } else {
      totals := totals.(members := totals.members + 1);
    }
    reg := ObserveRadios(reg, v.mac, v.labels, v.radios, store);
    reg := reg[Key(ApStatus, v.statusLabels) := Finite(v.online)][Key(ApClients, v.labels) := v.stations][Key(ApCpu, v.labels) := v.cpu];
  }

  /** `findAll(statJson, "ap").forEach(...)`: the walk, stopping at the first throw. */
  method ScanStatus(apMap: map<string, Meta>, reg0: Registry, aps: seq<Node>, store: Airtime.Store)
    returns (reg: Registry, totals: Totals, threw: bool)
    requires store.Valid()
    modifies store
    ensures store.Valid()
    ensures var p := Status(apMap, Scan(reg0, NoTotals, old(store.Contents())), aps);
      threw == p.Threw? && reg == p.scan.reg && store.Contents() == p.scan.air && (!threw ==> totals == p.scan.totals)
  {
    ghost var s0 := Scan(reg0, NoTotals, store.Contents());
    reg, totals, threw := reg0, NoTotals, false;
    var i := 0;
    while i < |aps|
      invariant 0 <= i <= |aps|
      invariant store.Valid()
      invariant Status(apMap, s0, aps[..i]) == Running(Scan(reg, totals, store.Contents()))
    {
      StatusAt(apMap, s0, aps, i);
      var reg', totals', threw' := ObserveStatus(ReadStatus(apMap, aps[i]), reg, totals, store);
      if threw' {
        threw := true;
        ThrowPersists(apMap, s0, aps, i + 1);
        return;
      }
      reg, totals := reg', totals';
      i := i + 1;
    }
    assert aps[..i] == aps;
  }

  // ---------------------------------------------------------------------
  // Properties of the walk

  /** Once a record has thrown, the later records change nothing. */
  lemma {:induction false} ThrowPersists(apMap: map<string, Meta>, s0: Scan, aps: seq<Node>, i: nat)
    requires i <= |aps| && Status(apMap, s0, aps[..i]).Threw?
    ensures Status(apMap, s0, aps) == Status(apMap, s0, aps[..i])
    decreases |aps| - i
  {
    if i < |aps| {
      assert aps[..i + 1][..i] == aps[..i];
      ThrowPersists(apMap, s0, aps, i + 1);
    } else {
      assert aps[..i] == aps;
    }
  }

  /** The number of status records with a truthy MAC. */
  function MacCount(aps: seq<Node>): nat {
    if aps == [] then 0 else MacCount(aps[..|aps| - 1]) + (if Truthy(StatusMac(aps[|aps| - 1])) then 1 else 0)
  }

  /** The number of status records with a truthy MAC whose role lower-cases to "master". */
  function MasterCount(aps: seq<Node>): nat {
    if aps == [] then 0
    else MasterCount(aps[..|aps| - 1]) + (if Truthy(StatusMac(aps[|aps| - 1])) && Role(aps[|aps| - 1]) == Ok("master") then 1 else 0)
  }

  /**
   * A walk that completes counts every record with a truthy MAC, each as
   * either a master or a member, and the masters are the records whose role
   * is "master" in any capitalisation.
   */
  lemma {:induction false} StatusTotals(apMap: map<string, Meta>, s0: Scan, aps: seq<Node>)
    requires s0.totals.aps == 0 && s0.totals.masters == 0 && s0.totals.members == 0
    ensures var p := Status(apMap, s0, aps);
      p.Running? ==>
        p.scan.totals.aps == MacCount(aps) &&
        p.scan.totals.masters + p.scan.totals.members == p.scan.totals.aps &&
        p.scan.totals.masters == MasterCount(aps)
  {
    if aps != [] {
      StatusTotals(apMap, s0, aps[..|aps| - 1]);
      ReadStatusCases(apMap, aps[|aps| - 1]);
    }
  }

  /** `MacCount` counts the positions of the records with a truthy MAC. */
  lemma {:induction false} MacCountIndices(aps: seq<Node>)
    ensures MacCount(aps) == |set i | 0 <= i < |aps| && Truthy(StatusMac(aps[i]))|
  {
    if aps != [] {
      var n := |aps| - 1;
      MacCountIndices(aps[..n]);
      var a := set i | 0 <= i < n && Truthy(StatusMac(aps[..n][i]));
      var b := set i | 0 <= i < |aps| && Truthy(StatusMac(aps[i]));
      var hit := Truthy(StatusMac(aps[n]));
      assert n !in a;
      assert forall i :: i in b <==> (i in a || (hit && i == n));
      SetGrow(a, b, n, hit);
    }
  }

  lemma SetGrow(a: set<int>, b: set<int>, n: int, hit: bool)
    requires n !in a && forall i :: i in b <==> (i in a || (hit && i == n))
    ensures |b| == |a| + (if hit then 1 else 0)
  {
    if hit {
      assert forall i :: i in b <==> i in a + {n};
      assert b == a + {n};
    } else {
      assert forall i :: i in b <==> i in a;
      assert b == a;
    }
  }

  /**
   * After a walk over the status records that completes, the AP total is the
   * number of records with a truthy MAC, and masters plus members make up
   * that total.
   */
  lemma CompletedWalkCounts(apMap: map<string, Meta>, s0: Scan, aps: seq<Node>)
    requires s0.totals.aps == 0 && s0.totals.masters == 0 && s0.totals.members == 0
    requires Status(apMap, s0, aps).Running?
    ensures var t := Status(apMap, s0, aps).scan.totals;
      t.aps == |set i | 0 <= i < |aps| && Truthy(StatusMac(aps[i]))| && t.masters + t.members == t.aps
  {
    StatusTotals(apMap, s0, aps);
    MacCountIndices(aps);
  }

  /** The three amounts the walk sums over the records: clients, received bytes, sent bytes. */
  datatype Quantity = Clients | Received | Sent

  function Amount(q: Quantity, ap: Node): Number {
    match q
    case Clients => Stations(ap)
    case Received => RxBytes(ap)
    case Sent => TxBytes(ap)
  }

  /** The running total of a quantity. */
  function Total(q: Quantity, t: Totals): Number {
    match q
    case Clients => t.clients
    case Received => t.rx
    case Sent => t.tx
  }

  /** The gauge a running total lands on. */
  function TotalGauge(q: Quantity): string {
    match q
    case Clients => TotalClients
    case Received => TotalRxBytes
    case Sent => TotalTxBytes
  }

  /** The amount of a quantity in a status record, as a function of the record. */
  function AmountOf(q: Quantity): Node -> Number {
    ap => Amount(q, ap)
  }

  /** `Add` folded from 0, in order, over the amounts of the records with a truthy MAC. */
  function MacSum(amount: Node -> Number, aps: seq<Node>): Number {
    if aps == [] then Finite(0.0)
    else
      var ap := aps[|aps| - 1];
      var t := MacSum(amount, aps[..|aps| - 1]);
      if Truthy(StatusMac(ap)) then Add(t, amount(ap)) else t
  }

  /** The real sum of the finite amounts of the records with a truthy MAC. */
  function RealSum(amount: Node -> Number, aps: seq<Node>): real {
    if aps == [] then 0.0
    else
      var ap := aps[|aps| - 1];
      var t := RealSum(amount, aps[..|aps| - 1]);
      if Truthy(StatusMac(ap)) && amount(ap).Finite? then t + amount(ap).r else t
  }

  /** A walk that completes from a zero total adds up the amount of every record with a truthy MAC. */
  lemma {:induction false} StatusSums(apMap: map<string, Meta>, s0: Scan, aps: seq<Node>, q: Quantity)
    requires Total(q, s0.totals) == Finite(0.0)
    ensures var p := Status(apMap, s0, aps);
      p.Running? ==> Total(q, p.scan.totals) == MacSum(AmountOf(q), aps)
  {
    if aps != [] {
      StatusSums(apMap, s0, aps[..|aps| - 1], q);
      ReadStatusCases(apMap, aps[|aps| - 1]);
    }
  }

  /** One counted record whose amount is NaN makes the whole sum NaN. */
  lemma {:induction false} MacSumPoisoned(amount: Node -> Number, aps: seq<Node>, i: nat)
    requires i < |aps| && Truthy(StatusMac(aps[i])) && amount(aps[i]).NaN?
    ensures MacSum(amount, aps) == NaN
  {
    var n := |aps| - 1;
    if i < n {
      assert aps[..n][i] == aps[i];
      MacSumPoisoned(amount, aps[..n], i);
    }
  }

  /** When every counted amount is finite, the sum is the real sum. */
  lemma {:induction false} MacSumFinite(amount: Node -> Number, aps: seq<Node>)
    requires forall i :: 0 <= i < |aps| && Truthy(StatusMac(aps[i])) ==> amount(aps[i]).Finite?
    ensures MacSum(amount, aps) == Finite(RealSum(amount, aps))
  {
    if aps != [] {
      var n := |aps| - 1;
      assert forall i :: 0 <= i < n ==> aps[..n][i] == aps[i];
      MacSumFinite(amount, aps[..n]);
    }
  }

  /**
   * After a walk that completes, each running total is the in-order `Add` of
   * the record amounts: NaN as soon as one counted record reads NaN, and the
   * real sum when all of them are finite.
   */
  lemma CompletedWalkSums(apMap: map<string, Meta>, s0: Scan, aps: seq<Node>, q: Quantity)
    requires Total(q, s0.totals) == Finite(0.0)
    requires Status(apMap, s0, aps).Running?
    ensures var t := Total(q, Status(apMap, s0, aps).scan.totals);
      t == MacSum(AmountOf(q), aps) &&
      ((exists i :: 0 <= i < |aps| && Truthy(StatusMac(aps[i])) && Amount(q, aps[i]).NaN?) ==> t == NaN) &&
      ((forall i :: 0 <= i < |aps| && Truthy(StatusMac(aps[i])) ==> Amount(q, aps[i]).Finite?) ==>
         t == Finite(RealSum(AmountOf(q), aps)))
  {
    StatusSums(apMap, s0, aps, q);
    if exists i :: 0 <= i < |aps| && Truthy(StatusMac(aps[i])) && Amount(q, aps[i]).NaN? {
      var i :| 0 <= i < |aps| && Truthy(StatusMac(aps[i])) && Amount(q, aps[i]).NaN?;
      MacSumPoisoned(AmountOf(q), aps, i);
    }
    if forall i :: 0 <= i < |aps| && Truthy(StatusMac(aps[i])) ==> Amount(q, aps[i]).Finite? {
      MacSumFinite(AmountOf(q), aps);
    }
  }

  /** The radio walk sets only noise floor and airtime series. */
  lemma {:induction false} RadiosKeep(s: RadioScan, mac: string, labels: seq<(string, string)>, vs: seq<RadioView>, k: Key)
    requires k.name != ApNoiseFloor && k.name != ApAirtime
    ensures var r := RadioEffects(s, mac, labels, vs).reg;
      (k in r <==> k in s.reg) && (k in s.reg ==> r[k] == s.reg[k])
  {
    if vs != [] {
      RadiosKeep(s, mac, labels, vs[..|vs| - 1], k);
    }
  }

  /**
   * The per-AP memory gauge of a record is set exactly when the record's
   * cleaned `mem_total` is positive, and then to `(total - free) / total * 100`;
   * otherwise that series keeps whatever it held.
   */
  lemma MemoryGaugeGuarded(apMap: map<string, Meta>, s: Scan, ap: Node)
    requires ReadStatus(apMap, ap).Record?
    ensures var v := ReadStatus(apMap, ap).view;
      var k := Key(ApMemUsage, v.labels);
      var reg := ApEffect(s, v).reg;
      (Greater(Clean(Get(ap, "mem_total")), Zero) ==> k in reg && reg[k] == ApMemory(ap).value) &&
      (!Greater(Clean(Get(ap, "mem_total")), Zero) ==> (k in reg <==> k in s.reg) && (k in s.reg ==> reg[k] == s.reg[k]))
  {
    ReadStatusCases(apMap, ap);
    var v := ReadStatus(apMap, ap).view;
    MemoryEffect(s, v);
  }

  lemma MemoryEffect(s: Scan, v: ApView)
    ensures var k := Key(ApMemUsage, v.labels);
      var reg := ApEffect(s, v).reg;
      (v.memory.Some? ==> k in reg && reg[k] == v.memory.value) &&
      (v.memory.None? ==> (k in reg <==> k in s.reg) && (k in s.reg ==> reg[k] == s.reg[k]))
  {
    var k := Key(ApMemUsage, v.labels);
    var reg := s.reg[Key(ApUptime, v.labels) := v.uptime][Key(ApRxBytes, v.labels) := v.rx][Key(ApTxBytes, v.labels) := v.tx];
    var reg1 := if v.memory.Some? then reg[Key(ApMemUsage, v.labels) := v.memory.value] else reg;
    var reg2 := if v.role == "master" then ControllerEffect(reg1, v) else reg1;
    RadiosKeep(RadioScan(reg2, s.air), v.mac, v.labels, v.radios, k);
  }

  /** Every airtime series holds a percentage in [0, 100]. */
  ghost predicate AirtimeInRange(reg: Registry) {
    forall k :: k in reg && k.name == ApAirtime ==> reg[k].Finite? && 0.0 <= reg[k].r <= 100.0
  }

  lemma {:induction false} RadiosKeepAirtimeInRange(s: RadioScan, mac: string, labels: seq<(string, string)>, vs: seq<RadioView>)
    requires AirtimeInRange(s.reg)
    ensures AirtimeInRange(RadioEffects(s, mac, labels, vs).reg)
  {
    if vs != [] {
      RadiosKeepAirtimeInRange(s, mac, labels, vs[..|vs| - 1]);
      var before := RadioEffects(s, mac, labels, vs[..|vs| - 1]);
      var v := vs[|vs| - 1];
      if v.airtime.Some? {
        Airtime.EmittedBounded(before.air, mac + "-" + v.band, v.airtime.value);
      }
    }
  }

  lemma ApEffectKeepsAirtimeInRange(s: Scan, v: ApView)
    requires AirtimeInRange(s.reg)
    ensures AirtimeInRange(ApEffect(s, v).reg)
  {
    var reg := s.reg[Key(ApUptime, v.labels) := v.uptime][Key(ApRxBytes, v.labels) := v.rx][Key(ApTxBytes, v.labels) := v.tx];
    var reg1 := if v.memory.Some? then reg[Key(ApMemUsage, v.labels) := v.memory.value] else reg;
    var reg2 := if v.role == "master" then ControllerEffect(reg1, v) else reg1;
    assert AirtimeInRange(reg2);
    RadiosKeepAirtimeInRange(RadioScan(reg2, s.air), v.mac, v.labels, v.radios);
  }

  /** The status walk keeps every airtime gauge within [0, 100], whatever the readings. */
  lemma {:induction false} StatusKeepsAirtimeInRange(apMap: map<string, Meta>, s0: Scan, aps: seq<Node>)
    requires AirtimeInRange(s0.reg)
    ensures AirtimeInRange(Status(apMap, s0, aps).scan.reg)
  {
    if aps != [] {
      StatusKeepsAirtimeInRange(apMap, s0, aps[..|aps| - 1]);
      var p := Status(apMap, s0, aps[..|aps| - 1]);
      var r := ReadStatus(apMap, aps[|aps| - 1]);
      assert Status(apMap, s0, aps) == Advance(p, r);
      AdvanceKeepsAirtimeInRange(p, r);
    }
  }

  /** One more record keeps every airtime gauge within [0, 100]. */
  lemma AdvanceKeepsAirtimeInRange(p: Progress, r: Read)
    requires AirtimeInRange(p.scan.reg)
    ensures AirtimeInRange(Advance(p, r).scan.reg)
  {
    if p.Running? && r.Record? {
      ApEffectKeepsAirtimeInRange(p.scan, r.view);
    }
  }

  // ---------------------------------------------------------------------
  // The network totals

  /** The gauges set once the walk has completed. */
  function Finish(reg: Registry, t: Totals): Registry {
    reg[Key(TotalClients, []) := t.clients][Key(TotalAps, []) := Finite(t.aps as real)]
      [Key(ApRoleCount, [("role", "master")]) := Finite(t.masters as real)]
      [Key(ApRoleCount, [("role", "member")]) := Finite(t.members as real)]
      [Key(TotalRxBytes, []) := t.rx][Key(TotalTxBytes, []) := t.tx]
  }

  /** The totals land on their gauges; every other series keeps its value. */
  lemma FinishTotals(reg: Registry, t: Totals)
    ensures var m := Finish(reg, t);
      Key(TotalClients, []) in m && m[Key(TotalClients, [])] == t.clients &&
      Key(TotalAps, []) in m && m[Key(TotalAps, [])] == Finite(t.aps as real) &&
      Key(ApRoleCount, [("role", "master")]) in m && m[Key(ApRoleCount, [("role", "master")])] == Finite(t.masters as real) &&
      Key(ApRoleCount, [("role", "member")]) in m && m[Key(ApRoleCount, [("role", "member")])] == Finite(t.members as real) &&
      Key(TotalRxBytes, []) in m && m[Key(TotalRxBytes, [])] == t.rx &&
      Key(TotalTxBytes, []) in m && m[Key(TotalTxBytes, [])] == t.tx
    ensures var m := Finish(reg, t);
      forall k: Key :: k.name !in {TotalClients, TotalAps, ApRoleCount, TotalRxBytes, TotalTxBytes} ==>
        (k in m <==> k in reg) && (k in reg ==> m[k] == reg[k])
  {
  }
}
