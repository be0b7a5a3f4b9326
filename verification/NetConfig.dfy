/**
 Route, DNS and Wi-Fi snapshot and restore. The outside world is a store of keys, the two
 default routes and the radio; every change is one command, which may fail, and the process
 may be killed between any two commands. The operations are given as functions on the
 whole state; the class below performs them step by step.
 */
module NetConfig {
  import opened Bytes

  // ---------------------------------------------------------- the world

  /** A default route as it is recorded: by gateway address or by interface name. */
  datatype Route = NoDefault | ViaGateway(gateway: string) | ViaInterface(iface: string)

  datatype Key = GlobalIPv4 | GlobalDNS | BackupIPv4 | BackupDNS | BackupRoute | BackupWifi | BackupValid
    | BackupDir | TetherDir

  /** What the backup keys hold, besides copies of the two global keys. */
  datatype Valid = Valid(hasIPv4: bool, hasDNS: bool)
  datatype Routes = Routes(route4: Route, route6: Route)
  datatype Radio = Radio(device: bool, wasOn: bool, turnedOff: bool)

  datatype Store = Store(
    ipv4: Option<string>,
    dns: Option<string>,
    backupIPv4: Option<string>,
    backupDNS: Option<string>,
    backupRoute: Option<Routes>,
    backupWifi: Option<Radio>,
    backupValid: Option<Valid>,
    service: bool)

  /** links: the interface through which a gateway is reached. wifi: the radio's power, if there is a radio. */
  datatype World = World(
    store: Store,
    route4: Route,
    route6: Route,
    links: map<string, string>,
    wifi: Option<bool>,
    marker: bool)

  /** One externally visible step. */
  datatype Cmd =
    | Copy(from: Key, into: Key)
    | Remove(key: Key)
    | Commit(routes: Routes, valid: Valid)
    | StoreRadio(radio: Radio)
    | Delete4 | Add4(route: Route)
    | Delete6 | Add6(route: Route)
    | Power(on: bool)
    | WriteMarker | ClearMarker
    | Publish(path: Option<(string, string)>)
    | Unpublish | RemoveService

  function Text(s: Store, k: Key): Option<string> {
    match k
    case GlobalIPv4 => s.ipv4
    case GlobalDNS => s.dns
    case BackupIPv4 => s.backupIPv4
    case BackupDNS => s.backupDNS
    case _ => None
  }

  function PutText(s: Store, k: Key, v: Option<string>): (r: Store)
    ensures r.backupRoute == s.backupRoute && r.backupWifi == s.backupWifi && r.backupValid == s.backupValid
  {
    match k
    case GlobalIPv4 => s.(ipv4 := v)
    case GlobalDNS => s.(dns := v)
    case BackupIPv4 => s.(backupIPv4 := v)
    case BackupDNS => s.(backupDNS := v)
    case _ => s
  }

  function Removed(s: Store, k: Key): Store {
    match k
    case BackupRoute => s.(backupRoute := None)
    case BackupWifi => s.(backupWifi := None)
    case BackupValid => s.(backupValid := None)
    case BackupDir => s
    case TetherDir => s
    case _ => PutText(s, k, None)
  }

  /**
   Copying a missing key, or adding a second default, changes nothing. Publishing with a path
   also takes over the global keys.
   */
  function Effect(w: World, cmd: Cmd): World {
    match cmd
    case Copy(from, into) =>
      if Text(w.store, from).Some? then w.(store := PutText(w.store, into, Text(w.store, from))) else w
    case Remove(key) => w.(store := Removed(w.store, key))
    case Commit(routes, valid) => w.(store := w.store.(backupRoute := Some(routes), backupValid := Some(valid)))
    case StoreRadio(radio) => w.(store := w.store.(backupWifi := Some(radio)))
    case Delete4 => w.(route4 := NoDefault)
    case Add4(route) => if w.route4 == NoDefault then w.(route4 := route) else w
    case Delete6 => w.(route6 := NoDefault)
    case Add6(route) => if w.route6 == NoDefault then w.(route6 := route) else w
    case Power(on) => if w.wifi.Some? then w.(wifi := Some(on)) else w
    case WriteMarker => w.(marker := true)
    case ClearMarker => w.(marker := false)
    case Publish(path) =>
      var s := w.store.(service := true);
      w.(store := match path case None => s case Some(p) => s.(ipv4 := Some(p.0), dns := Some(p.1)))
    case Unpublish => w.(store := w.store.(service := false))
    case RemoveService => w.(store := w.store.(service := false))
  }

  // -------------------------------------------------------- the process

  /**
   The process's globals, and its fate: it takes its steps at times t, t + 1, ... until it is
   killed at time `dies`; the steps at the times in `faults` fail without any effect.
   */
  datatype Net = Net(world: World, open: bool, weOff: bool, dev: bool, t: nat, dies: nat, faults: set<nat>)

  predicate Alive(n: Net) {
    n.t < n.dies
  }

  /** Whether the next step will be taken and will not fail of itself. */
  predicate Works(n: Net) {
    Alive(n) && n.t !in n.faults
  }

  /** A reading takes a step and changes nothing. */
  function Tick(n: Net): Net {
    if Alive(n) then n.(t := n.t + 1) else n
  }

  function Do(n: Net, cmd: Cmd): Net {
    if Works(n) then Tick(n).(world := Effect(n.world, cmd)) else Tick(n)
  }

  /** The exit status of a command: the route and radio commands fail when there is nothing to do them on. */
  predicate Succeeds(n: Net, cmd: Cmd) {
    && Works(n)
    && (cmd.Add4? ==> n.world.route4 == NoDefault)
    && (cmd.Add6? ==> n.world.route6 == NoDefault)
    && (cmd.Delete6? ==> n.world.route6 != NoDefault)
    && (cmd.Power? ==> n.world.wifi.Some?)
  }

  // ------------------------------------------------------ reading the world

  predicate Virtual(iface: string) {
    "utun" <= iface || "feth" <= iface
  }

  function InterfaceOf(r: Route, links: map<string, string>): string {
    match r
    case NoDefault => ""
    case ViaGateway(g) => if g in links then links[g] else ""
    case ViaInterface(i) => i
  }

  /** A default route is there and does not point into a leftover tunnel. */
  predicate LiveDefault(w: World) {
    w.route4 != NoDefault && !Virtual(InterfaceOf(w.route4, w.links))
  }

  /** A failed reading counts as no route. */
  function ReadRoute(n: Net, r: Route): Route {
    if Works(n) then r else NoDefault
  }

  // ------------------------------------------------------------- Wi-Fi

  /** Up to `attempts` times: set the power, then read it back; then one last reading. */
  function PowerVerified(n: Net, on: bool, attempts: nat): (r: (Net, bool))
    decreases attempts
  {
    if attempts == 0 then (Tick(n), Works(n) && n.world.wifi == Some(on))
    else
      var a := Do(n, Power(on));
      if Works(a) && a.world.wifi == Some(on) then (Tick(a), true) else PowerVerified(Tick(a), on, attempts - 1)
  }

  function FindRadio(n: Net): bool {
    Works(n) && n.world.wifi.Some?
  }

  /** Turns the radio back on; `named` says that a device name is already at hand. */
  function RestoreRadio(n: Net, named: bool): (r: (Net, bool)) {
    var known := named || n.dev;
    var a := if known then n else Tick(n);
    if !known && !FindRadio(n) then (a, false)
    else
      var p := PowerVerified(a, true, 4);
      if p.1 then (Do(p.0.(weOff := false), ClearMarker), true) else (p.0, false)
  }

  function RestoreRadioFromBackup(n: Net): Net {
    var record := if Works(n) then n.world.store.backupWifi else None;
    var a := Tick(n);
    var should := a.weOff || (record.Some? && (record.value.turnedOff || record.value.wasOn));
    if !should then a
    else RestoreRadio(a, if record.Some? then record.value.device else a.dev).0
  }

  function DisableWifi(n: Net): (r: (Net, int)) {
    var a := Tick(n);
    if !FindRadio(n) then (a, 0)
    else
      var b := Tick(a);
      if Works(a) && a.world.wifi == Some(false) then (Do(b, StoreRadio(Radio(true, false, false))), 0)
      else
        var p := PowerVerified(b, false, 4);
        if !p.1 then (p.0, -1)
        else (Do(Do(p.0.(dev := true, weOff := true), StoreRadio(Radio(true, true, true))), WriteMarker), 0)
  }

  // ------------------------------------------------------ snapshot and restore

  /** Records the radio in its own key. */
  function SnapshotRadio(n: Net): Net {
    var a := Tick(n);
    if !FindRadio(n) then Do(a, StoreRadio(Radio(false, false, false)))
    else
      Do(Tick(a).(dev := true), StoreRadio(Radio(true, Works(a) && a.world.wifi == Some(true), false)))
  }

  function CopyGlobals(n: Net, hasIPv4: bool, hasDNS: bool): Net {
    var a := if hasIPv4 then Do(n, Copy(GlobalIPv4, BackupIPv4)) else n;
    if hasDNS then Do(a, Copy(GlobalDNS, BackupDNS)) else a
  }

  /** Copies the global keys, reads both routes and the radio, and commits last. */
  function TakeSnapshot(n: Net): (r: (Net, int)) {
    var hasIPv4 := Works(n) && n.world.store.ipv4.Some?;
    var a := Tick(n);
    var hasDNS := Works(a) && a.world.store.dns.Some?;
    var b := CopyGlobals(Tick(a), hasIPv4, hasDNS);
    var route4 := ReadRoute(b, b.world.route4);
    var c := Tick(b);
    var route6 := ReadRoute(c, c.world.route6);
    var d := SnapshotRadio(Tick(c));
    (Do(d, Commit(Routes(route4, route6), Valid(hasIPv4, hasDNS))), if Works(d) then 0 else -1)
  }

  /** The data keys first, the key that commits them after. */
  const BACKUP_KEYS: seq<Key> :=
    [BackupIPv4, BackupDNS, BackupRoute, BackupWifi, BackupValid, BackupDir, TetherDir]

  function RemoveBackupKeys(n: Net): Net {
    RemoveKeys(n, 0)
  }

  /** Removes the keys from position k on. */
  function RemoveKeys(n: Net, k: nat): Net
    requires k <= 7
    decreases 7 - k
  {
    if k == 7 then n else RemoveKeys(Do(n, Remove(BACKUP_KEYS[k])), k + 1)
  }

  function RestoreRoute4(n: Net, r: Route): Net {
    var a := Do(n, Delete4);
    if r == NoDefault then a else Do(a, Add4(r))
  }

  /** Deletes until a delete fails, four times at most. */
  function ClearRoute6(n: Net, times: nat): Net
    decreases times
  {
    if times == 0 then n
    else if Succeeds(n, Delete6) then ClearRoute6(Do(n, Delete6), times - 1)
    else Do(n, Delete6)
  }

  function RestoreRoute6(n: Net, r: Route): Net {
    var a := ClearRoute6(n, 4);
    if r == NoDefault then a else Do(a, Add6(r))
  }

  function RestoreRoutes(n: Net): Net {
    var a := Tick(n);
    if Works(n) && n.world.store.backupRoute.Some? then
      var r := n.world.store.backupRoute.value;
      RestoreRoute6(RestoreRoute4(a, r.route4), r.route6)
    else RestoreRoute4(a, NoDefault)
  }

  function RestoreGlobal(n: Net, had: bool, backup: Key, global: Key): Net {
    Do(n, if had then Copy(backup, global) else Remove(global))
  }

  function RestoreGlobals(n: Net, v: Valid): Net {
    RestoreGlobal(RestoreGlobal(n, v.hasIPv4, BackupIPv4, GlobalIPv4), v.hasDNS, BackupDNS, GlobalDNS)
  }

  function RestoreRadioFirst(n: Net): Net {
    var a := RestoreRadioFromBackup(n);
    if a.weOff then RestoreRadio(a, a.dev).0 else a
  }

  function RestoreFromBackup(n: Net, remove: bool): Net {
    var a := RestoreRadioFirst(n);
    var b := Tick(a);
    if !(Works(a) && a.world.store.backupValid.Some?) then
      if remove then RemoveBackupKeys(b) else b
    else
      var c := RestoreRoutes(RestoreGlobals(b, a.world.store.backupValid.value));
      if remove then RemoveBackupKeys(c) else c
  }

  // ------------------------------------------------------------ sessions

  function DropPath(n: Net): Net {
    Do(Do(n, Unpublish), RemoveService)
  }

  /** Discards a leftover backup when a live default route is present, restores it otherwise. */
  function ClearLeftover(n: Net): Net {
    var live := Works(n) && LiveDefault(n.world);
    var a := Tick(n);
    var b := Tick(a);
    if !(Works(a) && a.world.store.backupValid.Some?) then b
    else if live then RemoveBackupKeys(b)
    else DropPath(RestoreFromBackup(b, true))
  }

  /** Deals with a leftover backup, then takes a snapshot. */
  function BeginSession(n: Net): (r: (Net, int)) {
    if n.open then (n, 0)
    else
      var d := TakeSnapshot(ClearLeftover(n));
      if d.1 != 0 then (d.0, -1) else (d.0.(open := true), 0)
  }

  /** Whether anything is left to restore; looks at the store only as far as needed. */
  function Pending(n: Net): (r: (Net, bool)) {
    if n.open || n.weOff then (n, true)
    else
      var a := Tick(n);
      if Works(n) && n.world.store.backupValid.Some? then (a, true)
      else (Tick(a), Works(a) && a.world.store.backupWifi.Some?)
  }

  function EndSession(n: Net): Net {
    var p := Pending(n);
    if !p.1 then DropPath(if p.0.world.marker then RestoreRadio(p.0, false).0 else p.0)
    else
      var c := RestoreFromBackup(p.0, true);
      var d := if c.weOff then RestoreRadio(c, c.dev).0 else c;
      DropPath(d).(open := false)
  }

  function RestoreWifi(n: Net): Net {
    var a := RestoreRadioFromBackup(n);
    if a.weOff || a.world.marker then RestoreRadio(a, a.dev).0 else a
  }

  /** Takes over the global keys only when a snapshot is open. */
  function PublishPath(n: Net, ipv4: string, dns: string, primary: bool): Net {
    Do(n, Publish(if primary && n.open then Some((ipv4, dns)) else None))
  }

  function PreferDefaultRoute(n: Net, ifname: string, gateway: string): (r: (Net, int)) {
    if !n.open then (n, -1)
    else
      var a := Do(n, Delete4);
      var b := Do(a, Add4(ViaInterface(ifname)));
      if Succeeds(a, Add4(ViaInterface(ifname))) then (Do(b, Delete6), 0)
      else
        var c := Do(b, Add4(ViaGateway(gateway)));
        if Succeeds(b, Add4(ViaGateway(gateway))) then (Do(c, Delete6), 0) else (c, -1)
  }

  /** One lease application: publish, and for a default connection also take the route and switch the radio off. */
  function ApplyLease(n: Net, ifname: string, ipv4: string, dns: string, gateway: string, prefer: bool): Net {
    var a := PublishPath(n, ipv4, dns, prefer);
    if !prefer then a
    else DisableWifi(if gateway != "" then PreferDefaultRoute(a, ifname, gateway).0 else a).0
  }

  /** The periodic removal of a leftover IPv6 default. */
  function DropIPv6(n: Net): Net {
    Do(n, Delete6)
  }
}
