/**
 What is recovered: over any session that ends normally, and over any number of lives of the
 process that are cut short. Commands are taken to succeed here, and nobody else changes the
 keys and routes.
 */
module NetRecovery {
  import opened Bytes
  import opened NetConfig

  /** The part of the world that a session borrows. */
  datatype Config = Config(ipv4: Option<string>, dns: Option<string>, route4: Route, route6: Route)

  function ConfigOf(w: World): Config {
    Config(w.store.ipv4, w.store.dns, w.route4, w.route6)
  }

  function ValidOf(c: Config): Valid {
    Valid(c.ipv4.Some?, c.dns.Some?)
  }

  /** The backup keys hold configuration c and are committed. */
  predicate Guarded(c: Config, w: World) {
    && w.store.backupValid == Some(ValidOf(c))
    && w.store.backupRoute == Some(Routes(c.route4, c.route6))
    && (c.ipv4.Some? ==> w.store.backupIPv4 == c.ipv4)
    && (c.dns.Some? ==> w.store.backupDNS == c.dns)
  }

  /** A global key that was present can be put back, or is back and its copy already gone. */
  predicate Kept(was: Option<string>, backup: Option<string>, current: Option<string>) {
    was.Some? ==> backup == was || (backup.None? && current == was)
  }

  /** Committed, and a restore would bring back c. */
  predicate Armed(c: Config, w: World) {
    && w.store.backupValid == Some(ValidOf(c))
    && w.store.backupRoute == Some(Routes(c.route4, c.route6))
    && Kept(c.ipv4, w.store.backupIPv4, w.store.ipv4)
    && Kept(c.dns, w.store.backupDNS, w.store.dns)
  }

  /** Configuration c in place and no committed backup. */
  predicate Settled(c: Config, w: World) {
    w.store.backupValid.None? && ConfigOf(w) == c
  }

  predicate Safe(c: Config, w: World) {
    Armed(c, w) || Settled(c, w)
  }

  /** Configuration c in place, but the committed backup has lost its contents. */
  predicate Exposed(c: Config, w: World) {
    && ConfigOf(w) == c && w.store.backupValid == Some(ValidOf(c))
    && w.store.backupRoute.None? && w.store.backupIPv4.None? && w.store.backupDNS.None?
  }

  predicate NoBackup(w: World) {
    && w.store.backupIPv4.None? && w.store.backupDNS.None? && w.store.backupRoute.None?
    && w.store.backupWifi.None? && w.store.backupValid.None?
  }

  // ------------------------------------------------------------ stepping

  /** m comes after n in the same life, without faults; a dead process changes nothing. */
  predicate Later(n: Net, m: Net) {
    && m.dies == n.dies && n.faults == m.faults == {} && m.t >= n.t
    && (!Alive(n) ==> m.world == n.world)
  }

  /** The world without the radio, its records and the published service. */
  function Bare(w: World): World {
    w.(wifi := None, marker := false, store := w.store.(backupWifi := None, service := false))
  }

  /** Later, with only the radio, its records and the service touched. */
  predicate Aside(n: Net, m: Net) {
    Later(n, m) && Bare(m.world) == Bare(n.world) && m.open == n.open
  }

  /** Later, with only the radio itself and the service touched. */
  predicate PowerOnly(n: Net, m: Net) {
    && Later(n, m) && m.open == n.open
    && m.world.store.(service := false) == n.world.store.(service := false)
    && m.world.(wifi := None, marker := false, store := n.world.store) == n.world.(wifi := None, marker := false)
  }

  lemma {:induction false} PowerAside(n: Net, on: bool, attempts: nat)
    requires n.faults == {}
    ensures PowerOnly(n, PowerVerified(n, on, attempts).0) && Aside(n, PowerVerified(n, on, attempts).0)
    decreases attempts
  {
    if attempts > 0 {
      PowerAside(Tick(Do(n, Power(on))), on, attempts - 1);
    }
  }

  lemma {:induction false} RadioAside(n: Net, named: bool)
    requires n.faults == {}
    ensures PowerOnly(n, RestoreRadio(n, named).0) && Aside(n, RestoreRadio(n, named).0)
  {
    hide PowerVerified;
    PowerAside(if named || n.dev then n else Tick(n), true, 4);
  }

  lemma {:induction false} RadioFromBackupAside(n: Net)
    requires n.faults == {}
    ensures Aside(n, RestoreRadioFromBackup(n))
  {
    hide RestoreRadio;
    RadioAside(Tick(n), true);
    RadioAside(Tick(n), false);
  }

  lemma {:induction false} RadioFirstAside(n: Net)
    requires n.faults == {}
    ensures Aside(n, RestoreRadioFirst(n))
  {
    hide RestoreRadio, RestoreRadioFromBackup;
    RadioFromBackupAside(n);
    var a := RestoreRadioFromBackup(n);
    RadioAside(a, a.dev);
  }

  lemma {:induction false} RestoreWifiAside(n: Net)
    requires n.faults == {}
    ensures Aside(n, RestoreWifi(n))
  {
    hide RestoreRadio, RestoreRadioFromBackup;
    RadioFromBackupAside(n);
    var a := RestoreRadioFromBackup(n);
    RadioAside(a, a.dev);
  }

  lemma {:induction false} DisableAside(n: Net)
    requires n.faults == {}
    ensures Aside(n, DisableWifi(n).0)
  {
    PowerAside(Tick(Tick(n)), false, 4);
    var p := PowerVerified(Tick(Tick(n)), false, 4).0.(dev := true, weOff := true);
    hide PowerVerified, Do;
    RecordAside(Tick(Tick(n)), Radio(true, false, false));
    RecordAside(p, Radio(true, true, true));
    MarkerAside(Do(p, StoreRadio(Radio(true, true, true))));
  }

  lemma {:induction false} RecordAside(n: Net, r: Radio)
    requires n.faults == {}
    ensures Aside(n, Do(n, StoreRadio(r)))
  {
  }

  lemma {:induction false} MarkerAside(n: Net)
    requires n.faults == {}
    ensures Aside(n, Do(n, WriteMarker))
  {
  }

  lemma {:induction false} SnapshotRadioAside(n: Net)
    requires n.faults == {}
    ensures Aside(n, SnapshotRadio(n))
  {
  }

  lemma {:induction false} DropPathAside(n: Net)
    requires n.faults == {}
    ensures PowerOnly(n, DropPath(n)) && Aside(n, DropPath(n))
    ensures Alive(DropPath(n)) ==> !DropPath(n).world.store.service
  {
  }

  // ---------------------------------------------------------- the snapshot

  lemma {:induction false} GlobalsCopied(n: Net, hasIPv4: bool, hasDNS: bool)
    requires n.faults == {}
    ensures var m := CopyGlobals(n, hasIPv4, hasDNS); var s := n.world.store;
            && Later(n, m) && m.open == n.open
            && m.world == n.world.(store :=
                 s.(backupIPv4 := m.world.store.backupIPv4, backupDNS := m.world.store.backupDNS))
            && (Alive(m) && hasIPv4 && s.ipv4.Some? ==> m.world.store.backupIPv4 == s.ipv4)
            && (Alive(m) && hasDNS && s.dns.Some? ==> m.world.store.backupDNS == s.dns)
  {
    var a := if hasIPv4 then Do(n, Copy(GlobalIPv4, BackupIPv4)) else n;
    assert Later(n, a);
  }

  /**
   Killed before its commit, a snapshot leaves no committed backup and changes nothing; once
   committed, the backup holds the configuration.
   */
  lemma {:induction false} SnapshotGuards(c: Config, n: Net)
    requires n.faults == {} && Settled(c, n.world)
    ensures var (m, rc) := TakeSnapshot(n);
            && Later(n, m) && (Guarded(c, m.world) || Settled(c, m.world)) && ConfigOf(m.world) == c
            && (Alive(m) ==> rc == 0)
            && (rc == 0 ==> Guarded(c, m.world))
            && m.open == n.open
  {
    var hasIPv4 := Works(n) && n.world.store.ipv4.Some?;
    var a := Tick(n);
    var hasDNS := Works(a) && a.world.store.dns.Some?;
    hide CopyGlobals, SnapshotRadio, Do;
    GlobalsCopied(Tick(a), hasIPv4, hasDNS);
    var b := CopyGlobals(Tick(a), hasIPv4, hasDNS);
    SnapshotRadioAside(Tick(Tick(b)));
    CommitGuards(c, SnapshotRadio(Tick(Tick(b))),
                 Routes(ReadRoute(b, b.world.route4), ReadRoute(Tick(b), b.world.route6)), Valid(hasIPv4, hasDNS));
  }

  lemma {:induction false} CommitGuards(c: Config, n: Net, r: Routes, v: Valid)
    requires n.faults == {} && Settled(c, n.world)
    requires Alive(n) ==>
      && r == Routes(c.route4, c.route6) && v == ValidOf(c)
      && (c.ipv4.Some? ==> n.world.store.backupIPv4 == c.ipv4)
      && (c.dns.Some? ==> n.world.store.backupDNS == c.dns)
    ensures var m := Do(n, Commit(r, v));
            && Later(n, m) && m.open == n.open && ConfigOf(m.world) == c
            && (if Alive(n) then Guarded(c, m.world) else Settled(c, m.world))
  {
  }

  // ----------------------------------------------------------- the restore

  lemma {:induction false} IPv4Restored(c: Config, n: Net)
    requires n.faults == {} && Kept(c.ipv4, n.world.store.backupIPv4, n.world.store.ipv4)
    ensures var m := RestoreGlobal(n, c.ipv4.Some?, BackupIPv4, GlobalIPv4);
            && Later(n, m) && m.open == n.open
            && m.world == n.world.(store := n.world.store.(ipv4 := m.world.store.ipv4))
            && m.world.store.ipv4 == (if Alive(n) then c.ipv4 else n.world.store.ipv4)
  {
  }

  lemma {:induction false} DNSRestored(c: Config, n: Net)
    requires n.faults == {} && Kept(c.dns, n.world.store.backupDNS, n.world.store.dns)
    ensures var m := RestoreGlobal(n, c.dns.Some?, BackupDNS, GlobalDNS);
            && Later(n, m) && m.open == n.open
            && m.world == n.world.(store := n.world.store.(dns := m.world.store.dns))
            && m.world.store.dns == (if Alive(n) then c.dns else n.world.store.dns)
  {
  }

  /** Each global key is either untouched or already back. */
  lemma {:induction false} GlobalsRestored(c: Config, n: Net)
    requires n.faults == {}
    requires Kept(c.ipv4, n.world.store.backupIPv4, n.world.store.ipv4)
    requires Kept(c.dns, n.world.store.backupDNS, n.world.store.dns)
    ensures var m := RestoreGlobals(n, ValidOf(c)); var s := n.world.store;
            && Later(n, m) && m.open == n.open
            && m.world == n.world.(store := s.(ipv4 := m.world.store.ipv4, dns := m.world.store.dns))
            && (m.world.store.ipv4 == s.ipv4 || m.world.store.ipv4 == c.ipv4)
            && (m.world.store.dns == s.dns || m.world.store.dns == c.dns)
            && (Alive(m) ==> m.world.store.ipv4 == c.ipv4 && m.world.store.dns == c.dns)
  {
    hide RestoreGlobal;
    IPv4Restored(c, n);
    DNSRestored(c, RestoreGlobal(n, c.ipv4.Some?, BackupIPv4, GlobalIPv4));
  }

  lemma {:induction false} Route4Restored(n: Net, r: Route)
    requires n.faults == {}
    ensures var m := RestoreRoute4(n, r);
            && Later(n, m) && m.open == n.open && m.world == n.world.(route4 := m.world.route4)
            && (Alive(m) ==> m.world.route4 == r)
  {
  }

  lemma {:induction false} Route6Cleared(n: Net, times: nat)
    requires n.faults == {} && times >= 1
    ensures var m := ClearRoute6(n, times);
            && Later(n, m) && m.open == n.open && m.world == n.world.(route6 := m.world.route6)
            && (Alive(m) ==> m.world.route6 == NoDefault)
    decreases times
  {
    if times > 1 {
      Route6Cleared(Do(n, Delete6), times - 1);
    }
  }

  lemma {:induction false} Route6Restored(n: Net, r: Route)
    requires n.faults == {}
    ensures var m := RestoreRoute6(n, r);
            && Later(n, m) && m.open == n.open && m.world == n.world.(route6 := m.world.route6)
            && (Alive(m) ==> m.world.route6 == r)
  {
    hide ClearRoute6;
    Route6Cleared(n, 4);
  }

  lemma {:induction false} RoutesRestored(n: Net, r: Routes)
    requires n.faults == {} && n.world.store.backupRoute == Some(r)
    ensures var m := RestoreRoutes(n);
            && Later(n, m) && m.open == n.open
            && m.world == n.world.(route4 := m.world.route4, route6 := m.world.route6)
            && (Alive(m) ==> m.world.route4 == r.route4 && m.world.route6 == r.route6)
  {
    hide RestoreRoute4, RestoreRoute6;
    Route4Restored(Tick(n), r.route4);
    Route4Restored(Tick(n), NoDefault);
    Route6Restored(RestoreRoute4(Tick(n), r.route4), r.route6);
  }

  // ------------------------------------------------------ the removal of keys

  /** The world after the first k removals. */
  function AfterRemovals(w: World, k: nat): World {
    w.(store := w.store.(
      backupIPv4 := if k >= 1 then None else w.store.backupIPv4,
      backupDNS := if k >= 2 then None else w.store.backupDNS,
      backupRoute := if k >= 3 then None else w.store.backupRoute,
      backupWifi := if k >= 4 then None else w.store.backupWifi,
      backupValid := if k >= 5 then None else w.store.backupValid))
  }

  lemma {:induction false} OneRemoval(w: World, k: nat)
    requires k < 7
    ensures Effect(AfterRemovals(w, k), Remove(BACKUP_KEYS[k])) == AfterRemovals(w, k + 1)
  {
  }

  lemma {:induction false} RemovalFrom(w: World, n: Net, k: nat)
    requires n.faults == {} && k <= 7 && n.world == AfterRemovals(w, k)
    ensures var m := RemoveKeys(n, k);
            && Later(n, m) && m.open == n.open
            && m.world == AfterRemovals(w, if Alive(n) then k + (n.dies - n.t) else k)
            && (Alive(m) ==> m.world == AfterRemovals(w, 7))
    decreases 7 - k
  {
    hide Effect;
    if k == 7 {
      assert AfterRemovals(w, 7) == AfterRemovals(w, if Alive(n) then 7 + (n.dies - n.t) else 7);
    } else {
      OneRemoval(w, k);
      if Alive(n) {
        RemovalFrom(w, Do(n, Remove(BACKUP_KEYS[k])), k + 1);
      } else {
        DeadRemoval(n, k);
      }
    }
  }

  lemma {:induction false} DeadRemoval(n: Net, k: nat)
    requires !Alive(n) && k <= 7
    ensures RemoveKeys(n, k) == n
    decreases 7 - k
  {
    if k < 7 {
      DeadRemoval(n, k + 1);
    }
  }

  /** Killed d steps into the removal of the backup keys, exactly the first d of them are gone. */
  lemma {:induction false} RemovalPoints(n: Net)
    requires n.faults == {}
    ensures var m := RemoveBackupKeys(n);
            && Later(n, m) && m.open == n.open
            && m.world == AfterRemovals(n.world, if Alive(n) then n.dies - n.t else 0)
            && (Alive(m) ==> NoBackup(m.world))
  {
    assert AfterRemovals(n.world, 0) == n.world;
    RemovalFrom(n.world, n, 0);
  }

  /** With c in place, a removal that is cut short leaves c recoverable, except after its third and fourth step. */
  lemma {:induction false} RemovalCutShort(c: Config, w: World, k: nat)
    requires ConfigOf(w) == c && Armed(c, w)
    ensures Safe(c, AfterRemovals(w, k)) <==> k != 3 && k != 4
    ensures k == 3 || k == 4 ==> Exposed(c, AfterRemovals(w, k))
  {
  }

  // ------------------------------------------------------ whole operations

  /** A restore from a recoverable world: wherever it is killed, the configuration stays recoverable or is in place. */
  lemma {:induction false} RestoreRecovers(c: Config, n: Net)
    requires n.faults == {} && Safe(c, n.world)
    ensures var m := RestoreFromBackup(n, true);
            && Later(n, m) && m.open == n.open && (Safe(c, m.world) || Exposed(c, m.world))
            && (Alive(m) ==> Settled(c, m.world) && NoBackup(m.world))
  {
    hide RestoreRadioFirst, RestoreGlobals, RestoreRoutes, RemoveBackupKeys;
    RadioFirstAside(n);
    var a := RestoreRadioFirst(n);
    assert Safe(c, a.world);
    var b := Tick(a);
    if Works(a) && a.world.store.backupValid.Some? {
      GlobalsRestored(c, b);
      var g := RestoreGlobals(b, ValidOf(c));
      RoutesRestored(g, Routes(c.route4, c.route6));
      var r := RestoreRoutes(g);
      assert Armed(c, r.world) && (Alive(r) ==> ConfigOf(r.world) == c);
      RemovalEnds(c, r);
    } else {
      RemovalEnds(c, b);
    }
  }

  lemma {:induction false} RemovalEnds(c: Config, n: Net)
    requires n.faults == {} && Safe(c, n.world) && (Alive(n) ==> ConfigOf(n.world) == c)
    ensures var m := RemoveBackupKeys(n);
            && Later(n, m) && m.open == n.open && (Safe(c, m.world) || Exposed(c, m.world))
            && (Alive(m) ==> Settled(c, m.world) && NoBackup(m.world))
  {
    hide RemoveBackupKeys;
    RemovalPoints(n);
    var k := if Alive(n) then n.dies - n.t else 0;
    if k == 0 {
      assert AfterRemovals(n.world, 0) == n.world;
    } else if Armed(c, n.world) {
      RemovalCutShort(c, n.world, k);
    }
  }

  /** The configuration a completed restore puts in place, read off any world with a committed backup. */
  function Recorded(w: World): Config
    requires w.store.backupValid.Some?
  {
    var s, v := w.store, w.store.backupValid.value;
    Config(
      if !v.hasIPv4 then None else if s.backupIPv4.Some? then s.backupIPv4 else s.ipv4,
      if !v.hasDNS then None else if s.backupDNS.Some? then s.backupDNS else s.dns,
      if s.backupRoute.Some? then s.backupRoute.value.route4 else NoDefault,
      if s.backupRoute.Some? then s.backupRoute.value.route6 else w.route6)
  }

  lemma {:induction false} GlobalsYield(n: Net, v: Valid)
    requires n.faults == {}
    ensures var m := RestoreGlobals(n, v); var s := n.world.store;
            && Later(n, m) && m.open == n.open
            && m.world == n.world.(store := s.(ipv4 := m.world.store.ipv4, dns := m.world.store.dns))
            && (Alive(m) ==>
                  && m.world.store.ipv4 ==
                     (if !v.hasIPv4 then None else if s.backupIPv4.Some? then s.backupIPv4 else s.ipv4)
                  && m.world.store.dns ==
                     (if !v.hasDNS then None else if s.backupDNS.Some? then s.backupDNS else s.dns))
  {
    GlobalYields(n, v.hasIPv4, BackupIPv4, GlobalIPv4);
    var a := RestoreGlobal(n, v.hasIPv4, BackupIPv4, GlobalIPv4);
    GlobalYields(a, v.hasDNS, BackupDNS, GlobalDNS);
    hide RestoreGlobal;
  }

  lemma {:induction false} GlobalYields(n: Net, had: bool, backup: Key, global: Key)
    requires n.faults == {}
    requires (backup, global) == (BackupIPv4, GlobalIPv4) || (backup, global) == (BackupDNS, GlobalDNS)
    ensures var m := RestoreGlobal(n, had, backup, global); var was := n.world.store;
            && Later(n, m) && m.open == n.open
            && m.world == n.world.(store := PutText(was, global, Text(m.world.store, global)))
            && (Alive(n) ==>
                  (Text(m.world.store, global) ==
                   if !had then None else if Text(was, backup).Some? then Text(was, backup) else Text(was, global)))
  {
  }

  lemma {:induction false} RoutesYield(n: Net)
    requires n.faults == {}
    ensures var m := RestoreRoutes(n); var r := n.world.store.backupRoute;
            && Later(n, m) && m.open == n.open
            && m.world == n.world.(route4 := m.world.route4, route6 := m.world.route6)
            && (Alive(m) ==>
                  && m.world.route4 == (if r.Some? then r.value.route4 else NoDefault)
                  && m.world.route6 == (if r.Some? then r.value.route6 else n.world.route6))
  {
    if n.world.store.backupRoute.Some? {
      RoutesRestored(n, n.world.store.backupRoute.value);
    } else {
      hide RestoreRoute4;
      Route4Restored(Tick(n), NoDefault);
    }
  }

  /** From any world with a committed backup, sound or damaged, a completed restore puts exactly that in place. */
  lemma {:induction false} RestoreYields(n: Net)
    requires n.faults == {} && n.world.store.backupValid.Some?
    ensures var m := RestoreFromBackup(n, true);
            && Later(n, m) && m.open == n.open
            && (Alive(m) ==> Settled(Recorded(n.world), m.world) && NoBackup(m.world))
  {
    RadioFirstAside(n);
    var a := RestoreRadioFirst(n);
    assert a.world.store.backupValid == n.world.store.backupValid;
    var b := Tick(a);
    var g := RestoreGlobals(b, a.world.store.backupValid.value);
    GlobalsYield(b, a.world.store.backupValid.value);
    RoutesYield(g);
    var r := RestoreRoutes(g);
    hide RestoreRadioFirst, RestoreGlobals, RestoreRoutes, RemoveBackupKeys;
    RemovalPoints(r);
    RemovalPoints(b);
    if Alive(r) {
      assert ConfigOf(r.world) == Recorded(n.world);
    }
    assert AfterRemovals(b.world, 0) == b.world && AfterRemovals(r.world, 0) == r.world;
  }

  lemma {:induction false} RecordedOfSafe(c: Config, w: World)
    ensures Armed(c, w) ==> Recorded(w) == c
    ensures Exposed(c, w) ==> Recorded(w) == c.(route4 := NoDefault)
  {
  }

  /** After a removal cut short behind the routes, a completed restore loses the IPv4 default and nothing else. */
  lemma {:induction false} ExposedLosesRoute(c: Config, n: Net)
    requires n.faults == {} && Exposed(c, n.world) && Alive(RestoreFromBackup(n, true))
    ensures ConfigOf(RestoreFromBackup(n, true).world) == c.(route4 := NoDefault)
    ensures ConfigOf(RestoreFromBackup(n, true).world) == c <==> c.route4 == NoDefault
  {
    RestoreYields(n);
    RecordedOfSafe(c, n.world);
    hide RestoreFromBackup, Recorded;
  }

  /** None of this depends on the radio or the service. */
  lemma {:induction false} RadioApart(c: Config, n: Net, m: Net)
    requires Aside(n, m)
    ensures Guarded(c, n.world) ==> Guarded(c, m.world)
    ensures Safe(c, n.world) ==> Safe(c, m.world)
    ensures Settled(c, n.world) ==> Settled(c, m.world)
    ensures Exposed(c, n.world) ==> Exposed(c, m.world)
    ensures PowerOnly(n, m) && NoBackup(n.world) ==> NoBackup(m.world)
  {
  }

  lemma {:induction false} EndRecovers(c: Config, n: Net)
    requires n.faults == {} && Safe(c, n.world)
    ensures var m := EndSession(n);
            && Later(n, m) && (Safe(c, m.world) || Exposed(c, m.world))
            && (Alive(m) ==> Settled(c, m.world) && !m.open)
            && (Alive(m) && n.open ==> NoBackup(m.world) && !m.world.store.service)
  {
    var (p, had) := Pending(n);
    assert Later(n, p) && p.world == n.world && p.open == n.open;
    assert !had && Alive(p) ==> Settled(c, p.world) && !p.open;
    hide RestoreFromBackup, RestoreRadio, DropPath, Guarded, Safe, Settled, Exposed, NoBackup, Bare, PowerOnly, Pending;
    if had {
      RestoreRecovers(c, p);
      var r := RestoreFromBackup(p, true);
      RadioAside(r, r.dev);
      var d := if r.weOff then RestoreRadio(r, r.dev).0 else r;
      DropPathAside(d);
      if r.weOff {
        RadioApart(c, r, d);
      }
      RadioApart(c, d, DropPath(d));
    } else {
      RadioAside(p, false);
      var d := if p.world.marker then RestoreRadio(p, false).0 else p;
      DropPathAside(d);
      if p.world.marker {
        RadioApart(c, p, d);
      }
      RadioApart(c, d, DropPath(d));
    }
  }

  /** Beginning a session: restores a leftover backup first, and ends guarded. */
  lemma {:induction false} BeginGuards(c: Config, n: Net)
    requires n.faults == {} && Safe(c, n.world) && !n.open
    requires n.world.store.backupValid.Some? ==> !LiveDefault(n.world)
    ensures var (m, rc) := BeginSession(n);
            && Later(n, m) && (Safe(c, m.world) || Exposed(c, m.world))
            && (Alive(m) ==> Guarded(c, m.world) && m.open && rc == 0)
  {
    hide RestoreFromBackup, TakeSnapshot, DropPath, RemoveBackupKeys, LiveDefault;
    var b := Tick(Tick(n));
    RestoreRecovers(c, b);
    var r := RestoreFromBackup(b, true);
    DropPathAside(r);
    RadioApart(c, r, DropPath(r));
    var d := if Works(Tick(n)) && n.world.store.backupValid.Some? then DropPath(r) else b;
    assert Later(n, d) && !d.open;
    if Alive(d) {
      SnapshotGuards(c, d);
      var (m, rc) := TakeSnapshot(d);
      GuardedIsSafe(c, m.world);
      assert BeginSession(n) == if rc != 0 then (m, -1) else (m.(open := true), 0);
      assert Later(n, m);
      assert Safe(c, m.world);
    } else {
      DeadSnapshot(d);
    }
  }

  lemma {:induction false} GuardedIsSafe(c: Config, w: World)
    ensures Guarded(c, w) ==> Armed(c, w)
  {
  }

  lemma {:induction false} DeadSnapshot(n: Net)
    requires !Alive(n)
    ensures TakeSnapshot(n) == (n, -1)
  {
  }

  /**
   With a live default route a leftover backup is discarded: the new backup holds whatever is
   configured now. So an interrupted session's configuration c survives exactly if it is back already.
   */
  lemma {:induction false} LiveDefaultDiscards(n: Net, c: Config)
    requires n.faults == {} && !n.open && n.world.store.backupValid.Some? && LiveDefault(n.world)
    requires Alive(BeginSession(n).0)
    ensures Guarded(ConfigOf(n.world), BeginSession(n).0.world)
    ensures Guarded(c, BeginSession(n).0.world) <==> c == ConfigOf(n.world)
  {
    hide RestoreFromBackup, TakeSnapshot, DropPath, RemoveBackupKeys, LiveDefault;
    var b := Tick(Tick(n));
    RemovalPoints(b);
    if !Alive(Tick(n)) {
      DeadSnapshot(b);
    } else {
      var d := RemoveBackupKeys(b);
      if Alive(d) {
        SnapshotGuards(ConfigOf(n.world), d);
      } else {
        DeadSnapshot(d);
      }
    }
  }

  /** The configuration a session has in place when it takes its snapshot. */
  function Found(w: World): Config {
    if w.store.backupValid.Some? && !LiveDefault(w) then Recorded(w) else ConfigOf(w)
  }

  /** Whatever was left behind, a session that begins backs up the configuration it then has. */
  lemma {:induction false} BeginFinds(n: Net)
    requires n.faults == {} && !n.open
    ensures var (m, rc) := BeginSession(n);
            Later(n, m) && (Alive(m) ==> rc == 0 && m.open && Guarded(Found(n.world), m.world))
  {
    hide RestoreFromBackup, TakeSnapshot, DropPath, RemoveBackupKeys, LiveDefault, Recorded;
    var b := Tick(Tick(n));
    var d := b;
    if Works(Tick(n)) && n.world.store.backupValid.Some? {
      if LiveDefault(n.world) {
        RemovalPoints(b);
        d := RemoveBackupKeys(b);
      } else {
        RestoreYields(b);
        var r := RestoreFromBackup(b, true);
        DropPathAside(r);
        RadioApart(Recorded(b.world), r, DropPath(r));
        d := DropPath(r);
      }
    }
    assert Later(n, d) && !d.open;
    if Alive(d) {
      assert Settled(Found(n.world), d.world);
      SnapshotGuards(Found(n.world), d);
    } else {
      DeadSnapshot(d);
    }
  }

  // -------------------------------------------------------- whole sessions

  datatype Op =
    | Begin
    | Apply(ifname: string, ipv4: string, dns: string, gateway: string, prefer: bool)
    | DropRoute6
    | Wifi
    | End

  function Perform(n: Net, op: Op): Net {
    match op
    case Begin => BeginSession(n).0
    case Apply(ifname, ipv4, dns, gateway, prefer) => ApplyLease(n, ifname, ipv4, dns, gateway, prefer)
    case DropRoute6 => DropIPv6(n)
    case Wifi => RestoreWifi(n)
    case End => EndSession(n)
  }

  /** One life of the process: it performs the operations until it is killed. */
  function Live(n: Net, ops: seq<Op>): Net
    decreases |ops|
  {
    if ops == [] || !Alive(n) then n else Live(Perform(n, ops[0]), ops[1..])
  }

  lemma {:induction false} ApplyKeepsGuard(c: Config, n: Net, op: Op)
    requires n.faults == {} && op.Apply?
    requires n.open ==> Guarded(c, n.world)
    ensures var m := Perform(n, op);
            && Later(n, m) && m.open == n.open
            && (n.open ==> Guarded(c, m.world))
            && (!n.open ==> Bare(m.world) == Bare(n.world))
  {
    var a := PublishPath(n, op.ipv4, op.dns, op.prefer);
    assert Later(n, a) && a.open == n.open;
    assert n.open ==> Guarded(c, a.world);
    assert !n.open ==> Bare(a.world) == Bare(n.world);
    var b := PreferDefaultRoute(a, op.ifname, op.gateway).0;
    PreferKeepsGuard(c, a, op.ifname, op.gateway);
    hide PublishPath, PreferDefaultRoute, DisableWifi, Guarded;
    DisableAside(a);
    DisableAside(b);
    RadioApart(c, a, DisableWifi(a).0);
    RadioApart(c, b, DisableWifi(b).0);
  }

  lemma {:induction false} PreferKeepsGuard(c: Config, n: Net, ifname: string, gateway: string)
    requires n.faults == {} && (n.open ==> Guarded(c, n.world))
    ensures var m := PreferDefaultRoute(n, ifname, gateway).0;
            && Later(n, m) && m.open == n.open
            && (n.open ==> Guarded(c, m.world))
            && (!n.open ==> m == n)
  {
  }

  /** Where a session may begin and routes may be dropped; everything else may happen at any time. */
  predicate Permitted(n: Net, op: Op) {
    match op
    case Begin => n.open || n.world.store.backupValid.None? || !LiveDefault(n.world)
    case DropRoute6 => n.open
    case _ => true
  }

  predicate AllPermitted(n: Net, ops: seq<Op>)
    decreases |ops|
  {
    ops != [] && Alive(n) ==> Permitted(n, ops[0]) && AllPermitted(Perform(n, ops[0]), ops[1..])
  }

  /** Of a running process: c can be recovered, and is backed up while a session is open. */
  predicate Sound(c: Config, n: Net) {
    && n.faults == {}
    && (Safe(c, n.world) || (!Alive(n) && Exposed(c, n.world)))
    && (Alive(n) && n.open ==> Guarded(c, n.world))
  }

  lemma {:induction false} OpIsSound(c: Config, n: Net, op: Op)
    requires Sound(c, n) && Alive(n) && Permitted(n, op)
    ensures Sound(c, Perform(n, op))
    ensures n.open && !op.End? && Alive(Perform(n, op)) ==> Perform(n, op).open
  {
    hide BeginSession, ApplyLease, RestoreWifi, EndSession, Armed, Settled, Exposed, LiveDefault;
    match op
    case Begin =>
      if n.open {
        OpenBegin(n);
      } else {
        BeginGuards(c, n);
        GuardedIsSafe(c, BeginSession(n).0.world);
      }
    case Apply(_, _, _, _, _) =>
      ApplyKeepsGuard(c, n, op);
      var m := Perform(n, op);
      GuardedIsSafe(c, m.world);
      if !n.open {
        RadioApart(c, n, m);
      }
    case DropRoute6 =>
      GuardedIsSafe(c, Perform(n, op).world);
    case Wifi =>
      RestoreWifiAside(n);
      RadioApart(c, n, RestoreWifi(n));
    case End =>
      EndRecovers(c, n);
  }

  lemma {:induction false} OpenBegin(n: Net)
    requires n.open
    ensures BeginSession(n) == (n, 0)
  {
  }

  lemma {:induction false} LifeIsSound(c: Config, n: Net, ops: seq<Op>)
    requires Sound(c, n) && AllPermitted(n, ops)
    ensures Sound(c, Live(n, ops))
    ensures n.open && End !in ops && Alive(Live(n, ops)) ==> Live(n, ops).open
    decreases |ops|
  {
    if ops != [] && Alive(n) {
      hide Sound, Perform, Permitted;
      OpIsSound(c, n, ops[0]);
      LifeIsSound(c, Perform(n, ops[0]), ops[1..]);
      StaysDead(Perform(n, ops[0]), ops[1..]);
    }
  }

  lemma {:induction false} StaysDead(n: Net, ops: seq<Op>)
    ensures !Alive(n) ==> Live(n, ops) == n
  {
  }

  /** While a session is open: any lease applications, IPv6 removals and Wi-Fi restores. */
  predicate During(ops: seq<Op>) {
    forall k :: 0 <= k < |ops| ==> ops[k].Apply? || ops[k].DropRoute6? || ops[k].Wifi?
  }

  lemma {:induction false} NoEnd(ops: seq<Op>)
    requires During(ops)
    ensures End !in ops
  {
  }

  lemma {:induction false} DuringPermitted(c: Config, n: Net, ops: seq<Op>)
    requires During(ops) && Sound(c, n) && n.open
    ensures AllPermitted(n, ops)
    decreases |ops|
  {
    if ops != [] && Alive(n) {
      hide Sound, Perform;
      OpIsSound(c, n, ops[0]);
      if Alive(Perform(n, ops[0])) {
        DuringPermitted(c, Perform(n, ops[0]), ops[1..]);
      }
    }
  }

  /** A process just started, to be killed after `span` steps. */
  function Start(w: World, span: nat): Net {
    Net(w, false, false, false, 0, span, {})
  }

  /**
   From the snapshot on the backup keys hold the configuration found at the start, whatever
   the session does and whatever an earlier one left behind; and a session that reaches its
   end puts that configuration back, removes every backup key and leaves nothing published.
   */
  lemma {:induction false} SessionRoundTrip(w: World, span: nat, ops: seq<Op>)
    requires During(ops)
    ensures var n := Live(BeginSession(Start(w, span)).0, ops);
            && (Alive(n) ==> Guarded(Found(w), n.world))
            && var m := EndSession(n);
               Alive(n) && Alive(m) ==>
                 ConfigOf(m.world) == Found(w) && NoBackup(m.world) && !m.world.store.service && !m.open
  {
    hide BeginSession, EndSession, Perform, Armed, Exposed, Found;
    var c, s := Found(w), Start(w, span);
    BeginFinds(s);
    var b := BeginSession(s).0;
    if Alive(b) {
      GuardedIsSafe(c, b.world);
      NoEnd(ops);
      DuringPermitted(c, b, ops);
      LifeIsSound(c, b, ops);
      if Alive(Live(b, ops)) {
        EndRecovers(c, Live(b, ops));
      }
    } else {
      StaysDead(b, ops);
    }
  }

  // ---------------------------------------------- without a snapshot, whatever fails

  lemma {:induction false} PowerKeepsStore(n: Net, on: bool, attempts: nat)
    ensures var m := PowerVerified(n, on, attempts).0;
            m.world == n.world.(wifi := m.world.wifi)
    decreases attempts
  {
    if attempts > 0 {
      PowerKeepsStore(Tick(Do(n, Power(on))), on, attempts - 1);
    }
  }

  /** Whichever commands fail and whenever the process is killed: without an open session nothing is taken over. */
  lemma {:induction false} NoSnapshotNoSteal(n: Net, ifname: string, ipv4: string, dns: string, gateway: string,
                                             prefer: bool)
    requires !n.open
    ensures ConfigOf(ApplyLease(n, ifname, ipv4, dns, gateway, prefer).world) == ConfigOf(n.world)
  {
    var a := PublishPath(n, ipv4, dns, prefer);
    assert ConfigOf(a.world) == ConfigOf(n.world) && !a.open;
    hide PublishPath, DisableWifi, ConfigOf;
    assert PreferDefaultRoute(a, ifname, gateway).0 == a;
    DisableKeepsConfig(a);
  }

  lemma {:induction false} DisableKeepsConfig(n: Net)
    ensures ConfigOf(DisableWifi(n).0.world) == ConfigOf(n.world)
  {
    var b := Tick(Tick(n));
    PowerKeepsStore(b, false, 4);
    var p := PowerVerified(b, false, 4).0.(dev := true, weOff := true);
    hide PowerVerified, Do;
    RadioCommandKeepsConfig(b, StoreRadio(Radio(true, false, false)));
    RadioCommandKeepsConfig(p, StoreRadio(Radio(true, true, true)));
    RadioCommandKeepsConfig(Do(p, StoreRadio(Radio(true, true, true))), WriteMarker);
  }

  lemma {:induction false} RadioCommandKeepsConfig(n: Net, cmd: Cmd)
    requires cmd.StoreRadio? || cmd.WriteMarker?
    ensures ConfigOf(Do(n, cmd).world) == ConfigOf(n.world)
  {
  }

  /** And whichever commands fail, a session opens only over a committed backup of routes. */
  lemma {:induction false} OpensOnlyCommitted(n: Net)
    requires !n.open && BeginSession(n).1 == 0
    ensures var s := BeginSession(n).0.world.store; s.backupValid.Some? && s.backupRoute.Some?
  {
    hide RestoreFromBackup, RemoveBackupKeys, DropPath, SnapshotRadio, CopyGlobals;
  }

  // ------------------------------------------------------- repeated crashes

  /** A life of the process, and whether the kernel drops the default route with its tunnel. */
  datatype Life = Life(span: nat, ops: seq<Op>, tunnel: string, dropped: bool)

  function Gone(w: World, l: Life): World {
    if l.dropped && InterfaceOf(w.route4, w.links) == l.tunnel then w.(route4 := NoDefault) else w
  }

  function AfterLife(w: World, l: Life): World {
    Gone(Live(Start(w, l.span), l.ops).world, l)
  }

  function AfterLives(w: World, ls: seq<Life>): World
    decreases |ls|
  {
    if ls == [] then w else AfterLives(AfterLife(w, ls[0]), ls[1..])
  }

  /**
   Lives in which no session begins over a leftover backup while a live default is present,
   none ends inside the removal of the backup keys, and the tunnel did not carry c's own route.
   */
  predicate Covered(c: Config, w: World, ls: seq<Life>)
    decreases |ls|
  {
    ls != [] ==>
      var l := ls[0]; var end := Live(Start(w, l.span), l.ops).world;
      && AllPermitted(Start(w, l.span), l.ops)
      && !Exposed(c, end)
      && InterfaceOf(c.route4, end.links) != l.tunnel
      && Covered(c, AfterLife(w, l), ls[1..])
  }

  lemma {:induction false} LivesKeepSafe(c: Config, w: World, ls: seq<Life>)
    requires Safe(c, w) && Covered(c, w, ls)
    ensures Safe(c, AfterLives(w, ls))
    decreases |ls|
  {
    if ls != [] {
      var l := ls[0];
      hide Live, AllPermitted;
      LifeIsSound(c, Start(w, l.span), l.ops);
      var end := Live(Start(w, l.span), l.ops).world;
      assert Safe(c, end);
      assert Safe(c, Gone(end, l));
      LivesKeepSafe(c, AfterLife(w, l), ls[1..]);
    }
  }

  /** The restore command: end the session, then the radio. */
  function RestoreCommand(n: Net): Net {
    RestoreWifi(EndSession(n))
  }

  /**
   Any number of lives killed at any step, outside the removal of the backup keys, with any
   operations in them, from any world in which c is in place or can be restored: a completed
   restore command, or a session begun without a live default route, has c.
   */
  lemma {:induction false} CrashesAreRecovered(c: Config, w: World, ls: seq<Life>, span: nat)
    requires Safe(c, w) && Covered(c, w, ls)
    ensures var n := Start(AfterLives(w, ls), span);
            && (Alive(RestoreCommand(n)) ==> ConfigOf(RestoreCommand(n).world) == c)
            && (Permitted(n, Begin) && Alive(BeginSession(n).0) ==> Guarded(c, BeginSession(n).0.world))
  {
    hide RestoreWifi, EndSession, BeginSession, Armed, Exposed, LiveDefault;
    LivesKeepSafe(c, w, ls);
    var n := Start(AfterLives(w, ls), span);
    EndRecovers(c, n);
    RestoreWifiAside(EndSession(n));
    if Permitted(n, Begin) {
      BeginGuards(c, n);
    }
  }
}
