/** What becomes of Wi-Fi power: what each operation does to it, and over a whole session. */
module NetRadio {
  import opened Bytes
  import opened NetConfig
  import opened NetRecovery
  import NetProgress

  /** The stored record tells a later process to turn the radio on. */
  predicate Truthy(w: World) {
    w.store.backupWifi.Some? && (w.store.backupWifi.value.wasOn || w.store.backupWifi.value.turnedOff)
  }

  predicate On(w: World) {
    w.wifi == Some(true)
  }

  lemma {:induction false} OffOtherwise(w: World)
    requires w.wifi.Some? && !On(w)
    ensures w.wifi == Some(false)
  {
    assert !w.wifi.value;
  }

  // ----------------------------------------------------- what leaves it alone

  /** The time after k more steps, or the time of death. */
  function At(n: Net, k: nat): nat {
    if n.t + k <= n.dies then n.t + k else if Alive(n) then n.dies else n.t
  }

  /** How long the process still has. */
  function Left(n: Net): int {
    n.dies - n.t
  }

  /** m is later and the radio, the marker and the process's flag are as in n; the record may have been removed. */
  predicate Untouched(n: Net, m: Net) {
    && m.dies == n.dies && m.faults == n.faults && m.t >= n.t
    && m.weOff == n.weOff && m.world.wifi == n.world.wifi && m.world.marker == n.world.marker
    && (m.world.store.backupWifi == n.world.store.backupWifi || m.world.store.backupWifi.None?)
  }

  lemma {:induction false} DoUntouched(n: Net, cmd: Cmd)
    requires !cmd.Power? && !cmd.StoreRadio? && !cmd.WriteMarker? && !cmd.ClearMarker?
    ensures Untouched(n, Do(n, cmd))
    ensures cmd != Remove(BackupWifi) ==> Do(n, cmd).world.store.backupWifi == n.world.store.backupWifi
    ensures Do(n, cmd) == n.(t := At(n, 1), world := Do(n, cmd).world)
  {
    hide PutText, Text;
  }

  lemma {:induction false} GlobalsUntouched(n: Net, v: Valid)
    ensures Untouched(n, RestoreGlobals(n, v))
  {
    hide Do;
    var c := if v.hasIPv4 then Copy(BackupIPv4, GlobalIPv4) else Remove(GlobalIPv4);
    DoUntouched(n, c);
    DoUntouched(Do(n, c), if v.hasDNS then Copy(BackupDNS, GlobalDNS) else Remove(GlobalDNS));
  }

  lemma {:induction false} Route6Untouched(n: Net, times: nat)
    ensures Untouched(n, ClearRoute6(n, times))
    decreases times
  {
    hide Do, Succeeds;
    if times > 0 {
      DoUntouched(n, Delete6);
      Route6Untouched(Do(n, Delete6), times - 1);
    }
  }

  lemma {:induction false} Route4Untouched(n: Net, r: Route)
    ensures Untouched(n, RestoreRoute4(n, r))
  {
    hide Do;
    DoUntouched(n, Delete4);
    DoUntouched(Do(n, Delete4), Add4(r));
  }

  lemma {:induction false} RoutesUntouched(n: Net)
    ensures Untouched(n, RestoreRoutes(n))
  {
    hide Do, RestoreRoute4, ClearRoute6;
    Route4Untouched(Tick(n), NoDefault);
    if n.world.store.backupRoute.Some? {
      var r := n.world.store.backupRoute.value;
      Route4Untouched(Tick(n), r.route4);
      var a := RestoreRoute4(Tick(n), r.route4);
      Route6Untouched(a, 4);
      DoUntouched(ClearRoute6(a, 4), Add6(r.route6));
    }
  }

  lemma {:induction false} RemovalUntouched(n: Net, k: nat)
    requires k <= 7
    ensures Untouched(n, RemoveKeys(n, k))
    decreases 7 - k
  {
    hide Do;
    if k < 7 {
      DoUntouched(n, Remove(BACKUP_KEYS[k]));
      RemovalUntouched(Do(n, Remove(BACKUP_KEYS[k])), k + 1);
    }
  }

  lemma {:induction false} DropPathUntouched(n: Net)
    ensures Untouched(n, DropPath(n))
  {
    hide Do;
    DoUntouched(n, Unpublish);
    DoUntouched(Do(n, Unpublish), RemoveService);
  }

  lemma {:induction false} PathUntouched(n: Net, ifname: string, ipv4: string, dns: string, gateway: string,
                                         prefer: bool)
    ensures var a := PublishPath(n, ipv4, dns, prefer); var b := PreferDefaultRoute(a, ifname, gateway).0;
            && Untouched(n, a) && a.world.store.backupWifi == n.world.store.backupWifi
            && Untouched(a, b) && b.world.store.backupWifi == n.world.store.backupWifi
  {
    hide Do, Succeeds;
    DoUntouched(n, Publish(if prefer && n.open then Some((ipv4, dns)) else None));
    var a := PublishPath(n, ipv4, dns, prefer);
    DoUntouched(a, Delete4);
    var b := Do(a, Delete4);
    DoUntouched(b, Add4(ViaInterface(ifname)));
    var c := Do(b, Add4(ViaInterface(ifname)));
    DoUntouched(c, Delete6);
    DoUntouched(c, Add4(ViaGateway(gateway)));
    DoUntouched(Do(c, Add4(ViaGateway(gateway))), Delete6);
  }

  // -------------------------------------------------------- switching it

  /** Switching and checking: only the power changes, it changes with the first step, and two steps suffice. */
  lemma {:induction false} PowerSwitched(n: Net, on: bool, attempts: nat)
    requires n.faults == {} && attempts >= 1
    ensures var (m, ok) := PowerVerified(n, on, attempts);
            && m == n.(t := m.t, world := n.world.(wifi := m.world.wifi)) && m.t >= n.t
            && m.world.wifi == (if Alive(n) && n.world.wifi.Some? then Some(on) else n.world.wifi)
            && (n.world.wifi.Some? ==> m.t == At(n, 2) && (ok <==> Left(n) >= 2))
            && (n.world.wifi.None? ==> !ok)
  {
    hide Effect;
    if n.world.wifi.None? {
      AbsentSwitch(n, on, attempts);
    } else {
      OneAttempt(n, on);
      var a := Do(n, Power(on));
      if !Alive(a) {
        DeadSwitch(Tick(a), on, attempts - 1);
      }
    }
  }

  lemma {:induction false} OneAttempt(n: Net, on: bool)
    requires n.faults == {} && n.world.wifi.Some?
    ensures Do(n, Power(on)) ==
            n.(t := At(n, 1), world := n.world.(wifi := if Alive(n) then Some(on) else n.world.wifi))
  {
  }

  lemma {:induction false} AbsentSwitch(n: Net, on: bool, attempts: nat)
    requires n.faults == {} && n.world.wifi.None?
    ensures var (m, ok) := PowerVerified(n, on, attempts); m == n.(t := m.t) && m.t >= n.t && !ok
    decreases attempts
  {
    if attempts > 0 {
      assert Do(n, Power(on)) == n.(t := At(n, 1));
      hide Do;
      AbsentSwitch(Tick(Do(n, Power(on))), on, attempts - 1);
    }
  }

  lemma {:induction false} DeadSwitch(n: Net, on: bool, attempts: nat)
    requires !Alive(n)
    ensures PowerVerified(n, on, attempts) == (n, false)
    decreases attempts
  {
    if attempts > 0 {
      DeadSwitch(n, on, attempts - 1);
    }
  }

  /**
   Disabling, for every kill time: a radio that is on goes off with the third step, its record
   is stored with the fifth and the marker written with the sixth.
   */
  lemma {:induction false} DisableOn(n: Net)
    requires n.faults == {} && On(n.world)
    ensures var m := DisableWifi(n).0;
            && m.dies == n.dies && m.faults == {} && m.open == n.open && m.t == At(n, 6)
            && m.world.wifi == (if Left(n) >= 3 then Some(false) else n.world.wifi)
            && m.world.marker == (n.world.marker || Left(n) >= 6)
            && m.world.store.backupWifi ==
               (if Left(n) >= 5 then Some(Radio(true, true, true)) else n.world.store.backupWifi)
            && (Alive(m) ==> m.weOff && m.dev)
  {
    var b := Tick(Tick(n));
    PowerSwitched(b, false, 4);
    var p := PowerVerified(b, false, 4).0;
    hide PowerVerified, Do;
    if Left(n) >= 4 {
      var q := p.(dev := true, weOff := true);
      var r := Do(q, StoreRadio(Radio(true, true, true)));
      RecordStored(q, Radio(true, true, true));
      MarkerWritten(r);
      assert DisableWifi(n).0 == Do(r, WriteMarker);
    } else if Alive(n) {
      assert DisableWifi(n).0 == p;
    }
    hide DisableWifi;
  }

  /** One that is off has its record overwritten with the third step, and nothing else happens. */
  lemma {:induction false} DisableOff(n: Net)
    requires n.faults == {} && n.world.wifi.Some? && !On(n.world)
    ensures var m := DisableWifi(n).0;
            && m == n.(t := At(n, 3), world := m.world)
            && m.world.wifi == n.world.wifi && m.world.marker == n.world.marker
            && m.world.store.backupWifi ==
               (if Left(n) >= 3 then Some(Radio(true, false, false)) else n.world.store.backupWifi)
  {
    OffOtherwise(n.world);
    var b := Tick(Tick(n));
    RecordStored(b, Radio(true, false, false));
    if Left(n) == 1 {
      DeadSwitch(b, false, 4);
    }
    hide PowerVerified, Do;
  }

  lemma {:induction false} RecordStored(n: Net, r: Radio)
    requires n.faults == {}
    ensures var m := Do(n, StoreRadio(r));
            && m == n.(t := m.t, world := m.world) && m.t == At(n, 1)
            && m.world.wifi == n.world.wifi && m.world.marker == n.world.marker
            && m.world.store.backupWifi == (if Alive(n) then Some(r) else n.world.store.backupWifi)
  {
  }

  lemma {:induction false} MarkerWritten(n: Net)
    requires n.faults == {}
    ensures var m := Do(n, WriteMarker);
            && m == n.(t := m.t, world := n.world.(marker := m.world.marker)) && m.t == At(n, 1)
            && m.world.marker == (Alive(n) || n.world.marker)
  {
  }

  /** At every point the marker goes only once the radio is on; a process that lives on has turned it on. */
  lemma {:induction false} RadioTurnedOn(n: Net, named: bool)
    requires n.faults == {}
    ensures var m := RestoreRadio(n, named).0;
            && m.dies == n.dies && m.faults == {} && m.t >= n.t
            && m.world.store == n.world.store
            && (n.world.wifi.None? ==> m.world.wifi.None? && m.weOff == n.weOff)
            && (m.world.wifi == n.world.wifi || On(m.world))
            && (m.world.marker ==> n.world.marker)
            && (n.world.marker && !m.world.marker ==> On(m.world))
            && (Alive(m) && n.world.wifi.Some? ==> On(m.world) && !m.weOff && !m.world.marker)
  {
    hide PowerVerified;
    PowerSwitched(if named || n.dev then n else Tick(n), true, 4);
  }

  /** The in-session restore: a completed one leaves the radio on exactly if it was on or anything says it should be. */
  lemma {:induction false} RestoreWifiExact(n: Net)
    requires n.faults == {} && n.world.wifi.Some?
    ensures var m := RestoreWifi(n);
            && m.dies == n.dies && m.faults == {} && m.t >= n.t && m.world.store == n.world.store
            && (m.world.marker ==> n.world.marker)
            && (m.world.wifi == n.world.wifi || On(m.world))
            && (n.world.marker && !m.world.marker ==> On(m.world))
            && (Alive(m) ==>
                  && (On(m.world) <==> On(n.world) || n.weOff || n.world.marker || Truthy(n.world))
                  && !m.weOff && !m.world.marker)
  {
    hide RestoreRadio;
    var record := if Works(n) then n.world.store.backupWifi else None;
    RadioTurnedOn(Tick(n), if record.Some? then record.value.device else n.dev);
    var a := RestoreRadioFromBackup(n);
    RadioTurnedOn(a, a.dev);
  }

  /** The same for the first step of a restore from the backup, which does not look at the marker. */
  lemma {:induction false} RadioFirstExact(n: Net)
    requires n.faults == {} && n.world.wifi.Some?
    ensures var m := RestoreRadioFirst(n);
            && m.dies == n.dies && m.faults == {} && m.t >= n.t && m.world.store == n.world.store
            && (m.world.marker ==> n.world.marker) && m.world.wifi.Some?
            && (m.world.wifi == n.world.wifi || On(m.world))
            && (n.world.marker && !m.world.marker ==> On(m.world))
            && (Alive(m) ==>
                  && (On(m.world) <==> On(n.world) || n.weOff || Truthy(n.world))
                  && !m.weOff && (On(m.world) || m.world.marker == n.world.marker))
            && (Alive(m) && !n.weOff && !Truthy(n.world) ==> m.world.marker == n.world.marker)
  {
    hide RestoreRadio;
    var record := if Works(n) then n.world.store.backupWifi else None;
    RadioTurnedOn(Tick(n), if record.Some? then record.value.device else n.dev);
    var a := RestoreRadioFromBackup(n);
    RadioTurnedOn(a, a.dev);
  }

  lemma {:induction false} RestoreRadioPower(n: Net)
    requires n.faults == {} && n.world.wifi.Some?
    ensures var m := RestoreFromBackup(n, true);
            && m.dies == n.dies && m.faults == {} && m.t >= n.t && m.world.wifi.Some?
            && (m.world.store.backupWifi == n.world.store.backupWifi || m.world.store.backupWifi.None?)
            && (Alive(m) ==>
                  && (On(m.world) <==> On(n.world) || n.weOff || Truthy(n.world))
                  && !m.weOff && (On(m.world) || m.world.marker == n.world.marker))
  {
    hide RestoreRadioFirst, RestoreGlobals, RestoreRoutes, RemoveKeys, Truthy;
    RadioFirstExact(n);
    var a := RestoreRadioFirst(n);
    var b := Tick(a);
    RemovalUntouched(b, 0);
    if a.world.store.backupValid.Some? {
      var v := a.world.store.backupValid.value;
      GlobalsUntouched(b, v);
      RoutesUntouched(RestoreGlobals(b, v));
      RemovalUntouched(RestoreRoutes(RestoreGlobals(b, v)), 0);
    }
  }

  /** m is later, still without a radio, and the flag and the marker are as in n. */
  predicate Radioless(n: Net, m: Net) {
    && m.dies == n.dies && m.faults == {} && m.t >= n.t
    && m.world.wifi.None? && m.weOff == n.weOff && m.world.marker == n.world.marker
  }

  lemma {:induction false} NoRadioRestore(n: Net)
    requires n.faults == {} && n.world.wifi.None?
    ensures Radioless(n, RestoreFromBackup(n, true))
  {
    hide RestoreRadioFirst, RestoreGlobals, RestoreRoutes, RemoveKeys;
    NoRadio(n);
    var b := Tick(RestoreRadioFirst(n));
    RemovalUntouched(b, 0);
    if b.world.store.backupValid.Some? {
      var v := b.world.store.backupValid.value;
      GlobalsUntouched(b, v);
      RoutesUntouched(RestoreGlobals(b, v));
      RemovalUntouched(RestoreRoutes(RestoreGlobals(b, v)), 0);
    }
  }

  // ------------------------------------------------------ a whole session

  /**
   While a session that found the radio as `was` goes on undisturbed: an absent radio stays
   absent, one that was off stays off with no record against it, and one that was on is on
   or this process knows that it switched it off.
   */
  predicate Tracked(was: Option<bool>, n: Net) {
    && n.faults == {}
    && match was
       case None => n.world.wifi.None?
       case Some(on) =>
         if on then On(n.world) || (n.weOff && n.world.wifi.Some?)
         else n.world.wifi == Some(false) && !n.weOff && !Truthy(n.world)
  }

  /** A leftover marker makes the first Wi-Fi restore of a session turn on a radio that was off. */
  function After(was: Option<bool>, marker: bool, ops: seq<Op>): Option<bool> {
    if was == Some(false) && marker && (exists k :: 0 <= k < |ops| && ops[k].Wifi?) then Some(true) else was
  }

  lemma {:induction false} DisableTracked(was: Option<bool>, n: Net)
    requires Tracked(was, n) && Alive(DisableWifi(n).0)
    ensures Tracked(was, DisableWifi(n).0)
    ensures was == Some(false) ==> DisableWifi(n).0.world.marker == n.world.marker
  {
    if On(n.world) {
      DisableOn(n);
    } else if n.world.wifi.Some? {
      DisableOff(n);
    }
  }

  lemma {:induction false} WifiTracked(was: Option<bool>, n: Net)
    requires Tracked(was, n) && Alive(RestoreWifi(n))
    ensures var now := if was == Some(false) && n.world.marker then Some(true) else was;
            Tracked(now, RestoreWifi(n)) && (now == Some(false) ==> !RestoreWifi(n).world.marker)
  {
    hide RestoreRadio, RestoreRadioFromBackup;
    RestoreWifiAside(n);
    if was.Some? {
      RestoreWifiExact(n);
      assert RestoreWifi(n).world.wifi.value == On(RestoreWifi(n).world);
    } else {
      NoRadio(n);
    }
  }

  lemma {:induction false} NoRadio(n: Net)
    requires n.faults == {} && n.world.wifi.None?
    ensures Radioless(n, RestoreWifi(n)) && Radioless(n, RestoreRadioFirst(n))
  {
    hide RestoreRadio;
    var record := if Works(n) then n.world.store.backupWifi else None;
    RadioTurnedOn(Tick(n), if record.Some? then record.value.device else n.dev);
    var a := RestoreRadioFromBackup(n);
    RadioTurnedOn(a, a.dev);
  }

  lemma {:induction false} StepTracked(was: Option<bool>, n: Net, op: Op)
    requires Tracked(was, n) && Alive(Perform(n, op)) && (op.Apply? || op.DropRoute6? || op.Wifi?)
    ensures var now := if was == Some(false) && n.world.marker && op.Wifi? then Some(true) else was;
            Tracked(now, Perform(n, op))
            && (now == Some(false) ==> (Perform(n, op).world.marker <==> n.world.marker))
  {
    hide DisableWifi, PublishPath, PreferDefaultRoute, RestoreWifi, Do;
    match op
    case Apply(ifname, ipv4, dns, gateway, prefer) =>
      PathUntouched(n, ifname, ipv4, dns, gateway, prefer);
      var a := PublishPath(n, ipv4, dns, prefer);
      var b := if gateway != "" then PreferDefaultRoute(a, ifname, gateway).0 else a;
      assert Tracked(was, a) && Tracked(was, b);
      if prefer {
        DisableTracked(was, b);
      }
    case DropRoute6 => DoUntouched(n, Delete6);
    case Wifi => WifiTracked(was, n);
  }

  lemma {:induction false} LifeTracked(was: Option<bool>, n: Net, ops: seq<Op>)
    requires Tracked(was, n) && During(ops) && Alive(Live(n, ops))
    ensures Tracked(After(was, n.world.marker, ops), Live(n, ops))
    decreases |ops|
  {
    if ops != [] && Alive(n) {
      hide Tracked, Perform, After;
      var m := Perform(n, ops[0]);
      StaysDead(m, ops[1..]);
      StepTracked(was, n, ops[0]);
      var now := if was == Some(false) && n.world.marker && ops[0].Wifi? then Some(true) else was;
      LifeTracked(now, m, ops[1..]);
      AfterStep(was, n.world.marker, m.world.marker, ops);
    } else {
      assert ops == [];
    }
  }

  lemma {:induction false} AfterStep(was: Option<bool>, marker: bool, later: bool, ops: seq<Op>)
    requires ops != []
    requires var now := if was == Some(false) && marker && ops[0].Wifi? then Some(true) else was;
             now == Some(false) ==> later == marker
    ensures var now := if was == Some(false) && marker && ops[0].Wifi? then Some(true) else was;
            After(now, later, ops[1..]) == After(was, marker, ops)
  {
    if exists k :: 0 <= k < |ops[1..]| && ops[1..][k].Wifi? {
      var k :| 0 <= k < |ops[1..]| && ops[1..][k].Wifi?;
      assert ops[k + 1].Wifi?;
    }
    if exists k :: 1 <= k < |ops| && ops[k].Wifi? {
      var k :| 1 <= k < |ops| && ops[k].Wifi?;
      assert ops[1..][k - 1].Wifi?;
    }
  }

  /** How many global keys a snapshot copies. */
  function Copies(w: World): nat {
    (if w.store.ipv4.Some? then 1 else 0) + (if w.store.dns.Some? then 1 else 0)
  }

  lemma {:induction false} CopiesUntouched(n: Net, hasIPv4: bool, hasDNS: bool)
    requires n.faults == {}
    ensures var m := CopyGlobals(n, hasIPv4, hasDNS);
            && Untouched(n, m) && m.dev == n.dev && m.world.store.backupWifi == n.world.store.backupWifi
            && m.t == At(n, (if hasIPv4 then 1 else 0) + (if hasDNS then 1 else 0))
  {
    hide Do;
    DoUntouched(n, Copy(GlobalIPv4, BackupIPv4));
    DoUntouched(n, Copy(GlobalDNS, BackupDNS));
    DoUntouched(Do(n, Copy(GlobalIPv4, BackupIPv4)), Copy(GlobalDNS, BackupDNS));
  }

  /** The state before a snapshot turns to the radio: the global keys are copied and both routes read. */
  function BeforeRadio(n: Net): Net {
    var a := Tick(n);
    Tick(Tick(CopyGlobals(Tick(a), Works(n) && n.world.store.ipv4.Some?, Works(a) && a.world.store.dns.Some?)))
  }

  lemma {:induction false} AtMore(n: Net, m: Net, j: nat, k: nat)
    requires m.t == At(n, j) && m.dies == n.dies
    ensures At(m, k) == At(n, j + k)
  {
  }

  lemma {:induction false} Ticked(n: Net)
    ensures Tick(n) == n.(t := At(n, 1))
  {
  }

  lemma {:induction false} BeforeRadioUntouched(n: Net)
    requires n.faults == {}
    ensures var c := BeforeRadio(n);
            && Untouched(n, c) && c.dev == n.dev && c.world.store.backupWifi == n.world.store.backupWifi
            && c.t == At(n, 4 + Copies(n.world))
  {
    var hasIPv4, hasDNS := Works(n) && n.world.store.ipv4.Some?, Works(Tick(n)) && Tick(n).world.store.dns.Some?;
    var a := Tick(Tick(n));
    var k := (if hasIPv4 then 1 else 0) + (if hasDNS then 1 else 0);
    assert Left(n) >= 2 ==> k == Copies(n.world);
    CopiesUntouched(a, hasIPv4, hasDNS);
    var b := CopyGlobals(a, hasIPv4, hasDNS);
    assert BeforeRadio(n) == Tick(Tick(b));
    Ticked(n);
    Ticked(Tick(n));
    Ticked(b);
    Ticked(Tick(b));
    hide CopyGlobals, BeforeRadio, Tick, Copies;
    AtMore(n, Tick(n), 1, 1);
    AtMore(n, a, 2, k);
    AtMore(n, b, 2 + k, 1);
    AtMore(n, Tick(b), 3 + k, 1);
    assert Tick(Tick(b)).t == At(n, 4 + k);
  }

  /** Then it records the radio and commits. */
  lemma {:induction false} SnapshotParts(n: Net) returns (commit: Cmd)
    ensures commit.Commit? && TakeSnapshot(n).0 == Do(SnapshotRadio(BeforeRadio(n)), commit)
  {
    hide Do, CopyGlobals, SnapshotRadio;
    var a := Tick(n);
    var hasIPv4, hasDNS := Works(n) && n.world.store.ipv4.Some?, Works(a) && a.world.store.dns.Some?;
    var b := CopyGlobals(Tick(a), hasIPv4, hasDNS);
    commit := Commit(Routes(ReadRoute(b, b.world.route4), ReadRoute(Tick(b), b.world.route6)), Valid(hasIPv4, hasDNS));
    assert Tick(b).world == b.world;
  }

  /** It leaves the radio's power alone, and records it when it gets that far. */
  lemma {:induction false} SnapshotRecords(n: Net)
    requires n.faults == {}
    ensures var m := TakeSnapshot(n).0;
            && m.dies == n.dies && m.faults == {} && m.t >= n.t && m.weOff == n.weOff
            && m.world.wifi == n.world.wifi && m.world.marker == n.world.marker
            && (Alive(m) ==> (Truthy(m.world) <==> On(n.world)))
  {
    var c := BeforeRadio(n);
    BeforeRadioUntouched(n);
    var commit := SnapshotParts(n);
    hide TakeSnapshot, BeforeRadio, Do, SnapshotRadio;
    RadioRecorded(c);
    DoUntouched(SnapshotRadio(c), commit);
  }

  lemma {:induction false} SnapshotSteps(n: Net)
    requires n.faults == {} && n.world.wifi.Some?
    ensures var m := TakeSnapshot(n).0;
            && m.t == At(n, 8 + Copies(n.world)) && (Alive(m) ==> m.dev)
            && m.world.store.backupWifi ==
               (if Left(n) >= 7 + Copies(n.world) then Some(Radio(true, On(n.world), false))
                else n.world.store.backupWifi)
  {
    var c := BeforeRadio(n);
    BeforeRadioUntouched(n);
    var commit := SnapshotParts(n);
    hide TakeSnapshot, BeforeRadio, Do, SnapshotRadio, Copies;
    RadioRecorded(c);
    DoUntouched(SnapshotRadio(c), commit);
  }

  lemma {:induction false} RadioRecorded(n: Net)
    requires n.faults == {}
    ensures var m := SnapshotRadio(n);
            && m.dies == n.dies && m.faults == {} && m.t >= n.t && m.weOff == n.weOff
            && m.world.wifi == n.world.wifi && m.world.marker == n.world.marker
            && (Alive(m) ==> (Truthy(m.world) <==> On(n.world)))
            && (n.world.wifi.Some? ==>
                  && m.t == At(n, 3) && (Alive(m) ==> m.dev)
                  && m.world.store.backupWifi ==
                     (if Left(n) >= 3 then Some(Radio(true, On(n.world), false)) else n.world.store.backupWifi))
  {
    hide Do;
    var a := Tick(n);
    RecordStored(a, Radio(false, false, false));
    RecordStored(Tick(a).(dev := true), Radio(true, Works(a) && a.world.wifi == Some(true), false));
  }

  /** The radio's power when a session takes its snapshot: a leftover record without a live default turned it on. */
  function FoundPower(w: World): Option<bool> {
    if w.wifi.Some? && w.store.backupValid.Some? && !LiveDefault(w) && Truthy(w) then Some(true) else w.wifi
  }

  lemma {:induction false} LeftoverRadio(n: Net)
    requires n.faults == {} && !n.weOff
    ensures var d := ClearLeftover(n);
            && d.dies == n.dies && d.faults == {} && d.t >= n.t
            && (Alive(d) ==>
                  && d.world.wifi == FoundPower(n.world) && !d.weOff
                  && (On(d.world) || d.world.marker == n.world.marker))
  {
    hide RestoreFromBackup, DropPath, RemoveBackupKeys, LiveDefault, Truthy;
    var b := Tick(Tick(n));
    if Works(Tick(n)) && n.world.store.backupValid.Some? {
      if LiveDefault(n.world) {
        RemovalUntouchedAll(b);
      } else {
        var r := RestoreFromBackup(b, true);
        if n.world.wifi.None? {
          NoRadioRestore(b);
        } else {
          RestoreRadioPower(b);
          if Alive(r) {
            PowerDecided(r.world, n.world);
          }
        }
        DropPathUntouched(r);
      }
    }
  }

  /** Beginning a session, whatever was left behind; the marker plays no part in it. */
  lemma {:induction false} BeginRadio(n: Net)
    requires n.faults == {} && !n.open && !n.weOff
    ensures var m := BeginSession(n).0;
            && m.dies == n.dies && m.faults == {} && m.t >= n.t
            && (Alive(m) ==>
                  && m.world.wifi == FoundPower(n.world) && m.open && !m.weOff
                  && (Truthy(m.world) <==> On(m.world))
                  && (On(m.world) || m.world.marker == n.world.marker))
  {
    BeginFinds(n);
    LeftoverRadio(n);
    hide ClearLeftover, TakeSnapshot, FoundPower, Truthy, Guarded, Found;
    SnapshotRecords(ClearLeftover(n));
  }

  lemma {:induction false} PowerDecided(v: World, w: World)
    requires v.wifi.Some? && w.wifi.Some? && (On(v) <==> On(w) || Truthy(w))
    ensures v.wifi == if Truthy(w) then Some(true) else w.wifi
  {
    if !On(w) {
      OffOtherwise(w);
    }
    if !On(v) {
      OffOtherwise(v);
    }
  }

  lemma {:induction false} RemovalUntouchedAll(n: Net)
    ensures Untouched(n, RemoveBackupKeys(n))
  {
    RemovalUntouched(n, 0);
  }

  /**
   A session that reaches its end leaves the radio's power as it found it, whatever was left
   behind and whatever lease applications and Wi-Fi restores came in between, exactly unless
   the radio was off, an old marker was present and the session contained a Wi-Fi restore.
   */
  lemma {:induction false} SessionKeepsRadio(w: World, span: nat, ops: seq<Op>)
    requires During(ops)
    ensures var n := Live(BeginSession(Start(w, span)).0, ops);
            Alive(n) && Alive(EndSession(n)) ==>
              (EndSession(n).world.wifi == FoundPower(w) <==>
               !(FoundPower(w) == Some(false) && w.marker && exists k :: 0 <= k < |ops| && ops[k].Wifi?))
  {
    var s := Start(w, span);
    var b := BeginSession(s).0;
    hide BeginSession, EndSession, FoundPower;
    BeginRadio(s);
    StaysDead(b, ops);
    var n := Live(b, ops);
    if Alive(n) && Alive(EndSession(n)) {
      var was := FoundPower(w);
      assert Alive(b) && Tracked(was, b);
      LifeTracked(was, b, ops);
      NetProgress.LifeKeepsFate(b, ops);
      hide Live;
      EndTracked(After(was, b.world.marker, ops), n);
    }
  }

  /** The failing input, for any such world: a radio that was off comes out on. */
  lemma {:induction false} OldMarkerTurnsRadioOn(w: World)
    requires w.store.backupValid.None? && w.wifi == Some(false) && w.marker
    ensures var n := Live(BeginSession(Start(w, 200)).0, [Wifi]);
            Alive(EndSession(n)) && EndSession(n).world.wifi == Some(true)
  {
    var ops: seq<Op> := [Wifi];
    hide BeginSession, EndSession, Live;
    NetProgress.SessionCompletes(w, 200, ops);
    var s := Start(w, 200);
    var b := BeginSession(s).0;
    var n := Live(b, ops);
    BeginRadio(s);
    StaysDead(b, ops);
    LifeTracked(Some(false), b, ops);
    assert ops[0].Wifi?;
    NetProgress.LifeKeepsFate(b, ops);
    EndTracked(Some(true), n);
  }

  lemma {:induction false} EndTracked(was: Option<bool>, n: Net)
    requires Tracked(was, n) && n.open && Alive(EndSession(n))
    ensures EndSession(n).world.wifi == was
  {
    hide RestoreFromBackup, RestoreRadio, DropPath, Truthy;
    assert Pending(n) == (n, true);
    if was.Some? {
      RestoreRadioPower(n);
    } else {
      NoRadioRestore(n);
    }
    var r := RestoreFromBackup(n, true);
    RadioTurnedOn(r, r.dev);
    var d := if r.weOff then RestoreRadio(r, r.dev).0 else r;
    DropPathUntouched(d);
    assert EndSession(n) == DropPath(d).(open := false);
    assert Alive(r);
    assert was == Some(false) ==> !d.world.wifi.value && d.world.wifi == Some(d.world.wifi.value);
  }
}
