/** The operations as the process performs them: its globals and the world updated step by step. */
module NetSession {
  import opened Bytes
  import opened NetConfig
  import opened NetRecovery

  class Session {
    var world: World
    var sessionOpen: bool
    var wifiWeTurnedOff: bool
    var wifiDev: bool
    var now: nat
    const dies: nat
    const faults: set<nat>

    function Value(): Net
      reads this
    {
      Net(world, sessionOpen, wifiWeTurnedOff, wifiDev, now, dies, faults)
    }

    /** A process just started, its globals cleared. */
    constructor (world: World, now: nat, dies: nat, faults: set<nat>)
      ensures Value() == Net(world, false, false, false, now, dies, faults)
    {
      this.world, this.now, this.dies, this.faults := world, now, dies, faults;
      sessionOpen, wifiWeTurnedOff, wifiDev := false, false, false;
    }

    /** Runs one command and tells whether it exited with success. */
    method RunCmd(cmd: Cmd) returns (ok: bool)
      modifies this
      ensures Value() == Do(old(Value()), cmd) && ok == Succeeds(old(Value()), cmd)
    {
      hide Effect;
      ok := Succeeds(Value(), cmd);
      if now < dies {
        if now !in faults {
          world := Effect(world, cmd);
        }
        now := now + 1;
      }
    }

    /** Takes a reading; what it saw is in the world as it was, if it worked. */
    method Read() returns (ok: bool)
      modifies this
      ensures Value() == Tick(old(Value())) && ok == Works(old(Value()))
    {
      ok := Works(Value());
      if now < dies {
        now := now + 1;
      }
    }

    method SetPowerVerify(on: bool) returns (ok: bool)
      modifies this
      ensures (Value(), ok) == PowerVerified(old(Value()), on, 4)
    {
      hide Effect;
      var attempt := 0;
      while attempt < 4
        invariant 0 <= attempt <= 4
        invariant PowerVerified(Value(), on, 4 - attempt) == PowerVerified(old(Value()), on, 4)
      {
        var _ := RunCmd(Power(on));
        var readable := Read();
        if readable && world.wifi == Some(on) {
          return true;
        }
        attempt := attempt + 1;
      }
      var readable := Read();
      return readable && world.wifi == Some(on);
    }

    method RestoreWifiDevice(named: bool) returns (ok: bool)
      modifies this
      ensures (Value(), ok) == RestoreRadio(old(Value()), named)
    {
      hide PowerVerified, Effect;
      if !named && !wifiDev {
        var found := Read();
        if !(found && world.wifi.Some?) {
          return false;
        }
      }
      ok := SetPowerVerify(true);
      if ok {
        wifiWeTurnedOff := false;
        var _ := RunCmd(ClearMarker);
      }
    }

    method RestoreWifiFromBackup()
      modifies this
      ensures Value() == RestoreRadioFromBackup(old(Value()))
    {
      hide RestoreRadio;
      var shown := Read();
      var record := if shown then world.store.backupWifi else None;
      var should := wifiWeTurnedOff || (record.Some? && (record.value.turnedOff || record.value.wasOn));
      if !should {
        return;
      }
      var _ := RestoreWifiDevice(if record.Some? then record.value.device else wifiDev);
    }

    method DisableWifiDuringTether() returns (rc: int)
      modifies this
      ensures (Value(), rc) == DisableWifi(old(Value()))
    {
      hide PowerVerified, Effect;
      var found := Read();
      if !(found && world.wifi.Some?) {
        return 0;
      }
      var readable := Read();
      if readable && world.wifi == Some(false) {
        var _ := RunCmd(StoreRadio(Radio(true, false, false)));
        return 0;
      }
      var off := SetPowerVerify(false);
      if !off {
        return -1;
      }
      wifiDev := true;
      wifiWeTurnedOff := true;
      var _ := RunCmd(StoreRadio(Radio(true, true, true)));
      var _ := RunCmd(WriteMarker);
      return 0;
    }

    method SnapshotWifi()
      modifies this
      ensures Value() == SnapshotRadio(old(Value()))
    {
      hide Effect;
      var found := Read();
      if !(found && world.wifi.Some?) {
        var _ := RunCmd(StoreRadio(Radio(false, false, false)));
        return;
      }
      var readable := Read();
      var on := readable && world.wifi == Some(true);
      wifiDev := true;
      var _ := RunCmd(StoreRadio(Radio(true, on, false)));
    }

    method TakeSnapshotToBackup() returns (rc: int)
      modifies this
      ensures (Value(), rc) == TakeSnapshot(old(Value()))
    {
      hide Effect, SnapshotRadio;
      var seen := Read();
      var hasIPv4 := seen && world.store.ipv4.Some?;
      seen := Read();
      var hasDNS := seen && world.store.dns.Some?;
      if hasIPv4 {
        var _ := RunCmd(Copy(GlobalIPv4, BackupIPv4));
      }
      if hasDNS {
        var _ := RunCmd(Copy(GlobalDNS, BackupDNS));
      }
      seen := Read();
      var route4 := if seen then world.route4 else NoDefault;
      seen := Read();
      var route6 := if seen then world.route6 else NoDefault;
      SnapshotWifi();
      var ok := RunCmd(Commit(Routes(route4, route6), Valid(hasIPv4, hasDNS)));
      return if ok then 0 else -1;
    }

    method RemoveAllBackupKeys()
      modifies this
      ensures Value() == RemoveBackupKeys(old(Value()))
    {
      hide Effect;
      var i := 0;
      while i < 7
        invariant 0 <= i <= 7
        invariant RemoveKeys(Value(), i) == RemoveKeys(old(Value()), 0)
      {
        var _ := RunCmd(Remove(BACKUP_KEYS[i]));
        i := i + 1;
      }
    }

    method RestoreDefaultRoute(r: Route)
      modifies this
      ensures Value() == RestoreRoute4(old(Value()), r)
    {
      hide Effect;
      var _ := RunCmd(Delete4);
      if r == NoDefault {
        return;
      }
      var _ := RunCmd(Add4(r));
    }

    method RestoreDefaultRoute6(r: Route)
      modifies this
      ensures Value() == RestoreRoute6(old(Value()), r)
    {
      hide Effect;
      var i := 0;
      while i < 4
        invariant 0 <= i <= 4
        invariant ClearRoute6(Value(), 4 - i) == ClearRoute6(old(Value()), 4)
      {
        var deleted := RunCmd(Delete6);
        if !deleted {
          assert ClearRoute6(old(Value()), 4) == Value();
          break;
        }
        i := i + 1;
      }
      if r == NoDefault {
        return;
      }
      var _ := RunCmd(Add6(r));
    }

    method RestoreKeys(v: Valid)
      modifies this
      ensures Value() == RestoreGlobals(old(Value()), v)
    {
      hide Effect;
      if v.hasIPv4 {
        var _ := RunCmd(Copy(BackupIPv4, GlobalIPv4));
      } else {
        var _ := RunCmd(Remove(GlobalIPv4));
      }
      if v.hasDNS {
        var _ := RunCmd(Copy(BackupDNS, GlobalDNS));
      } else {
        var _ := RunCmd(Remove(GlobalDNS));
      }
    }

    method Restore(remove: bool)
      modifies this
      ensures Value() == RestoreFromBackup(old(Value()), remove)
    {
      hide RestoreRadioFromBackup, RestoreRadio, RestoreGlobals, RestoreRoute4, RestoreRoute6, RemoveBackupKeys;
      RestoreWifiFromBackup();
      if wifiWeTurnedOff {
        var _ := RestoreWifiDevice(wifiDev);
      }
      var shown := Read();
      if !(shown && world.store.backupValid.Some?) {
        if remove {
          RemoveAllBackupKeys();
        }
        return;
      }
      RestoreKeys(world.store.backupValid.value);
      shown := Read();
      if shown && world.store.backupRoute.Some? {
        var r := world.store.backupRoute.value;
        RestoreDefaultRoute(r.route4);
        RestoreDefaultRoute6(r.route6);
      } else {
        RestoreDefaultRoute(NoDefault);
      }
      if remove {
        RemoveAllBackupKeys();
      }
    }

    method UnpublishAndRemoveService()
      modifies this
      ensures Value() == DropPath(old(Value()))
    {
      hide Effect;
      var _ := RunCmd(Unpublish);
      var _ := RunCmd(RemoveService);
    }

    method Begin() returns (rc: int)
      modifies this
      ensures (Value(), rc) == BeginSession(old(Value()))
    {
      hide RestoreFromBackup, RemoveBackupKeys, TakeSnapshot, DropPath;
      if sessionOpen {
        return 0;
      }
      var seen := Read();
      var live := seen && LiveDefault(world);
      seen := Read();
      if seen && world.store.backupValid.Some? {
        if live {
          RemoveAllBackupKeys();
        } else {
          Restore(true);
          UnpublishAndRemoveService();
        }
      }
      rc := TakeSnapshotToBackup();
      if rc != 0 {
        return -1;
      }
      sessionOpen := true;
      return 0;
    }

    method End()
      modifies this
      ensures Value() == EndSession(old(Value()))
    {
      hide RestoreFromBackup, DropPath, RestoreRadio;
      var had := sessionOpen || wifiWeTurnedOff;
      if !had {
        var seen := Read();
        had := seen && world.store.backupValid.Some?;
        if !had {
          seen := Read();
          had := seen && world.store.backupWifi.Some?;
        }
      }
      if !had {
        if world.marker {
          var _ := RestoreWifiDevice(false);
        }
        UnpublishAndRemoveService();
        return;
      }
      Restore(true);
      if wifiWeTurnedOff {
        var _ := RestoreWifiDevice(wifiDev);
      }
      UnpublishAndRemoveService();
      sessionOpen := false;
    }

    method RestoreWifiPower()
      modifies this
      ensures Value() == RestoreWifi(old(Value()))
    {
      hide RestoreRadioFromBackup, RestoreRadio;
      RestoreWifiFromBackup();
      if wifiWeTurnedOff || world.marker {
        var _ := RestoreWifiDevice(wifiDev);
      }
    }

    method Publish(ipv4: string, dns: string, asPrimary: bool)
      modifies this
      ensures Value() == PublishPath(old(Value()), ipv4, dns, asPrimary)
    {
      hide Effect;
      var primary := asPrimary && sessionOpen;
      var _ := RunCmd(Cmd.Publish(if primary then Some((ipv4, dns)) else None));
    }

    method PreferDefault(ifname: string, gateway: string) returns (rc: int)
      modifies this
      ensures (Value(), rc) == PreferDefaultRoute(old(Value()), ifname, gateway)
    {
      hide Effect;
      if !sessionOpen {
        return -1;
      }
      var _ := RunCmd(Delete4);
      var added := RunCmd(Add4(ViaInterface(ifname)));
      if !added {
        added := RunCmd(Add4(ViaGateway(gateway)));
        if !added {
          return -1;
        }
      }
      var _ := RunCmd(Delete6);
      return 0;
    }

    method ApplyLeaseNow(ifname: string, ipv4: string, dns: string, gateway: string, prefer: bool)
      modifies this
      ensures Value() == ApplyLease(old(Value()), ifname, ipv4, dns, gateway, prefer)
    {
      hide PublishPath, PreferDefaultRoute, DisableWifi;
      Publish(ipv4, dns, prefer);
      if prefer {
        if gateway != "" {
          var _ := PreferDefault(ifname, gateway);
        }
        var _ := DisableWifiDuringTether();
      }
    }

    method DropIPv6Default()
      modifies this
      ensures Value() == DropIPv6(old(Value()))
    {
      var _ := RunCmd(Delete6);
    }

    method Act(op: Op)
      modifies this
      ensures Value() == Perform(old(Value()), op)
    {
      hide BeginSession, ApplyLease, DropIPv6, RestoreWifi, EndSession;
      match op
      case Begin =>
        var _ := Begin();
      case Apply(ifname, ipv4, dns, gateway, prefer) => ApplyLeaseNow(ifname, ipv4, dns, gateway, prefer);
      case DropRoute6 => DropIPv6Default();
      case Wifi => RestoreWifiPower();
      case End => End();
    }

    /** One operation after the other until the process is killed: this is the life that the other modules speak of. */
    method Run(ops: seq<Op>)
      modifies this
      ensures Value() == Live(old(Value()), ops)
    {
      hide Perform;
      var i := 0;
      while i < |ops| && now < dies
        invariant 0 <= i <= |ops|
        invariant Live(Value(), ops[i..]) == Live(old(Value()), ops)
      {
        assert ops[i..][1..] == ops[i + 1..];
        Act(ops[i]);
        i := i + 1;
      }
    }
  }
}
