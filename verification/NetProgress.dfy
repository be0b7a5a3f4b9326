/** How long the operations take: no statement about completed ones is about nothing. */
module NetProgress {
  import opened Bytes
  import opened NetConfig
  import opened NetRecovery

  lemma {:induction false} DoTakes(n: Net, cmd: Cmd)
    ensures Do(n, cmd).t <= n.t + 1
  {
    hide Effect;
  }

  lemma {:induction false} PowerTakes(n: Net, on: bool, attempts: nat)
    ensures PowerVerified(n, on, attempts).0.t <= n.t + 2 * attempts + 1
    decreases attempts
  {
    hide Do;
    if attempts > 0 {
      DoTakes(n, Power(on));
      PowerTakes(Tick(Do(n, Power(on))), on, attempts - 1);
    }
  }

  lemma {:induction false} RadioTakes(n: Net, named: bool)
    ensures RestoreRadio(n, named).0.t <= n.t + 11
  {
    hide Do, PowerVerified;
    var a := if named || n.dev then n else Tick(n);
    PowerTakes(a, true, 4);
    DoTakes(PowerVerified(a, true, 4).0.(weOff := false), ClearMarker);
  }

  lemma {:induction false} RadioRestoresTake(n: Net)
    ensures RestoreRadioFromBackup(n).t <= n.t + 12
    ensures RestoreRadioFirst(n).t <= n.t + 23 && RestoreWifi(n).t <= n.t + 23
  {
    hide RestoreRadio;
    RadioTakes(Tick(n), true);
    RadioTakes(Tick(n), false);
    var a := RestoreRadioFromBackup(n);
    RadioTakes(a, a.dev);
  }

  lemma {:induction false} DisableTakes(n: Net)
    ensures DisableWifi(n).0.t <= n.t + 13
  {
    hide Do, PowerVerified;
    var b := Tick(Tick(n));
    PowerTakes(b, false, 4);
    var p := PowerVerified(b, false, 4).0.(dev := true, weOff := true);
    DoTakes(b, StoreRadio(Radio(true, false, false)));
    DoTakes(p, StoreRadio(Radio(true, true, true)));
    DoTakes(Do(p, StoreRadio(Radio(true, true, true))), WriteMarker);
  }

  lemma {:induction false} SnapshotTakes(n: Net)
    ensures TakeSnapshot(n).0.t <= n.t + 10
  {
    var hasIPv4 := Works(n) && n.world.store.ipv4.Some?;
    var a := Tick(n);
    var hasDNS := Works(a) && a.world.store.dns.Some?;
    CopiesTake(Tick(a), hasIPv4, hasDNS);
    var b := CopyGlobals(Tick(a), hasIPv4, hasDNS);
    var c := Tick(Tick(b));
    RadioRecordTakes(c);
    hide Do, CopyGlobals, SnapshotRadio;
    DoTakes(SnapshotRadio(c),
            Commit(Routes(ReadRoute(b, b.world.route4), ReadRoute(Tick(b), b.world.route6)), Valid(hasIPv4, hasDNS)));
  }

  lemma {:induction false} CopiesTake(n: Net, hasIPv4: bool, hasDNS: bool)
    ensures CopyGlobals(n, hasIPv4, hasDNS).t <= n.t + 2
  {
    hide Effect;
  }

  lemma {:induction false} RadioRecordTakes(n: Net)
    ensures SnapshotRadio(n).t <= n.t + 3
  {
    hide Effect;
  }

  lemma {:induction false} RemovalTakes(n: Net, k: nat)
    requires k <= 7
    ensures RemoveKeys(n, k).t <= n.t + (7 - k)
    decreases 7 - k
  {
    hide Do;
    if k < 7 {
      DoTakes(n, Remove(BACKUP_KEYS[k]));
      RemovalTakes(Do(n, Remove(BACKUP_KEYS[k])), k + 1);
    }
  }

  lemma {:induction false} ClearTakes(n: Net, times: nat)
    ensures ClearRoute6(n, times).t <= n.t + times
    decreases times
  {
    hide Do, Succeeds;
    if times > 0 {
      DoTakes(n, Delete6);
      ClearTakes(Do(n, Delete6), times - 1);
    }
  }

  lemma {:induction false} RoutesTake(n: Net)
    ensures RestoreRoutes(n).t <= n.t + 8
  {
    hide Effect, ClearRoute6;
    var a := Tick(n);
    if n.world.store.backupRoute.Some? {
      ClearTakes(RestoreRoute4(a, n.world.store.backupRoute.value.route4), 4);
    }
  }

  lemma {:induction false} RestoreTakes(n: Net)
    ensures RestoreFromBackup(n, true).t <= n.t + 41
  {
    RadioRestoresTake(n);
    var b := Tick(RestoreRadioFirst(n));
    hide RestoreRadioFirst, RestoreRoutes, RemoveKeys, Effect;
    RemovalTakes(b, 0);
    if b.world.store.backupValid.Some? {
      var g := RestoreGlobals(b, b.world.store.backupValid.value);
      assert g.t <= b.t + 2;
      RoutesTake(g);
      RemovalTakes(RestoreRoutes(g), 0);
    }
  }

  lemma {:induction false} PathTakes(n: Net, ifname: string, ipv4: string, dns: string, gateway: string, prefer: bool)
    ensures var a := PublishPath(n, ipv4, dns, prefer);
            a.t <= n.t + 1 && PreferDefaultRoute(a, ifname, gateway).0.t <= n.t + 5
  {
    hide Effect;
  }

  lemma {:induction false} BeginTakes(n: Net)
    ensures BeginSession(n).0.t <= n.t + 55
  {
    hide RestoreFromBackup, TakeSnapshot, DropPath, RemoveKeys, Do, LiveDefault;
    var b := Tick(Tick(n));
    RestoreTakes(b);
    RemovalTakes(b, 0);
    var r := RestoreFromBackup(b, true);
    DropPathTakes(r);
    SnapshotTakes(b);
    SnapshotTakes(RemoveBackupKeys(b));
    SnapshotTakes(DropPath(r));
  }

  lemma {:induction false} DropPathTakes(n: Net)
    ensures DropPath(n).t <= n.t + 2
  {
    hide Effect;
  }

  lemma {:induction false} EndTakes(n: Net)
    ensures EndSession(n).t <= n.t + 56
  {
    hide RestoreFromBackup, RestoreRadio, DropPath;
    var p := Pending(n).0;
    RestoreTakes(p);
    var c := RestoreFromBackup(p, true);
    RadioTakes(c, c.dev);
    RadioTakes(p, false);
    DropPathTakes(if c.weOff then RestoreRadio(c, c.dev).0 else c);
    DropPathTakes(if p.world.marker then RestoreRadio(p, false).0 else p);
  }

  /** No operation takes more than 64 steps, whatever fails. */
  lemma {:induction false} OpTakes(n: Net, op: Op)
    ensures Perform(n, op).t <= n.t + 64
  {
    hide BeginSession, EndSession, DisableWifi, PublishPath, PreferDefaultRoute, RestoreWifi, Do;
    match op
    case Begin => BeginTakes(n);
    case Apply(ifname, ipv4, dns, gateway, prefer) =>
      PathTakes(n, ifname, ipv4, dns, gateway, prefer);
      var a := PublishPath(n, ipv4, dns, prefer);
      DisableTakes(a);
      DisableTakes(PreferDefaultRoute(a, ifname, gateway).0);
    case DropRoute6 => DoTakes(n, Delete6);
    case Wifi => RadioRestoresTake(n);
    case End => EndTakes(n);
  }

  lemma {:induction false} LifeTakes(n: Net, ops: seq<Op>)
    ensures Live(n, ops).t <= n.t + 64 * |ops|
    decreases |ops|
  {
    hide Perform;
    if ops != [] && Alive(n) {
      OpTakes(n, ops[0]);
      LifeTakes(Perform(n, ops[0]), ops[1..]);
    }
  }

  lemma {:induction false} LifeKeepsFate(n: Net, ops: seq<Op>)
    requires n.faults == {} && n.open && During(ops)
    ensures Live(n, ops).dies == n.dies && Live(n, ops).faults == {} && Live(n, ops).open
    decreases |ops|
  {
    if ops != [] && Alive(n) {
      hide Perform;
      DuringKeepsFate(n, ops[0]);
      LifeKeepsFate(Perform(n, ops[0]), ops[1..]);
    }
  }

  lemma {:induction false} DuringKeepsFate(n: Net, op: Op)
    requires n.faults == {} && n.open && (op.Apply? || op.DropRoute6? || op.Wifi?)
    ensures var m := Perform(n, op); m.dies == n.dies && m.faults == {} && m.open
  {
    hide DisableWifi, RestoreWifi;
    match op
    case Apply(ifname, ipv4, dns, gateway, prefer) =>
      var a := PublishPath(n, ipv4, dns, prefer);
      DisableAside(a);
      DisableAside(PreferDefaultRoute(a, ifname, gateway).0);
    case DropRoute6 =>
    case Wifi => RestoreWifiAside(n);
  }

  /** So a session with enough time reaches its end, and the round trip takes place. */
  lemma {:induction false} SessionCompletes(w: World, span: nat, ops: seq<Op>)
    requires During(ops) && span > 64 * (|ops| + 2)
    ensures var n := Live(BeginSession(Start(w, span)).0, ops); var m := EndSession(n);
            Alive(n) && Alive(m) && ConfigOf(m.world) == Found(w) && NoBackup(m.world)
  {
    var s := Start(w, span);
    var b := BeginSession(s).0;
    assert Perform(s, Begin) == b;
    OpTakes(s, Begin);
    BeginFinds(s);
    hide BeginSession, EndSession, Found;
    LifeTakes(b, ops);
    LifeKeepsFate(b, ops);
    var n := Live(b, ops);
    assert Perform(n, End) == EndSession(n);
    OpTakes(n, End);
    EndKeepsFate(n);
    SessionRoundTrip(w, span, ops);
  }

  lemma {:induction false} EndKeepsFate(n: Net)
    requires n.faults == {} && n.open
    ensures EndSession(n).dies == n.dies
  {
    hide RestoreFromBackup, RestoreRadio, DropPath;
    assert Pending(n) == (n, true);
    RestoreFate(n);
    var c := RestoreFromBackup(n, true);
    RadioAside(c, c.dev);
    DropPathAside(if c.weOff then RestoreRadio(c, c.dev).0 else c);
  }

  lemma {:induction false} RestoreFate(n: Net)
    requires n.faults == {}
    ensures RestoreFromBackup(n, true).dies == n.dies && RestoreFromBackup(n, true).faults == {}
  {
    if n.world.store.backupValid.Some? {
      RestoreYields(n);
    } else {
      RadioFirstAside(n);
      hide RestoreRadioFirst, RemoveBackupKeys;
      RemovalPoints(Tick(RestoreRadioFirst(n)));
    }
  }
}
