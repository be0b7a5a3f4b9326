/** The radio when the process is killed: what each operation risks, and what a run of them leaves. */
module NetRadioCrash {
  import opened Bytes
  import opened NetConfig
  import opened NetRecovery
  import opened NetRadio
  import NetProgress

  // -------------------------------------------------- what a later process finds

  /** Something is left that lets the restore command find the radio on or turn it on. */
  predicate Recoverable(w: World) {
    On(w) || w.marker || Truthy(w)
  }

  /** Ending a leftover session turns the radio on if the record asks for it, or the marker while no record is left. */
  lemma {:induction false} LeftoverEnded(w: World, span: nat)
    requires w.wifi.Some?
    ensures var m := EndSession(Start(w, span));
            && m.faults == {} && m.world.wifi.Some?
            && (!Truthy(w) ==> !Truthy(m.world))
            && (Alive(m) ==>
                  && !m.weOff
                  && (On(w) || Truthy(w) ==> On(m.world))
                  && (On(m.world) ==> Recoverable(w))
                  && (On(m.world) || m.world.marker == w.marker))
  {
    var (p, had) := Pending(Start(w, span));
    assert p.world == w && p.faults == {} && !p.weOff;
    assert !had && Alive(p) ==> !Truthy(w);
    hide RestoreFromBackup, RestoreRadio, DropPath, Pending;
    if had {
      RestoreRadioPower(p);
      var r := RestoreFromBackup(p, true);
      RadioTurnedOn(r, r.dev);
      DropPathUntouched(if r.weOff then RestoreRadio(r, r.dev).0 else r);
    } else {
      RadioTurnedOn(p, false);
      DropPathUntouched(if p.world.marker then RestoreRadio(p, false).0 else p);
    }
  }

  /** The restore command turns the radio on exactly if it is on, or the record or the marker asks for it. */
  lemma {:induction false} RestoreCommandPower(w: World, span: nat)
    requires w.wifi.Some? && Alive(RestoreCommand(Start(w, span)))
    ensures On(RestoreCommand(Start(w, span)).world) <==> Recoverable(w)
  {
    var e := EndSession(Start(w, span));
    hide EndSession, RestoreWifi, Truthy;
    LeftoverEnded(w, span);
    RestoreWifiExact(e);
  }

  /**
   A completed session start turns the radio on exactly if it is on, or a leftover backup that
   is not discarded asks for it; afterwards the restore command finds it on exactly if it is on
   or the old marker is left.
   */
  lemma {:induction false} BeginIgnoresMarker(w: World, span: nat)
    requires w.wifi.Some? && Alive(BeginSession(Start(w, span)).0)
    ensures var b := BeginSession(Start(w, span)).0.world;
            && (On(b) <==> On(w) || (w.store.backupValid.Some? && !LiveDefault(w) && Truthy(w)))
            && (Recoverable(b) <==> On(b) || w.marker)
  {
    hide BeginSession, Truthy, LiveDefault;
    BeginRadio(Start(w, span));
  }

  // ------------------------------------------------------ disabling and a kill

  /**
   Disabling a radio that nothing else remembers loses it exactly when killed after the switch
   and before the record.
   */
  lemma {:induction false} LateDisableLosesRadio(n: Net)
    requires n.faults == {} && On(n.world) && !Truthy(n.world) && !n.world.marker
    ensures Recoverable(DisableWifi(n).0.world) <==> !(3 <= Left(n) <= 4)
  {
    hide DisableWifi;
    DisableOn(n);
  }

  /**
   Disabling twice overwrites the record: the radio is off, only the marker remembers it, and a
   session begun after a crash, which does not look at the marker, leaves it off.
   */
  lemma {:induction false} SecondDisableForgets(n: Net)
    requires n.faults == {} && On(n.world) && Alive(DisableWifi(DisableWifi(n).0).0)
    ensures var m := DisableWifi(DisableWifi(n).0).0;
            m.world.wifi == Some(false) && !Truthy(m.world) && m.world.marker && m.weOff
  {
    hide DisableWifi;
    DisableOn(n);
    DisableAside(DisableWifi(n).0);
    DisableOff(DisableWifi(n).0);
  }

  /** A Wi-Fi restore after that turns the radio on and clears the marker, but the record stays false. */
  lemma {:induction false} RestoreAfterTwoDisables(n: Net)
    requires n.faults == {} && On(n.world) && Alive(RestoreWifi(DisableWifi(DisableWifi(n).0).0))
    ensures var m := RestoreWifi(DisableWifi(DisableWifi(n).0).0);
            On(m.world) && !Truthy(m.world) && !m.world.marker
  {
    hide DisableWifi, RestoreWifi;
    var a := DisableWifi(n).0;
    DisableOn(n);
    DisableAside(a);
    RestoreWifiAside(DisableWifi(a).0);
    SecondDisableForgets(n);
    RestoreWifiExact(DisableWifi(a).0);
  }

  // ---------------------------------------------- every operation, every kill time

  /** How many steps a lease application takes before it turns to the radio. */
  function Lead(n: Net, op: Op): nat
    requires op.Apply?
  {
    1 + if n.open && op.gateway != "" then 3 else 0
  }

  /** The operation is killed where, or carries on until, nothing remembers the radio. */
  predicate Forgets(n: Net, op: Op) {
    !n.world.marker &&
    match op
    case Apply(_, _, _, _, prefer) =>
      var left := Left(n) - Lead(n, op);
      prefer && if On(n.world) then !Truthy(n.world) && 3 <= left <= 4 else left >= 3
    case Begin =>
      && !n.open && !On(n.world)
      && if n.world.store.backupValid.Some? then LiveDefault(n.world) && Left(n) >= 6
         else Left(n) >= 9 + Copies(n.world)
    case _ => false
  }

  lemma {:induction false} PathSteps(n: Net, op: Op)
    requires n.faults == {} && op.Apply?
    ensures var a := PublishPath(n, op.ipv4, op.dns, op.prefer);
            var b := if op.gateway != "" then PreferDefaultRoute(a, op.ifname, op.gateway).0 else a;
            b.dies == n.dies && b.faults == {} && b.open == n.open && b.dev == n.dev && b.t == At(n, Lead(n, op))
  {
    hide PutText, Text;
    var a := PublishPath(n, op.ipv4, op.dns, op.prefer);
    assert a == n.(t := At(n, 1), world := a.world);
    RouteSteps(a, op.ifname, op.gateway);
  }

  lemma {:induction false} RouteSteps(n: Net, ifname: string, gateway: string)
    requires n.faults == {}
    ensures var b := PreferDefaultRoute(n, ifname, gateway).0;
            b == n.(t := At(n, if n.open then 3 else 0), world := b.world)
  {
    hide PutText, Text;
  }

  lemma {:induction false} ApplyKeepsRadio(n: Net, op: Op)
    requires n.faults == {} && Alive(n) && n.world.wifi.Some? && Recoverable(n.world) && op.Apply?
    ensures var m := Perform(n, op);
            && m.faults == {} && m.world.wifi.Some? && (Recoverable(m.world) <==> !Forgets(n, op))
  {
    var a := PublishPath(n, op.ipv4, op.dns, op.prefer);
    var b := if op.gateway != "" then PreferDefaultRoute(a, op.ifname, op.gateway).0 else a;
    PathUntouched(n, op.ifname, op.ipv4, op.dns, op.gateway, op.prefer);
    PathSteps(n, op);
    hide DisableWifi, PublishPath, PreferDefaultRoute;
    if On(n.world) {
      DisableOn(b);
    } else {
      DisableOff(b);
    }
  }

  lemma {:induction false} RestoreKeepsRadio(n: Net)
    requires n.faults == {} && n.world.wifi.Some? && Recoverable(n.world)
    ensures var m := RestoreFromBackup(n, true); m.faults == {} && m.world.wifi.Some? && Recoverable(m.world)
  {
    hide RestoreRadioFirst, RestoreGlobals, RestoreRoutes, RemoveKeys;
    RadioFirstExact(n);
    var a := RestoreRadioFirst(n);
    var b := Tick(a);
    if !Alive(a) {
      DeadRemoval(b, 0);
    } else {
      assert On(a.world) || a.world.marker;
      RemovalUntouched(b, 0);
      if a.world.store.backupValid.Some? {
        var v := a.world.store.backupValid.value;
        GlobalsUntouched(b, v);
        var g := RestoreGlobals(b, v);
        RoutesUntouched(g);
        RemovalUntouched(RestoreRoutes(g), 0);
      }
    }
  }

  lemma {:induction false} EndKeepsRadio(n: Net)
    requires n.faults == {} && n.world.wifi.Some? && Recoverable(n.world)
    ensures var m := EndSession(n); m.faults == {} && m.world.wifi.Some? && Recoverable(m.world)
  {
    var (p, had) := Pending(n);
    assert p.world == n.world && p.faults == {};
    hide RestoreFromBackup, RestoreRadio, DropPath, Pending;
    if had {
      RestoreKeepsRadio(p);
      var r := RestoreFromBackup(p, true);
      RadioTurnedOn(r, r.dev);
      DropPathKeepsRecord(if r.weOff then RestoreRadio(r, r.dev).0 else r);
    } else {
      RadioTurnedOn(p, false);
      DropPathKeepsRecord(if p.world.marker then RestoreRadio(p, false).0 else p);
    }
  }

  lemma {:induction false} DropPathKeepsRecord(n: Net)
    ensures Untouched(n, DropPath(n)) && DropPath(n).world.store.backupWifi == n.world.store.backupWifi
  {
    hide Do;
    DoUntouched(n, Unpublish);
    DoUntouched(Do(n, Unpublish), RemoveService);
  }

  /** The leftovers are dealt with; the radio is forgotten only by discarding a record that alone remembers it. */
  lemma {:induction false} ClearKeepsRadio(n: Net)
    requires n.faults == {} && Alive(n) && n.world.wifi.Some? && Recoverable(n.world)
    ensures var d := ClearLeftover(n); var w := n.world;
            && d.faults == {} && d.world.wifi.Some? && d.dies == n.dies
            && (if w.store.backupValid.None? then d == n.(t := At(n, 2))
                else if LiveDefault(w) then
                  && d.world.wifi == w.wifi && d.world.marker == w.marker
                  && (Truthy(d.world) <==> Truthy(w) && Left(n) < 6)
                  && (Alive(d) ==> Left(n) >= 6)
                else Recoverable(d.world) && (Alive(d) ==> On(d.world) || d.world.marker))
  {
    hide RestoreFromBackup, DropPath, RemoveBackupKeys, LiveDefault;
    var b := Tick(Tick(n));
    if Works(Tick(n)) && n.world.store.backupValid.Some? {
      if LiveDefault(n.world) {
        RemovalPoints(b);
        RemovalUntouchedAll(b);
      } else {
        RestoreKeepsRadio(b);
        RestoreRadioPower(b);
        var r := RestoreFromBackup(b, true);
        RestoreYields(b);
        DropPathKeepsRecord(r);
      }
    }
  }

  lemma {:induction false} BeginKeepsRadio(n: Net)
    requires n.faults == {} && Alive(n) && n.world.wifi.Some? && Recoverable(n.world)
    ensures var m := BeginSession(n).0;
            && m.faults == {} && m.world.wifi.Some? && (Recoverable(m.world) <==> !Forgets(n, Begin))
  {
    if n.open {
      OpenBegin(n);
    } else {
      ClearKeepsRadio(n);
      var d := ClearLeftover(n);
      SnapshotRecords(d);
      SnapshotSteps(d);
      hide ClearLeftover, TakeSnapshot, LiveDefault;
      assert Copies(d.world) <= 2;
    }
  }

  /**
   Every operation, every live state and every kill time: if something remembers the radio before,
   then something does after, exactly unless the operation forgets it.
   */
  lemma {:induction false} OperationKeepsRadio(n: Net, op: Op)
    requires n.faults == {} && Alive(n) && n.world.wifi.Some? && Recoverable(n.world)
    ensures var m := Perform(n, op);
            && m.faults == {} && m.world.wifi.Some? && (Recoverable(m.world) <==> !Forgets(n, op))
  {
    hide BeginSession, ApplyLease, RestoreWifi, EndSession;
    match op
    case Begin => BeginKeepsRadio(n);
    case Apply(_, _, _, _, _) => ApplyKeepsRadio(n, op);
    case DropRoute6 => DoUntouched(n, Delete6);
    case Wifi =>
      RestoreWifiExact(n);
    case End => EndKeepsRadio(n);
  }

  // ------------------------------------------------------------ whole lives

  /** No operation of this life forgets the radio. */
  predicate Remembers(n: Net, ops: seq<Op>)
    decreases |ops|
  {
    ops != [] && Alive(n) ==> !Forgets(n, ops[0]) && Remembers(Perform(n, ops[0]), ops[1..])
  }

  // A process that has switched the radio off has left the marker, and a radio that nothing remembers
  // stays forgotten: that is what makes the statements below go both ways.

  predicate Marked(n: Net) {
    n.faults == {} && n.world.wifi.Some? && (Alive(n) && n.weOff ==> n.world.marker)
  }

  predicate Forgotten(n: Net) {
    n.faults == {} && n.world.wifi.Some? && !Recoverable(n.world) && !n.weOff
  }

  /** A step that leaves the radio, the marker and the process's flag alone. */
  lemma {:induction false} UntouchedKeeps(n: Net, m: Net)
    requires Untouched(n, m)
    ensures Marked(n) ==> Marked(m)
    ensures Forgotten(n) ==> Forgotten(m)
  {
  }

  lemma {:induction false} ApplyRemembered(n: Net, op: Op)
    requires op.Apply?
    ensures Marked(n) ==> Marked(Perform(n, op))
    ensures Forgotten(n) ==> Forgotten(Perform(n, op))
  {
    var a := PublishPath(n, op.ipv4, op.dns, op.prefer);
    var b := if op.gateway != "" then PreferDefaultRoute(a, op.ifname, op.gateway).0 else a;
    PathUntouched(n, op.ifname, op.ipv4, op.dns, op.gateway, op.prefer);
    hide DisableWifi, PublishPath, PreferDefaultRoute;
    if n.faults == {} && n.world.wifi.Some? {
      if On(n.world) {
        DisableOn(b);
      } else {
        DisableOff(b);
      }
    }
  }

  /** Nothing asks for the radio, so the restores only take their readings. */
  lemma {:induction false} NothingAsked(n: Net)
    requires Forgotten(n)
    ensures RestoreWifi(n) == Tick(n) && RestoreRadioFirst(n) == Tick(n)
  {
    hide RestoreRadio;
  }

  lemma {:induction false} RestoreRemembered(n: Net)
    ensures Marked(n) ==> Marked(RestoreFromBackup(n, true))
    ensures Forgotten(n) ==> Forgotten(RestoreFromBackup(n, true))
  {
    hide RestoreRadioFirst, RestoreGlobals, RestoreRoutes, RemoveKeys;
    if Marked(n) {
      RestoreRadioPower(n);
    }
    if Forgotten(n) {
      NothingAsked(n);
      var b := Tick(Tick(n));
      assert Forgotten(b);
      RemovalUntouched(b, 0);
      if n.world.store.backupValid.Some? {
        var v := n.world.store.backupValid.value;
        GlobalsUntouched(b, v);
        RoutesUntouched(RestoreGlobals(b, v));
        RemovalUntouched(RestoreRoutes(RestoreGlobals(b, v)), 0);
      }
    }
  }

  lemma {:induction false} EndRemembered(n: Net)
    ensures Marked(n) ==> Marked(EndSession(n))
    ensures Forgotten(n) ==> Forgotten(EndSession(n))
  {
    var (p, had) := Pending(n);
    assert Untouched(n, p);
    UntouchedKeeps(n, p);
    hide RestoreFromBackup, RestoreRadio, DropPath, Pending;
    if n.faults == {} {
      RestoreRemembered(p);
      var r := RestoreFromBackup(p, true);
      DropPathUntouched(r);
      DropPathUntouched(p);
      if Marked(n) {
        RadioTurnedOn(r, r.dev);
        RadioTurnedOn(p, false);
        DropPathUntouched(RestoreRadio(r, r.dev).0);
        DropPathUntouched(RestoreRadio(p, false).0);
      }
    }
  }

  lemma {:induction false} LeftoverRemembered(n: Net)
    ensures Marked(n) ==> Marked(ClearLeftover(n))
    ensures Forgotten(n) ==> Forgotten(ClearLeftover(n))
  {
    hide RestoreFromBackup, DropPath, RemoveBackupKeys, LiveDefault;
    var b := Tick(Tick(n));
    assert Untouched(n, b);
    UntouchedKeeps(n, b);
    RemovalUntouchedAll(b);
    RestoreRemembered(b);
    DropPathUntouched(RestoreFromBackup(b, true));
    hide Marked, Forgotten, Untouched;
    UntouchedKeeps(b, RemoveBackupKeys(b));
    UntouchedKeeps(RestoreFromBackup(b, true), DropPath(RestoreFromBackup(b, true)));
  }

  lemma {:induction false} SnapshotRemembered(n: Net)
    ensures Marked(n) ==> Marked(TakeSnapshot(n).0)
    ensures Forgotten(n) ==> Forgotten(TakeSnapshot(n).0)
  {
    if n.faults == {} && n.world.wifi.Some? {
      SnapshotRecords(n);
      SnapshotSteps(n);
    }
    hide TakeSnapshot, Copies;
  }

  /** Every operation, every kill time: a marked switch-off stays marked, a forgotten radio stays forgotten. */
  lemma {:induction false} StepRemembered(n: Net, op: Op)
    ensures Marked(n) ==> Marked(Perform(n, op))
    ensures Forgotten(n) ==> Forgotten(Perform(n, op))
  {
    hide ClearLeftover, TakeSnapshot, ApplyLease, RestoreWifi, EndSession;
    match op
    case Begin =>
      LeftoverRemembered(n);
      SnapshotRemembered(ClearLeftover(n));
      OpenKept(n);
    case Apply(_, _, _, _, _) => ApplyRemembered(n, op);
    case DropRoute6 =>
      DoUntouched(n, Delete6);
      UntouchedKeeps(n, Do(n, Delete6));
    case Wifi =>
      if Marked(n) {
        RestoreWifiExact(n);
      }
      if Forgotten(n) {
        NothingAsked(n);
      }
    case End => EndRemembered(n);
  }

  /** Opening the session changes neither. */
  lemma {:induction false} OpenKept(n: Net)
    ensures var m := TakeSnapshot(ClearLeftover(n)).0;
            (Marked(m) ==> Marked(m.(open := true))) && (Forgotten(m) ==> Forgotten(m.(open := true)))
  {
  }

  lemma {:induction false} LifeForgotten(n: Net, ops: seq<Op>)
    requires Forgotten(n)
    ensures Forgotten(Live(n, ops))
    decreases |ops|
  {
    if ops != [] && Alive(n) {
      hide Forgotten, Perform;
      StepRemembered(n, ops[0]);
      LifeForgotten(Perform(n, ops[0]), ops[1..]);
    }
  }

  /** A life keeps the radio remembered exactly if none of its operations forgets it. */
  lemma {:induction false} LifeKeepsRadio(n: Net, ops: seq<Op>)
    requires Marked(n) && Recoverable(n.world)
    ensures Live(n, ops).world.wifi.Some? && (Recoverable(Live(n, ops).world) <==> Remembers(n, ops))
    decreases |ops|
  {
    if ops != [] && Alive(n) {
      hide Perform, Forgets, Recoverable;
      var m := Perform(n, ops[0]);
      OperationKeepsRadio(n, ops[0]);
      StepRemembered(n, ops[0]);
      if !Forgets(n, ops[0]) {
        LifeKeepsRadio(m, ops[1..]);
      } else if Alive(m) {
        ForgottenFrom(m);
        LifeForgotten(m, ops[1..]);
      }
    }
  }

  lemma {:induction false} ForgottenFrom(n: Net)
    requires Marked(n) && !Recoverable(n.world) && Alive(n)
    ensures Forgotten(n)
  {
  }

  predicate AllRemember(w: World, ls: seq<Life>)
    decreases |ls|
  {
    ls != [] ==> Remembers(Start(w, ls[0].span), ls[0].ops) && AllRemember(AfterLife(w, ls[0]), ls[1..])
  }

  lemma {:induction false} LivesForgotten(w: World, ls: seq<Life>)
    requires w.wifi.Some? && !Recoverable(w)
    ensures AfterLives(w, ls).wifi.Some? && !Recoverable(AfterLives(w, ls))
    decreases |ls|
  {
    if ls != [] {
      hide Live;
      LifeForgotten(Start(w, ls[0].span), ls[0].ops);
      LivesForgotten(AfterLife(w, ls[0]), ls[1..]);
    }
  }

  lemma {:induction false} LivesKeepRadio(w: World, ls: seq<Life>)
    requires w.wifi.Some? && Recoverable(w)
    ensures AfterLives(w, ls).wifi.Some? && (Recoverable(AfterLives(w, ls)) <==> AllRemember(w, ls))
    decreases |ls|
  {
    if ls != [] {
      hide Live, Remembers, InterfaceOf;
      LifeKeepsRadio(Start(w, ls[0].span), ls[0].ops);
      var v := AfterLife(w, ls[0]);
      if Recoverable(v) {
        LivesKeepRadio(v, ls[1..]);
      } else {
        LivesForgotten(v, ls[1..]);
      }
    }
  }

  /**
   Any number of lives, each doing anything whatever and killed at any step, from any world in which
   something remembers the radio: a completed restore command has it on exactly if no operation of
   any life forgot it.
   */
  lemma {:induction false} CrashesKeepRadio(w: World, ls: seq<Life>, span: nat)
    requires w.wifi.Some? && Recoverable(w)
    requires Alive(RestoreCommand(Start(AfterLives(w, ls), span)))
    ensures On(RestoreCommand(Start(AfterLives(w, ls), span)).world) <==> AllRemember(w, ls)
  {
    hide RestoreCommand, AfterLives, AllRemember, Recoverable;
    LivesKeepRadio(w, ls);
    RestoreCommandPower(AfterLives(w, ls), span);
  }

  // ------------------------------------------------------ one killed life

  /**
   A process that starts where something remembers the radio, does anything whatever and is killed at
   any step: a completed restore command has the radio on exactly if no operation forgot it.
   */
  lemma {:induction false} KilledSessionRestoresRadio(w: World, span: nat, ops: seq<Op>, later: nat)
    requires w.wifi.Some? && Recoverable(w)
    ensures var r := RestoreCommand(Start(Live(Start(w, span), ops).world, later));
            Alive(r) ==> (On(r.world) <==> Remembers(Start(w, span), ops))
  {
    LifeKeepsRadio(Start(w, span), ops);
    hide RestoreCommand, Live, Recoverable, Remembers;
    var left := Live(Start(w, span), ops).world;
    if Alive(RestoreCommand(Start(left, later))) {
      RestoreCommandPower(left, later);
    }
  }

  /** A session that found the radio on and contains no Wi-Fi restore never forgets it. */
  lemma {:induction false} WithoutRestoreRemembers(w: World, span: nat, ops: seq<Op>)
    requires On(w) && forall k :: 0 <= k < |ops| ==> ops[k].Apply? || ops[k].DropRoute6?
    ensures Remembers(Start(w, span), [Begin] + ops)
  {
    var s := Start(w, span);
    assert ([Begin] + ops)[1..] == ops;
    if Alive(s) {
      FoundOn(w);
      BeginRadio(s);
      BeginKeepsRadio(s);
      hide BeginSession, FoundPower, Remembers;
      ShieldedRemembers(BeginSession(s).0, ops);
      assert Perform(s, Begin) == BeginSession(s).0;
      RememberStep(s, Begin, ops);
    }
  }

  lemma {:induction false} RememberStep(n: Net, op: Op, rest: seq<Op>)
    requires Alive(n)
    ensures Remembers(n, [op] + rest) <==> !Forgets(n, op) && Remembers(Perform(n, op), rest)
  {
    hide Perform, Forgets;
    assert ([op] + rest)[1..] == rest;
  }

  lemma {:induction false} FoundOn(w: World)
    requires On(w)
    ensures FoundPower(w) == Some(true)
  {
    hide LiveDefault, Truthy;
  }

  /** While the process lives the marker is there, or a record of a radio still on. */
  predicate Shielded(n: Net) {
    n.faults == {} && n.world.wifi.Some? && (Alive(n) ==> n.world.marker || (On(n.world) && Truthy(n.world)))
  }

  lemma {:induction false} StepShielded(n: Net, op: Op)
    requires Shielded(n) && Alive(n) && (op.Apply? || op.DropRoute6?)
    ensures Shielded(Perform(n, op)) && !Forgets(n, op)
  {
    hide DisableWifi, PublishPath, PreferDefaultRoute;
    match op
    case Apply(ifname, ipv4, dns, gateway, prefer) =>
      var a := PublishPath(n, ipv4, dns, prefer);
      var b := if gateway != "" then PreferDefaultRoute(a, ifname, gateway).0 else a;
      PathUntouched(n, ifname, ipv4, dns, gateway, prefer);
      PathSteps(n, op);
      if On(n.world) {
        DisableOn(b);
      } else {
        DisableOff(b);
      }
    case DropRoute6 => DoUntouched(n, Delete6);
  }

  lemma {:induction false} ShieldedRemembers(n: Net, ops: seq<Op>)
    requires Shielded(n) && forall k :: 0 <= k < |ops| ==> ops[k].Apply? || ops[k].DropRoute6?
    ensures Remembers(n, ops)
    decreases |ops|
  {
    if ops != [] && Alive(n) {
      hide Shielded, Perform, Forgets;
      StepShielded(n, ops[0]);
      ShieldedRemembers(Perform(n, ops[0]), ops[1..]);
    }
  }

  // ------------------------------------------------------ a run that loses it

  lemma {:induction false} BeginSteps(w: World, span: nat)
    requires On(w) && w.store.backupValid.None? && span > 0
    ensures var n := BeginSession(Start(w, span)).0;
            && n.faults == {} && n.dies == span && n.t == At(Start(w, span), 10 + Copies(w))
            && (Alive(n) ==> n.open && n.dev && On(n.world) && Truthy(n.world))
  {
    var s := Start(w, span);
    ClearKeepsRadio(s);
    var d := ClearLeftover(s);
    SnapshotRecords(d);
    SnapshotSteps(d);
    BeginFinds(s);
    hide TakeSnapshot, ClearLeftover, Copies, Found, Guarded;
  }

  lemma {:induction false} ApplySteps(n: Net, op: Op)
    requires n.faults == {} && Alive(n) && n.open && n.world.wifi.Some? && op.Apply? && op.prefer
    ensures var m := Perform(n, op); var on := On(n.world);
            && m.faults == {} && m.dies == n.dies && m.t == At(n, Lead(n, op) + if on then 6 else 3)
            && (Alive(m) ==>
                  && m.open && m.world.wifi == Some(false)
                  && m.world.marker == (on || n.world.marker) && m.weOff == (on || n.weOff)
                  && m.world.store.backupWifi == Some(Radio(true, on, on)))
  {
    var a := PublishPath(n, op.ipv4, op.dns, op.prefer);
    var b := if op.gateway != "" then PreferDefaultRoute(a, op.ifname, op.gateway).0 else a;
    PathUntouched(n, op.ifname, op.ipv4, op.dns, op.gateway, op.prefer);
    PathSteps(n, op);
    hide DisableWifi, PublishPath, PreferDefaultRoute, Lead;
    if On(n.world) {
      DisableOn(b);
    } else {
      OffOtherwise(n.world);
      DisableOff(b);
    }
  }

  lemma {:induction false} RestoreSteps(n: Net)
    requires n.faults == {} && Alive(n) && n.world.wifi.Some? && n.weOff
    requires n.world.store.backupWifi == Some(Radio(true, false, false))
    ensures var m := RestoreWifi(n);
            && m.faults == {} && m.dies == n.dies && m.t == At(n, 4)
            && (Alive(m) ==> m.open == n.open && On(m.world) && !m.world.marker && !Truthy(m.world))
  {
    RestoreWifiExact(n);
    RestoreWifiAside(n);
    var a := Tick(n);
    PowerSwitched(a, true, 4);
    var (q, ok) := PowerVerified(a, true, 4);
    var c := Do(q.(weOff := false), ClearMarker);
    assert RestoreRadio(a, true) == if ok then (c, true) else (q, false);
    assert RestoreRadioFromBackup(n) == RestoreRadio(a, true).0;
    assert c.t == At(q, 1);
    hide PowerVerified, Do;
    if !ok {
      assert !Alive(q);
      DeadRadio(q, q.dev);
    } else if !Alive(c) {
      DeadRadio(c, c.dev);
    }
  }

  lemma {:induction false} DeadRadio(n: Net, named: bool)
    requires !Alive(n)
    ensures RestoreRadio(n, named).0.t == n.t
  {
    DeadSwitch(n, true, 4);
    hide PowerVerified;
  }

  /**
   The failing run, for any world in which the radio is on and nothing is left over: two lease
   applications, the stop sequence's first restore and a late third application lose the radio
   exactly when the kill comes right after the third application's switch or its confirmation.
   */
  lemma {:induction false} LateApplyLosesRadio(w: World, span: nat, a: Op)
    requires On(w) && w.store.backupValid.None? && a.Apply? && a.prefer
    ensures var lead := if a.gateway != "" then 4 else 1;
            var late := 23 + Copies(w) + 3 * lead;
            Recoverable(Live(Start(w, span), [Begin, a, a, Wifi, a]).world) <==> !(3 <= span - late <= 4)
  {
    var s := Start(w, span);
    LifeKeepsRadio(s, [Begin, a, a, Wifi, a]);
    hide Live, Recoverable, Remembers, Copies;
    if span > 0 {
      BeginSteps(w, span);
      var n1 := Perform(s, Begin);
      assert n1 == BeginSession(s).0 && !Forgets(s, Begin);
      RememberStep(s, Begin, [a, a, Wifi, a]);
      assert [Begin] + [a, a, Wifi, a] == [Begin, a, a, Wifi, a];
      hide BeginSession;
      if !Alive(n1) {
        DeadRemembers(n1, [a, a, Wifi, a]);
      } else {
        LateRun(n1, a);
      }
    } else {
      DeadRemembers(s, [Begin, a, a, Wifi, a]);
    }
  }

  lemma {:induction false} DeadRemembers(n: Net, ops: seq<Op>)
    requires !Alive(n)
    ensures Remembers(n, ops)
  {
  }

  lemma {:induction false} LateRun(n: Net, a: Op)
    requires n.faults == {} && Alive(n) && n.open && On(n.world) && Truthy(n.world) && a.Apply? && a.prefer
    ensures Remembers(n, [a, a, Wifi, a]) <==> !(3 <= Left(n) - 13 - 3 * Lead(n, a) <= 4)
  {
    hide Remembers, Perform, Truthy;
    var lead := Lead(n, a);
    RememberStep(n, a, [a, Wifi, a]);
    assert [a] + [a, Wifi, a] == [a, a, Wifi, a];
    ApplySteps(n, a);
    var n2 := Perform(n, a);
    if !Alive(n2) {
      DeadRemembers(n2, [a, Wifi, a]);
    } else {
      RememberStep(n2, a, [Wifi, a]);
      assert [a] + [Wifi, a] == [a, Wifi, a];
      ApplySteps(n2, a);
      var n3 := Perform(n2, a);
      if !Alive(n3) {
        DeadRemembers(n3, [Wifi, a]);
      } else {
        RememberStep(n3, Wifi, [a]);
        assert [Wifi] + [a] == [Wifi, a];
        WifiPerformed(n3);
        RestoreSteps(n3);
        var n4 := RestoreWifi(n3);
        if !Alive(n4) {
          DeadRemembers(n4, [a]);
        } else {
          RememberStep(n4, a, []);
          assert [a] + [] == [a];
          NothingRemembers(Perform(n4, a));
        }
      }
    }
  }

  lemma {:induction false} WifiPerformed(n: Net)
    ensures Perform(n, Wifi) == RestoreWifi(n)
  {
  }

  lemma {:induction false} NothingRemembers(n: Net)
    ensures Remembers(n, [])
  {
  }

  /** A machine with the radio on and nothing else configured, and a lease taken as the default connection. */
  const PLAIN: World :=
    World(Store(None, None, None, None, None, None, None, false), NoDefault, NoDefault, map[], Some(true), false)
  const LEASE: Op := Apply("utun9", "192.168.42.5", "192.168.42.1", "", true)

  /** One failing run in full, killed at its thirtieth step. */
  lemma {:induction false} LostRadio()
    ensures On(PLAIN) && !Recoverable(Live(Start(PLAIN, 29), [Begin, LEASE, LEASE, Wifi, LEASE]).world)
  {
    PlainWorld();
    hide Live, Recoverable, Copies, On;
    LateApplyLosesRadio(PLAIN, 29, LEASE);
  }

  lemma {:induction false} PlainWorld()
    ensures On(PLAIN) && PLAIN.store.backupValid.None? && Copies(PLAIN) == 0
    ensures LEASE.Apply? && LEASE.prefer && LEASE.gateway == ""
  {
  }
}
