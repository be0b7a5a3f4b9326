/**
 The stop sequence's first Wi-Fi restore runs on the main thread while the maintenance thread
 may still be switching the radio off for a late lease. Here the two interleave command by
 command, sharing the radio, the record, the marker and the process's flag without a lock.
 */
module NetRace {
  import opened Bytes
  import opened NetConfig
  import opened NetRecovery
  import opened NetRadio
  import NetRadioCrash

  /** Where the main thread is in its restore; `second` tells the restore by record from the one by flag or marker. */
  datatype Main =
    | ReadRecord
    | Decide(truthy: bool)             // about to look at the flag
    | SwitchOn(second: bool, attempt: nat)
    | CheckOn(second: bool, attempt: nat)
    | LastOn(second: bool)
    | ClearFlag(second: bool)
    | EraseMarker(second: bool)
    | LookAgain                        // about to look at the flag and the marker
    | Restored

  /** Where the maintenance thread is in switching the radio off. */
  datatype Maint =
    | ReadPower
    | RecordOff                        // found it off already
    | SwitchOff(attempt: nat)
    | CheckOff(attempt: nat)
    | LastOff
    | SetFlag
    | RecordTurnedOff
    | LeaveMarker
    | Finished(found: bool, switched: bool)  // it found the radio off; it switched it off

  datatype Race = Race(on: bool, marker: bool, weOff: bool, record: Option<Radio>, main: Main, maint: Maint)

  predicate Asks(record: Option<Radio>) {
    record.Some? && (record.value.wasOn || record.value.turnedOff)
  }

  function StepMain(s: Race): Race {
    match s.main
    case ReadRecord => s.(main := Decide(Asks(s.record)))
    case Decide(truthy) => s.(main := if s.weOff || truthy then SwitchOn(false, 0) else LookAgain)
    case SwitchOn(second, k) => s.(on := true, main := CheckOn(second, k))
    case CheckOn(second, k) =>
      s.(main := if s.on then ClearFlag(second) else if k < 3 then SwitchOn(second, k + 1) else LastOn(second))
    case LastOn(second) =>
      s.(main := if s.on then ClearFlag(second) else if second then Restored else LookAgain)
    case ClearFlag(second) => s.(weOff := false, main := EraseMarker(second))
    case EraseMarker(second) => s.(marker := false, main := if second then Restored else LookAgain)
    case LookAgain => s.(main := if s.weOff || s.marker then SwitchOn(true, 0) else Restored)
    case Restored => s
  }

  function StepMaint(s: Race): Race {
    match s.maint
    case ReadPower => s.(maint := if s.on then SwitchOff(0) else RecordOff)
    case RecordOff => s.(record := Some(Radio(true, false, false)), maint := Finished(true, false))
    case SwitchOff(k) => s.(on := false, maint := CheckOff(k))
    case CheckOff(k) => s.(maint := if !s.on then SetFlag else if k < 3 then SwitchOff(k + 1) else LastOff)
    case LastOff => s.(maint := if !s.on then SetFlag else Finished(false, false))
    case SetFlag => s.(weOff := true, maint := RecordTurnedOff)
    case RecordTurnedOff => s.(record := Some(Radio(true, true, true)), maint := LeaveMarker)
    case LeaveMarker => s.(marker := true, maint := Finished(false, true))
    case Finished(_, _) => s
  }

  /** Any interleaving: true for a step of the main thread. */
  function Interleave(s: Race, turns: seq<bool>): Race
    decreases |turns|
  {
    if turns == [] then s else Interleave(if turns[0] then StepMain(s) else StepMaint(s), turns[1..])
  }

  /** The two threads at their starts, over the state n of a running session. */
  function Together(n: Net): Race {
    Race(On(n.world), n.world.marker, n.weOff, n.world.store.backupWifi, ReadRecord, ReadPower)
  }

  /** The session's state when both are done. */
  function Joined(n: Net, s: Race): Net {
    n.(weOff := s.weOff,
       world := n.world.(wifi := Some(s.on), marker := s.marker,
                         store := n.world.store.(backupWifi := s.record)))
  }

  // ------------------------------------------------- each thread by itself

  function Alone(s: Race, turn: bool, k: nat): Race {
    Interleave(s, seq(k, _ => turn))
  }

  lemma {:induction false} AloneStep(s: Race, turn: bool, k: nat)
    requires k > 0
    ensures Alone(s, turn, k) == Alone(if turn then StepMain(s) else StepMaint(s), turn, k - 1)
  {
    assert seq(k, _ => turn)[1..] == seq(k - 1, _ => turn);
  }

  lemma {:induction false} AloneNone(s: Race, turn: bool)
    ensures Alone(s, turn, 0) == s
  {
  }

  function MainSteps(s: Race, k: nat): Race
    decreases k
  {
    if k == 0 then s else MainSteps(StepMain(s), k - 1)
  }

  function MaintSteps(s: Race, k: nat): Race
    decreases k
  {
    if k == 0 then s else MaintSteps(StepMaint(s), k - 1)
  }

  lemma {:induction false} AloneSteps(s: Race, k: nat)
    ensures Alone(s, true, k) == MainSteps(s, k) && Alone(s, false, k) == MaintSteps(s, k)
    decreases k
  {
    hide StepMain, StepMaint, Alone;
    if k == 0 {
      AloneNone(s, true);
      AloneNone(s, false);
    } else {
      AloneStep(s, true, k);
      AloneStep(s, false, k);
      AloneSteps(StepMain(s), k - 1);
      AloneSteps(StepMaint(s), k - 1);
    }
  }

  /** The shared radio, marker, flag and record are as the operation that led to m left them. */
  predicate SameRadio(s: Race, m: Net) {
    s.on == On(m.world) && s.marker == m.world.marker && s.weOff == m.weOff && s.record == m.world.store.backupWifi
  }

  /** The main thread by itself is a Wi-Fi restore: within seven commands it leaves what the restore leaves. */
  lemma {:induction false} MainIsRestore(n: Net)
    requires n.faults == {} && n.world.wifi.Some? && Alive(RestoreWifi(n))
    ensures var s := Alone(Together(n), true, 7);
            s.main.Restored? && s.maint.ReadPower? && SameRadio(s, RestoreWifi(n))
  {
    RestoreWifiExact(n);
    AloneSteps(Together(n), 7);
    MainRun(Together(n));
    hide RestoreWifi, Alone, MainSteps;
  }

  lemma {:induction false} MainRun(s: Race)
    requires s.main.ReadRecord?
    ensures MainSteps(s, 7) == s.(main := Restored, on := s.on || s.weOff || s.marker || Asks(s.record),
                                  weOff := false, marker := false)
  {
    var r := StepMain(StepMain(s));
    SwitchRun(s.(main := SwitchOn(false, 0)));
    SwitchRun(s.(main := SwitchOn(true, 0)));
    assert MainSteps(s, 7) == MainSteps(StepMain(s), 6) == MainSteps(r, 5);
    if s.weOff || Asks(s.record) {
      assert r == s.(main := SwitchOn(false, 0));
      FourMore(r, 1);
    } else {
      assert r == s.(main := LookAgain);
      FourMore(StepMain(r), 0);
    }
  }

  lemma {:induction false} FourMore(s: Race, k: nat)
    ensures MainSteps(s, k + 4) == MainSteps(StepMain(StepMain(StepMain(StepMain(s)))), k)
  {
    hide StepMain;
    var t := StepMain(StepMain(s));
    assert MainSteps(s, k + 4) == MainSteps(StepMain(s), k + 3) == MainSteps(t, k + 2);
    assert MainSteps(t, k + 2) == MainSteps(StepMain(t), k + 1) == MainSteps(StepMain(StepMain(t)), k);
  }

  lemma {:induction false} SwitchRun(s: Race)
    requires s.main.SwitchOn?
    ensures StepMain(StepMain(StepMain(StepMain(s)))) ==
            s.(main := if s.main.second then Restored else LookAgain, on := true, weOff := false, marker := false)
  {
  }

  /** The maintenance thread by itself is a Wi-Fi disable, of six commands or two. */
  lemma {:induction false} MaintIsDisable(n: Net)
    requires n.faults == {} && n.world.wifi.Some? && Alive(DisableWifi(n).0)
    ensures var s := Alone(Together(n), false, 6);
            s.maint == Finished(!On(n.world), On(n.world)) && s.main.ReadRecord? && SameRadio(s, DisableWifi(n).0)
  {
    if On(n.world) {
      DisableOn(n);
    } else {
      OffOtherwise(n.world);
      DisableOff(n);
    }
    AloneSteps(Together(n), 6);
    MaintRun(Together(n));
    hide DisableWifi, Alone, MaintSteps;
  }

  lemma {:induction false} MaintRun(s: Race)
    requires s.maint.ReadPower?
    ensures MaintSteps(s, 6) ==
            if s.on then s.(maint := Finished(false, true), on := false, weOff := true,
                            record := Some(Radio(true, true, true)), marker := true)
            else s.(maint := Finished(true, false), record := Some(Radio(true, false, false)))
  {
    var t := StepMaint(StepMaint(s));
    var u := StepMaint(StepMaint(t));
    assert MaintSteps(s, 6) == MaintSteps(StepMaint(s), 5) == MaintSteps(t, 4);
    assert MaintSteps(t, 4) == MaintSteps(StepMaint(t), 3) == MaintSteps(u, 2);
    assert MaintSteps(u, 2) == MaintSteps(StepMaint(u), 1) == MaintSteps(StepMaint(StepMaint(u)), 0);
  }

  // ---------------------------------------------- whatever the interleaving

  /** The main thread has yet to switch the radio on, and will. */
  predicate WillSwitch(s: Race) {
    s.main.ReadRecord? || s.main.Decide? || (s.main.SwitchOn? && !s.main.second && s.main.attempt == 0)
  }

  /** At every point, by the place of the maintenance thread. */
  predicate Kept(s: Race) {
    match s.maint
    case ReadPower => s.on || (s.weOff && WillSwitch(s))
    case RecordOff => s.on || (s.weOff && WillSwitch(s))
    case Finished(found, switched) =>
      if found then s.on || (s.weOff && WillSwitch(s)) else if switched then Asks(s.record) else s.on
    case LeaveMarker => Asks(s.record)
    case _ => true
  }

  lemma {:induction false} StepKeeps(s: Race, turn: bool)
    requires Kept(s)
    ensures Kept(if turn then StepMain(s) else StepMaint(s))
  {
  }

  lemma {:induction false} InterleaveKeeps(s: Race, turns: seq<bool>)
    requires Kept(s)
    ensures Kept(Interleave(s, turns))
    decreases |turns|
  {
    hide Kept, StepMain, StepMaint;
    if turns != [] {
      StepKeeps(s, turns[0]);
      InterleaveKeeps(if turns[0] then StepMain(s) else StepMaint(s), turns[1..]);
    }
  }

  /**
   A session that found the radio on: whatever the interleaving of the restore with a late
   switch-off, once both have run, the end of the session has the radio on.
   */
  lemma {:induction false} StopRaceKeepsRadio(n: Net, turns: seq<bool>)
    requires Tracked(Some(true), n) && n.open
    requires var s := Interleave(Together(n), turns); s.main.Restored? && s.maint.Finished?
    ensures var m := EndSession(Joined(n, Interleave(Together(n), turns)));
            Alive(m) ==> m.world.wifi == Some(true)
  {
    var s := Interleave(Together(n), turns);
    InterleaveKeeps(Together(n), turns);
    assert s.on || Asks(s.record);
    hide Interleave, Kept;
    EndTurnsOn(Joined(n, s));
  }

  /** Nothing that would turn the radio on, and nobody about to switch it. */
  predicate Idle(s: Race) {
    && !s.on && !s.weOff && !s.marker && !Asks(s.record)
    && (s.main.ReadRecord? || s.main == Decide(false) || s.main.LookAgain? || s.main.Restored?)
    && (s.maint.ReadPower? || s.maint.RecordOff? || s.maint.Finished?)
  }

  lemma {:induction false} InterleaveIdle(s: Race, turns: seq<bool>)
    requires Idle(s)
    ensures Idle(Interleave(s, turns))
    decreases |turns|
  {
    if turns != [] {
      InterleaveIdle(if turns[0] then StepMain(s) else StepMaint(s), turns[1..]);
    }
  }

  /** And one that found it off, without an old marker, has it off. */
  lemma {:induction false} StopRaceKeepsRadioOff(n: Net, turns: seq<bool>)
    requires Tracked(Some(false), n) && !n.world.marker && n.open
    ensures var m := EndSession(Joined(n, Interleave(Together(n), turns)));
            Alive(m) ==> m.world.wifi == Some(false)
  {
    InterleaveIdle(Together(n), turns);
    var j := Joined(n, Interleave(Together(n), turns));
    hide Interleave, EndSession;
    if Alive(EndSession(j)) {
      EndTracked(Some(false), j);
    }
  }

  lemma {:induction false} EndTurnsOn(n: Net)
    requires n.faults == {} && n.open && n.world.wifi.Some? && (On(n.world) || Truthy(n.world))
    ensures Alive(EndSession(n)) ==> EndSession(n).world.wifi == Some(true)
  {
    hide RestoreFromBackup, RestoreRadio, DropPath, Truthy;
    assert Pending(n) == (n, true);
    RestoreRadioPower(n);
    var r := RestoreFromBackup(n, true);
    RadioTurnedOn(r, r.dev);
    DropPathUntouched(if r.weOff then RestoreRadio(r, r.dev).0 else r);
  }

  // ------------------------------------------------------ killed in between

  /** The maintenance thread has switched the radio off, or tried to, and not yet recorded it. */
  predicate Unrecorded(m: Maint) {
    (m.SwitchOff? && m.attempt > 0) || m.CheckOff? || m.LastOff? || m.SetFlag? || m.RecordTurnedOff?
  }

  /** Until the maintenance thread switches, a radio that was on stays on, and the marker goes only once it is. */
  predicate Secured(s: Race) {
    (s.on || s.marker) && (s.main.ClearFlag? || s.main.EraseMarker? ==> s.on)
  }

  predicate KillInv(asked: bool, s: Race) {
    match s.maint
    case ReadPower => Asks(s.record) == asked && Secured(s)
    case RecordOff => Secured(s)
    case SwitchOff(k) => Asks(s.record) == asked && (k == 0 ==> s.on)
    case LeaveMarker => Asks(s.record)
    case Finished(found, switched) => if found then Secured(s) else if switched then Asks(s.record) else s.on
    case _ => Asks(s.record) == asked
  }

  lemma {:induction false} StepKeepsKillInv(asked: bool, s: Race, turn: bool)
    requires KillInv(asked, s)
    ensures KillInv(asked, if turn then StepMain(s) else StepMaint(s))
  {
  }

  lemma {:induction false} InterleaveKeepsKillInv(asked: bool, s: Race, turns: seq<bool>)
    requires KillInv(asked, s)
    ensures KillInv(asked, Interleave(s, turns))
    decreases |turns|
  {
    hide KillInv, StepMain, StepMaint;
    if turns != [] {
      StepKeepsKillInv(asked, s, turns[0]);
      InterleaveKeepsKillInv(asked, if turns[0] then StepMain(s) else StepMaint(s), turns[1..]);
    }
  }

  lemma {:induction false} KilledPoint(asked: bool, s: Race)
    requires KillInv(asked, s)
    ensures s.on || s.marker || Asks(s.record) <==> !(Unrecorded(s.maint) && !s.on && !s.marker && !asked)
  {
  }

  lemma {:induction false} JoinedRecoverable(n: Net, s: Race)
    ensures var w := Joined(n, s).world;
            w.wifi.Some? && (NetRadioCrash.Recoverable(w) <==> s.on || s.marker || Asks(s.record))
  {
  }

  /**
   The process killed at any point of any interleaving: a completed restore command has the radio on exactly
   unless the switch-off is not recorded yet, the radio is off, there is no marker (any more), and the record
   at the start did not ask for the radio. With a record that asks, no point is harmful.
   */
  lemma {:induction false} StopRaceKilled(n: Net, turns: seq<bool>, span: nat)
    requires n.world.wifi.Some? && (On(n.world) || n.world.marker)
    ensures var s := Interleave(Together(n), turns);
            var r := RestoreCommand(Start(Joined(n, s).world, span));
            Alive(r) ==> (On(r.world) <==>
                            !(Unrecorded(s.maint) && !s.on && !s.marker && !Truthy(n.world)))
  {
    var s := Interleave(Together(n), turns);
    InterleaveKeepsKillInv(Truthy(n.world), Together(n), turns);
    KilledPoint(Truthy(n.world), s);
    JoinedRecoverable(n, s);
    hide Interleave, RestoreCommand, KillInv, Unrecorded, Asks, Truthy, NetRadioCrash.Recoverable, Joined;
    var w := Joined(n, s).world;
    if Alive(RestoreCommand(Start(w, span))) {
      NetRadioCrash.RestoreCommandPower(w, span);
    }
  }

  lemma {:induction false} InterleaveJoin(s: Race, a: seq<bool>, b: seq<bool>)
    ensures Interleave(s, a + b) == Interleave(Interleave(s, a), b)
    decreases |a|
  {
    hide StepMain, StepMaint;
    if a == [] {
      assert a + b == b;
    } else {
      assert (a + b)[1..] == a[1..] + b;
      InterleaveJoin(if a[0] then StepMain(s) else StepMaint(s), a[1..], b);
    }
  }

  function LosingTurns(): seq<bool> {
    seq(4, _ => true) + seq(2, _ => false) + seq(2, _ => true)
  }

  /** The restore turns the radio on and sees it on, the switch-off comes, and the restore erases the marker. */
  lemma {:induction false} LosingRun(s: Race)
    requires s.main.ReadRecord? && s.maint.ReadPower? && s.weOff
    ensures var v := Interleave(s, LosingTurns()); !v.on && !v.marker && v.record == s.record
  {
    var t := s.(main := ClearFlag(false), on := true);
    var u := t.(maint := CheckOff(0), on := false);
    hide Interleave, LosingTurns, Alone, MainSteps, MaintSteps, StepMain, StepMaint;
    LosingParts(s);
    AloneSteps(s, 4);
    AloneSteps(t, 2);
    AloneSteps(u, 2);
    FirstSwitch(s);
    SwitchedOff(t);
    Erased(u);
  }

  lemma {:induction false} LosingParts(s: Race)
    ensures Interleave(s, LosingTurns()) == Alone(Alone(Alone(s, true, 4), false, 2), true, 2)
  {
    var a: seq<bool>, b: seq<bool>, c: seq<bool> := seq(4, _ => true), seq(2, _ => false), seq(2, _ => true);
    assert LosingTurns() == a + b + c;
    assert forall t: Race :: Alone(t, true, 4) == Interleave(t, a) && Alone(t, false, 2) == Interleave(t, b)
                             && Alone(t, true, 2) == Interleave(t, c);
    hide Interleave, Alone, LosingTurns;
    InterleaveJoin(s, a, b);
    InterleaveJoin(s, a + b, c);
  }

  /**
   The harmful point is reached from any session that knows it switched the radio off and whose record does not
   ask for it, as after two lease applications.
   */
  lemma {:induction false} StopRaceLosesRadio(n: Net)
    requires n.world.wifi.Some? && n.weOff && !Truthy(n.world)
    ensures !NetRadioCrash.Recoverable(Joined(n, Interleave(Together(n), LosingTurns())).world)
  {
    LosingRun(Together(n));
    hide Interleave, LosingTurns;
  }

  lemma {:induction false} SwitchedOff(s: Race)
    requires s.maint.ReadPower? && s.on
    ensures MaintSteps(s, 2) == s.(maint := CheckOff(0), on := false)
  {
    var t := StepMaint(s);
    assert MaintSteps(s, 2) == MaintSteps(t, 1) == MaintSteps(StepMaint(t), 0);
  }

  lemma {:induction false} Erased(s: Race)
    requires s.main.ClearFlag? && !s.main.second
    ensures MainSteps(s, 2) == s.(main := LookAgain, weOff := false, marker := false)
  {
    var t := StepMain(s);
    assert MainSteps(s, 2) == MainSteps(t, 1) == MainSteps(StepMain(t), 0);
  }

  lemma {:induction false} FirstSwitch(s: Race)
    requires s.main.ReadRecord? && s.weOff
    ensures MainSteps(s, 4) == s.(main := ClearFlag(false), on := true)
  {
    FourMore(s, 0);
  }
}
