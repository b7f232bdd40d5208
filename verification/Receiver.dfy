/** The receiver that runs the state machine of module Timeshift. */
module Receiver {
  import opened Timeshift
  import opened Effects

  class Neutrino {
    var recordingStatus: int
    var timeshiftStatus: int
    var autoshift: bool
    var shiftTimer: int
    var mode: Mode
    var lastMode: Mode
    var wasShift: bool
    var nextRecordingInfo: Option<int>
    var recordingId: int
    ghost var calls: seq<Call>

    ghost function Now(): State
      reads this
    {
      State(recordingStatus, timeshiftStatus, autoshift, shiftTimer, mode, lastMode, wasShift, nextRecordingInfo,
            recordingId, calls)
    }

    constructor ()
      ensures Fresh(Now()) && mode == UNKNOWN && !wasShift
    {
      recordingStatus, timeshiftStatus, autoshift, shiftTimer := 0, 0, false, 0;
      mode, lastMode, wasShift := UNKNOWN, UNKNOWN, false;
      nextRecordingInfo, recordingId, calls := None, 0, [];
    }

    /** The device is asked to record. */
    method Record(caller: Caller, w: World) returns (ok: bool)
      modifies this`calls
      ensures ok == w.starts && calls == old(calls) + [Call(caller, autoshift)]
    {
      calls := calls + [Call(caller, autoshift)];
      ok := w.starts;
    }

    method StartAutoRecord(w: World)
      modifies this
      ensures Now() == StartAuto(old(Now()), w)
      ensures Sound(old(Now())) ==> Sound(Now())
    {
      if Sound(Now()) {
        StartAutoKeeps(Now(), w);
      }
      if recordingStatus == 0 && w.registered {
        autoshift, recordingStatus, timeshiftStatus := true, 1, 1;
        var ok := Record(Auto, w);
        if !ok {
          recordingStatus, timeshiftStatus, autoshift := 0, 0, false;
        } else {
          recordingId := w.newId;
        }
      }
    }

    method StopAutoRecord()
      modifies this
      ensures Now() == StopAuto(old(Now()))
      ensures old(autoshift && recordingStatus != 0) ==> !autoshift && recordingId == 0 && shiftTimer == old(shiftTimer)
      ensures !old(autoshift && recordingStatus != 0) ==> shiftTimer == 0 && autoshift == old(autoshift)
      ensures recordingStatus == old(recordingStatus) && calls == old(calls)
    {
      if autoshift && recordingStatus != 0 {
        autoshift := false;
        if recordingId != 0 {
          recordingId := 0;
        }
      } else if shiftTimer != 0 {
        shiftTimer := 0;
      }
    }

    method BreakAutoshift()
      modifies this
      ensures Now() == BreakAuto(old(Now()))
    {
      if autoshift {
        StopAutoRecord();
        recordingStatus, timeshiftStatus := 0, 0;
      }
    }

    method StartNextRecording(w: World)
      modifies this
      ensures Now() == StartNext(old(Now()), w)
      ensures nextRecordingInfo == None
    {
      if nextRecordingInfo.Some? {
        if w.registered {
          recordingId := nextRecordingInfo.value;
          var ok := Record(Next, w);
          recordingStatus := if ok then 1 else 0;
        }
        nextRecordingInfo := None;
      }
    }

    method DoGuiRecord(addTimer: bool, w: World)
      modifies this
      ensures Now() == GuiRecord(old(Now()), w, addTimer)
      ensures Sound(old(Now())) ==> Sound(Now())
    {
      if Sound(Now()) {
        GuiRecordKeeps(Now(), w, addTimer);
      }
      if w.registered {
        if autoshift {
          StopAutoRecord();
        }
        if recordingStatus == 1 {
          var ok := Record(Gui, w);
          if !ok {
            recordingStatus := 0;
          } else if addTimer {
            recordingId := w.newId;
          }
        } else {
          StartNextRecording(w);
        }
      }
    }

    method ZapToChannel(w: World)
      modifies this
      ensures Now() == ZapChannel(old(Now()), w)
    {
      if w.zaps && autoshift {
        StopAutoRecord();
        recordingStatus := 0;
      }
    }

    method EnterTvMode(rezap: bool, w: World)
      modifies this
      ensures Now() == TvMode(old(Now()), rezap, w)
      ensures Sound(old(Now())) ==> Sound(Now())
    {
      if Sound(Now()) {
        TvModeKeeps(Now(), rezap, w);
      }
      if mode != TV {
        var stopAuto := mode != TS;
        mode := TV;
        if stopAuto {
          BreakAutoshift();
        }
        if rezap {
          ZapToChannel(w);
        }
      }
    }

    method EnterRadioMode(rezap: bool, w: World)
      modifies this
      ensures Now() == RadioMode(old(Now()), rezap, w)
      ensures Sound(old(Now())) ==> Sound(Now())
    {
      if Sound(Now()) {
        RadioModeKeeps(Now(), rezap, w);
      }
      if mode != RADIO {
        mode := RADIO;
        BreakAutoshift();
        if rezap {
          ZapToChannel(w);
        }
      }
    }

    method StandbyMode(on: bool, w: World)
      modifies this
      ensures Now() == if on then StandbyIn(old(Now())) else StandbyOut(old(Now()), w)
      ensures Sound(old(Now())) ==> Sound(Now())
      ensures on ==> mode == STANDBY && (Sound(old(Now())) ==> !autoshift && calls == old(calls))
      ensures !on ==> !wasShift && mode != STANDBY
    {
      StandbyKeeps(Now(), w);
      if on {
        if autoshift {
          BreakAutoshift();
          wasShift := true;
        }
        lastMode, mode := mode, STANDBY;
      } else {
        LeaveStandby(w);
      }
    }

    method LeaveStandby(w: World)
      modifies this
      ensures Now() == StandbyOut(old(Now()), w)
    {
      mode := UNKNOWN;
      if lastMode == RADIO {
        EnterRadioMode(false, w);
      } else if lastMode == TV {
        EnterTvMode(false, w);
      }
      if mode == TV && wasShift {
        StartAutoRecord(w);
      }
      wasShift := false;
    }

    method ScartMode(on: bool, w: World)
      modifies this
      ensures Now() == if on then ScartIn(old(Now())) else ScartOut(old(Now()), w)
    {
      if on {
        lastMode, mode := mode, SCART;
      } else {
        mode := UNKNOWN;
        if lastMode == RADIO {
          EnterRadioMode(false, w);
        } else if lastMode == TV {
          EnterTvMode(false, w);
        } else if lastMode == STANDBY {
          StandbyMode(true, w);
        }
      }
    }

    method PauseKey(w: World)
      modifies this
      ensures Now() == Pause(old(Now()), w)
    {
      if w.webTv {
        timeshiftStatus := 1;
      } else if w.recDir && w.videoStarted {
        if recordingStatus != 0 {
          timeshiftStatus := recordingStatus;
        } else {
          recordingStatus := 1;
          timeshiftStatus := recordingStatus;
          DoGuiRecord(true, w);
        }
      }
    }

    method RecordOrStopKey(start: bool, w: World)
      modifies this
      ensures Now() == RecordKey(old(Now()), start, w)
    {
      BreakAutoshift();
      if recordingStatus != 0 {
        if w.yes {
          recordingStatus := 0;
        }
      } else if start {
        recordingStatus := 1;
        DoGuiRecord(true, w);
      }
    }

    method HomeKey(w: World)
      modifies this
      ensures Now() == Step(old(Now()), KeyHome, w)
    {
      if mode == SCART {
        if w.registered && w.vcr && w.recording {
          recordingStatus := 0;
          StartNextRecording(w);
        }
        ScartMode(false, w);
      }
    }

    method HandleRecordStop(event: int, w: World)
      modifies this
      ensures Now() == StopRecord(old(Now()), event, w)
    {
      if event == recordingId {
        if w.registered && w.recording {
          recordingStatus, autoshift := 0, false;
          if timeshiftStatus != 0 {
            timeshiftStatus := 0;
          }
        }
        StartNextRecording(w);
      } else if nextRecordingInfo.Some? && event == nextRecordingInfo.value {
        nextRecordingInfo := None;
      }
    }

    method HandleZapTo(radio: bool, tv: bool, w: World)
      modifies this
      ensures Now() == ZapToTimer(old(Now()), radio, tv, w)
    {
      if recordingStatus == 0 {
        if radio && mode != RADIO {
          EnterRadioMode(false, w);
        } else if tv && mode != TV {
          EnterTvMode(false, w);
        }
        ZapToChannel(w);
      }
    }

    method HandleChangeMode(to: Mode, rezap: bool, w: World)
      modifies this
      ensures Now() == ChangeTo(old(Now()), to, rezap, w)
    {
      if to == RADIO {
        EnterRadioMode(rezap, w);
      }
      if to == TV {
        EnterTvMode(rezap, w);
      }
      if to == STANDBY && mode != STANDBY {
        StandbyMode(true, w);
      }
      if to == AUDIO || to == PIC || to == TS {
        lastMode, mode := mode, to;
      }
    }

    /** The messages about modes and standby. */
    method HandleMode(m: Message, w: World)
      requires m in {AnnounceZapTo, SleepTimer, StandbyToggle, StandbyOn, StandbyOff, VcrOn, VcrOff, TvRadioSwitch}
      modifies this
      ensures Now() == Step(old(Now()), m, w)
    {
      match m {
        case AnnounceZapTo => if mode == STANDBY { StandbyMode(false, w); }
        case SleepTimer => StandbyMode(true, w);
        case StandbyToggle => StandbyMode(!StandbyBit(mode), w);
        case StandbyOn => if mode != STANDBY { StandbyMode(true, w); }
        case StandbyOff => if mode == STANDBY { StandbyMode(false, w); }
        case VcrOn => if mode != SCART { ScartMode(true, w); }
        case VcrOff => if mode == SCART { ScartMode(false, w); }
        case TvRadioSwitch =>
          if mode == TV { EnterRadioMode(true, w); } else if mode == RADIO { EnterTvMode(true, w); }
      }
    }

    /** The messages of the daemons about recordings. */
    method HandleRecording(m: Message, w: World)
      requires m.RecordMode? || m.RecordStart? || m.RecordStop? || m.AnnounceRecord?
      modifies this
      ensures Now() == Step(old(Now()), m, w)
    {
      match m {
        case RecordMode(status) => recordingStatus := status;
        case RecordStart(event) =>
          BreakAutoshift();
          nextRecordingInfo := Some(event);
          StartNextRecording(w);
        case RecordStop(event) => HandleRecordStop(event, w);
        case AnnounceRecord => BreakAutoshift();
      }
    }

    /** One message, of the remote control, of a daemon, or from a menu. */
    method Handle(m: Message, w: World)
      modifies this
      ensures Now() == Step(old(Now()), m, w)
      ensures Sound(old(Now())) ==> (Sound(Now()) <==> !Forgets(old(Now()), m, w)) && Exclusive(calls)
      ensures Sound(old(Now())) ==> Brings(old(Now()), m, w, Now())
    {
      if Sound(Now()) {
        StepBrings(Now(), m, w);
        StepKeeps(Now(), m, w);
      }
      Dispatch(m, w);
    }

    method Dispatch(m: Message, w: World)
      modifies this
      ensures Now() == Step(old(Now()), m, w)
    {
      match m {
        case ZapComplete => shiftTimer := if recordingStatus == 0 && w.autoTimeshift then w.newTimer else 0;
        case Timer(id) => if id == shiftTimer { shiftTimer := 0; StartAutoRecord(w); }
        case KeyPause => if Watching(mode) { PauseKey(w); }
        case KeyPlay => if Watching(mode) && timeshiftStatus != 0 && w.webTv { timeshiftStatus := 0; }
        case KeyRecord => if Watching(mode) { RecordOrStopKey(true, w); }
        case KeyStop => if Watching(mode) { RecordOrStopKey(false, w); }
        case KeyHome => HomeKey(w);
        case RecordMode(_) => HandleRecording(m, w);
        case RecordStart(_) => HandleRecording(m, w);
        case RecordStop(_) => HandleRecording(m, w);
        case AnnounceRecord => HandleRecording(m, w);
        case ZapTo(radio, tv) => HandleZapTo(radio, tv, w);
        case ChangeMode(to, rezap) => HandleChangeMode(to, rezap, w);
        case Zap => ZapToChannel(w);
        case StartRecording(addTimer) =>
          if w.videoStarted { DoGuiRecord(addTimer, w); } else { recordingStatus := 0; }
        case PlayerStop =>
          if recordingStatus != 0 && w.yes { recordingStatus, timeshiftStatus, recordingId := 0, 0, 0; }
        case TimeshiftSetting => if w.autoTimeshift { StartAutoRecord(w); } else { BreakAutoshift(); }
        case ExitRefused => BreakAutoshift();
        case _ => HandleMode(m, w);
      }
    }

    /** The message loop: a careful run from a sound state ends in one, and all along only
        permanent timeshift records during autoshift. */
    method RealRun(inputs: seq<Input>)
      requires Sound(Now()) && Careful(Now(), inputs)
      modifies this
      ensures Now() == Run(old(Now()), inputs) && Sound(Now())
    {
      ghost var start := Now();
      RunKeeps(start, inputs);
      var rest := inputs;
      while rest != []
        invariant Run(Now(), rest) == Run(start, inputs)
        decreases |rest|
      {
        Handle(rest[0].m, rest[0].w);
        rest := rest[1..];
      }
    }
  }
}
