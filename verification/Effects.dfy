/** What every message brings about, field by field: which recording it asks for, when permanent
    timeshift ends, where the receiver goes. */
module Effects {
  import opened Timeshift

  // What a message is, told from the state it finds

  /** Nothing is recorded, or only for permanent timeshift. */
  predicate Idle(s: State) {
    s.recordingStatus == 0 || s.autoshift
  }

  /** The modes of the players. */
  predicate Plays(mode: Mode) {
    mode == AUDIO || mode == PIC || mode == TS
  }

  predicate EntersStandby(s: State, m: Message) {
    || m.SleepTimer?
    || (m.StandbyToggle? && (Watching(s.mode) || s.mode == SCART))
    || ((m.StandbyOn? || (m.ChangeMode? && m.to == STANDBY)) && s.mode != STANDBY)
  }

  predicate LeavesStandby(s: State, m: Message) {
    || (m.StandbyToggle? && !Watching(s.mode) && s.mode != SCART)
    || ((m.AnnounceZapTo? || m.StandbyOff?) && s.mode == STANDBY)
  }

  predicate LeavesScart(s: State, m: Message) {
    (m.KeyHome? || m.VcrOff?) && s.mode == SCART
  }

  /** From the scart input back into the standby it was reached from. */
  predicate BackToStandby(s: State, m: Message) {
    LeavesScart(s, m) && s.lastMode == STANDBY
  }

  /** The record key with nothing to end, or the pause key with nothing to pause. */
  predicate WantsRecording(s: State, m: Message, w: World) {
    Watching(s.mode) &&
    (|| (m.KeyRecord? && Idle(s))
     || (m.KeyPause? && s.recordingStatus == 0 && !w.webTv && w.recDir && w.videoStarted))
  }

  // Who is recorded for

  predicate AsksGui(s: State, m: Message, w: World) {
    w.registered && (WantsRecording(s, m, w) || (m.StartRecording? && w.videoStarted && s.recordingStatus == 1))
  }

  predicate AsksNext(m: Message, w: World) {
    w.registered && m.RecordStart?
  }

  predicate AsksAuto(s: State, m: Message, w: World) {
    w.registered &&
    (|| (s.recordingStatus == 0 && ((m.Timer? && m.id == s.shiftTimer) || (m.TimeshiftSetting? && w.autoTimeshift)))
     || (LeavesStandby(s, m) && s.lastMode == TV && s.wasShift && Idle(s)))
  }

  predicate Asks(s: State, m: Message, w: World) {
    AsksGui(s, m, w) || AsksNext(m, w) || AsksAuto(s, m, w)
  }

  /** All recordings asked for after a message: at most one more. */
  function CallsAfter(s: State, m: Message, w: World): seq<Call> {
    if AsksGui(s, m, w) then s.calls + [Call(Gui, false)]
    else if AsksNext(m, w) then s.calls + [Call(Next, false)]
    else if AsksAuto(s, m, w) then s.calls + [Call(Auto, true)]
    else s.calls
  }

  // What ends

  /** The messages that zap away from a channel in timeshift. */
  predicate ZapsAway(s: State, m: Message, w: World) {
    w.zaps && (m.Zap? || (m.ChangeMode? && m.to == TV && m.rezap && s.mode == TS))
  }

  /** The timer's end of the running recording. */
  predicate EndOfRecording(s: State, m: Message, w: World) {
    m.RecordStop? && m.event == s.recordingId && w.registered && w.recording
  }

  /** The home key ends a recording from the scart input. */
  predicate EndOfVcr(s: State, m: Message, w: World) {
    m.KeyHome? && s.mode == SCART && w.registered && w.vcr && w.recording
  }

  /** A change of mode that does not come from playback. */
  predicate ChangesProgram(s: State, m: Message) {
    || (m.TvRadioSwitch? && Watching(s.mode))
    || (m.ChangeMode? && m.to == RADIO && s.mode != RADIO)
    || (m.ChangeMode? && m.to == TV && s.mode != TV && s.mode != TS)
    || (LeavesStandby(s, m) && Watching(s.lastMode))
    || (LeavesScart(s, m) && (Watching(s.lastMode) || s.lastMode == STANDBY))
  }

  /** The messages that end permanent timeshift, and with it forget that anything was paused. */
  predicate BreaksShift(s: State, m: Message, w: World) {
    || ((m.KeyRecord? || m.KeyStop?) && Watching(s.mode))
    || m.RecordStart? || m.AnnounceRecord? || m.ExitRefused?
    || (m.TimeshiftSetting? && !w.autoTimeshift)
    || EntersStandby(s, m) || ChangesProgram(s, m)
  }

  predicate EndsShift(s: State, m: Message, w: World) {
    s.autoshift && !EndOfVcr(s, m, w) &&
    (|| BreaksShift(s, m, w) || ZapsAway(s, m, w) || EndOfRecording(s, m, w)
     || (m.StartRecording? && w.videoStarted && w.registered))
  }

  /** A running recording, other than permanent timeshift, is ended. */
  predicate EndsRecording(s: State, m: Message, w: World) {
    || ((m.KeyRecord? || m.KeyStop?) && Watching(s.mode) && w.yes)
    || (m.PlayerStop? && w.yes)
    || (m.StartRecording? && !w.videoStarted)
    || EndOfRecording(s, m, w) || EndOfVcr(s, m, w)
  }

  // The fields afterwards

  /** A recording that was asked for runs exactly if the device starts it. Without a device the keys
      set the status all the same. */
  function StatusAfter(s: State, m: Message, w: World): int {
    if Asks(s, m, w) then (if w.starts then 1 else 0)
    else if WantsRecording(s, m, w) then 1
    else if m.RecordMode? then m.status
    else if EndsShift(s, m, w) && !m.StartRecording? then 0
    else if EndsRecording(s, m, w) then 0
    else s.recordingStatus
  }

  predicate ShiftAfter(s: State, m: Message, w: World) {
    (s.autoshift && !EndsShift(s, m, w)) || (AsksAuto(s, m, w) && w.starts)
  }

  function ShiftStatusAfter(s: State, m: Message, w: World): int {
    if AsksAuto(s, m, w) then (if w.starts then 1 else 0)
    else if m.KeyPause? && Watching(s.mode) && w.webTv then 1
    else if m.KeyPause? && Watching(s.mode) && w.recDir && w.videoStarted then
      (if s.recordingStatus != 0 then s.recordingStatus else 1)
    else if m.KeyPlay? && Watching(s.mode) && w.webTv then 0
    else if EndOfRecording(s, m, w) || (m.PlayerStop? && s.recordingStatus != 0 && w.yes) then 0
    else if s.autoshift && BreaksShift(s, m, w) then 0
    else s.timeshiftStatus
  }

  function RecordingIdAfter(s: State, m: Message, w: World): int {
    if AsksNext(m, w) then m.event
    else if Asks(s, m, w) && w.starts && (m.StartRecording? ==> m.addTimer) then w.newId
    else if m.PlayerStop? && s.recordingStatus != 0 && w.yes then 0
    else if EndsShift(s, m, w) && !m.RecordStop? then 0
    else s.recordingId
  }

  function ModeAfter(s: State, m: Message): Mode {
    if EntersStandby(s, m) || BackToStandby(s, m) then STANDBY
    else if LeavesStandby(s, m) || LeavesScart(s, m) then (if Watching(s.lastMode) then s.lastMode else UNKNOWN)
    else if m.VcrOn? then SCART
    else if m.TvRadioSwitch? && Watching(s.mode) then (if s.mode == TV then RADIO else TV)
    else if m.ZapTo? && s.recordingStatus == 0 && m.radio && s.mode != RADIO then RADIO
    else if m.ZapTo? && s.recordingStatus == 0 && m.tv then TV
    else if m.ChangeMode? && (Watching(m.to) || Plays(m.to)) then m.to
    else s.mode
  }

  /** Where the receiver came from; it is lost on the way from standby to scart and back. */
  function LastModeAfter(s: State, m: Message): Mode {
    if BackToStandby(s, m) then UNKNOWN
    else if EntersStandby(s, m) || (m.VcrOn? && s.mode != SCART) || (m.ChangeMode? && Plays(m.to)) then s.mode
    else s.lastMode
  }

  function TimerAfter(s: State, m: Message, w: World): int {
    if m.ZapComplete? then (if s.recordingStatus == 0 && w.autoTimeshift then w.newTimer else 0)
    else if (m.Timer? && m.id == s.shiftTimer) then 0
    else s.shiftTimer
  }

  predicate WasShiftAfter(s: State, m: Message) {
    if EntersStandby(s, m) || BackToStandby(s, m) then s.wasShift || s.autoshift
    else s.wasShift && !LeavesStandby(s, m)
  }

  /** The recordings, and permanent timeshift. */
  predicate BringsRecording(s: State, m: Message, w: World, t: State) {
    && t.calls == CallsAfter(s, m, w) && t.next == None
    && t.recordingStatus == StatusAfter(s, m, w) && t.recordingId == RecordingIdAfter(s, m, w)
    && t.autoshift == ShiftAfter(s, m, w)
    && ((EndOfVcr(s, m, w) && s.autoshift) || t.timeshiftStatus == ShiftStatusAfter(s, m, w))
  }

  /** The modes, and what standby and the timer remember. */
  predicate BringsMode(s: State, m: Message, w: World, t: State) {
    && t.mode == ModeAfter(s, m) && t.lastMode == LastModeAfter(s, m) && t.wasShift == WasShiftAfter(s, m)
    && ((EndOfVcr(s, m, w) && s.autoshift) || t.shiftTimer == TimerAfter(s, m, w))
  }

  /** All of it. */
  predicate Brings(s: State, m: Message, w: World, t: State) {
    BringsRecording(s, m, w, t) && BringsMode(s, m, w, t)
  }

  lemma PauseBrings(s: State, w: World)
    requires Consistent(s)
    ensures Brings(s, KeyPause, w, if Watching(s.mode) then Pause(s, w) else s)
  {
  }

  lemma RecordKeyBrings(s: State, w: World)
    requires Consistent(s)
    ensures Brings(s, KeyRecord, w, if Watching(s.mode) then RecordKey(s, true, w) else s)
  {
  }

  lemma StopKeyBrings(s: State, w: World)
    requires Consistent(s)
    ensures Brings(s, KeyStop, w, if Watching(s.mode) then RecordKey(s, false, w) else s)
  {
  }

  lemma RecordStartBrings(s: State, w: World, event: int)
    requires Consistent(s)
    ensures Brings(s, RecordStart(event), w, StartNext(BreakAuto(s).(next := Some(event)), w))
  {
  }

  lemma RecordStopBrings(s: State, w: World, event: int)
    requires Consistent(s)
    ensures Brings(s, RecordStop(event), w, StopRecord(s, event, w))
  {
  }

  lemma StartRecordingRecording(s: State, w: World, addTimer: bool)
    requires Consistent(s)
    ensures BringsRecording(s, StartRecording(addTimer), w, if w.videoStarted then GuiRecord(s, w, addTimer) else s.(recordingStatus := 0))
  {
  }

  lemma StartRecordingMode(s: State, w: World, addTimer: bool)
    requires Consistent(s)
    ensures BringsMode(s, StartRecording(addTimer), w, if w.videoStarted then GuiRecord(s, w, addTimer) else s.(recordingStatus := 0))
  {
  }

  lemma StartRecordingBrings(s: State, w: World, addTimer: bool)
    requires Consistent(s)
    ensures Brings(s, StartRecording(addTimer), w, if w.videoStarted then GuiRecord(s, w, addTimer) else s.(recordingStatus := 0))
  {
    StartRecordingRecording(s, w, addTimer);
    StartRecordingMode(s, w, addTimer);
  }

  lemma TimerBrings(s: State, w: World, id: int)
    requires Consistent(s)
    ensures Brings(s, Timer(id), w, if id == s.shiftTimer then StartAuto(s.(shiftTimer := 0), w) else s)
  {
  }

  lemma SettingBrings(s: State, w: World)
    requires Consistent(s)
    ensures Brings(s, TimeshiftSetting, w, if w.autoTimeshift then StartAuto(s, w) else BreakAuto(s))
  {
  }

  /** On the way into standby nothing is asked for, and permanent timeshift ends. */
  lemma Entering(s: State, m: Message, w: World)
    requires EntersStandby(s, m)
    ensures CallsAfter(s, m, w) == s.calls && StatusAfter(s, m, w) == (if s.autoshift then 0 else s.recordingStatus)
    ensures ShiftStatusAfter(s, m, w) == if s.autoshift then 0 else s.timeshiftStatus
    ensures RecordingIdAfter(s, m, w) == if s.autoshift then 0 else s.recordingId
    ensures !ShiftAfter(s, m, w) && !EndOfVcr(s, m, w)
  {
  }

  /** On the way out only permanent timeshift can be asked for again. */
  lemma Leaving(s: State, m: Message, w: World)
    requires LeavesStandby(s, m)
    ensures !AsksGui(s, m, w) && !AsksNext(m, w) && !EndOfVcr(s, m, w) && !EndsRecording(s, m, w) && !WantsRecording(s, m, w)
    ensures BreaksShift(s, m, w) == Watching(s.lastMode) && EndsShift(s, m, w) == (s.autoshift && Watching(s.lastMode))
    ensures AsksAuto(s, m, w) == (w.registered && s.lastMode == TV && s.wasShift && Idle(s))
  {
  }

  lemma LeavingFields(s: State, m: Message, w: World)
    requires LeavesStandby(s, m)
    ensures var again := w.registered && s.lastMode == TV && s.wasShift && Idle(s);
            var over := s.autoshift && Watching(s.lastMode);
      && CallsAfter(s, m, w) == (if again then s.calls + [Call(Auto, true)] else s.calls)
      && StatusAfter(s, m, w) == (if again && w.starts then 1 else if again || over then 0 else s.recordingStatus)
      && ShiftStatusAfter(s, m, w) == (if again && w.starts then 1 else if again || over then 0 else s.timeshiftStatus)
      && RecordingIdAfter(s, m, w) == (if again && w.starts then w.newId else if over then 0 else s.recordingId)
      && ShiftAfter(s, m, w) == ((s.autoshift && !over) || (again && w.starts))
  {
    Leaving(s, m, w);
  }

  lemma StandbyInRecording(s: State, m: Message, w: World)
    requires Consistent(s) && EntersStandby(s, m)
    ensures BringsRecording(s, m, w, StandbyIn(s))
  {
    Entering(s, m, w);
  }

  lemma StandbyInMode(s: State, m: Message, w: World)
    requires Consistent(s) && EntersStandby(s, m)
    ensures BringsMode(s, m, w, StandbyIn(s))
  {
  }

  lemma StandbyInBrings(s: State, m: Message, w: World)
    requires Consistent(s) && EntersStandby(s, m)
    ensures Brings(s, m, w, StandbyIn(s))
  {
    StandbyInRecording(s, m, w);
    StandbyInMode(s, m, w);
  }

  lemma StandbyOutRecording(s: State, m: Message, w: World)
    requires Consistent(s) && LeavesStandby(s, m)
    ensures BringsRecording(s, m, w, StandbyOut(s, w))
  {
    Leaving(s, m, w);
    LeavingFields(s, m, w);
  }

  lemma StandbyOutMode(s: State, m: Message, w: World)
    requires Consistent(s) && LeavesStandby(s, m)
    ensures BringsMode(s, m, w, StandbyOut(s, w))
  {
  }

  lemma StandbyOutBrings(s: State, m: Message, w: World)
    requires Consistent(s) && LeavesStandby(s, m)
    ensures Brings(s, m, w, StandbyOut(s, w))
  {
    StandbyOutRecording(s, m, w);
    StandbyOutMode(s, m, w);
  }

  lemma LeavingScart(s: State, m: Message, w: World)
    requires LeavesScart(s, m) && !EndOfVcr(s, m, w)
    ensures !Asks(s, m, w) && !EndsRecording(s, m, w) && !WantsRecording(s, m, w) && !EntersStandby(s, m) && !LeavesStandby(s, m)
    ensures BreaksShift(s, m, w) == (Watching(s.lastMode) || s.lastMode == STANDBY)
    ensures EndsShift(s, m, w) == (s.autoshift && (Watching(s.lastMode) || s.lastMode == STANDBY))
  {
  }

  lemma LeavingScartFields(s: State, m: Message, w: World)
    requires LeavesScart(s, m) && !EndOfVcr(s, m, w)
    ensures var over := s.autoshift && (Watching(s.lastMode) || s.lastMode == STANDBY);
      && CallsAfter(s, m, w) == s.calls
      && StatusAfter(s, m, w) == (if over then 0 else s.recordingStatus)
      && ShiftStatusAfter(s, m, w) == (if over then 0 else s.timeshiftStatus)
      && RecordingIdAfter(s, m, w) == (if over then 0 else s.recordingId)
      && ShiftAfter(s, m, w) == (s.autoshift && !over)
  {
    LeavingScart(s, m, w);
  }

  lemma ScartOutRecording(s: State, m: Message, w: World)
    requires Consistent(s) && LeavesScart(s, m) && !EndOfVcr(s, m, w)
    ensures BringsRecording(s, m, w, ScartOut(s, w))
  {
    LeavingScart(s, m, w);
    LeavingScartFields(s, m, w);
  }

  lemma ScartOutMode(s: State, m: Message, w: World)
    requires Consistent(s) && LeavesScart(s, m) && !EndOfVcr(s, m, w)
    ensures BringsMode(s, m, w, ScartOut(s, w))
  {
    LeavingScart(s, m, w);
  }

  lemma ScartOutBrings(s: State, m: Message, w: World)
    requires Consistent(s) && LeavesScart(s, m) && !EndOfVcr(s, m, w)
    ensures Brings(s, m, w, ScartOut(s, w))
  {
    ScartOutRecording(s, m, w);
    ScartOutMode(s, m, w);
  }

  lemma VcrEndRecording(s: State, w: World)
    requires Consistent(s) && EndOfVcr(s, KeyHome, w)
    ensures BringsRecording(s, KeyHome, w, LeaveScart(s, w))
  {
  }

  lemma VcrEndMode(s: State, w: World)
    requires Consistent(s) && EndOfVcr(s, KeyHome, w)
    ensures BringsMode(s, KeyHome, w, LeaveScart(s, w))
  {
  }

  lemma VcrEndBrings(s: State, w: World)
    requires Consistent(s) && EndOfVcr(s, KeyHome, w)
    ensures Brings(s, KeyHome, w, LeaveScart(s, w))
  {
    VcrEndRecording(s, w);
    VcrEndMode(s, w);
  }

  lemma ToRadioBrings(s: State, w: World)
    requires Consistent(s) && s.mode == TV
    ensures Brings(s, TvRadioSwitch, w, RadioMode(s, true, w))
  {
  }

  lemma ToTvBrings(s: State, w: World)
    requires Consistent(s) && s.mode == RADIO
    ensures Brings(s, TvRadioSwitch, w, TvMode(s, true, w))
  {
  }

  /** Permanent timeshift is over. */
  function Unshifted(s: State): State {
    if s.autoshift then s.(autoshift := false, recordingStatus := 0, timeshiftStatus := 0, recordingId := 0) else s
  }

  lemma RadioModeIs(s: State, rezap: bool, w: World)
    requires Consistent(s)
    ensures RadioMode(s, rezap, w) == if s.mode == RADIO then s else Unshifted(s).(mode := RADIO)
  {
  }

  lemma IntoRadioBrings(s: State, w: World, rezap: bool)
    requires Consistent(s)
    ensures Brings(s, ChangeMode(RADIO, rezap), w, if s.mode == RADIO then s else Unshifted(s).(mode := RADIO))
  {
  }

  lemma RadioBrings(s: State, w: World, rezap: bool)
    requires Consistent(s)
    ensures Brings(s, ChangeMode(RADIO, rezap), w, RadioMode(s, rezap, w))
  {
    RadioModeIs(s, rezap, w);
    IntoRadioBrings(s, w, rezap);
  }

  lemma TvBrings(s: State, w: World, rezap: bool)
    requires Consistent(s) && s.mode != TS
    ensures Brings(s, ChangeMode(TV, rezap), w, TvMode(s, rezap, w))
  {
  }

  lemma TvFromPlayerBrings(s: State, w: World, rezap: bool)
    requires Consistent(s) && s.mode == TS
    ensures Brings(s, ChangeMode(TV, rezap), w, TvMode(s, rezap, w))
  {
  }

  lemma ZapToRecording(s: State, w: World, radio: bool, tv: bool)
    requires Consistent(s)
    ensures BringsRecording(s, ZapTo(radio, tv), w, ZapToTimer(s, radio, tv, w))
  {
  }

  lemma ZapToMode(s: State, w: World, radio: bool, tv: bool)
    requires Consistent(s)
    ensures BringsMode(s, ZapTo(radio, tv), w, ZapToTimer(s, radio, tv, w))
  {
  }

  lemma ZapToBrings(s: State, w: World, radio: bool, tv: bool)
    requires Consistent(s)
    ensures Brings(s, ZapTo(radio, tv), w, ZapToTimer(s, radio, tv, w))
  {
    ZapToRecording(s, w, radio, tv);
    ZapToMode(s, w, radio, tv);
  }

  lemma ShiftBrings(s: State, m: Message, w: World)
    requires Consistent(s) && (m.ZapComplete? || m.KeyPlay?)
    ensures Brings(s, m, w, Step(s, m, w))
  {
  }

  lemma BreakBrings(s: State, m: Message, w: World)
    requires Consistent(s) && (m.AnnounceRecord? || m.ExitRefused?)
    ensures Brings(s, m, w, Step(s, m, w))
  {
  }

  lemma StatusBrings(s: State, m: Message, w: World)
    requires Consistent(s) && (m.RecordMode? || m.PlayerStop?)
    ensures Brings(s, m, w, Step(s, m, w))
  {
  }

  lemma ZapRecording(s: State, m: Message, w: World)
    requires Consistent(s) && (m.Zap? || (m.VcrOn? && s.mode != SCART))
    ensures BringsRecording(s, m, w, Step(s, m, w))
  {
  }

  lemma ZapMode(s: State, m: Message, w: World)
    requires Consistent(s) && (m.Zap? || (m.VcrOn? && s.mode != SCART))
    ensures BringsMode(s, m, w, Step(s, m, w))
  {
  }

  lemma ZapBrings(s: State, m: Message, w: World)
    requires Consistent(s) && (m.Zap? || (m.VcrOn? && s.mode != SCART))
    ensures Brings(s, m, w, Step(s, m, w))
  {
    ZapRecording(s, m, w);
    ZapMode(s, m, w);
  }

  /** A message that finds nothing to do. */
  predicate Idles(s: State, m: Message) {
    || ((m.AnnounceZapTo? || m.StandbyOn? || m.StandbyOff?) && !EntersStandby(s, m) && !LeavesStandby(s, m))
    || ((m.KeyHome? || m.VcrOff?) && !LeavesScart(s, m)) || (m.VcrOn? && s.mode == SCART)
    || (m.TvRadioSwitch? && !Watching(s.mode))
  }

  lemma IdleBrings(s: State, m: Message, w: World)
    requires Consistent(s) && Idles(s, m)
    ensures Step(s, m, w) == s && Brings(s, m, w, s)
  {
  }

  lemma StandbyBrings(s: State, m: Message, w: World)
    requires Consistent(s) && (m.AnnounceZapTo? || m.SleepTimer? || m.StandbyToggle? || m.StandbyOn? || m.StandbyOff?)
    ensures Brings(s, m, w, Step(s, m, w))
  {
    if EntersStandby(s, m) {
      StandbyInBrings(s, m, w);
    } else if LeavesStandby(s, m) {
      StandbyOutBrings(s, m, w);
    } else {
      IdleBrings(s, m, w);
    }
  }

  lemma ScartBrings(s: State, m: Message, w: World)
    requires Consistent(s) && (m.KeyHome? || m.VcrOff? || m.TvRadioSwitch?)
    ensures Brings(s, m, w, Step(s, m, w))
  {
    if EndOfVcr(s, m, w) {
      VcrEndBrings(s, w);
    } else if LeavesScart(s, m) {
      ScartOutBrings(s, m, w);
    } else if m.TvRadioSwitch? && s.mode == TV {
      ToRadioBrings(s, w);
    } else if m.TvRadioSwitch? && s.mode == RADIO {
      ToTvBrings(s, w);
    } else {
      IdleBrings(s, m, w);
    }
  }

  lemma OtherModeRecording(s: State, to: Mode, rezap: bool, w: World)
    requires Consistent(s) && !Watching(to) && (to == STANDBY ==> s.mode == STANDBY)
    ensures BringsRecording(s, ChangeMode(to, rezap), w, ChangeTo(s, to, rezap, w))
  {
  }

  lemma OtherModeMode(s: State, to: Mode, rezap: bool, w: World)
    requires Consistent(s) && !Watching(to) && (to == STANDBY ==> s.mode == STANDBY)
    ensures BringsMode(s, ChangeMode(to, rezap), w, ChangeTo(s, to, rezap, w))
  {
  }

  lemma OtherModeBrings(s: State, to: Mode, rezap: bool, w: World)
    requires Consistent(s) && !Watching(to) && (to == STANDBY ==> s.mode == STANDBY)
    ensures Brings(s, ChangeMode(to, rezap), w, ChangeTo(s, to, rezap, w))
  {
    OtherModeRecording(s, to, rezap, w);
    OtherModeMode(s, to, rezap, w);
  }

  lemma ChangeModeBrings(s: State, to: Mode, rezap: bool, w: World)
    requires Consistent(s)
    ensures Brings(s, ChangeMode(to, rezap), w, ChangeTo(s, to, rezap, w))
  {
    if to == RADIO {
      RadioBrings(s, w, rezap);
    } else if to == TV && s.mode == TS {
      TvFromPlayerBrings(s, w, rezap);
    } else if to == TV {
      TvBrings(s, w, rezap);
    } else if to == STANDBY && s.mode != STANDBY {
      StandbyInBrings(s, ChangeMode(to, rezap), w);
    } else {
      OtherModeBrings(s, to, rezap, w);
    }
  }

  lemma RecordingBrings(s: State, m: Message, w: World)
    requires Consistent(s)
    requires m.KeyPause? || m.KeyRecord? || m.KeyStop? || m.RecordStart? || m.RecordStop? || m.StartRecording?
    ensures Brings(s, m, w, Step(s, m, w))
  {
    match m {
      case KeyPause => PauseBrings(s, w);
      case KeyRecord => RecordKeyBrings(s, w);
      case KeyStop => StopKeyBrings(s, w);
      case RecordStart(event) => RecordStartBrings(s, w, event);
      case RecordStop(event) => RecordStopBrings(s, w, event);
      case StartRecording(addTimer) => StartRecordingBrings(s, w, addTimer);
    }
  }

  lemma ShiftingBrings(s: State, m: Message, w: World)
    requires Consistent(s) && (m.Timer? || m.TimeshiftSetting? || m.ZapTo? || m.ChangeMode?)
    ensures Brings(s, m, w, Step(s, m, w))
  {
    match m {
      case Timer(id) => TimerBrings(s, w, id);
      case TimeshiftSetting => SettingBrings(s, w);
      case ZapTo(radio, tv) => ZapToBrings(s, w, radio, tv);
      case ChangeMode(to, rezap) => ChangeModeBrings(s, to, rezap, w);
    }
  }

  /** What each message brings about, in whatever consistent state it comes. */
  lemma StepBrings(s: State, m: Message, w: World)
    requires Consistent(s)
    ensures Brings(s, m, w, Step(s, m, w))
  {
    if m.KeyPause? || m.KeyRecord? || m.KeyStop? || m.RecordStart? || m.RecordStop? || m.StartRecording? {
      RecordingBrings(s, m, w);
    } else if m.Timer? || m.TimeshiftSetting? || m.ZapTo? || m.ChangeMode? {
      ShiftingBrings(s, m, w);
    } else if m.AnnounceZapTo? || m.SleepTimer? || m.StandbyToggle? || m.StandbyOn? || m.StandbyOff? {
      StandbyBrings(s, m, w);
    } else if m.KeyHome? || m.VcrOff? || m.TvRadioSwitch? {
      ScartBrings(s, m, w);
    } else if m.ZapComplete? || m.KeyPlay? {
      ShiftBrings(s, m, w);
    } else if m.AnnounceRecord? || m.ExitRefused? {
      BreakBrings(s, m, w);
    } else if m.RecordMode? || m.PlayerStop? {
      StatusBrings(s, m, w);
    } else if m.VcrOn? && s.mode == SCART {
      IdleBrings(s, m, w);
    } else {
      ZapBrings(s, m, w);
    }
  }
}
