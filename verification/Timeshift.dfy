/** Recording, permanent timeshift and the modes of the receiver, as a state machine. */
module Timeshift {

  datatype Mode = UNKNOWN | TV | RADIO | SCART | STANDBY | AUDIO | PIC | TS

  /** Who starts a recording: permanent timeshift, the user, or the next timer. */
  datatype Caller = Auto | Gui | Next

  /** A recording the device was asked for, and whether autoshift was set then. */
  datatype Call = Call(caller: Caller, autoshift: bool)

  /** next is the event of the recording to start, recordingId the timer of the running one, and
      calls are all recordings asked for so far. */
  datatype State = State(recordingStatus: int, timeshiftStatus: int, autoshift: bool, shiftTimer: int, mode: Mode,
                         lastMode: Mode, wasShift: bool, next: Option<int>, recordingId: int, calls: seq<Call>)

  datatype Option<T> = None | Some(value: T)

  /** What a message finds outside: the device and its state, what the device and the user answer,
      the ids the timer daemon gives, and the channel's and the receiver's settings. */
  datatype World = World(registered: bool, starts: bool, recording: bool, vcr: bool, yes: bool, newId: int, newTimer: int,
                         autoTimeshift: bool, videoStarted: bool, webTv: bool, recDir: bool, zaps: bool)

  datatype Message =
    | ZapComplete
    | Timer(id: int)
    | KeyPause
    | KeyPlay
    | KeyRecord
    | KeyStop
    | KeyHome
    | TvRadioSwitch
    | RecordMode(status: int)
    | RecordStart(event: int)
    | RecordStop(event: int)
    | ZapTo(radio: bool, tv: bool)
    | AnnounceZapTo
    | AnnounceRecord
    | SleepTimer
    | StandbyToggle
    | StandbyOn
    | StandbyOff
    | ChangeMode(to: Mode, rezap: bool)
    | VcrOn
    | VcrOff
    | Zap
    | StartRecording(addTimer: bool)
    | PlayerStop
    | TimeshiftSetting
    | ExitRefused

  // What the handlers do

  function StartAuto(s: State, w: World): State {
    if s.recordingStatus != 0 || !w.registered then s
    else
      var asked := s.(calls := s.calls + [Call(Auto, true)]);
      if w.starts then asked.(autoshift := true, recordingStatus := 1, timeshiftStatus := 1, recordingId := w.newId)
      else asked.(autoshift := false, recordingStatus := 0, timeshiftStatus := 0)
  }

  function StopAuto(s: State): State {
    if s.autoshift && s.recordingStatus != 0 then s.(autoshift := false, recordingId := 0)
    else s.(shiftTimer := 0)
  }

  /** The guard most handlers begin with. */
  function BreakAuto(s: State): State {
    if s.autoshift then StopAuto(s).(recordingStatus := 0, timeshiftStatus := 0) else s
  }

  function StartNext(s: State, w: World): State {
    if s.next.None? then s
    else if !w.registered then s.(next := None)
    else s.(recordingId := s.next.value, calls := s.calls + [Call(Next, s.autoshift)],
            recordingStatus := if w.starts then 1 else 0, next := None)
  }

  function GuiRecord(s: State, w: World, addTimer: bool): State {
    if !w.registered then s
    else
      var t := if s.autoshift then StopAuto(s) else s;
      if t.recordingStatus != 1 then StartNext(t, w)
      else
        var asked := t.(calls := t.calls + [Call(Gui, t.autoshift)]);
        if !w.starts then asked.(recordingStatus := 0)
        else if addTimer then asked.(recordingId := w.newId)
        else asked
  }

  /** Zapping ends the autoshift unless the last zap is still going on. */
  function ZapChannel(s: State, w: World): State {
    if w.zaps && s.autoshift then StopAuto(s).(recordingStatus := 0) else s
  }

  function TvMode(s: State, rezap: bool, w: World): State {
    if s.mode == TV then s
    else
      var t := s.(mode := TV);
      var u := if s.mode != TS then BreakAuto(t) else t;
      if rezap then ZapChannel(u, w) else u
  }

  function RadioMode(s: State, rezap: bool, w: World): State {
    if s.mode == RADIO then s
    else
      var t := BreakAuto(s.(mode := RADIO));
      if rezap then ZapChannel(t, w) else t
  }

  function StandbyIn(s: State): State {
    var t := if s.autoshift then BreakAuto(s).(wasShift := true) else s;
    t.(lastMode := t.mode, mode := STANDBY)
  }

  /** Back into the mode before. */
  function Resume(s: State, w: World): State {
    if s.lastMode == RADIO then RadioMode(s, false, w)
    else if s.lastMode == TV then TvMode(s, false, w)
    else s
  }

  function StandbyOut(s: State, w: World): State {
    var t := Resume(s.(mode := UNKNOWN), w);
    var u := if t.mode == TV && t.wasShift then StartAuto(t, w) else t;
    u.(wasShift := false)
  }

  function ScartIn(s: State): State {
    s.(lastMode := s.mode, mode := SCART)
  }

  function ScartOut(s: State, w: World): State {
    var t := s.(mode := UNKNOWN);
    if s.lastMode == STANDBY then StandbyIn(t) else Resume(t, w)
  }

  /** The pause key: timeshift the running recording, or start one. */
  function Pause(s: State, w: World): State {
    if w.webTv then s.(timeshiftStatus := 1)
    else if !w.recDir || !w.videoStarted then s
    else if s.recordingStatus != 0 then s.(timeshiftStatus := s.recordingStatus)
    else GuiRecord(s.(recordingStatus := 1, timeshiftStatus := 1), w, true)
  }

  /** The play key: a web channel goes on; other recordings are played by the movie player. */
  function Play(s: State, w: World): State {
    if s.timeshiftStatus != 0 && w.webTv then s.(timeshiftStatus := 0) else s
  }

  /** The record and the stop key. */
  function RecordKey(s: State, start: bool, w: World): State {
    var t := BreakAuto(s);
    if t.recordingStatus != 0 then (if w.yes then t.(recordingStatus := 0) else t)
    else if start then GuiRecord(t.(recordingStatus := 1), w, true)
    else t
  }

  predicate Watching(mode: Mode) {
    mode == TV || mode == RADIO
  }

  /** The home key while the receiver shows the scart input. */
  function LeaveScart(s: State, w: World): State {
    ScartOut(if w.registered && w.vcr && w.recording then StartNext(s.(recordingStatus := 0), w) else s, w)
  }

  function StopRecord(s: State, event: int, w: World): State {
    if event == s.recordingId then
      StartNext(if w.registered && w.recording then s.(recordingStatus := 0, autoshift := false, timeshiftStatus := 0) else s, w)
    else if s.next == Some(event) then s.(next := None)
    else s
  }

  function ZapToTimer(s: State, radio: bool, tv: bool, w: World): State {
    if s.recordingStatus != 0 then s
    else
      ZapChannel(if radio && s.mode != RADIO then RadioMode(s, false, w)
                 else if tv && s.mode != TV then TvMode(s, false, w)
                 else s, w)
  }

  function ChangeTo(s: State, to: Mode, rezap: bool, w: World): State {
    match to
    case RADIO => RadioMode(s, rezap, w)
    case TV => TvMode(s, rezap, w)
    case STANDBY => if s.mode != STANDBY then StandbyIn(s) else s
    case AUDIO => s.(lastMode := s.mode, mode := to)
    case PIC => s.(lastMode := s.mode, mode := to)
    case TS => s.(lastMode := s.mode, mode := to)
    case _ => s
  }

  /** The bit of mode_standby is set in the numbers of all modes but these. */
  predicate StandbyBit(mode: Mode) {
    mode != TV && mode != RADIO && mode != SCART
  }

  function Step(s: State, m: Message, w: World): State {
    match m
    case ZapComplete => s.(shiftTimer := if s.recordingStatus == 0 && w.autoTimeshift then w.newTimer else 0)
    case Timer(id) => if id == s.shiftTimer then StartAuto(s.(shiftTimer := 0), w) else s
    case KeyPause => if Watching(s.mode) then Pause(s, w) else s
    case KeyPlay => if Watching(s.mode) then Play(s, w) else s
    case KeyRecord => if Watching(s.mode) then RecordKey(s, true, w) else s
    case KeyStop => if Watching(s.mode) then RecordKey(s, false, w) else s
    case KeyHome => if s.mode == SCART then LeaveScart(s, w) else s
    case TvRadioSwitch =>
      if s.mode == TV then RadioMode(s, true, w) else if s.mode == RADIO then TvMode(s, true, w) else s
    case RecordMode(status) => s.(recordingStatus := status)
    case RecordStart(event) => StartNext(BreakAuto(s).(next := Some(event)), w)
    case RecordStop(event) => StopRecord(s, event, w)
    case ZapTo(radio, tv) => ZapToTimer(s, radio, tv, w)
    case AnnounceZapTo => if s.mode == STANDBY then StandbyOut(s, w) else s
    case AnnounceRecord => BreakAuto(s)
    case SleepTimer => StandbyIn(s)
    case StandbyToggle => if StandbyBit(s.mode) then StandbyOut(s, w) else StandbyIn(s)
    case StandbyOn => if s.mode != STANDBY then StandbyIn(s) else s
    case StandbyOff => if s.mode == STANDBY then StandbyOut(s, w) else s
    case ChangeMode(to, rezap) => ChangeTo(s, to, rezap, w)
    case VcrOn => if s.mode != SCART then ScartIn(s) else s
    case VcrOff => if s.mode == SCART then ScartOut(s, w) else s
    case Zap => ZapChannel(s, w)
    case StartRecording(addTimer) => if w.videoStarted then GuiRecord(s, w, addTimer) else s.(recordingStatus := 0)
    case PlayerStop =>
      if s.recordingStatus != 0 && w.yes then s.(recordingStatus := 0, timeshiftStatus := 0, recordingId := 0) else s
    case TimeshiftSetting => if w.autoTimeshift then StartAuto(s, w) else BreakAuto(s)
    case ExitRefused => BreakAuto(s)
  }

  // What holds between messages

  predicate Consistent(s: State) {
    (s.autoshift ==> s.recordingStatus != 0) && s.next == None
  }

  /** Only permanent timeshift records while autoshift is set. */
  predicate Exclusive(calls: seq<Call>) {
    forall k :: 0 <= k < |calls| ==> (calls[k].autoshift <==> calls[k].caller == Auto)
  }

  /** The messages that end a recording without looking at autoshift. */
  predicate Forgets(s: State, m: Message, w: World) {
    s.autoshift &&
    match m
    case RecordMode(status) => status == 0
    case StartRecording(_) => !w.videoStarted
    case PlayerStop => w.yes
    case KeyHome => s.mode == SCART && w.registered && w.vcr && w.recording
    case _ => false
  }

  predicate Sound(s: State) {
    Consistent(s) && Exclusive(s.calls)
  }

  lemma StartAutoKeeps(s: State, w: World)
    requires Sound(s)
    ensures Sound(StartAuto(s, w))
  {
  }

  lemma BreakAutoKeeps(s: State)
    requires Sound(s)
    ensures Sound(BreakAuto(s)) && !BreakAuto(s).autoshift && BreakAuto(s).calls == s.calls
  {
  }

  /** A timer's recording starts without autoshift. */
  lemma StartNextKeeps(s: State, w: World)
    requires Exclusive(s.calls) && (s.autoshift ==> s.recordingStatus != 0 && s.next == None)
    ensures Sound(StartNext(s, w))
  {
  }

  /** The user's recording breaks the autoshift first. */
  lemma GuiRecordKeeps(s: State, w: World, addTimer: bool)
    requires Sound(s)
    ensures Sound(GuiRecord(s, w, addTimer))
  {
  }

  lemma ZapKeeps(s: State, w: World)
    requires Sound(s)
    ensures Sound(ZapChannel(s, w))
  {
  }

  lemma TvModeKeeps(s: State, rezap: bool, w: World)
    requires Sound(s)
    ensures Sound(TvMode(s, rezap, w))
  {
    BreakAutoKeeps(s.(mode := TV));
    ZapKeeps(if s.mode != TS then BreakAuto(s.(mode := TV)) else s.(mode := TV), w);
  }

  lemma RadioModeKeeps(s: State, rezap: bool, w: World)
    requires Sound(s)
    ensures Sound(RadioMode(s, rezap, w))
  {
    BreakAutoKeeps(s.(mode := RADIO));
    ZapKeeps(BreakAuto(s.(mode := RADIO)), w);
  }

  lemma StandbyInKeeps(s: State)
    requires Sound(s)
    ensures Sound(StandbyIn(s))
  {
    BreakAutoKeeps(s);
  }

  lemma ResumeKeeps(s: State, w: World)
    requires Sound(s)
    ensures Sound(Resume(s, w))
  {
    RadioModeKeeps(s, false, w);
    TvModeKeeps(s, false, w);
  }

  lemma StandbyOutKeeps(s: State, w: World)
    requires Sound(s)
    ensures Sound(StandbyOut(s, w))
  {
    ResumeKeeps(s.(mode := UNKNOWN), w);
    StartAutoKeeps(Resume(s.(mode := UNKNOWN), w), w);
  }

  /** Into standby no autoshift goes along, and nothing is recorded for it; out of it the receiver
      is in another mode. */
  lemma StandbyKeeps(s: State, w: World)
    ensures Sound(s) ==> Sound(StandbyIn(s)) && !StandbyIn(s).autoshift && Sound(StandbyOut(s, w))
    ensures StandbyIn(s).mode == STANDBY && StandbyIn(s).calls == s.calls
    ensures StandbyOut(s, w).mode != STANDBY && !StandbyOut(s, w).wasShift
  {
    if Sound(s) {
      StandbyInKeeps(s);
      StandbyOutKeeps(s, w);
      BreakAutoKeeps(s);
    }
  }

  lemma ScartOutKeeps(s: State, w: World)
    requires Sound(s)
    ensures Sound(ScartOut(s, w))
  {
    StandbyInKeeps(s.(mode := UNKNOWN));
    ResumeKeeps(s.(mode := UNKNOWN), w);
  }

  /** A lost autoshift stays lost when the receiver leaves the scart input. */
  lemma ScartOutLoses(s: State, w: World)
    requires s.autoshift && s.recordingStatus == 0
    ensures !Consistent(ScartOut(s, w)) && ScartOut(s, w).calls == s.calls
  {
  }

  lemma LeaveScartKeeps(s: State, w: World)
    requires Sound(s)
    ensures Consistent(LeaveScart(s, w)) <==> !(s.autoshift && w.registered && w.vcr && w.recording)
    ensures Exclusive(LeaveScart(s, w).calls)
  {
    if w.registered && w.vcr && w.recording {
      if s.autoshift {
        ScartOutLoses(s.(recordingStatus := 0), w);
      } else {
        ScartOutKeeps(s.(recordingStatus := 0), w);
      }
    } else {
      ScartOutKeeps(s, w);
    }
  }

  lemma PauseKeeps(s: State, w: World)
    requires Sound(s)
    ensures Sound(Pause(s, w))
  {
    if s.recordingStatus == 0 {
      GuiRecordKeeps(s.(recordingStatus := 1, timeshiftStatus := 1), w, true);
    }
  }

  lemma RecordKeyKeeps(s: State, start: bool, w: World)
    requires Sound(s)
    ensures Sound(RecordKey(s, start, w))
  {
    BreakAutoKeeps(s);
    GuiRecordKeeps(BreakAuto(s).(recordingStatus := 1), w, true);
  }

  lemma StopRecordKeeps(s: State, event: int, w: World)
    requires Sound(s)
    ensures Sound(StopRecord(s, event, w))
  {
  }

  lemma ZapToKeeps(s: State, radio: bool, tv: bool, w: World)
    requires Sound(s)
    ensures Sound(ZapToTimer(s, radio, tv, w))
  {
    RadioModeKeeps(s, false, w);
    TvModeKeeps(s, false, w);
    ZapKeeps(RadioMode(s, false, w), w);
    ZapKeeps(TvMode(s, false, w), w);
    ZapKeeps(s, w);
  }

  lemma ModeKeeps(s: State, to: Mode, rezap: bool, w: World)
    requires Sound(s)
    ensures Sound(ChangeTo(s, to, rezap, w))
  {
    RadioModeKeeps(s, rezap, w);
    TvModeKeeps(s, rezap, w);
    StandbyInKeeps(s);
  }

  /** The keys, the menus, and the messages about recordings. */
  lemma RecordingStepKeeps(s: State, m: Message, w: World)
    requires Sound(s) && !ChangesMode(m)
    ensures Consistent(Step(s, m, w)) <==> !Forgets(s, m, w)
    ensures Exclusive(Step(s, m, w).calls)
  {
    match m {
      case Timer(id) => StartAutoKeeps(s.(shiftTimer := 0), w);
      case KeyPause => PauseKeeps(s, w);
      case KeyRecord => RecordKeyKeeps(s, true, w);
      case KeyStop => RecordKeyKeeps(s, false, w);
      case RecordStart(event) => BreakAutoKeeps(s); StartNextKeeps(BreakAuto(s).(next := Some(event)), w);
      case RecordStop(event) => StopRecordKeeps(s, event, w);
      case StartRecording(addTimer) => GuiRecordKeeps(s, w, addTimer);
      case TimeshiftSetting => StartAutoKeeps(s, w); BreakAutoKeeps(s);
      case _ => BreakAutoKeeps(s);
    }
  }

  predicate ChangesMode(m: Message) {
    || m in {KeyHome, TvRadioSwitch, AnnounceZapTo, SleepTimer, StandbyToggle, StandbyOn, StandbyOff, VcrOn, VcrOff, Zap}
    || m.ZapTo? || m.ChangeMode?
  }

  lemma ModeStepKeeps(s: State, m: Message, w: World)
    requires Sound(s) && ChangesMode(m)
    ensures Consistent(Step(s, m, w)) <==> !Forgets(s, m, w)
    ensures Exclusive(Step(s, m, w).calls)
  {
    match m {
      case KeyHome => LeaveScartKeeps(s, w);
      case TvRadioSwitch => RadioModeKeeps(s, true, w); TvModeKeeps(s, true, w);
      case ZapTo(radio, tv) => ZapToKeeps(s, radio, tv, w);
      case AnnounceZapTo => StandbyOutKeeps(s, w);
      case StandbyToggle => StandbyInKeeps(s); StandbyOutKeeps(s, w);
      case SleepTimer => StandbyInKeeps(s);
      case StandbyOn => StandbyInKeeps(s);
      case StandbyOff => StandbyOutKeeps(s, w);
      case ChangeMode(to, rezap) => ModeKeeps(s, to, rezap, w);
      case VcrOff => ScartOutKeeps(s, w);
      case Zap => ZapKeeps(s, w);
      case VcrOn =>
    }
  }

  /** Every message keeps the state consistent, except exactly those that end a recording without
      looking at autoshift; and whoever asks to record, only timeshift does so with autoshift set. */
  lemma StepKeeps(s: State, m: Message, w: World)
    requires Sound(s)
    ensures Consistent(Step(s, m, w)) <==> !Forgets(s, m, w)
    ensures Exclusive(Step(s, m, w).calls)
  {
    if ChangesMode(m) {
      ModeStepKeeps(s, m, w);
    } else {
      RecordingStepKeeps(s, m, w);
    }
  }

  /** A message and the world it meets. */
  datatype Input = Input(m: Message, w: World)

  function Run(s: State, inputs: seq<Input>): State
    decreases |inputs|
  {
    if inputs == [] then s else Run(Step(s, inputs[0].m, inputs[0].w), inputs[1..])
  }

  /** No message of the run ends a recording without looking at autoshift. */
  predicate Careful(s: State, inputs: seq<Input>)
    decreases |inputs|
  {
    inputs == [] || (!Forgets(s, inputs[0].m, inputs[0].w) && Careful(Step(s, inputs[0].m, inputs[0].w), inputs[1..]))
  }

  predicate Fresh(s: State) {
    s.recordingStatus == 0 && !s.autoshift && s.next == None && s.calls == []
  }

  lemma {:induction false} RunKeeps(s: State, inputs: seq<Input>)
    requires Sound(s) && Careful(s, inputs)
    ensures Sound(Run(s, inputs))
    decreases |inputs|
  {
    if inputs != [] {
      StepKeeps(s, inputs[0].m, inputs[0].w);
      RunKeeps(Step(s, inputs[0].m, inputs[0].w), inputs[1..]);
    }
  }

  /** In every careful run from the start, autoshift implies a recording, no recording waits, and
      recordings of the user and of timers never start during autoshift. */
  lemma TimeshiftExclusion(s: State, inputs: seq<Input>)
    requires Fresh(s) && Careful(s, inputs)
    ensures Sound(Run(s, inputs))
  {
    RunKeeps(s, inputs);
  }

  // The question box

  /** The record or the stop key while something is recorded: the box handles messages of its own
      until it is answered, and only then is the recording ended. */
  function AskedKey(s: State, start: bool, inner: seq<Input>, w: World): State {
    var t := BreakAuto(s);
    if t.recordingStatus == 0 then RecordKey(s, start, w)
    else
      var u := Run(t, inner);
      if w.yes then u.(recordingStatus := 0) else u
  }

  /** Handled in one piece the key is the one above. */
  lemma AskedAtOnce(s: State, start: bool, w: World)
    ensures AskedKey(s, start, [], w) == RecordKey(s, start, w)
  {
  }

  /** What happened behind the box is not looked at: the state stays consistent exactly unless
      autoshift was set there and the answer is yes. */
  lemma AskedKeyKeeps(s: State, start: bool, inner: seq<Input>, w: World)
    requires Sound(s) && Careful(BreakAuto(s), inner)
    ensures var asked := BreakAuto(s).recordingStatus != 0;
      Consistent(AskedKey(s, start, inner, w)) <==> !(asked && w.yes && Run(BreakAuto(s), inner).autoshift)
    ensures Exclusive(AskedKey(s, start, inner, w).calls)
  {
    BreakAutoKeeps(s);
    RunKeeps(BreakAuto(s), inner);
    RecordKeyKeeps(s, start, w);
  }

  /** It happens: behind the box the recording's timer stops it and the shift timer starts
      timeshift; with "yes" autoshift is left without a recording. */
  lemma QuestionBoxSpoils(s: State, timer: int, w: World)
    requires Sound(s) && s.recordingStatus != 0 && !s.autoshift && s.shiftTimer == timer
    requires w.registered && w.recording && w.starts && w.yes
    ensures var inner := [Input(RecordStop(s.recordingId), w), Input(Timer(timer), w)];
      Careful(BreakAuto(s), inner) && !Consistent(AskedKey(s, false, inner, w))
  {
    var inner := [Input(RecordStop(s.recordingId), w), Input(Timer(timer), w)];
    var a := Step(s, inner[0].m, inner[0].w);
    var b := Step(a, inner[1].m, inner[1].w);
    assert inner[1..] == [inner[1]] && inner[1..][1..] == [];
    assert Run(s, inner) == Run(a, inner[1..]);
    assert Run(a, inner[1..]) == Run(b, []);
    assert Careful(a, inner[1..]) && Careful(s, inner);
  }

  /** A timer's recording always takes over: it starts without autoshift, whatever ran before. */
  lemma TimerTakesOver(s: State, event: int, w: World)
    requires Sound(s) && w.registered
    ensures var t := Step(s, RecordStart(event), w);
            && !t.autoshift && t.recordingId == event
            && (t.recordingStatus != 0 <==> w.starts)
            && t.calls == s.calls + [Call(Next, false)]
  {
    BreakAutoKeeps(s);
  }

  /** Standby and back: watching television goes on, with permanent timeshift exactly if it was on
      and the device lets it start again. */
  lemma StandbyRestores(s: State, w: World)
    requires Sound(s) && s.mode == TV && !s.wasShift && w.registered
    ensures var t := Step(Step(s, StandbyOn, w), StandbyOff, w);
            && t.mode == TV && !t.wasShift && (t.autoshift <==> s.autoshift && w.starts)
            && (!s.autoshift ==> t.recordingStatus == s.recordingStatus && t.calls == s.calls)
  {
    BreakAutoKeeps(s);
  }

  /** After a careless message the next timer recording is asked for during autoshift, and only
      after one: the condition of being careful cannot be dropped anywhere. */
  lemma ForgettingShows(s: State, m: Message, w: World, event: int, v: World)
    requires Sound(s) && v.registered
    ensures Forgets(s, m, w) <==> !Exclusive(Step(Step(s, m, w), RecordStart(event), v).calls)
  {
    StepKeeps(s, m, w);
    var t := Step(s, m, w);
    if Forgets(s, m, w) {
      var u := Step(t, RecordStart(event), v);
      assert u.calls[|u.calls| - 1] == Call(Next, true);
    } else {
      StepKeeps(t, RecordStart(event), v);
    }
  }

  /** A run that shows it: permanent timeshift starts, zapit reports the record mode off, and a
      timer recording starts with autoshift still set. */
  lemma RecordModeOffSpoils(s: State, timer: int, event: int, w: World)
    requires Fresh(s) && s.shiftTimer == timer && w.registered && w.starts
    ensures !Exclusive(Run(s, [Input(Timer(timer), w), Input(RecordMode(0), w), Input(RecordStart(event), w)]).calls)
  {
    var inputs := [Input(Timer(timer), w), Input(RecordMode(0), w), Input(RecordStart(event), w)];
    var a := Step(s, Timer(timer), w);
    assert a.autoshift && Sound(a);
    ForgettingShows(a, RecordMode(0), w, event, w);
    RunOfThree(s, inputs);
  }

  lemma RunOfThree(s: State, i: seq<Input>)
    requires |i| == 3
    ensures Run(s, i) == Step(Step(Step(s, i[0].m, i[0].w), i[1].m, i[1].w), i[2].m, i[2].w)
  {
    var a := Step(s, i[0].m, i[0].w);
    var b := Step(a, i[1].m, i[1].w);
    assert i[1..][1..] == i[2..] && i[2..][1..] == [];
    assert Run(s, i) == Run(a, i[1..]);
    assert Run(a, i[1..]) == Run(b, i[2..]);
    assert Run(b, i[2..]) == Run(Step(b, i[2].m, i[2].w), []);
  }
}
