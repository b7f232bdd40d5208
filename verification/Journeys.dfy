/** What two messages in a row come to. */
module Journeys {
  import opened Timeshift
  import opened Effects

  /** The record key starts the user's recording, and the stop key with a yes ends it again, and
      changes nothing else. */
  lemma RecordThenStop(s: State, w: World, v: World)
    requires Sound(s) && Watching(s.mode) && Idle(s) && w.registered && w.starts && v.yes
    ensures var t := Step(s, KeyRecord, w);
      && t.recordingStatus == 1 && t.recordingId == w.newId && !t.autoshift && t.calls == s.calls + [Call(Gui, false)]
      && Step(t, KeyStop, v) == t.(recordingStatus := 0)
  {
    RecordKeyBrings(s, w);
  }

  /** A recording that the user does not want to end goes on, whatever key was pressed, and none is
      asked for beside it. */
  lemma RecordingGoesOn(s: State, w: World)
    requires Sound(s) && Watching(s.mode) && !Idle(s) && !w.yes
    ensures Step(s, KeyRecord, w) == s && Step(s, KeyStop, w) == s
  {
  }

  /** A timer's recording is started and, at its end, stopped. */
  lemma TimerRecords(s: State, event: int, w: World, v: World)
    requires Sound(s) && w.registered && w.starts && v.registered && v.recording
    ensures var t := Step(s, RecordStart(event), w); var u := Step(t, RecordStop(event), v);
      && t.recordingStatus == 1 && t.recordingId == event && t.calls == s.calls + [Call(Next, false)]
      && u == t.(recordingStatus := 0, timeshiftStatus := 0)
  {
    RecordStartBrings(s, w, event);
  }

  /** Permanent timeshift begins some time after zapping, unless something is recorded or it is not
      wanted. */
  lemma ZapStartsShift(s: State, w: World, v: World)
    requires Sound(s) && w.newTimer != 0
    ensures var u := Step(Step(s, ZapComplete, w), Timer(w.newTimer), v);
      if s.recordingStatus == 0 && w.autoTimeshift && v.registered then
        && u.calls == s.calls + [Call(Auto, true)] && u.shiftTimer == 0
        && (u.autoshift <==> v.starts) && (u.recordingStatus == 1 <==> v.starts)
      else
        u.calls == s.calls && u.recordingStatus == s.recordingStatus && u.autoshift == s.autoshift
  {
    TimerBrings(Step(s, ZapComplete, w), v, w.newTimer);
  }

  /** On a web channel the pause key pauses and the play key goes on. */
  lemma PauseThenPlay(s: State, w: World, v: World)
    requires Sound(s) && Watching(s.mode) && w.webTv && v.webTv
    ensures Step(s, KeyPause, w).timeshiftStatus == 1
    ensures Step(Step(s, KeyPause, w), KeyPlay, v) == s.(timeshiftStatus := 0)
  {
  }

  /** The scart input and back: the receiver is where it was, if it was not playing; a recording
      goes on, but no permanent timeshift. Where it was before standby is forgotten. */
  lemma ScartAndBack(s: State, w: World, v: World)
    requires Sound(s) && s.mode != SCART
    ensures var t := Step(Step(s, VcrOn, w), VcrOff, v);
      && t.mode == (if Watching(s.mode) || s.mode == STANDBY then s.mode else UNKNOWN)
      && t.lastMode == (if s.mode == STANDBY then UNKNOWN else s.mode)
      && t.calls == s.calls && (t.autoshift <==> s.autoshift && t.mode == UNKNOWN)
      && (!s.autoshift ==> t.recordingStatus == s.recordingStatus)
  {
    ScartOutBrings(ScartIn(s), VcrOff, v);
  }

  /** From television to radio and back, or from radio: only permanent timeshift is over. */
  lemma SwitchAndBack(s: State, w: World, v: World)
    requires Sound(s) && Watching(s.mode)
    ensures var t := Step(Step(s, TvRadioSwitch, w), TvRadioSwitch, v);
            !t.autoshift && t.mode == s.mode && t.calls == s.calls && (!s.autoshift ==> t == s)
  {
  }
}
