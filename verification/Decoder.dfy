/** What the AViA decoder is told to play: play states, pids and stream types, kept in step with its commands. */
module Decoder {

  const NONE: nat := 0xFFFF

  const PAUSED: nat := 1
  const PLAYING: nat := 2
  const STOPPED: nat := 3

  const TYPE_0: nat := 0
  const TYPE_SPTS: nat := 1
  const TYPE_PES: nat := 2
  const TYPE_ES: nat := 3

  const AUDIO: nat := 1
  const VIDEO: nat := 2

  datatype Command =
    | Select(stream: nat, pid: nat)
    | Play(mode: nat, video: nat, audio: nat)
    | NewChannel(mode: nat, video: nat, audio: nat)
    | SetStreamType(code: nat, pid: nat)
    | Freeze | Resume | Abort | Reset

  datatype Answer = Done | Invalid | Busy

  // ---------------------------------------------------------------- the decoder's side

  /** What the decoder has been told to take: the pids selected last, and its stream layout.
      Streams 2 and 3 are the one audio slot, without and with decoding. */
  datatype Selection = Selection(video: nat, audio: nat, layout: Layout)

  datatype Layout = Unset | Zero | Separate(video: nat, audio: nat) | Spts

  function Obey(s: Selection, c: Command): Selection {
    match c
    case Select(stream, pid) =>
      if stream == 0 then s.(video := pid) else if stream == 2 || stream == 3 then s.(audio := pid) else s
    case Play(_, video, audio) => s.(video := video, audio := audio)
    case NewChannel(_, video, audio) => s.(video := video, audio := audio)
    case SetStreamType(code, _) => s.(layout := Coded(code))
    case Reset => s.(layout := Spts) // back to transport streams
    case _ => s
  }

  function Coded(code: nat): Layout {
    if code == 0x00 then Zero
    else if code == 0x08 then Separate(TYPE_ES, TYPE_ES)
    else if code == 0x09 then Separate(TYPE_PES, TYPE_ES)
    else if code == 0x0A then Separate(TYPE_ES, TYPE_PES)
    else if code == 0x0B then Separate(TYPE_PES, TYPE_PES)
    else Spts
  }

  /** The pairs of stream types the decoder supports, and the layout each stands for. */
  ghost predicate Supported(video: nat, audio: nat) {
    video == TYPE_0 || (video == TYPE_SPTS && audio == TYPE_SPTS)
    || (video in {TYPE_PES, TYPE_ES} && audio in {TYPE_PES, TYPE_ES})
  }

  ghost function Meant(video: nat, audio: nat): Layout {
    if video == TYPE_0 then Zero else if video == TYPE_SPTS then Spts else Separate(video, audio)
  }

  predicate NamesVideo(c: Command) {
    (c.Select? && c.stream == 0 && c.pid != NONE) || (c.Play? && c.video != NONE)
  }

  predicate NamesAudio(c: Command) {
    (c.Select? && c.stream != 0 && c.pid != NONE) || (c.Play? && c.audio != NONE)
  }

  predicate PidFits(pid: nat) { pid <= 0x1FFF || pid == NONE }

  datatype Call =
    | SetAudio(state: nat)
    | SetVideo(state: nat)
    | SetTypes(video: nat, audio: nat)
    | SetPid(kind: nat, pid: nat)
    | SetBypass(enable: bool)
    | Watch(running: bool, decoded: nat, audioDecoded: nat)

  // ---------------------------------------------------------------- when video has a pid

  datatype Setup = Setup(revision: nat, sptsfix: int)

  /** What decides whether a call selects the video pid or takes it away. */
  datatype Mode = Mode(audio: nat, video: nat, pid: nat, bypass: bool, changed: bool, wakeups: nat, decoded: nat)

  const START: Mode := Mode(STOPPED, STOPPED, 0, false, false, 0, 0)

  predicate AudioMay(state: nat, was: nat) {
    state == PLAYING || (state == PAUSED && was == PLAYING) || (state == STOPPED && was != STOPPED)
  }

  predicate VideoMay(state: nat, was: nat) {
    (state == PLAYING && was != PLAYING) || (state == PAUSED && was == PLAYING) || (state == STOPPED && was != STOPPED)
  }

  function NextMode(m: Mode, call: Call): Mode {
    match call
    case SetAudio(state) =>
      if AudioMay(state, m.audio) then m.(audio := state, changed := state != PLAYING && m.changed) else m
    case SetVideo(state) => if VideoMay(state, m.video) then m.(video := state) else m
    case SetTypes(_, _) => m
    case SetPid(kind, pid) => if kind == VIDEO && PidFits(pid) then m.(pid := pid) else m
    case SetBypass(enable) => m.(bypass := enable, changed := m.changed || m.bypass != enable)
    case Watch(running, decoded, _) =>
      m.(wakeups := if m.wakeups >= 100 then 1 else m.wakeups + 1,
         decoded := if running && m.wakeups >= 100 && m.video == PLAYING then decoded else m.decoded)
  }

  /** Starting audio starts the decoder over, with both pids. */
  predicate Restarts(c: Setup, m: Mode) {
    c.revision != 0 && (m.changed || (c.sptsfix == 1 && m.audio != PAUSED))
  }

  /** The call selects the video pid: it starts video, or restarts it while it plays. */
  predicate Selects(c: Setup, m: Mode, call: Call) {
    match call
    case SetVideo(state) => state == PLAYING && m.video == STOPPED
    case SetAudio(state) => state == PLAYING && Restarts(c, m) && m.video == PLAYING
    case Watch(running, decoded, _) =>
      running && m.wakeups >= 100 && m.video == PLAYING && (decoded == 0 || decoded == m.decoded)
    case _ => false
  }

  /** The call takes the pid away from video that is not stopped: audio restarts the decoder under paused video, or
      the pid selected is the none pid. */
  predicate TakesAway(c: Setup, m: Mode, call: Call) {
    (call == SetAudio(PLAYING) && Restarts(c, m) && m.video == PAUSED) || (Selects(c, m, call) && m.pid == NONE)
  }

  function ModeAfter(calls: seq<Call>): Mode
    decreases |calls|
  {
    if calls == [] then START else NextMode(ModeAfter(calls[..|calls| - 1]), calls[|calls| - 1])
  }

  function Chosen(c: Setup, m: Mode, call: Call, was: nat): nat {
    if Selects(c, m, call) then m.pid else if TakesAway(c, m, call) then NONE else was
  }

  /** The pid selected, as long as video is not stopped. */
  function VideoAfter(c: Setup, calls: seq<Call>): nat
    decreases |calls|
  {
    if calls == [] then NONE
    else
      var front := calls[..|calls| - 1];
      Chosen(c, ModeAfter(front), calls[|calls| - 1], VideoAfter(c, front))
  }

  /** Call i took the pid away, and none since has selected one. */
  ghost predicate LeftWithout(c: Setup, calls: seq<Call>, i: nat)
    requires i < |calls|
  {
    TakesAway(c, ModeAfter(calls[..i]), calls[i])
    && forall j {:trigger calls[j]} :: i < j < |calls| ==> !Selects(c, ModeAfter(calls[..j]), calls[j])
  }

  ghost predicate Bereft(c: Setup, calls: seq<Call>) {
    exists i {:trigger calls[i]} :: 0 <= i < |calls| && LeftWithout(c, calls, i)
  }

  /** Video that is playing or paused has no pid exactly if some call took it away and none since has selected one. */
  lemma {:induction false} WithoutPid(c: Setup, calls: seq<Call>)
    requires ModeAfter(calls).video != STOPPED
    ensures VideoAfter(c, calls) == NONE <==> Bereft(c, calls)
    decreases |calls|
  {
    var last := |calls| - 1;
    var front := calls[..last];
    var m := ModeAfter(front);
    if Selects(c, m, calls[last]) || TakesAway(c, m, calls[last]) {
      assert LeftWithout(c, calls, last) <==> TakesAway(c, m, calls[last]);
      forall i | 0 <= i < last ensures Selects(c, m, calls[last]) ==> !LeftWithout(c, calls, i) { }
    } else {
      WithoutPid(c, front);
      assert !LeftWithout(c, calls, last);
      forall i | 0 <= i < last ensures LeftWithout(c, calls, i) <==> LeftWithout(c, front, i) {
        SameCalls(c, calls, i);
      }
    }
  }

  lemma SameCalls(c: Setup, calls: seq<Call>, i: nat)
    requires i < |calls| - 1
    requires !Selects(c, ModeAfter(calls[..|calls| - 1]), calls[|calls| - 1])
    ensures LeftWithout(c, calls, i) <==> LeftWithout(c, calls[..|calls| - 1], i)
  {
    var front := calls[..|calls| - 1];
    forall j | i <= j < |front| ensures front[j] == calls[j] && front[..j] == calls[..j] { }
  }

  // ---------------------------------------------------------------- the driver's side

  class Decoder {
    const revision: nat
    const sptsfix: int
    var bypass: bool
    var bypassChanged: bool
    var audioPid: nat
    var videoPid: nat
    var audioState: nat
    var videoState: nat
    var audioType: nat
    var videoType: nat
    var wakeups: nat
    var lastDecoded: nat
    var lastAudioDecoded: nat
    var selected: Selection
    var log: seq<Command>

    /** The one setting under which stopping the second of the two streams deselects nothing. */
    ghost predicate Careless() { sptsfix != 0 && sptsfix != 1 && revision != 0 }

    /** Nothing is selected for a stream that should not be running. */
    ghost predicate Quiet()
      reads this
    {
      (videoState == STOPPED ==> selected.video == NONE) && (audioState != PLAYING ==> selected.audio == NONE)
    }

    ghost predicate Valid()
      reads this
    {
      audioState in {PAUSED, PLAYING, STOPPED} && videoState in {PAUSED, PLAYING, STOPPED}
      && PidFits(audioPid) && PidFits(videoPid)
      && Supported(videoType, audioType) && selected.layout == Meant(videoType, audioType)
      && (!Careless() ==> Quiet())
    }

    /** Only adds commands, and those name a real pid only of the streams allowed. */
    twostate predicate NamesOnly(video: bool, audio: bool)
      reads `log
    {
      old(log) <= log
      && forall i {:trigger log[i]} :: |old(log)| <= i < |log| ==>
        (NamesVideo(log[i]) ==> video) && (NamesAudio(log[i]) ==> audio)
    }

    /** What every call keeps: real pids are named only of streams that play when it is over. */
    twostate predicate Discreet()
      reads this
    {
      NamesOnly(videoState == PLAYING, audioState == PLAYING)
    }

    /** The mode moves as the call says, and so does the pid of video that is not stopped. */
    twostate predicate Moves(call: Call)
      reads this
    {
      Now() == NextMode(old(Now()), call)
      && (videoState != STOPPED ==> selected.video == Chosen(Setting(), old(Now()), call, old(selected.video)))
    }

    constructor (revision: nat, sptsfix: int)
      ensures Valid() && Quiet()
      ensures this.revision == revision && this.sptsfix == sptsfix
      ensures videoState == audioState == STOPPED && !bypass && !bypassChanged
      ensures videoPid == audioPid == 0 && Now() == START
      ensures log == [Reset, Reset, Select(0, NONE), Select(3, NONE), Play(0, NONE, NONE)]
    {
      this.revision, this.sptsfix := revision, sptsfix;
      bypass, bypassChanged := false, false;
      audioPid, videoPid := 0, 0;
      audioState, videoState := STOPPED, STOPPED;
      audioType, videoType := TYPE_SPTS, TYPE_SPTS;
      wakeups, lastDecoded, lastAudioDecoded := 0, 0, 0;
      selected, log := Selection(NONE, NONE, Unset), [];
      new;
      Tell(Reset);
      Tell(Reset);
      Tell(Select(0, NONE));
      Tell(Select(3, NONE));
      Tell(Play(0, NONE, NONE));
    }

    method Tell(c: Command)
      modifies `log, `selected
      ensures log == old(log) + [c]
      ensures selected == Obey(old(selected), c)
    {
      log, selected := log + [c], Obey(selected, c);
    }

    function AudioStream(): nat
      reads `bypass
    {
      if bypass then 2 else 3
    }

    ghost function Now(): Mode
      reads this
    {
      Mode(audioState, videoState, videoPid, bypass, bypassChanged, wakeups, lastDecoded)
    }

    ghost function Setting(): Setup { Setup(revision, sptsfix) }

    function RunningVideo(): nat
      reads this
    {
      if videoState == PLAYING then videoPid else NONE
    }

    method SetBypass(enable: bool)
      requires Valid()
      modifies `bypass, `bypassChanged, `log, `selected
      ensures Valid() && Discreet()
      ensures bypass == enable && bypassChanged == (old(bypassChanged) || old(bypass) != enable)
      ensures selected == old(selected)
      ensures log == old(log) + if old(bypass) != enable && revision != 0 then [Abort] else []
    {
      if bypass == enable { return; }
      if revision != 0 { Tell(Abort); }
      bypass, bypassChanged := enable, true;
    }

    method SetPid(kind: nat, pid: nat) returns (r: Answer)
      requires Valid()
      modifies `audioPid, `videoPid
      ensures Valid() && Discreet()
      ensures r == if PidFits(pid) && kind in {AUDIO, VIDEO} then Done else Invalid
      ensures audioPid == if r.Done? && kind == AUDIO then pid else old(audioPid)
      ensures videoPid == if r.Done? && kind == VIDEO then pid else old(videoPid)
    {
      if pid > 0x1FFF && pid != NONE { return Invalid; }
      if kind == AUDIO {
        audioPid := pid;
      } else if kind == VIDEO {
        videoPid := pid;
      } else {
        return Invalid;
      }
      r := Done;
    }

    /** The commands that start audio. */
    ghost function StartCommands(): seq<Command>
      reads this
    {
      var video := if videoState == PLAYING then videoPid else NONE;
      [Select(if bypass then 2 else 3, audioPid)]
      + (if revision != 0 && bypassChanged then [Select(0, video), Play(0, video, audioPid)] else [])
      + if sptsfix == 1 && revision != 0 && audioState != PAUSED then [Play(0, video, audioPid)] else []
    }

    /** The commands that stop a stream, which may be the last one. */
    ghost function StopCommands(stream: nat, last: bool): seq<Command> {
      if !last then [Select(stream, NONE)]
      else (if sptsfix == 1 && revision != 0 then [Select(stream, NONE), Abort] else [])
           + if sptsfix == 0 || revision == 0 then [NewChannel(0, NONE, NONE)] else []
    }

    /** The commands of an allowed change of audio or video. */
    ghost function AudioCommands(state: nat): seq<Command>
      reads this
    {
      if state == PLAYING then StartCommands()
      else if state == PAUSED then [Select(if bypass then 2 else 3, NONE)]
      else StopCommands(if bypass then 2 else 3, videoState == STOPPED)
    }

    ghost function VideoCommands(state: nat): seq<Command>
      reads this
    {
      if state == PAUSED then [Freeze]
      else if state == STOPPED then StopCommands(0, audioState == STOPPED)
      else if videoState == PAUSED then [Resume] else [Select(0, videoPid)]
    }

    method StartAudio()
      requires PidFits(audioPid)
      modifies `log, `selected
      ensures NamesOnly(videoState == PLAYING, true)
      ensures selected == old(selected).(audio := audioPid,
        video := if Restarts(Setting(), Now()) then RunningVideo() else old(selected.video))
      ensures log == old(log) + old(StartCommands())
    {
      Tell(Select(AudioStream(), audioPid));
      if revision != 0 && bypassChanged {
        Tell(Select(0, RunningVideo()));
        Tell(Play(0, RunningVideo(), audioPid));
      }
      if sptsfix == 1 {
        if revision != 0 && audioState != PAUSED { Tell(Play(0, RunningVideo(), audioPid)); }
      }
    }

    /** Stops one stream; the way depends on whether it is the last one. */
    method StopStream(stream: nat, last: bool)
      requires stream in {0, 2, 3}
      modifies `log, `selected
      ensures NamesOnly(false, false)
      ensures selected ==
        if last && (sptsfix == 0 || revision == 0) then old(selected).(video := NONE, audio := NONE)
        else if last && sptsfix != 1 then old(selected)
        else if stream == 0 then old(selected).(video := NONE)
        else old(selected).(audio := NONE)
      ensures log == old(log) + StopCommands(stream, last)
    {
      if last {
        if sptsfix == 1 {
          if revision != 0 {
            Tell(Select(stream, NONE));
            Tell(Abort);
          }
        }
        if sptsfix == 0 || revision == 0 { Tell(NewChannel(0, NONE, NONE)); }
      } else {
        Tell(Select(stream, NONE));
      }
    }

    method SetAudio(state: nat) returns (r: Answer)
      requires Valid()
      modifies `audioState, `bypassChanged, `log, `selected
      ensures Valid() && Discreet()
      ensures r == if AudioMay(state, old(audioState)) then Done else Invalid
      ensures r.Invalid? ==> unchanged(this)
      ensures r.Done? ==> audioState == state && bypassChanged == (state != PLAYING && old(bypassChanged))
      ensures r.Done? && state == PLAYING ==> selected.audio == audioPid
      ensures r.Done? && state == PLAYING ==>
        selected.video == if Restarts(Setting(), old(Now())) then RunningVideo() else old(selected.video)
      ensures r.Done? && state != PLAYING ==>
        selected.audio == if Careless() && state == videoState == STOPPED then old(selected.audio) else NONE
      ensures r.Done? && state != PLAYING && videoState != STOPPED ==> selected.video == old(selected.video)
      ensures r.Done? ==> log == old(log) + old(AudioCommands(state))
    {
      if state == PAUSED {
        if audioState != PLAYING { return Invalid; }
        Tell(Select(AudioStream(), NONE));
      } else if state == PLAYING {
        StartAudio();
        bypassChanged := false;
      } else if state == STOPPED {
        if audioState != PAUSED && audioState != PLAYING { return Invalid; }
        StopStream(AudioStream(), videoState == STOPPED);
      } else {
        return Invalid;
      }
      audioState := state;
      r := Done;
    }

    method SetVideo(state: nat) returns (r: Answer)
      requires Valid()
      modifies `videoState, `log, `selected
      ensures Valid() && Discreet()
      ensures r == if VideoMay(state, old(videoState)) then Done else Invalid
      ensures r.Invalid? ==> unchanged(this)
      ensures r.Done? ==> videoState == state
      ensures r.Done? && state == PLAYING && old(videoState) == STOPPED ==> selected.video == videoPid
      ensures r.Done? && PAUSED in {state, old(videoState)} && state != STOPPED ==>
        selected.video == old(selected.video)
      ensures r.Done? && state == STOPPED ==>
        selected.video == if Careless() && audioState == STOPPED then old(selected.video) else NONE
      ensures r.Done? && (state != STOPPED || audioState != STOPPED || Careless()) ==>
        selected.audio == old(selected.audio)
      ensures r.Done? ==> log == old(log) + old(VideoCommands(state))
    {
      if state == PAUSED {
        if videoState != PLAYING { return Invalid; }
        Tell(Freeze);
      } else if state == PLAYING {
        if videoState == PLAYING {
          return Invalid;
        } else if videoState == PAUSED {
          Tell(Resume);
        } else {
          Tell(Select(0, videoPid));
        }
      } else if state == STOPPED {
        if videoState != PAUSED && videoState != PLAYING { return Invalid; }
        StopStream(0, audioState == STOPPED);
      } else {
        return Invalid;
      }
      videoState := state;
      r := Done;
    }

    /** The commands that set a pair of stream types. */
    ghost function TypeCommands(video: nat, audio: nat): seq<Command>
      reads this
    {
      if video == videoType && audio == audioType then []
      else if video == TYPE_0 then [SetStreamType(0x00, 0)]
      else if video == TYPE_ES then [SetStreamType(if audio == TYPE_ES then 0x08 else 0x0A, 0)]
      else if video == TYPE_PES then [SetStreamType(if audio == TYPE_ES then 0x09 else 0x0B, 0)]
      else if revision != 0 then [Reset]
      else [SetStreamType(0x10, audioPid), SetStreamType(0x11, videoPid)]
    }

    method SetTypes(video: nat, audio: nat) returns (r: Answer)
      requires Valid()
      modifies `audioType, `videoType, `log, `selected
      ensures Valid() && Discreet()
      ensures r == if videoState != STOPPED || audioState != STOPPED then Busy
                   else if Supported(video, audio) then Done else Invalid
      ensures !r.Done? ==> unchanged(this)
      ensures r.Done? ==> videoType == video && audioType == audio
      ensures selected.video == old(selected.video) && selected.audio == old(selected.audio)
      ensures r.Done? ==> log == old(log) + old(TypeCommands(video, audio))
    {
      if videoState != STOPPED || audioState != STOPPED { return Busy; }
      if video == videoType && audio == audioType { return Done; }
      if video == TYPE_0 {
        Tell(SetStreamType(0x00, 0x0000));
      } else if video == TYPE_ES {
        if audio == TYPE_ES {
          Tell(SetStreamType(0x08, 0x0000));
        } else if audio == TYPE_PES {
          Tell(SetStreamType(0x0A, 0x0000));
        } else {
          return Invalid;
        }
      } else if video == TYPE_PES {
        if audio == TYPE_ES {
          Tell(SetStreamType(0x09, 0x0000));
        } else if audio == TYPE_PES {
          Tell(SetStreamType(0x0B, 0x0000));
        } else {
          return Invalid;
        }
      } else if video == TYPE_SPTS {
        if audio != TYPE_SPTS { return Invalid; }
        if revision != 0 {
          Tell(Reset);
        } else {
          Tell(SetStreamType(0x10, audioPid));
          Tell(SetStreamType(0x11, videoPid));
        }
      } else {
        return Invalid;
      }
      audioType, videoType := audio, video;
      r := Done;
    }

    method WatchVideo(decoded: nat)
      modifies `lastDecoded, `log, `selected
      ensures Discreet()
      ensures selected == old(selected).(video := if videoState == PLAYING
        && (decoded == 0 || decoded == old(lastDecoded)) then videoPid else old(selected.video))
      ensures lastDecoded == if videoState == PLAYING then decoded else old(lastDecoded)
      ensures log == old(log)
        + if videoState == PLAYING && (decoded == 0 || decoded == old(lastDecoded)) then [Select(0, videoPid)] else []
    {
      if videoState == PLAYING {
        if decoded == 0 || decoded == lastDecoded { Tell(Select(0, videoPid)); }
        lastDecoded := decoded;
      }
    }

    method WatchAudio(audioDecoded: nat)
      modifies `lastAudioDecoded, `log, `selected
      ensures Discreet()
      ensures selected == old(selected).(audio := if audioState == PLAYING
        && (audioDecoded == 0 || audioDecoded == old(lastAudioDecoded)) then audioPid else old(selected.audio))
      ensures log == old(log)
        + if audioState == PLAYING && (audioDecoded == 0 || audioDecoded == old(lastAudioDecoded))
          then [Select(if bypass then 2 else 3, audioPid)] else []
    {
      if audioState == PLAYING {
        if audioDecoded == 0 || audioDecoded == lastAudioDecoded { Tell(Select(AudioStream(), audioPid)); }
        lastAudioDecoded := audioDecoded;
      }
    }

    /** One wake-up of the watchdog thread; every hundredth looks at the decoder's counters. */
    method Watch(running: bool, decoded: nat, audioDecoded: nat)
      requires Valid()
      modifies `wakeups, `lastDecoded, `lastAudioDecoded, `log, `selected
      ensures Valid() && Discreet()
      ensures selected.video == if running && videoState == PLAYING && old(wakeups) >= 100
          && (decoded == 0 || decoded == old(lastDecoded)) then videoPid else old(selected.video)
      ensures selected.audio == if running && audioState == PLAYING && old(wakeups) >= 100
          && (audioDecoded == 0 || audioDecoded == old(lastAudioDecoded)) then audioPid else old(selected.audio)
      ensures wakeups == if old(wakeups) >= 100 then 1 else old(wakeups) + 1
      ensures lastDecoded ==
        if running && videoState == PLAYING && old(wakeups) >= 100 then decoded else old(lastDecoded)
      ensures log == old(log)
        + (if running && videoState == PLAYING && old(wakeups) >= 100
             && (decoded == 0 || decoded == old(lastDecoded)) then [Select(0, videoPid)] else [])
        + if running && audioState == PLAYING && old(wakeups) >= 100
            && (audioDecoded == 0 || audioDecoded == old(lastAudioDecoded))
          then [Select(if bypass then 2 else 3, audioPid)] else []
    {
      if wakeups >= 100 {
        if running {
          WatchVideo(decoded);
          WatchAudio(audioDecoded);
        }
        wakeups := 0;
      }
      wakeups := wakeups + 1;
    }

    /** Whatever is called: video keeps its pid but for the calls that take it away, and stream types change only while
        both streams are stopped. */
    method Perform(call: Call)
      requires Valid()
      modifies this
      ensures Valid() && Discreet() && Moves(call)
      ensures (videoType, audioType) != old((videoType, audioType)) ==>
        videoState == old(videoState) == audioState == old(audioState) == STOPPED
    {
      match call
      case SetAudio(state) => var r := SetAudio(state);
      case SetVideo(state) => var r := SetVideo(state);
      case Watch(running, decoded, audioDecoded) => Watch(running, decoded, audioDecoded);
      case _ => PerformSetting(call);
    }

    method PerformSetting(call: Call)
      requires Valid() && (call.SetTypes? || call.SetPid? || call.SetBypass?)
      modifies this
      ensures Valid() && Discreet() && Moves(call)
      ensures (videoType, audioType) != old((videoType, audioType)) ==>
        videoState == old(videoState) == audioState == old(audioState) == STOPPED
    {
      match call
      case SetTypes(video, audio) => var r := SetTypes(video, audio);
      case SetPid(kind, pid) => var r := SetPid(kind, pid);
      case SetBypass(enable) => SetBypass(enable);
    }

    /** The decoder is where these calls lead. */
    ghost predicate Follows(calls: seq<Call>)
      reads this
    {
      Valid() && Now() == ModeAfter(calls)
      && (videoState != STOPPED ==> selected.video == VideoAfter(Setting(), calls))
    }

    method PerformNext(call: Call, ghost calls: seq<Call>)
      requires Follows(calls)
      modifies this
      ensures Follows(calls + [call])
    {
      OneMore(Setting(), calls, call);
      Perform(call);
    }
  }

  lemma OneMore(c: Setup, calls: seq<Call>, call: Call)
    ensures ModeAfter(calls + [call]) == NextMode(ModeAfter(calls), call)
    ensures VideoAfter(c, calls + [call]) == Chosen(c, ModeAfter(calls), call, VideoAfter(c, calls))
  {
    assert (calls + [call])[..|calls|] == calls;
  }

  /** Every run of every decoder that is not set up carelessly leaves nothing selected for stopped streams; video that
      is not stopped has what its calls have chosen, and none exactly if it was taken away since. */
  method Run(revision: nat, sptsfix: int, calls: seq<Call>) returns (d: Decoder)
    ensures fresh(d) && d.Valid() && d.revision == revision && d.sptsfix == sptsfix
    ensures sptsfix == 0 || sptsfix == 1 || revision == 0 ==> d.Quiet()
    ensures d.Now() == ModeAfter(calls)
    ensures d.videoState != STOPPED ==> d.selected.video == VideoAfter(Setup(revision, sptsfix), calls)
    ensures d.videoState != STOPPED ==> (d.selected.video == NONE <==> Bereft(Setup(revision, sptsfix), calls))
  {
    d := new Decoder(revision, sptsfix);
    for i := 0 to |calls|
      invariant d.Follows(calls[..i])
    {
      d.PerformNext(calls[i], calls[..i]);
      assert calls[..i + 1] == calls[..i] + [calls[i]];
    }
    assert calls[..|calls|] == calls;
    if d.videoState != STOPPED { WithoutPid(d.Setting(), calls); }
  }

  /** With any other setting some run leaves a stopped stream selected. */
  method LeftSelected(revision: nat, sptsfix: int, pid: nat) returns (d: Decoder)
    requires revision != 0 && sptsfix != 0 && sptsfix != 1 && pid <= 0x1FFF
    ensures fresh(d) && d.revision == revision && d.sptsfix == sptsfix
    ensures d.videoState == d.audioState == STOPPED && d.selected.video == d.selected.audio == pid
    ensures !d.Quiet()
  {
    d := new Decoder(revision, sptsfix);
    var r := d.SetPid(VIDEO, pid);
    r := d.SetPid(AUDIO, pid);
    r := d.SetAudio(PLAYING);
    r := d.SetAudio(STOPPED);
    r := d.SetVideo(PLAYING);
    r := d.SetVideo(STOPPED);
  }

  /** The converse does not hold: restarting audio under paused video drops the video pid, and resuming does not
      bring it back. */
  method ResumedWithoutPid(pid: nat) returns (d: Decoder)
    requires pid <= 0x1FFF
    ensures fresh(d) && d.sptsfix == 1
    ensures d.videoState == PLAYING && d.videoPid == pid && d.selected.video == NONE
  {
    d := new Decoder(1, 1);
    var r := d.SetPid(VIDEO, pid);
    r := d.SetVideo(PLAYING);
    r := d.SetVideo(PAUSED);
    r := d.SetAudio(PLAYING);
    r := d.SetVideo(PLAYING);
  }
}
