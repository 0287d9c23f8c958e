/** The Player's state and its operations as transitions on values.

    A `State` is what a `Player` object holds: the playlist (each entry with
    its title, source files, sound handle and visual state), the selected
    index, the two interaction flags and the engine's global volume.  Each
    operation of the player is a function from the old state to the new
    one; the class `TinyPlayer.Player` is proved to carry these out.

    The main invariant is `Exclusive`: no entry other than the selected one
    is playing.  `ToggleTo` and `Pause` keep it, `Play` keeps it when it
    does not start a second sound, and `Stop` on another entry breaks it
    whenever the selected one is playing. */
module PlayerModel {

  import opened Wrappers
  import opened TimeFormat
  import opened Engine
  import opened SongUi
  import Geometry

  /** One song: `howl` is `None` until a sound has been attached. */
  datatype Entry = Entry(title: string, files: seq<string>, howl: Option<Sound>, ui: EntryUi)

  datatype State = State(
    playlist: seq<Entry>,
    index: nat,
    mouseDown: bool,
    seeking: bool,
    volume: real)

  /** A fraction as JavaScript computes it: a number, or NaN (0 / 0). */
  datatype Fraction = Num(value: real) | NaN

  // ---------------------------------------------------------------------
  // Views of a state
  // ---------------------------------------------------------------------

  /** `typeof index === 'number' ? index : self._index`. */
  function Resolve(s: State, i: Option<nat>): (r: nat)
    ensures i.Some? ==> r == i.value
    ensures i.None? ==> r == s.index
  {
    i.GetOr(s.index)
  }

  predicate HasSound(s: State, k: nat) {
    k < |s.playlist| && s.playlist[k].howl.Some?
  }

  function SoundAt(s: State, k: nat): Sound
    requires HasSound(s, k)
  {
    s.playlist[k].howl.value
  }

  predicate EntryPlaying(e: Entry) {
    e.howl.Some? && IsPlaying(e.howl.value)
  }

  predicate PlayingAt(s: State, k: nat) {
    k < |s.playlist| && EntryPlaying(s.playlist[k])
  }

  /** No entry other than the selected one is playing. */
  predicate Exclusive(s: State) {
    forall k :: 0 <= k < |s.playlist| && k != s.index ==> !EntryPlaying(s.playlist[k])
  }

  /** An entry with a sound shows the play icon exactly when it is not playing. */
  predicate IconAgrees(e: Entry) {
    e.howl.Some? ==> (e.ui.playIcon <==> !IsPlaying(e.howl.value))
  }

  predicate IconsAgree(s: State) {
    forall k :: 0 <= k < |s.playlist| ==> IconAgrees(s.playlist[k])
  }

  predicate EntryConsistent(e: Entry) {
    e.howl.Some? ==> Consistent(e.howl.value)
  }

  /** The selected index denotes an entry of a non-empty playlist, and no
      sound reports a position past its end. */
  predicate WellFormed(s: State) {
    (|s.playlist| > 0 ==> s.index < |s.playlist|) &&
    forall k :: 0 <= k < |s.playlist| ==> EntryConsistent(s.playlist[k])
  }

  /** Entries other than `k` are as they were. */
  predicate OthersUnchanged(s: State, r: State, k: nat) {
    |r.playlist| == |s.playlist| &&
    forall j :: 0 <= j < |s.playlist| && j != k ==> r.playlist[j] == s.playlist[j]
  }

  /** The flags and the global volume are as they were. */
  predicate ControlsUnchanged(s: State, r: State) {
    r.mouseDown == s.mouseDown && r.seeking == s.seeking && r.volume == s.volume
  }

  /** Replaces entry `k`'s sound and visual state. */
  function WithEntry(s: State, k: nat, snd: Sound, ui: EntryUi): State
    requires k < |s.playlist|
  {
    s.(playlist := s.playlist[k := s.playlist[k].(howl := Some(snd), ui := ui)])
  }

  // ---------------------------------------------------------------------
  // Setup
  // ---------------------------------------------------------------------

  /** The player the constructor builds: entry 0 selected, no drag in
      progress.  Before setup attaches the sounds, every invariant holds. */
  function Initial(playlist: seq<Entry>, volume: real): (r: State)
    ensures r.playlist == playlist && r.index == 0 && !r.mouseDown && !r.seeking && r.volume == volume
    ensures (forall k :: 0 <= k < |playlist| ==> playlist[k].howl.None?) ==>
      WellFormed(r) && Exclusive(r) && IconsAgree(r)
  {
    State(playlist, 0, false, false, volume)
  }

  /** Setup attaching the sound created for entry `k`.  A fresh sound, not
      playing and within its duration, attached to an entry that shows the
      play icon, keeps all three invariants. */
  function Attach(s: State, k: nat, snd: Sound): (r: State)
    requires k < |s.playlist|
    ensures r.index == s.index && ControlsUnchanged(s, r) && OthersUnchanged(s, r, k)
    ensures HasSound(r, k) && SoundAt(r, k) == snd
    ensures r.playlist[k] == s.playlist[k].(howl := Some(snd))
    ensures WellFormed(s) && Consistent(snd) ==> WellFormed(r)
    ensures Exclusive(s) && !IsPlaying(snd) ==> Exclusive(r)
    ensures IconsAgree(s) && !IsPlaying(snd) && s.playlist[k].ui.playIcon ==> IconsAgree(r)
  {
    s.(playlist := s.playlist[k := s.playlist[k].(howl := Some(snd))])
  }

  // ---------------------------------------------------------------------
  // Calls on one sound handle, with the callback they fire
  // ---------------------------------------------------------------------

  /** `sound.play()` on entry `k`, firing `onplay`. */
  function StartSound(s: State, k: nat): (r: State)
    requires HasSound(s, k)
    ensures r.index == s.index && ControlsUnchanged(s, r) && OthersUnchanged(s, r, k)
    ensures HasSound(r, k) && SoundAt(r, k) == SoundAt(s, k).(status := Playing)
    ensures r.playlist[k].title == s.playlist[k].title && r.playlist[k].files == s.playlist[k].files
    ensures r.playlist[k].ui == s.playlist[k].ui.(playIcon := false)
  {
    WithEntry(s, k, Played(SoundAt(s, k)), OnPlay(s.playlist[k].ui))
  }

  /** `sound.pause()` on entry `k`, firing `onpause`; nothing happens where
      no sound is attached. */
  function PauseSound(s: State, k: nat): (r: State)
    requires k < |s.playlist|
    ensures r.index == s.index && ControlsUnchanged(s, r) && OthersUnchanged(s, r, k)
    ensures !HasSound(s, k) ==> r == s
    ensures HasSound(s, k) ==>
      HasSound(r, k) &&
      SoundAt(r, k).position == SoundAt(s, k).position &&
      SoundAt(r, k).duration == SoundAt(s, k).duration &&
      SoundAt(r, k).status == (if IsPlaying(SoundAt(s, k)) then Paused else SoundAt(s, k).status) &&
      r.playlist[k] == s.playlist[k].(howl := r.playlist[k].howl, ui := s.playlist[k].ui.(playIcon := true))
    ensures !PlayingAt(r, k)
  {
    if HasSound(s, k) then WithEntry(s, k, PausedSound(SoundAt(s, k)), OnPause(s.playlist[k].ui)) else s
  }

  /** `sound.stop()` on entry `k`, firing `onstop`. */
  function StopSound(s: State, k: nat): (r: State)
    requires HasSound(s, k)
    ensures r.index == s.index && ControlsUnchanged(s, r) && OthersUnchanged(s, r, k)
    ensures HasSound(r, k) && SoundAt(r, k).status == Stopped && SoundAt(r, k).position == Some(0.0)
    ensures SoundAt(r, k).duration == SoundAt(s, k).duration
    ensures r.playlist[k].title == s.playlist[k].title && r.playlist[k].files == s.playlist[k].files
    ensures r.playlist[k].ui == OnStop(s.playlist[k].ui, s.playlist[k].title, SoundAt(s, k).duration)
  {
    WithEntry(s, k, StoppedSound(SoundAt(s, k)), OnStop(s.playlist[k].ui, s.playlist[k].title, SoundAt(s, k).duration))
  }

  // ---------------------------------------------------------------------
  // Transport
  // ---------------------------------------------------------------------

  /** `play(index)`: starts the entry and selects it.  It keeps `Exclusive`
      exactly when it does not start a second sound. */
  function Play(s: State, i: Option<nat>): (r: State)
    requires HasSound(s, Resolve(s, i))
    ensures r.index == Resolve(s, i)
    ensures i.None? ==> r.index == s.index
    ensures ControlsUnchanged(s, r) && OthersUnchanged(s, r, r.index)
    ensures PlayingAt(r, r.index)
    ensures SoundAt(r, r.index).position == SoundAt(s, r.index).position
    ensures r.playlist[r.index] == s.playlist[r.index].(
      howl := Some(SoundAt(s, r.index).(status := Playing)),
      ui := s.playlist[r.index].ui.(playIcon := false))
    ensures WellFormed(s) ==> WellFormed(r)
    ensures IconsAgree(s) ==> IconsAgree(r)
    ensures Exclusive(s) ==> (Exclusive(r) <==> (r.index == s.index || !PlayingAt(s, s.index)))
  {
    var k := Resolve(s, i);
    StartSound(s, k).(index := k)
  }

  /** `pause(index)`: pauses the entry, if it has a sound; never changes the
      selection. */
  function Pause(s: State, i: Option<nat>): (r: State)
    requires Resolve(s, i) < |s.playlist|
    ensures r.index == s.index && ControlsUnchanged(s, r)
    ensures OthersUnchanged(s, r, Resolve(s, i))
    ensures !HasSound(s, Resolve(s, i)) ==> r == s
    ensures !PlayingAt(r, Resolve(s, i))
    ensures HasSound(s, Resolve(s, i)) ==>
      HasSound(r, Resolve(s, i)) && SoundAt(r, Resolve(s, i)).position == SoundAt(s, Resolve(s, i)).position
    ensures PlayingAt(s, Resolve(s, i)) ==> HasSound(r, Resolve(s, i)) && SoundAt(r, Resolve(s, i)).status == Paused
    ensures var k := Resolve(s, i); HasSound(s, k) ==>
      r.playlist[k] == s.playlist[k].(
        howl := Some(if IsPlaying(SoundAt(s, k)) then SoundAt(s, k).(status := Paused) else SoundAt(s, k)),
        ui := s.playlist[k].ui.(playIcon := true))
    ensures WellFormed(s) ==> WellFormed(r)
    ensures IconsAgree(s) ==> IconsAgree(r)
    ensures Exclusive(s) ==> Exclusive(r)
  {
    PauseSound(s, Resolve(s, i))
  }

  /** `stop(index)`: stops the entry and selects it.  When the selected
      entry is playing and another one is stopped, the selection moves away
      from a playing sound and `Exclusive` no longer holds. */
  function Stop(s: State, i: Option<nat>): (r: State)
    requires HasSound(s, Resolve(s, i))
    ensures r.index == Resolve(s, i)
    ensures i.None? ==> r.index == s.index
    ensures ControlsUnchanged(s, r) && OthersUnchanged(s, r, r.index)
    ensures HasSound(r, r.index) && SoundAt(r, r.index).status == Stopped && SoundAt(r, r.index).position == Some(0.0)
    ensures r.playlist[r.index] == s.playlist[r.index].(
      howl := Some(SoundAt(s, r.index).(status := Stopped, position := Some(0.0))),
      ui := OnStop(s.playlist[r.index].ui, s.playlist[r.index].title, SoundAt(s, r.index).duration))
    ensures WellFormed(s) ==> WellFormed(r)
    ensures IconsAgree(s) ==> IconsAgree(r)
    ensures Exclusive(s) ==> (Exclusive(r) <==> (r.index == s.index || !PlayingAt(s, s.index)))
    ensures r.index != s.index && PlayingAt(s, s.index) ==> !Exclusive(r)
  {
    var k := Resolve(s, i);
    StopSound(s, k).(index := k)
  }

  /** The middle case of `toggleTo`: the selected sound is stopped, firing
      `onstop`, and entry `i` is played and selected. */
  function SwitchTo(s: State, i: nat): (r: State)
    requires HasSound(s, s.index) && HasSound(s, i) && i != s.index
    ensures r.index == i && ControlsUnchanged(s, r) && |r.playlist| == |s.playlist|
    ensures forall k :: 0 <= k < |s.playlist| && k != i && k != s.index ==> r.playlist[k] == s.playlist[k]
    ensures r.playlist[s.index] == s.playlist[s.index].(
      howl := Some(SoundAt(s, s.index).(status := Stopped, position := Some(0.0))),
      ui := OnStop(s.playlist[s.index].ui, s.playlist[s.index].title, SoundAt(s, s.index).duration))
    ensures r.playlist[i] == s.playlist[i].(
      howl := Some(SoundAt(s, i).(status := Playing)),
      ui := s.playlist[i].ui.(playIcon := false))
    ensures WellFormed(s) ==> WellFormed(r)
    ensures IconsAgree(s) ==> IconsAgree(r)
    ensures Exclusive(s) ==> forall k: nat :: PlayingAt(r, k) <==> k == i
  {
    var stopped := StopSound(s, s.index);
    assert stopped.index == s.index && stopped.playlist[i] == s.playlist[i];
    Play(stopped, Some(i))
  }

  /** `toggleTo(index)`, the play button's policy:
      - the selected entry plays and is toggled again: it is paused, not
        stopped or restarted, and nothing is started;
      - the selected entry plays and another is toggled: the old one is
        stopped, the new one started and selected;
      - the selected entry is not playing: the entry is started and selected.
      From an `Exclusive` state, afterwards at most the toggled entry plays. */
  function ToggleTo(s: State, i: nat): (r: State)
    requires i < |s.playlist|
    requires HasSound(s, s.index) && HasSound(s, i)
    ensures ControlsUnchanged(s, r)
    ensures PlayingAt(s, s.index) && i == s.index ==>
      r.index == s.index && OthersUnchanged(s, r, i) && HasSound(r, i) &&
      SoundAt(r, i).status == Paused && SoundAt(r, i).position == SoundAt(s, i).position
    ensures PlayingAt(s, s.index) && i != s.index ==>
      r.index == i && HasSound(r, s.index) && |r.playlist| == |s.playlist| &&
      SoundAt(r, s.index).status == Stopped && SoundAt(r, s.index).position == Some(0.0) &&
      PlayingAt(r, i) && SoundAt(r, i).position == SoundAt(s, i).position &&
      forall k :: 0 <= k < |s.playlist| && k != i && k != s.index ==> r.playlist[k] == s.playlist[k]
    ensures !PlayingAt(s, s.index) ==>
      r.index == i && OthersUnchanged(s, r, i) && PlayingAt(r, i) &&
      SoundAt(r, i).position == SoundAt(s, i).position
    ensures |r.playlist| == |s.playlist|
    ensures PlayingAt(s, s.index) && i == s.index ==>
      r.playlist[i] == s.playlist[i].(
        howl := Some(SoundAt(s, i).(status := Paused)),
        ui := s.playlist[i].ui.(playIcon := true))
    ensures PlayingAt(s, s.index) && i != s.index ==>
      r.playlist[s.index] == s.playlist[s.index].(
        howl := Some(SoundAt(s, s.index).(status := Stopped, position := Some(0.0))),
        ui := OnStop(s.playlist[s.index].ui, s.playlist[s.index].title, SoundAt(s, s.index).duration))
    ensures i != s.index || !PlayingAt(s, s.index) ==>
      r.playlist[i] == s.playlist[i].(
        howl := Some(SoundAt(s, i).(status := Playing)),
        ui := s.playlist[i].ui.(playIcon := false))
    ensures WellFormed(s) ==> WellFormed(r)
    ensures IconsAgree(s) ==> IconsAgree(r)
    ensures Exclusive(s) ==> Exclusive(r)
    ensures Exclusive(s) ==> forall k: nat :: PlayingAt(r, k) ==> k == i
    ensures Exclusive(s) && (i != s.index || !PlayingAt(s, s.index)) ==>
      forall k: nat :: PlayingAt(r, k) <==> k == i
  {
    if PlayingAt(s, s.index) then
      if i == s.index then Pause(s, None)
      else SwitchTo(s, i)
    else
      Play(s, Some(i))
  }

  // ---------------------------------------------------------------------
  // Seeking and progress
  // ---------------------------------------------------------------------

  /** The timer text: position, a slash, duration. */
  function Timer(position: Seconds, duration: Seconds): string {
    FormatSeconds(position) + " / " + FormatSeconds(duration)
  }

  /** `(percentage * 100 || 0)`: the progress bar's width in percent.  Only
      NaN and 0 give 0; nothing is clamped. */
  function ProgressWidth(f: Fraction): (r: real)
    ensures r == 0.0 <==> (f.NaN? || f.value == 0.0)
    ensures f.Num? ==> r == f.value * 100.0
    ensures f.Num? && 0.0 <= f.value <= 1.0 ==> 0.0 <= r <= 100.0
  {
    match f
    case NaN => 0.0
    case Num(p) => p * 100.0
  }

  /** `seek / sound.duration()`: NaN before the duration is known. */
  function Ratio(position: Seconds, duration: Seconds): (r: Fraction)
    ensures duration == 0.0 <==> r.NaN?
    ensures r.Num? ==> r.value * duration == position
    ensures r.Num? && position <= duration ==> 0.0 <= r.value <= 1.0
  {
    if duration == 0.0 then NaN else Num(position / duration)
  }

  /** `percentage * sound.duration()`: a point within the sound. */
  function SeekTarget(p: real, duration: Seconds): (r: Seconds)
    requires 0.0 <= p <= 1.0
    ensures r == p * duration && r <= duration
  {
    p * duration
  }

  /** `seek(index, percentage)`: moves entry `i` to that fraction of its
      duration and shows the new position in its timer.  The selection,
      the flags and every other part of the state are left alone. */
  function Seek(s: State, i: nat, p: real): (r: State)
    requires HasSound(s, i)
    requires 0.0 <= p <= 1.0
    ensures r.index == s.index && ControlsUnchanged(s, r) && OthersUnchanged(s, r, i)
    ensures HasSound(r, i)
    ensures SoundAt(r, i).position == Some(SeekTarget(p, SoundAt(s, i).duration))
    ensures SoundAt(r, i).status == SoundAt(s, i).status && SoundAt(r, i).duration == SoundAt(s, i).duration
    ensures r.playlist[i].ui.timer == Timer(SeekTarget(p, SoundAt(s, i).duration), SoundAt(s, i).duration)
    ensures r.playlist[i].ui == s.playlist[i].ui.(timer := r.playlist[i].ui.timer)
    ensures r.playlist[i].title == s.playlist[i].title && r.playlist[i].files == s.playlist[i].files
    ensures WellFormed(s) ==> WellFormed(r)
    ensures IconsAgree(s) ==> IconsAgree(r)
    ensures Exclusive(s) ==> Exclusive(r)
  {
    var snd := SoundAt(s, i);
    var target := SeekTarget(p, snd.duration);
    WithEntry(s, i, SoughtTo(snd, target), s.playlist[i].ui.(timer := Timer(target, snd.duration)))
  }

  /** The engine's progress on entry `k` between two calls: a playing
      sound's reported position moves forward to `t`, at most to its end.
      No callback fires and nothing else changes. */
  function Advance(s: State, k: nat, t: Seconds): (r: State)
    requires PlayingAt(s, k)
    requires Reading(SoundAt(s, k)) <= t <= SoundAt(s, k).duration
    ensures r.index == s.index && ControlsUnchanged(s, r) && OthersUnchanged(s, r, k)
    ensures HasSound(r, k) && SoundAt(r, k) == SoundAt(s, k).(position := Some(t))
    ensures PlayingAt(r, k)
    ensures r.playlist[k].ui == s.playlist[k].ui
    ensures r.playlist[k].title == s.playlist[k].title && r.playlist[k].files == s.playlist[k].files
    ensures WellFormed(s) ==> WellFormed(r)
    ensures IconsAgree(s) ==> IconsAgree(r)
    ensures Exclusive(s) ==> Exclusive(r)
  {
    WithEntry(s, k, Advanced(SoundAt(s, k), t), s.playlist[k].ui)
  }

  /** `updateDuration(index, percentage)`: only the progress bar of entry `i` changes. */
  function UpdateDuration(s: State, i: nat, f: Fraction): (r: State)
    requires i < |s.playlist|
    ensures r.index == s.index && ControlsUnchanged(s, r) && OthersUnchanged(s, r, i)
    ensures r.playlist[i].ui.progress == ProgressWidth(f)
    ensures r.playlist[i] == s.playlist[i].(ui := s.playlist[i].ui.(progress := ProgressWidth(f)))
    ensures WellFormed(s) ==> WellFormed(r)
    ensures IconsAgree(s) ==> IconsAgree(r)
    ensures Exclusive(s) ==> Exclusive(r)
  {
    var e := s.playlist[i];
    s.(playlist := s.playlist[i := e.(ui := e.ui.(progress := ProgressWidth(f)))])
  }

  /** What one animation-frame tick produces: the new state, and whether
      another frame is requested. */
  datatype StepResult = StepResult(next: State, rearm: bool)

  /** What a tick does to the selected entry's visual state: the timer
      always shows the reported position (0 when there is none), and the
      progress bar follows the position only when no seek drag is in
      progress.  Nothing else on the entry changes. */
  function TickUi(ui: EntryUi, snd: Sound, seeking: bool): (r: EntryUi)
    ensures r.timer == Timer(Reading(snd), snd.duration)
    ensures seeking ==> r.progress == ui.progress
    ensures !seeking ==> r.progress == ProgressWidth(Ratio(Reading(snd), snd.duration))
    ensures r.(timer := ui.timer, progress := ui.progress) == ui
  {
    var shown := ui.(timer := Timer(Reading(snd), snd.duration));
    if seeking then shown else shown.(progress := ProgressWidth(Ratio(Reading(snd), snd.duration)))
  }

  /** `step()`: one animation-frame tick.  The selected entry's visual state
      is brought up to date with its sound (`TickUi`); another frame is
      requested exactly while that sound plays.  Nothing else changes. */
  function Step(s: State): (r: StepResult)
    requires HasSound(s, s.index)
    ensures r.rearm <==> PlayingAt(s, s.index)
    ensures r.next.index == s.index && ControlsUnchanged(s, r.next) && OthersUnchanged(s, r.next, s.index)
    ensures r.next.playlist[s.index] ==
      s.playlist[s.index].(ui := TickUi(s.playlist[s.index].ui, SoundAt(s, s.index), s.seeking))
    ensures WellFormed(s) ==> WellFormed(r.next)
    ensures IconsAgree(s) ==> IconsAgree(r.next)
    ensures Exclusive(s) ==> Exclusive(r.next)
  {
    var k := s.index;
    var e := s.playlist[k];
    var snd := SoundAt(s, k);
    StepResult(s.(playlist := s.playlist[k := e.(ui := TickUi(e.ui, snd, s.seeking))]), IsPlaying(snd))
  }

  // ---------------------------------------------------------------------
  // Volume
  // ---------------------------------------------------------------------

  /** Entry `e` with its volume bar and dot drawn for level `v`. */
  function ShowVolume(e: Entry, v: real): (r: Entry)
    ensures r.ui.volumeBar == v * 60.0 && r.ui.volumeDot == v * 60.0 + 20.0
    ensures r.title == e.title && r.files == e.files && r.howl == e.howl
    ensures r.ui.(volumeBar := e.ui.volumeBar, volumeDot := e.ui.volumeDot) == e.ui
  {
    e.(ui := e.ui.(volumeBar := v * 60.0, volumeDot := v * 60.0 + 20.0))
  }

  /** The `forEach` of `volume(val)`: every entry's volume bar becomes
      `v * 60` percent wide and its dot moves to `v * 60 + 20` percent;
      nothing else in any entry changes. */
  function Broadcast(playlist: seq<Entry>, v: real): (r: seq<Entry>)
    ensures |r| == |playlist|
    ensures forall k :: 0 <= k < |r| ==>
      r[k].ui.volumeBar == v * 60.0 && r[k].ui.volumeDot == v * 60.0 + 20.0 &&
      r[k] == playlist[k].(ui := playlist[k].ui.(volumeBar := r[k].ui.volumeBar, volumeDot := r[k].ui.volumeDot))
    decreases |playlist|
  {
    if |playlist| == 0 then []
    else [ShowVolume(playlist[0], v)] + Broadcast(playlist[1..], v)
  }

  /** `volume(val)`: the global volume becomes `v` and every entry shows it. */
  function Volume(s: State, v: real): (r: State)
    ensures r.volume == v
    ensures r.index == s.index && r.mouseDown == s.mouseDown && r.seeking == s.seeking
    ensures |r.playlist| == |s.playlist|
    ensures forall k :: 0 <= k < |s.playlist| ==>
      r.playlist[k].ui.volumeBar == v * 60.0 && r.playlist[k].ui.volumeDot == v * 60.0 + 20.0 &&
      r.playlist[k] == s.playlist[k].(ui := s.playlist[k].ui.(volumeBar := v * 60.0, volumeDot := v * 60.0 + 20.0))
    ensures WellFormed(s) ==> WellFormed(r)
    ensures IconsAgree(s) ==> IconsAgree(r)
    ensures Exclusive(s) ==> Exclusive(r)
  {
    s.(volume := v, playlist := Broadcast(s.playlist, v))
  }

  // ---------------------------------------------------------------------
  // Pointer interaction on the seek strip and the volume control
  // ---------------------------------------------------------------------

  /** Mouse down on the seek strip: a drag starts and previews fraction `f`. */
  function SeekPress(s: State, i: nat, f: real): (r: State)
    requires i < |s.playlist|
    ensures r.seeking && r.index == s.index && OthersUnchanged(s, r, i)
    ensures r.mouseDown == s.mouseDown && r.volume == s.volume
    ensures r.playlist[i] == s.playlist[i].(ui := s.playlist[i].ui.(progress := f * 100.0))
    ensures WellFormed(s) ==> WellFormed(r)
    ensures IconsAgree(s) ==> IconsAgree(r)
    ensures Exclusive(s) ==> Exclusive(r)
  {
    UpdateDuration(s.(seeking := true), i, Num(f))
  }

  /** Mouse move over the seek strip: previews `f` only while a drag is in progress. */
  function SeekDrag(s: State, i: nat, f: real): (r: State)
    requires i < |s.playlist|
    ensures !s.seeking ==> r == s
    ensures r.index == s.index && ControlsUnchanged(s, r) && OthersUnchanged(s, r, i)
    ensures s.seeking ==> r.playlist[i] == s.playlist[i].(ui := s.playlist[i].ui.(progress := f * 100.0))
    ensures WellFormed(s) ==> WellFormed(r)
    ensures IconsAgree(s) ==> IconsAgree(r)
    ensures Exclusive(s) ==> Exclusive(r)
  {
    if s.seeking then UpdateDuration(s, i, Num(f)) else s
  }

  /** Mouse up on the seek strip: the drag ends and the seek is carried out. */
  function SeekRelease(s: State, i: nat, f: real): (r: State)
    requires HasSound(s, i)
    requires 0.0 <= f <= 1.0
    ensures !r.seeking && r.index == s.index && OthersUnchanged(s, r, i)
    ensures r.mouseDown == s.mouseDown && r.volume == s.volume
    ensures HasSound(r, i) && SoundAt(r, i) == SoughtTo(SoundAt(s, i), SeekTarget(f, SoundAt(s, i).duration))
    ensures r.playlist[i].ui == s.playlist[i].ui.(timer := Timer(SeekTarget(f, SoundAt(s, i).duration), SoundAt(s, i).duration))
    ensures r.playlist[i].title == s.playlist[i].title && r.playlist[i].files == s.playlist[i].files
    ensures WellFormed(s) ==> WellFormed(r)
    ensures IconsAgree(s) ==> IconsAgree(r)
    ensures Exclusive(s) ==> Exclusive(r)
  {
    Seek(s.(seeking := false), i, f)
  }

  /** Mouse move over the volume control: sets the level only while the dot is held. */
  function VolumeDrag(s: State, level: real): (r: State)
    ensures !s.mouseDown ==> r == s
    ensures s.mouseDown ==> r == Volume(s, level)
    ensures s.mouseDown && 0.0 <= level <= 1.0 ==> 0.0 <= r.volume <= 1.0
  {
    if s.mouseDown then Volume(s, level) else s
  }

  // ---------------------------------------------------------------------
  // Properties of sequences of operations
  // ---------------------------------------------------------------------

  /** While a seek drag is in progress, a tick keeps the previewed progress. */
  lemma StepKeepsPreview(s: State, i: nat, f: real)
    requires i == s.index && HasSound(s, i)
    ensures var t := SeekPress(s, i, f);
      Step(t).next.playlist[i].ui.progress == f * 100.0
  {
  }

  /** The bar width a position gives, as a tick draws it outside a drag:
      0 while the duration is unknown, otherwise the position's share of
      the duration in percent, within [0,100] for a consistent sound. */
  lemma ProgressOfPosition(w: real, position: Seconds, duration: Seconds)
    requires w == ProgressWidth(Ratio(position, duration))
    ensures duration == 0.0 ==> w == 0.0
    ensures duration > 0.0 ==> w * duration == position * 100.0
    ensures position <= duration ==> 0.0 <= w <= 100.0
  {
    var f := Ratio(position, duration);
    if duration > 0.0 {
      calc {
        w * duration;
        f.value * 100.0 * duration;
        (f.value * duration) * 100.0;
        position * 100.0;
      }
    }
  }

  /** Before the engine reports a position, the timer shows it as 0:00. */
  lemma TimerWithoutPosition(snd: Sound)
    requires snd.position.None?
    ensures Timer(Reading(snd), snd.duration) == "0:00 / " + FormatSeconds(snd.duration)
  {
    assert FormatSeconds(0.0) == "0:00" by {
      assert WholeSeconds(0.0) == 0;
      FormatTimeExamples();
      AsWrittenBelowHour(0);
    }
  }

  /** Below one hour both halves of the timer are the intended texts of the
      whole seconds and read back as them. */
  lemma TimerBelowHour(position: Seconds, duration: Seconds)
    requires position < 3600.0 && duration < 3600.0
    ensures Timer(position, duration) == FormatTime(position.Floor) + " / " + FormatTime(duration.Floor)
    ensures ParseClock(FormatSeconds(position)) == Some(position.Floor)
    ensures ParseClock(FormatSeconds(duration)) == Some(duration.Floor)
  {
    FormatSecondsBelowHour(position);
    FormatSecondsBelowHour(duration);
  }

  /** A sound moved to fraction `f` of a known duration gives a progress
      bar of exactly `f * 100`. */
  lemma ScaledRatio(f: real, d: Seconds)
    requires d > 0.0 && 0.0 <= f <= 1.0
    ensures ProgressWidth(Ratio(SeekTarget(f, d), d)) == f * 100.0
  {
    assert (f * d) / d == f;
  }

  /** A complete drag, press at `f0` and release at `f`, followed by a tick:
      the bar ends up showing the committed fraction `f`. */
  lemma DragThenStep(s: State, i: nat, f0: real, f: real)
    requires i == s.index && HasSound(s, i) && SoundAt(s, i).duration > 0.0
    requires 0.0 <= f <= 1.0
    ensures var t := SeekRelease(SeekPress(s, i, f0), i, f);
      Step(t).next.playlist[i].ui.progress == f * 100.0
  {
    var pressed := SeekPress(s, i, f0);
    assert HasSound(pressed, i) && SoundAt(pressed, i) == SoundAt(s, i);
    var t := SeekRelease(pressed, i, f);
    var snd := SoundAt(t, i);
    var d := SoundAt(s, i).duration;
    assert !t.seeking && t.index == i;
    assert snd == SoughtTo(SoundAt(s, i), SeekTarget(f, d));
    assert Step(t).next.playlist[i].ui.progress == ProgressWidth(Ratio(Reading(snd), snd.duration));
    assert Reading(snd) == SeekTarget(f, d) && snd.duration == d;
    ScaledRatio(f, d);
  }

  /** Once the engine has moved the selected, playing sound on to `t`, a
      tick outside a drag draws the bar for `t` (its share of the duration
      in percent, by `ProgressOfPosition`) and asks for another frame. */
  lemma AdvanceThenStep(s: State, t: Seconds)
    requires PlayingAt(s, s.index) && !s.seeking
    requires Reading(SoundAt(s, s.index)) <= t <= SoundAt(s, s.index).duration
    ensures var r := Step(Advance(s, s.index, t));
      r.rearm && r.next.playlist[s.index].ui.progress == ProgressWidth(Ratio(t, SoundAt(s, s.index).duration))
  {
    var a := Advance(s, s.index, t);
    var snd := SoundAt(a, s.index);
    assert a.index == s.index && !a.seeking && PlayingAt(a, a.index);
    assert Reading(snd) == t && snd.duration == SoundAt(s, s.index).duration;
  }

  /** Toggling the playing entry twice pauses it and resumes it from the
      same position: the first toggle does not stop or restart it. */
  lemma {:induction false} ToggleTwiceResumes(s: State)
    requires HasSound(s, s.index) && PlayingAt(s, s.index)
    ensures var r := ToggleTo(ToggleTo(s, s.index), s.index);
      r.index == s.index && PlayingAt(r, s.index) && SoundAt(r, s.index).position == SoundAt(s, s.index).position
  {
    var t := ToggleTo(s, s.index);
    assert !PlayingAt(t, t.index);
  }

  /** A playlist of two sounds where stopping the second while the first
      plays leaves the first playing outside the selection. */
  lemma StopElsewhereBreaksExclusive()
    ensures var snd := Sound(Playing, Some(0.0), 10.0);
      var ui := EntryUi("", "", 0.0, 0.0, 0.0, false);
      var s := State([Entry("a", [], Some(snd), ui), Entry("b", [], Some(snd.(status := Stopped)), ui.(playIcon := true))], 0, false, false, 1.0);
      WellFormed(s) && Exclusive(s) && IconsAgree(s) && !Exclusive(Stop(s, Some(1)))
  {
    var snd := Sound(Playing, Some(0.0), 10.0);
    var ui := EntryUi("", "", 0.0, 0.0, 0.0, false);
    var a := Entry("a", [], Some(snd), ui);
    var b := Entry("b", [], Some(snd.(status := Stopped)), ui.(playIcon := true));
    var s := State([a, b], 0, false, false, 1.0);
    assert EntryConsistent(a) && EntryConsistent(b);
    assert IconAgrees(a) && IconAgrees(b);
    assert !EntryPlaying(b);
    assert forall k :: 0 <= k < |s.playlist| ==> s.playlist[k] == a || s.playlist[k] == b;
    assert PlayingAt(s, 0) && HasSound(s, 1);
  }
}
