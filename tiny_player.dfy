/** The `Player` object: the playlist it manages, the selected index, the
    two interaction flags and the engine's global volume, updated in place
    by its transport methods and by the pointer handlers bound to each song
    player.  Every method is proved to carry out the matching transition of
    `PlayerModel`, where the invariants and the properties of the
    operations are proved. */
module TinyPlayer {

  import opened Wrappers
  import opened Engine
  import opened SongUi
  import opened Geometry
  import PlayerModel

  class Player {
    var playlist: seq<PlayerModel.Entry>
    var index: nat
    var mouseDown: bool
    var seeking: bool
    /** The engine's global volume, which `volume` sets for every sound. */
    var engineVolume: real

    /** The object's state as a value. */
    function Snapshot(): PlayerModel.State
      reads this
    {
      PlayerModel.State(playlist, index, mouseDown, seeking, engineVolume)
    }

    /** A new player over `playlist`, with the first entry selected and no
        drag in progress; `engineVolume` is the engine's volume at that time. */
    constructor(playlist: seq<PlayerModel.Entry>, engineVolume: real)
      ensures Snapshot() == PlayerModel.Initial(playlist, engineVolume)
      ensures (forall k :: 0 <= k < |playlist| ==> playlist[k].howl.None?) ==>
        PlayerModel.WellFormed(Snapshot()) && PlayerModel.Exclusive(Snapshot()) && PlayerModel.IconsAgree(Snapshot())
    {
      this.playlist := playlist;
      this.index := 0;
      this.mouseDown := false;
      this.seeking := false;
      this.engineVolume := engineVolume;
    }

    /** Attaches the sound created for entry `k` (`song.howl = ...` during setup). */
    method AttachSound(k: nat, sound: Sound)
      requires k < |playlist|
      modifies this
      ensures Snapshot() == PlayerModel.Attach(old(Snapshot()), k, sound)
    {
      playlist := playlist[k := playlist[k].(howl := Some(sound))];
    }

    /** `sound.stop()` on entry `k` with its `onstop` callback; the selection stays. */
    method StopSound(k: nat)
      requires PlayerModel.HasSound(Snapshot(), k)
      modifies this
      ensures Snapshot() == PlayerModel.StopSound(old(Snapshot()), k)
    {
      var e := playlist[k];
      var sound := e.howl.value;
      playlist := playlist[k := e.(howl := Some(StoppedSound(sound)), ui := OnStop(e.ui, e.title, sound.duration))];
    }

    method Play(i: Option<nat>)
      requires PlayerModel.HasSound(Snapshot(), PlayerModel.Resolve(Snapshot(), i))
      modifies this
      ensures Snapshot() == PlayerModel.Play(old(Snapshot()), i)
    {
      var k := if i.Some? then i.value else index;
      var e := playlist[k];
      playlist := playlist[k := e.(howl := Some(Played(e.howl.value)), ui := OnPlay(e.ui))];
      index := k;
    }

    method Pause(i: Option<nat>)
      requires PlayerModel.Resolve(Snapshot(), i) < |playlist|
      modifies this
      ensures Snapshot() == PlayerModel.Pause(old(Snapshot()), i)
    {
      var k := if i.Some? then i.value else index;
      var e := playlist[k];
      if e.howl.Some? {
        playlist := playlist[k := e.(howl := Some(PausedSound(e.howl.value)), ui := OnPause(e.ui))];
      }
    }

    method Stop(i: Option<nat>)
      requires PlayerModel.HasSound(Snapshot(), PlayerModel.Resolve(Snapshot(), i))
      modifies this
      ensures Snapshot() == PlayerModel.Stop(old(Snapshot()), i)
    {
      var k := if i.Some? then i.value else index;
      StopSound(k);
      index := k;
    }

    method ToggleTo(i: nat)
      requires i < |playlist|
      requires PlayerModel.HasSound(Snapshot(), index) && PlayerModel.HasSound(Snapshot(), i)
      modifies this
      ensures Snapshot() == PlayerModel.ToggleTo(old(Snapshot()), i)
    {
      var sound := playlist[index].howl.value;
      if IsPlaying(sound) {
        if i == index {
          Pause(None);
          return;
        } else {
          StopSound(index);
        }
      }
      Play(Some(i));
    }

    method Seek(i: nat, p: real)
      requires PlayerModel.HasSound(Snapshot(), i)
      requires 0.0 <= p <= 1.0
      modifies this
      ensures Snapshot() == PlayerModel.Seek(old(Snapshot()), i, p)
    {
      var e := playlist[i];
      var sound := e.howl.value;
      var target := PlayerModel.SeekTarget(p, sound.duration);
      playlist := playlist[i := e.(howl := Some(SoughtTo(sound, target)),
                                   ui := e.ui.(timer := PlayerModel.Timer(target, sound.duration)))];
    }

    method UpdateDuration(i: nat, f: PlayerModel.Fraction)
      requires i < |playlist|
      modifies this
      ensures Snapshot() == PlayerModel.UpdateDuration(old(Snapshot()), i, f)
    {
      var e := playlist[i];
      playlist := playlist[i := e.(ui := e.ui.(progress := PlayerModel.ProgressWidth(f)))];
    }

    /** `volume(val)`: the `forEach` over the playlist becomes a loop that
        redraws one entry's volume widgets per turn. */
    method Volume(v: real)
      modifies this
      ensures Snapshot() == PlayerModel.Volume(old(Snapshot()), v)
    {
      engineVolume := v;
      var k := 0;
      while k < |playlist|
        invariant 0 <= k <= |playlist| == |old(playlist)|
        invariant forall j :: 0 <= j < k ==> playlist[j] == PlayerModel.ShowVolume(old(playlist)[j], v)
        invariant forall j :: k <= j < |playlist| ==> playlist[j] == old(playlist)[j]
        invariant index == old(index) && mouseDown == old(mouseDown) && seeking == old(seeking)
        invariant engineVolume == v
      {
        playlist := playlist[k := PlayerModel.ShowVolume(playlist[k], v)];
        k := k + 1;
      }
      ghost var expected := PlayerModel.Broadcast(old(playlist), v);
      assert forall j :: 0 <= j < |playlist| ==> playlist[j] == expected[j];
    }

    /** The engine moving the playing sound of entry `k` on to `t`. */
    method EngineAdvance(k: nat, t: Seconds)
      requires PlayerModel.PlayingAt(Snapshot(), k)
      requires Reading(PlayerModel.SoundAt(Snapshot(), k)) <= t <= PlayerModel.SoundAt(Snapshot(), k).duration
      modifies this
      ensures Snapshot() == PlayerModel.Advance(old(Snapshot()), k, t)
    {
      var e := playlist[k];
      playlist := playlist[k := e.(howl := Some(Advanced(e.howl.value, t)))];
    }

    /** One animation-frame tick; `rearm` says whether another frame is requested. */
    method Step() returns (rearm: bool)
      requires PlayerModel.HasSound(Snapshot(), index)
      modifies this
      ensures Snapshot() == PlayerModel.Step(old(Snapshot())).next
      ensures rearm == PlayerModel.Step(old(Snapshot())).rearm
    {
      var e := playlist[index];
      var sound := e.howl.value;
      var position := Reading(sound);
      var shown := e.ui.(timer := PlayerModel.Timer(position, sound.duration));
      playlist := playlist[index := e.(ui := shown)];
      if !seeking {
        UpdateDuration(index, PlayerModel.Ratio(position, sound.duration));
      }
      rearm := IsPlaying(sound);
    }

    /** The engine's `onend` event for entry `k`: the sound is back at the
        start and the UI is reset exactly as by `onstop`. */
    method OnEnd(k: nat)
      requires PlayerModel.HasSound(Snapshot(), k)
      modifies this
      ensures Snapshot() == PlayerModel.StopSound(old(Snapshot()), k)
    {
      StopSound(k);
    }

    // -------------------------------------------------------------------
    // Handlers bound to song player `i`
    // -------------------------------------------------------------------

    /** Mouse down on the seek strip. */
    method SeekMouseDown(i: nat, pageX: real, left: real, width: real)
      requires i < |playlist| && width > 0.0
      modifies this
      ensures Snapshot() == PlayerModel.SeekPress(old(Snapshot()), i, SeekPercentage(pageX, left, width))
    {
      seeking := true;
      UpdateDuration(i, PlayerModel.Num(SeekPercentage(pageX, left, width)));
    }

    /** Mouse move over the seek strip. */
    method SeekMouseMove(i: nat, pageX: real, left: real, width: real)
      requires i < |playlist| && width > 0.0
      modifies this
      ensures Snapshot() == PlayerModel.SeekDrag(old(Snapshot()), i, SeekPercentage(pageX, left, width))
    {
      if seeking {
        UpdateDuration(i, PlayerModel.Num(SeekPercentage(pageX, left, width)));
      }
    }

    /** Mouse up on the seek strip. */
    method SeekMouseUp(i: nat, pageX: real, left: real, width: real)
      requires PlayerModel.HasSound(Snapshot(), i) && width > 0.0
      modifies this
      ensures Snapshot() == PlayerModel.SeekRelease(old(Snapshot()), i, SeekPercentage(pageX, left, width))
    {
      seeking := false;
      Seek(i, SeekPercentage(pageX, left, width));
    }

    /** Click on the volume bar: the unclamped level becomes the volume. */
    method VolumeBarClick(pageX: real, left: real, width: real)
      requires width > 0.0
      modifies this
      ensures Snapshot() == PlayerModel.Volume(old(Snapshot()), VolumeClickLevel(pageX, left, width))
    {
      Volume(VolumeClickLevel(pageX, left, width));
    }

    /** Mouse down on the volume dot. */
    method VolumeDotMouseDown()
      modifies this
      ensures Snapshot() == old(Snapshot()).(mouseDown := true)
    {
      mouseDown := true;
    }

    /** Mouse up anywhere on the volume control. */
    method VolumeControlMouseUp()
      modifies this
      ensures Snapshot() == old(Snapshot()).(mouseDown := false)
    {
      mouseDown := false;
    }

    /** Mouse move over the volume control: the clamped level becomes the
        volume while the dot is held. */
    method VolumeControlMouseMove(pageX: real, left: real, width: real)
      requires width > 0.0
      modifies this
      ensures Snapshot() == PlayerModel.VolumeDrag(old(Snapshot()), VolumeDragLevel(pageX, left, width))
      ensures old(mouseDown) ==> 0.0 <= engineVolume <= 1.0
    {
      if mouseDown {
        Volume(VolumeDragLevel(pageX, left, width));
      }
    }
  }
}
