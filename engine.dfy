/** The sound engine as the player sees it: one handle per playlist entry
    with a transport status, a reported position and a duration.  The
    engine's transport calls are taken to act synchronously. */
module Engine {

  import opened Wrappers

  /** A non-negative number of seconds. */
  type Seconds = x: real | 0.0 <= x

  /** Stopped and Paused are both "not playing"; a stopped sound is back at 0. */
  datatype Status = Stopped | Paused | Playing

  /** `position` is what `seek()` reports: `None` while the engine reports
      nothing usable.  `duration` is 0 until the metadata has loaded. */
  datatype Sound = Sound(status: Status, position: Option<Seconds>, duration: Seconds)

  /** A reported position never lies beyond the end of the sound. */
  predicate Consistent(s: Sound) {
    s.position.Some? ==> s.position.value <= s.duration
  }

  /** `playing()`. */
  predicate IsPlaying(s: Sound) {
    s.status == Playing
  }

  /** `seek() || 0`: the reported position, or 0 when there is none. */
  function Reading(s: Sound): (r: Seconds)
    ensures s.position.None? ==> r == 0.0
    ensures s.position.Some? ==> r == s.position.value
    ensures Consistent(s) ==> r <= s.duration
  {
    s.position.GetOr(0.0)
  }

  /** `play()`: playback resumes from the current position. */
  function Played(s: Sound): Sound {
    s.(status := Playing)
  }

  /** `pause()`: a playing sound holds its position; any other is left as it is. */
  function PausedSound(s: Sound): Sound {
    if s.status == Playing then s.(status := Paused) else s
  }

  /** `stop()`, and also what the engine does when a sound plays to its end. */
  function StoppedSound(s: Sound): Sound {
    s.(status := Stopped, position := Some(0.0))
  }

  /** The engine's own progress: while a sound plays, the position it
      reports moves on to `t`. */
  function Advanced(s: Sound, t: Seconds): Sound {
    s.(position := Some(t))
  }

  /** `seek(t)`. */
  function SoughtTo(s: Sound, t: Seconds): Sound {
    s.(position := Some(t))
  }
}
