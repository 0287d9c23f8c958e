# tinyPlayer in Dafny

This project models the core of tinyPlayer, a small audio player for web
pages that sits on top of the Howler sound engine.

- A `Player` holds a playlist of songs. Each song has a title, its files, an
  engine sound ("howl") and its own on-page controls: a title, a timer, a
  progress bar, a volume bar and dot, and play/pause icons.
- The player keeps the index of the selected song and two interaction flags
  (`_mouse_down` for the volume dot, `_seeking` for the seek strip). The
  engine's global volume (`Howler.volume`, line 178) is not a field of the
  player. The model keeps it in `PlayerModel.State.volume` (the class's
  `engineVolume`) so that `volume` has a state to change.
- The transport operations are `play`, `pause`, `stop`, `toggleTo` and
  `seek`. The display operations are `updateDuration`, `volume` and the
  animation-frame tick `step`.
- The engine's callbacks (`onplay`, `onpause`, `onstop`, `onend`) redraw a
  song's controls.
- Each song's pointer handlers turn page coordinates into a seek fraction
  (`_seekPercentage`) or a volume level, and drive the two flags.
- `_formatTime` renders seconds as `M:SS` below one hour. From one hour on
  it writes the hours, the padded minutes and then a seconds field that
  still holds the hours (see Findings).

The model has two layers:

- **`PlayerModel`** works on values. `State` holds the playlist entries,
  the index, the flags and the volume, and each operation is a function on
  it. The contracts of these functions state what each operation changes
  and what it leaves alone. They also prove which of three invariants the
  operation keeps:
  - `Exclusive`: no entry other than the selected one is playing.
  - `IconsAgree`: an entry shows the play icon exactly when its sound is
    not playing.
  - `WellFormed`: the index is in range and no reported position lies
    beyond its duration.
- **`TinyPlayer.Player`** is a class with the player's fields. Its methods
  update those fields in place, the way the JavaScript object is updated.
  Each method is proved to carry out the matching `PlayerModel` transition
  on `Snapshot()`. `volume`'s `forEach` is a loop with invariants.

Other modules:

- `Engine` abstracts a sound: status, reported position and duration.
  Engine calls act synchronously, and each fires its callback.
- `SongUi` is a song's visual state and the callbacks that rewrite it.
- `Geometry` holds the pointer arithmetic.
- `TimeFormat` holds the formatter, together with a parser for clock
  strings.

`TimeFormat` holds two versions of the formatter:
- `FormatTimeAsWritten` is `_formatTime` as the source computes it. Every
  timer the player writes uses it, through `FormatSeconds`: seek, step,
  onstop and onend. So the model shows the same text as the program,
  including `1:01:3601` for 3661 seconds.
- `FormatTime` is the corrected formatter, with the hours also taken out
  of the seconds field. It is proved to round-trip through the parser.

The parser is an independent reference. The two formatters agree below
one hour (`AsWrittenBelowHour`). From one hour on, the text as written
does not parse (`AsWrittenFromHour`).

The formatter works on whole seconds:

- `FormatSeconds(x)` is `FormatTimeAsWritten(WholeSeconds(x))`, and
  `WholeSeconds` is proved to be `Math.floor`.
- For a non-negative input, taking the floor once at the start gives the
  same hours, minutes and seconds fields as the source's three separate
  `Math.floor` calls.

The engine's own progress is modelled as a transition of its own,
`Advance`. It moves a playing sound's reported position forward, at most
to its end, and no callback fires.

Setup is modelled too:
- The constructor builds a player in which all three invariants hold,
  because every song starts without a sound (line 265).
- Setup then attaches each sound (line 319). It is not playing and the
  page shows its play icon (lines 289-290), and attaching such a sound
  keeps the invariants.

## Model

| member | source | states |
|---|---|---|
| TinyPlayer.Player.constructor | src/js/tinyPlayer.js:37-44 | the new player is `PlayerModel.Initial`: entry 0 selected, both flags clear; with no sound attached yet, all three invariants hold |
| PlayerModel.Initial | src/js/tinyPlayer.js:37-44 | the constructor's state selects entry 0 with both flags clear over the given playlist; when no entry has a sound yet (line 265), it meets WellFormed, Exclusive and IconsAgree |
| TinyPlayer.Player.AttachSound | src/js/tinyPlayer.js:315-323 | the fields after the call are `PlayerModel.Attach` of the fields before |
| PlayerModel.Attach | src/js/tinyPlayer.js:319 | entry k then has exactly the created sound and nothing else changes; a consistent sound keeps WellFormed; a sound that is not playing keeps Exclusive, and keeps IconsAgree when the entry shows the play icon (lines 289-290) |
| PlayerModel.Resolve | src/js/tinyPlayer.js:55 | an explicit index is used as given; a missing one stands for the selected index (also lines 74 and 92) |
| TinyPlayer.Player.Play | src/js/tinyPlayer.js:52-63 | the fields after the call are `PlayerModel.Play` of the fields before |
| TinyPlayer.Player.Pause | src/js/tinyPlayer.js:71-81 | the fields after the call are `PlayerModel.Pause` of the fields before |
| TinyPlayer.Player.Stop | src/js/tinyPlayer.js:89-100 | the fields after the call are `PlayerModel.Stop` of the fields before |
| TinyPlayer.Player.StopSound | src/js/tinyPlayer.js:119 | the bare `sound.stop()` that toggleTo issues stops entry k and fires onstop; the selection is untouched |
| TinyPlayer.Player.ToggleTo | src/js/tinyPlayer.js:109-125 | the in-place early return, stop and play carry out `PlayerModel.ToggleTo` |
| TinyPlayer.Player.Seek | src/js/tinyPlayer.js:135-150 | the fields after the call are `PlayerModel.Seek` of the fields before |
| TinyPlayer.Player.UpdateDuration | src/js/tinyPlayer.js:160-165 | the fields after the call are `PlayerModel.UpdateDuration` of the fields before |
| TinyPlayer.Player.Volume | src/js/tinyPlayer.js:174-189 | the loop over the playlist leaves exactly `PlayerModel.Volume` of the old state |
| TinyPlayer.Player.EngineAdvance | src/js/tinyPlayer.js:204 | the fields after the engine moves entry k on to t are `PlayerModel.Advance` of the fields before |
| TinyPlayer.Player.Step | src/js/tinyPlayer.js:195-228 | the fields and the re-arm decision are those of `PlayerModel.Step` |
| TinyPlayer.Player.OnEnd | src/js/tinyPlayer.js:355-365 | reaching the end rewinds the sound and resets the controls exactly as a stop does |
| TinyPlayer.Player.SeekMouseDown | src/js/tinyPlayer.js:464-468 | pressing on the strip is `PlayerModel.SeekPress` at the pointer's seek fraction |
| TinyPlayer.Player.SeekMouseMove | src/js/tinyPlayer.js:472-477 | moving over the strip is `PlayerModel.SeekDrag` at the pointer's seek fraction |
| TinyPlayer.Player.SeekMouseUp | src/js/tinyPlayer.js:480-483 | releasing is `PlayerModel.SeekRelease` at the pointer's seek fraction |
| TinyPlayer.Player.VolumeBarClick | src/js/tinyPlayer.js:421-429 | a click sets the unclamped click level as the volume |
| TinyPlayer.Player.VolumeDotMouseDown | src/js/tinyPlayer.js:432-434 | only the volume drag flag changes; it becomes set |
| TinyPlayer.Player.VolumeControlMouseUp | src/js/tinyPlayer.js:437-439 | only the volume drag flag changes; it becomes clear |
| TinyPlayer.Player.VolumeControlMouseMove | src/js/tinyPlayer.js:442-452 | the move is `PlayerModel.VolumeDrag` at the clamped level; while the dot is held the engine volume ends in [0,1] |
| PlayerModel.StartSound | src/js/tinyPlayer.js:59 | starting a sound changes only its status, to Playing, and hides its play icon; other entries and the selection are untouched |
| PlayerModel.PauseSound | src/js/tinyPlayer.js:77-80 | without a sound nothing changes; with one, a playing sound becomes Paused at the same position, any other keeps its status, the play icon shows, and nothing else changes |
| PlayerModel.StopSound | src/js/tinyPlayer.js:119 | the sound is Stopped at position 0 and its controls are reset by onstop; other entries and the selection are untouched |
| PlayerModel.Play | src/js/tinyPlayer.js:52-63 | selects the explicit index or keeps the current one; that entry becomes exactly the same entry with its sound Playing (same position and duration) and onplay's hidden play icon, and no other entry changes; keeps WellFormed and IconsAgree; keeps Exclusive exactly when it does not start a second sound |
| PlayerModel.Pause | src/js/tinyPlayer.js:71-81 | never changes the selection; without a sound it changes nothing; with one, the entry becomes the same entry with a playing sound Paused in place (any other sound left as it was) and onpause's play icon shown; afterwards it is not playing; keeps all three invariants |
| PlayerModel.Stop | src/js/tinyPlayer.js:89-100 | selects the stopped entry, which becomes the same entry with its sound Stopped at 0 (same duration) and onstop's controls: timer at the duration, progress 0, title restored, play icon shown (lines 371-381); keeps WellFormed and IconsAgree; keeps Exclusive exactly when the selection stays or nothing was playing, and breaks it when it moves away from a playing sound |
| PlayerModel.SwitchTo | src/js/tinyPlayer.js:118-124 | the stop-and-switch case of `toggleTo`: the old entry is Stopped at 0 with onstop's controls, the new one plays with its icon hidden and is selected, nothing else changes; keeps WellFormed and IconsAgree; from an Exclusive state exactly the new entry plays |
| PlayerModel.ToggleTo | src/js/tinyPlayer.js:109-125 | the three cases, each with the exact new entries: pause the selected entry in place; stop the old entry with onstop's controls and start the new one; start the entry; title, files and duration stay everywhere; keeps all three invariants; from an Exclusive state only the toggled entry can play afterwards, and it does play unless it was paused |
| PlayerModel.SeekTarget | src/js/tinyPlayer.js:143 | the target is the fraction times the duration and never lies past the end |
| PlayerModel.Seek | src/js/tinyPlayer.js:135-150 | only entry i's position, now the target, and its timer change; its status, duration and every other field stay; keeps all three invariants |
| PlayerModel.ProgressWidth | src/js/tinyPlayer.js:163-164 | the width is the fraction times 100, with no clamp; it is 0 exactly for NaN or 0; fractions in [0,1] give widths in [0,100] |
| PlayerModel.Ratio | src/js/tinyPlayer.js:210 | NaN exactly when the duration is 0; otherwise the fraction times the duration is the position, and it lies in [0,1] when the position does not pass the end |
| PlayerModel.Advance | src/js/tinyPlayer.js:204 | the position `seek()` reports for a playing sound moves forward to t, at most to its end; the sound keeps playing; its controls and everything else stay; keeps all three invariants |
| PlayerModel.UpdateDuration | src/js/tinyPlayer.js:160-165 | only entry i's progress width changes, to `ProgressWidth(f)`; keeps all three invariants |
| PlayerModel.TickUi | src/js/tinyPlayer.js:203-211 | the timer always shows the reported position and the duration; the progress bar follows the position only when no drag is in progress; nothing else on the entry changes |
| PlayerModel.Step | src/js/tinyPlayer.js:195-228 | asks for another frame exactly when the selected sound plays; changes only the selected entry's timer and progress; keeps all three invariants |
| PlayerModel.ShowVolume | src/js/tinyPlayer.js:182-185 | one entry's volume bar becomes v·60 and its dot v·60+20; its title, files, sound and other controls stay |
| PlayerModel.Broadcast | src/js/tinyPlayer.js:181-186 | every entry's volume bar becomes v·60 and its dot v·60+20, and nothing else in any entry changes |
| PlayerModel.Volume | src/js/tinyPlayer.js:174-189 | the global volume becomes v and every entry shows it; the selection and flags stay; keeps all three invariants |
| PlayerModel.SeekPress | src/js/tinyPlayer.js:464-468 | sets the seeking flag and previews f·100 on entry i's progress bar, changing nothing else |
| PlayerModel.SeekDrag | src/js/tinyPlayer.js:472-477 | without a drag in progress nothing changes; during one, only entry i's progress changes, to the preview f·100; the selection, flags, volume and other entries stay, and all three invariants are kept |
| PlayerModel.SeekRelease | src/js/tinyPlayer.js:480-483 | clears the seeking flag and moves entry i's sound to f times its duration, with the timer showing it; entry i's title, files and other controls stay, nothing else changes, and the invariants are kept |
| PlayerModel.VolumeDrag | src/js/tinyPlayer.js:442-452 | without the dot held nothing changes; with it held this is `volume` at the level, and a level in [0,1] gives a volume in [0,1] |
| PlayerModel.AdvanceThenStep | src/js/tinyPlayer.js:195-228 | after the engine moves the selected playing sound on to t, a tick outside a drag draws the bar for t and asks for another frame |
| PlayerModel.StepKeepsPreview | src/js/tinyPlayer.js:209-211 | during a drag a tick does not overwrite the previewed progress |
| PlayerModel.ProgressOfPosition | src/js/tinyPlayer.js:209-211 | the bar a tick draws outside a drag is 0 for an unknown duration; otherwise the bar width times the duration is the position times 100; the width is within [0,100] when the position does not pass the end |
| PlayerModel.TimerWithoutPosition | src/js/tinyPlayer.js:204-207 | without a reported position the timer shows `0:00 / ` followed by the duration |
| PlayerModel.ScaledRatio | src/js/tinyPlayer.js:143 | a sound moved to fraction f of a known duration gives a bar of exactly f·100 |
| PlayerModel.DragThenStep | src/js/tinyPlayer.js:464-483 | press, release at f, then a tick: the progress bar shows exactly f·100 |
| PlayerModel.ToggleTwiceResumes | src/js/tinyPlayer.js:114-124 | toggling the playing entry twice leaves it selected and playing from the same position |
| PlayerModel.StopElsewhereBreaksExclusive | src/js/tinyPlayer.js:89-100 | a two-song playlist where stopping the second song while the first plays breaks Exclusive |
| SongUi.TitleText | src/js/tinyPlayer.js:377 | the title element shows the title followed by two spaces |
| SongUi.OnPlay | src/js/tinyPlayer.js:343-345 | hides the play icon and changes nothing else |
| SongUi.OnPause | src/js/tinyPlayer.js:366-370 | shows the play icon and changes nothing else |
| SongUi.OnStop | src/js/tinyPlayer.js:371-381 | resets the timer to the duration as `_formatTime` writes it, the progress to 0, the title and the play icon, and leaves the volume widgets alone |
| Engine.Reading | src/js/tinyPlayer.js:204 | `seek() \|\| 0` is the reported position when there is one and 0 without one; it never passes the end of a consistent sound |
| Geometry.Clamp01 | src/js/tinyPlayer.js:449 | the result lies in [0,1]; it is the input inside that range and the nearer bound outside it |
| Geometry.SeekPercentage | src/js/tinyPlayer.js:456-461 | the result lies in [0,1]; over the strip it is the offset over the width; left of the strip it is 0 and right of it 1 |
| Geometry.VolumeClickLevel | src/js/tinyPlayer.js:421-429 | the level times the width is the offset less 7.5 (`VolumeOffset`); it is below 0 when the pointer is less than `VolumeOffset` into the bar, and above 1 when it is more than `VolumeOffset` past the bar's end |
| Geometry.VolumeDragLevel | src/js/tinyPlayer.js:442-452 | the level lies in [0,1]; it equals the click level whenever that level is in range, is 0 when the click level is below 0 and 1 when it is above 1 (the clamp of line 449) |
| TimeFormat.NatToString | src/js/tinyPlayer.js:521-525 | a number's decimal text is non-empty digits with the number's value and no leading zero; it is one digit exactly below 10, and two digits from 10 to 99 |
| TimeFormat.Padded | src/js/tinyPlayer.js:521-525 | a padded field is digits with the field's value, at least two long, and exactly two below 100; from 10 on it is the plain numeral, with no leading zero |
| TimeFormat.Clock | src/js/tinyPlayer.js:520-526 | the rendering of `_formatTime` from its three fields; its meaning is stated by `ClockRoundTrip` |
| TimeFormat.FormatTimeAsWritten | src/js/tinyPlayer.js:515-527 | `_formatTime` as written, on whole seconds; what it shows is stated by `AsWrittenBelowHour`, `AsWrittenFromHour` and `AsWrittenExample` |
| TimeFormat.FormatTime | src/js/tinyPlayer.js:515-527 | the intended `_formatTime`, with the hours taken out of the seconds field; its meaning is stated by `FormatTimeRoundTrip`, `FormatTimeFields` and `FormatTimeInjective` |
| TimeFormat.FormatSeconds | src/js/tinyPlayer.js:516-518 | the formatter every timer uses: `_formatTime` as written, on the engine's real-valued seconds through `Math.floor`; see `FormatSecondsBelowHour` |
| TimeFormat.FormatSecondsBelowHour | src/js/tinyPlayer.js:515-527 | below one hour the player's formatter shows the intended text of `Math.floor(x)` and it reads back as that number |
| PlayerModel.Timer | src/js/tinyPlayer.js:205-207 | the timer text is the position and the duration, each as `_formatTime` writes it, joined by ` / ` (also lines 147-149); see `TimerBelowHour` and `TimerWithoutPosition` |
| PlayerModel.TimerBelowHour | src/js/tinyPlayer.js:205-207 | below one hour both halves of the timer are the intended texts of the whole seconds and parse back to them |
| TimeFormat.WholeSecondsIsFloor | src/js/tinyPlayer.js:516-518 | the whole seconds of x are `Math.floor(x)` |
| TimeFormat.FormatTimeRoundTrip | src/js/tinyPlayer.js:515-527 | the intended format has two fields below one hour and three from one hour on, and it parses back to exactly the seconds formatted |
| TimeFormat.ClockRoundTrip | src/js/tinyPlayer.js:520-526 | a clock reading whose minutes and seconds are below 60 has three fields with hours and two without, and parses back to its total in seconds |
| TimeFormat.FormatTimeInjective | src/js/tinyPlayer.js:515-527 | different numbers of seconds never give the same text |
| TimeFormat.FormatTimeFields | src/js/tinyPlayer.js:516-518 | the intended fields are the hours, the minutes within the hour and the seconds within the minute |
| TimeFormat.FormatTimeExamples | src/js/tinyPlayer.js:515-527 | 0 gives `0:00` and 65 gives `1:05` |
| TimeFormat.FormatTimeHourExample | src/js/tinyPlayer.js:520-523 | 3661 gives `1:01:01` |
| TimeFormat.AsWrittenBelowHour | src/js/tinyPlayer.js:515-527 | below one hour the code as written agrees with the intended formatter |
| TimeFormat.AsWrittenFromHour | src/js/tinyPlayer.js:515-527 | from one hour on, the code as written shows three fields: the hours, the padded minutes within the hour (below 60), and secs − 60·minutes, which is at least 3600; the text does not parse and differs from the intended format |
| TimeFormat.AsWrittenExample | src/js/tinyPlayer.js:515-527 | the code as written formats 3661 as `1:01:3601` |

## Left out

- DOM construction and discovery (`createPlayerFromTags`, `createSongPlayer`,
  markup building, src/js/tinyPlayer.js:237-304) is not modelled: it only
  builds markup. A song's on-page controls are the `EntryUi` value.
- Howler is not modelled beyond `Engine.Sound`. Its calls are taken as
  synchronous, and each fires its callback: play → onplay, pause → onpause,
  stop → onstop.
- `requestAnimationFrame` is not modelled. Only `Step`'s `rearm` result
  says whether another frame is requested, and the frame onplay requests
  (line 348) is not modelled.
- The `onload` callback (lines 350-354) is not modelled. The duration is
  part of a `Sound` from the start (0 while unknown).
- The title marquee is not modelled: it is commented out (lines 215-222).
  Line 213 only looks up the title element for it, and
  `_animation_timestamp` (line 42) is left out because only that dead code
  would use it.
- `ns` (line 43) is not a field of the model. It is the namespace handle
  through which `seek` and `step` reach `_formatTime` (lines 147-149,
  205-207); the model calls `TimeFormat` directly.
- The volume panel's show and hide handlers (lines 411-418) are not
  modelled: they only toggle visibility.
- The progress-bar handlers are not modelled separately.
  - The mousedown and mousemove handlers (lines 487-498) are the seek-strip
    handlers with the progress element's offset as `left`. They are covered
    by `SeekMouseDown` and `SeekMouseMove` with that `left`.
  - The mouseup handler (lines 500-504) is not modelled. It clears
    `_seeking` (line 501), then passes `idx` as `_seekPercentage`'s first
    argument, which shifts the others by one. `_seekPercentage` then calls
    `find` on the event and throws before `seek` is reached. Even without
    that, `seek` would get a single argument.
- The seek strip's mouseup uses the browser's global `event` (line 482).
  Its position is a parameter of the model.
- Page geometry is not modelled. The offsets and widths are parameters, and
  every width is required to be positive.
- Numbers are reals. NaN is modelled only where the source relies on it,
  through `PlayerModel.Fraction`. A positive position over a zero duration
  (Infinity in JavaScript) is not modelled: `Ratio` gives NaN for every
  zero duration.
- Formatting is not modelled for NaN, undefined or negative inputs to
  `_formatTime`. The player only formats non-negative positions and
  durations.
- Play, Stop, ToggleTo, Seek and Step require the entry or entries they
  call the engine on to have a sound. The source throws a TypeError on a
  missing howl there. Every index must be in range.
- Seek requires its fraction to lie in [0,1], as its comment says (line
  133). Every caller in the source passes `_seekPercentage`, which is
  proved to lie there.
- The `volume` level has no range requirement. The comment's "[0, 100]"
  (line 172) does not match the widths the code computes (v·60 percent),
  which assume [0,1]. The model follows the code.
- The engine's clock is not modelled. `PlayerModel.Advance` moves a playing
  sound's position forward to any point up to its duration, but not when
  that happens or at what rate.
- Because every timer uses `_formatTime` as written, from one hour on the
  timer shows the seconds field described under Findings. The corrected
  `FormatTime` is proved about, but the player does not use it.
- webpack.config.js is not part of this model: it is build configuration.

## Findings

| source | as written | input that shows it | evidently intended | confidence | as-written member | corrected member |
|---|---|---|---|---|---|---|
| src/js/tinyPlayer.js:518 | the seconds field is secs − 60·minutes, so the hours stay inside it | 3661 seconds is shown as `1:01:3601` | seconds within the minute (secs − 3600·hours − 60·minutes), giving `1:01:01` | not executed | TimeFormat.AsWrittenFromHour | TimeFormat.FormatTimeRoundTrip |
