/** The visual state of one song player, and the engine callbacks
    (`onplay`, `onpause`, `onstop`, `onend`) that rewrite it. */
module SongUi {

  import opened TimeFormat
  import opened Engine

  /** `title` is the text of the song-title element, `timer` that of the
      song-timer element; `progress`, `volumeBar` and `volumeDot` are the CSS
      percentages of the progress bar's width, the volume bar's width and
      the volume dot's left offset.  `playIcon` holds when the play icon is
      shown and the pause icon hidden, and is false the other way round. */
  datatype EntryUi = EntryUi(
    title: string,
    timer: string,
    progress: real,
    volumeBar: real,
    volumeDot: real,
    playIcon: bool)

  /** The text of the song-title element for a song's title. */
  function TitleText(title: string): (r: string)
    ensures |r| == |title| + 2 && r[..|title|] == title && r[|title|..] == "  "
  {
    title + "  "
  }

  /** `onplay`: hide the play icon, show the pause icon. */
  function OnPlay(ui: EntryUi): (r: EntryUi)
    ensures !r.playIcon
    ensures r.(playIcon := ui.playIcon) == ui
  {
    ui.(playIcon := false)
  }

  /** `onpause`: hide the pause icon, show the play icon. */
  function OnPause(ui: EntryUi): (r: EntryUi)
    ensures r.playIcon
    ensures r.(playIcon := ui.playIcon) == ui
  {
    ui.(playIcon := true)
  }

  /** `onstop` and `onend`: the timer shows the duration alone, the progress
      bar empties, the original title comes back and the play icon is shown;
      the volume widgets are left alone. */
  function OnStop(ui: EntryUi, title: string, duration: Seconds): (r: EntryUi)
    ensures r.timer == FormatSeconds(duration) && r.progress == 0.0
    ensures r.title == TitleText(title) && r.playIcon
    ensures r.volumeBar == ui.volumeBar && r.volumeDot == ui.volumeDot
  {
    ui.(timer := FormatSeconds(duration), progress := 0.0, title := TitleText(title), playIcon := true)
  }
}
