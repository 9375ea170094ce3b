# RandomSfxPlayer in Dafny

RandomSfxPlayer is a console program. It finds the `.mp3` files in a sound directory and makes one clip (`SFX`) for each file. Every clip gets its own polling task. Every 250 ms the task rolls a number and plays the clip with probability 1 in `PlayOdds`. Each clip's play odds and volume are kept in a settings file, one `Name|PlayOdds|Volume` line per clip. The file is loaded at startup and rewritten after every numeric choice at the main menu that names a clip, whether or not the options menu changed anything.

This project models the program's logic as pure Dafny functions over immutable values:

- `clips.dfy` (`Clips`): the `SFX` entity as the `Clip` datatype, and its two constructors. The polling task is abstracted to `NoTask | Running(cancelRequested) | Completed`. The cancellation source is abstracted to a flag.
- `activation.dfy` (`Activation`): `Activate`, `Deactivate` and the end of a polling task, as a small state machine. It also holds the invariant every reachable clip satisfies.
- `player.dfy` (`Player`): the per-tick play decision, its probability, and the polling loop over a given sequence of draws.
- `text.dfy` (`Text`): `String.Split('|')` and its inverse, the join.
- `numbers.dfy` (`Numbers`): `int.TryParse` and `int.ToString()` for 32-bit integers.
- `settings.dfy` (`Settings`): `SFX.ToString`, `SaveSettings` and `LoadSettings`, over a sequence of lines instead of a file.
- `settings_laws.dfy` (`SettingsLaws`): what saving and loading promise together.
- `control.dfy` (`Control`): startup, the main-menu dispatch, the options-menu edit rule, and two worked examples: startup with files `a.mp3` and `b.mp3`, and an edit of clip 1's volume followed by a save.
- `wrappers.dfy` (`Wrappers`): the `Option` type.

The program formats and parses the volume as a `float`. The model treats the volume as a `real`. It takes the volume's text form as a parameter `VolumeText` (a `format` and a `parse` function). No save-and-load law assumes anything about it; the startup example assumes only that `0.5` and `1.0` parse to those values. `ReadBack(vt, v)` is the volume a load recovers from the text written for `v`; it is `None` when that text holds a `|` or does not parse, and then the saved line is skipped on loading. The save-and-load laws are stated in terms of `ReadBack`: play odds come back whenever the line is readable, and volumes come back unchanged whenever they read back as themselves (`ExactVolumes`), which .NET's rounding `float` text need not do.

Behaviour the code decides in cases the program does not discuss:

- `Activate` tests the task, not the `IsActive` flag. Suppose a clip is deactivated and activated again before its old task has seen the cancellation. Then the activation does nothing and the clip stays inactive. Its old task runs on until it next checks the token, which happens only at the top of the loop, so it may draw and play once more. After that no task polls the clip (`ReactivateWhileDraining`).
- The polling loop catches no exception. A file that fails to open or play ends the polling task, while `IsActive` stays true (`FaultLeavesClipActive`).
- The program does not say what should happen to duplicate clip names. In the code each record updates the first clip of its name, so after a save and a load the second clip is untouched and the first carries the second one's settings (`DuplicateNamesAlias`). Startup never builds such a clip set: names are the file names of one non-recursive directory listing, so they are always distinct.
- The options menu reads a value line only after field 1 or 2. After any other number, or a field line that is not a number, the next typed line goes to the main menu (`OpenOptions`, `OtherFieldReadsNoValue`).
- A main-menu number that names no clip makes `soundEffects[result - 1]` throw, which ends the program (`MenuStep`, outcome `Crashed`).

## Model

| member | source | states |
|---|---|---|
| Clips.NewClip | RandomSfxPlayer/Program.cs:151-157 | a new clip has the given name and path, play odds 1200 (`SfxDefaultOdds`, line 14) and volume 1, and no task |
| Clips.ClipWith | RandomSfxPlayer/Program.cs:159-165 | the four-argument constructor keeps name, path, odds and volume as given; the clip starts inactive with no task |
| Activation.Activate | RandomSfxPlayer/Program.cs:167-177 | while a task is running the clip is unchanged; otherwise the clip becomes active, holds a fresh source and runs an uncancelled task; settings never change |
| Activation.Deactivate | RandomSfxPlayer/Program.cs:179-188 | without a source nothing changes; with one, the clip becomes inactive, drops the source, and a running task is asked to cancel but keeps running |
| Activation.Finish | RandomSfxPlayer/Program.cs:190-212 | a running task ends, on seeing its cancellation (line 193) or by an exception from playback (lines 199-204); flags and settings are untouched |
| Activation.RunPreservesWf | RandomSfxPlayer/Program.cs:167-188 | after any sequence of activations, deactivations and task endings, `IsActive` holds exactly when a source is held, a held source belongs to the current uncancelled task, and an uncancelled running task always holds the source |
| Activation.ActivateIdempotent | RandomSfxPlayer/Program.cs:169-176 | activating twice equals activating once |
| Activation.DeactivateIdempotent | RandomSfxPlayer/Program.cs:181-187 | deactivating twice equals deactivating once |
| Activation.NoOrphanTask | RandomSfxPlayer/Program.cs:169-186 | `Activate` replaces the task only when the old one is not running; after `Deactivate` no running task is left uncancelled |
| Activation.ReactivateWhileDraining | RandomSfxPlayer/Program.cs:169-186 | deactivating an active clip and activating it at once leaves it inactive while the old task drains; once that task ends, activation starts a fresh task |
| Activation.FaultLeavesClipActive | RandomSfxPlayer/Program.cs:193-204 | when playback throws, the task ends but the clip stays active with its source; the next activation restarts it |
| Player.ShouldPlay | RandomSfxPlayer/Program.cs:196-198 | a tick plays exactly when its draw is below 100 |
| Player.PlayProbability | RandomSfxPlayer/Program.cs:196-198 | for play odds p with 1 <= p and 100p within `int`, exactly 100 of the 100p possible draws play, so a tick plays with probability 1/p |
| Player.PollingLoop | RandomSfxPlayer/Program.cs:193-198 | over the ticks before cancellation, playback starts exactly on the ticks whose draw is below 100, listed in tick order |
| Text.Split | RandomSfxPlayer/Program.cs:120-121 | a line with k separators splits into k+1 fields, none containing the separator, which join back into the line |
| Text.SplitJoin | RandomSfxPlayer/Program.cs:120-121 | fields free of the separator, joined with it, split back into the same fields |
| Numbers.Digits | RandomSfxPlayer/Program.cs:216 | the decimal spelling of n has only digits, no leading zero, and denotes n |
| Numbers.FormatInt | RandomSfxPlayer/Program.cs:216 | a formatted `int` is digits with an optional leading `-`, so it has no white space at its ends and no pipe |
| Numbers.TrimStartSpec | RandomSfxPlayer/Program.cs:127 | trimming the start removes exactly the leading white space that `int.TryParse` allows |
| Numbers.TrimEndSpec | RandomSfxPlayer/Program.cs:127 | trimming the end removes exactly the trailing white space that `int.TryParse` allows |
| Numbers.ParseInt | RandomSfxPlayer/Program.cs:127 | `int.TryParse` succeeds only with a value that fits in 32 bits |
| Numbers.ParseIntAccepts | RandomSfxPlayer/Program.cs:127 | white space, an optional `+` or `-`, one or more digits and white space parse to the value the sign and digits spell when it fits in 32 bits, and fail otherwise |
| Numbers.ParseIntShape | RandomSfxPlayer/Program.cs:127 | conversely, every string that parses is white space, a sign, digits and white space, and its value is the one they spell |
| Numbers.FormatParse | RandomSfxPlayer/Program.cs:127 | parsing what `ToString` wrote gives back every 32-bit integer |
| Numbers.ParseDigits | RandomSfxPlayer/Program.cs:127 | a plain run of digits parses to the number it denotes when that fits in 32 bits |
| Settings.Save | RandomSfxPlayer/Program.cs:96-105 | saving writes exactly one line per clip |
| Settings.SaveLines | RandomSfxPlayer/Program.cs:100-103 | line i of the saved file is clip i's name, play odds and volume joined by pipes (`ToString`, lines 214-217), in array order |
| Settings.FormatRecordFields | RandomSfxPlayer/Program.cs:214-217 | the line `ToString` writes splits back into name, play odds text and volume text when neither the name nor the volume text holds a pipe, and holds more than two pipes otherwise |
| Settings.ParseRecord | RandomSfxPlayer/Program.cs:120-127 | a line without exactly two separators is no record; an accepted record has 32-bit play odds and a name without pipes |
| Settings.FirstIndex | RandomSfxPlayer/Program.cs:129 | the lookup finds the first clip with the name, or reports that no clip has it |
| Settings.FindFirst | RandomSfxPlayer/Program.cs:129 | the search loop stops at the first clip with the name, or past the end when there is none |
| Settings.Merge | RandomSfxPlayer/Program.cs:129-134 | a record sets play odds and volume of the first clip with its name and of no other clip; with no such clip nothing changes; no clip is added or removed |
| Settings.ApplyLine | RandomSfxPlayer/Program.cs:118-137 | one line changes at most play odds and volume, never count, order, names, paths or lifecycle |
| Settings.Load | RandomSfxPlayer/Program.cs:116-137 | loading keeps count, order, names, paths and lifecycle of all clips, and keeps play odds within 32 bits |
| Settings.LoadSettings | RandomSfxPlayer/Program.cs:108-138 | a missing file changes nothing; otherwise the lines are loaded with the guarantees of `Load` |
| Settings.LoadLines | RandomSfxPlayer/Program.cs:116-137 | the in-place loop over lines, with its search for the first matching clip, computes `Load` |
| SettingsLaws.ParseFormatRecord | RandomSfxPlayer/Program.cs:120-127 | the line saved for a clip parses back to its name, its play odds and the volume its text reads as; it is no record when the name or the volume text holds a pipe or the volume text does not parse |
| SettingsLaws.LoadAppend | RandomSfxPlayer/Program.cs:118-137 | lines are applied in file order: loading a + b is loading a, then b |
| SettingsLaws.MalformedLineSkipped | RandomSfxPlayer/Program.cs:120-127 | a line that does not split into three fields, or whose odds or volume fail to parse, has no effect wherever it appears |
| SettingsLaws.UnknownNameSkipped | RandomSfxPlayer/Program.cs:129-134 | a valid record naming no clip has no effect wherever it appears |
| SettingsLaws.LoadKeepsUnmentioned | RandomSfxPlayer/Program.cs:118-137 | clips whose name no valid record carries come out of loading unchanged |
| SettingsLaws.LastRecordWins | RandomSfxPlayer/Program.cs:118-134 | when a valid record is the last one for its name, the first clip of that name ends with its play odds and volume |
| SettingsLaws.SaveLoad | RandomSfxPlayer/Program.cs:96-137 | saving clips with distinct names and loading onto any clips with distinct names gives each target the play odds and read-back volume of the source clip of its name when that clip's line is readable, and leaves every other target unchanged |
| SettingsLaws.SaveLoadOnto | RandomSfxPlayer/Program.cs:96-137 | for clips with distinct names, loading the saved settings of some clips onto clips that differ from them only in settings gives each clip with a readable line the saved play odds and read-back volume and leaves the rest as they were; with pipe-free names and exactly read-back volumes it reproduces the saved clips |
| SettingsLaws.SaveLoadIdentity | RandomSfxPlayer/Program.cs:96-137 | saving and loading back onto the same clips with distinct names restores every play odds; it changes nothing at all when names are pipe-free and volumes read back exactly |
| SettingsLaws.DuplicateNamesAlias | RandomSfxPlayer/Program.cs:129-134 | with two clips of one name, save and load never touch the second clip, and give the first clip the second one's play odds and read-back volume when its line is readable |
| Control.Discover | RandomSfxPlayer/Program.cs:43-49 | one clip per file, in order, with the file's name and path and default settings, each activated with a running task |
| Control.Startup | RandomSfxPlayer/Program.cs:25-50 | the program goes on only when the directory and the settings file exist and there is at least one file; then the clips are in file order, active, and their play odds fit in 32 bits |
| Control.StartupDefaults | RandomSfxPlayer/Program.cs:39-50 | a clip that no valid settings line names starts with play odds 1200 and volume 1 |
| Control.StartupLastRecord | RandomSfxPlayer/Program.cs:39-50 | after startup, the first clip of a name carries the play odds and volume of the last valid settings line naming it |
| Control.ApplyEdit | RandomSfxPlayer/Program.cs:87-92 | field 1 with a value sets the play odds; field 2 with a value sets the volume to value/100; anything else leaves the clip unchanged |
| Control.OpenOptions | RandomSfxPlayer/Program.cs:81-94 | a field line other than 1 or 2 consumes one line and leaves the clip unchanged; after field 1 or 2 the value line is consumed too and the edit rule applies; only play odds and volume can change, and play odds stay within 32 bits |
| Control.MenuSelect | RandomSfxPlayer/Program.cs:59-62 | the chosen clip becomes what the options menu makes of it, every other clip is unchanged, and the options menu's unread lines are left for the main menu |
| Control.MenuStep | RandomSfxPlayer/Program.cs:56-63 | `q` quits; a non-numeric or missing line is ignored; a number naming no clip crashes; a number naming a clip turns that clip, and only it, into what the options menu makes of it |
| Control.EditPersisted | RandomSfxPlayer/Program.cs:59-62 | for clips with distinct names, the file saved after an edit, loaded onto the clips as they were before, gives each clip with a readable line its edited play odds and read-back volume; with pipe-free names and exactly read-back volumes it reproduces the edited clips |
| Control.StartupScenario | RandomSfxPlayer/Program.cs:39-50 | with files `a.mp3` and `b.mp3` and settings lines (`a.mp3`, 500, 0.5) and (`unknown.mp3`, 10, 1.0), `a.mp3` gets 500 and 0.5, `b.mp3` keeps the defaults, and the unknown record is dropped |
| Control.EditScenario | RandomSfxPlayer/Program.cs:56-62 | typing 1, then field 2 and value 50, sets clip 1's volume to 0.5 and reads no further line |
| Control.OtherFieldReadsNoValue | RandomSfxPlayer/Program.cs:87-92 | after field 3 no value is read, so the next line is left for the main menu |
| Control.EditScenarioSaved | RandomSfxPlayer/Program.cs:96-105 | the save after that edit writes `a.mp3`, 1200 and the text of 0.5, joined by pipes |

## Left out

- Audio playback is not modelled: NAudio's `AudioFileReader` and `WaveOutEvent`, setting the output volume, and the busy wait on `PlaybackState` (lines 199-210). A faulting playback is covered only as the end of the polling task (`Finish`).
- Timing and concurrency are not modelled: `Task.Run`, `Task.Delay(250)`, and when cancellation actually takes effect. The task and the cancellation source are flags. The lambda passed to `Task.Run` reads the `cancellationTokenSource` field only when it starts. The model assumes the task gets the source created in the same `Activate` call, and ignores the race with an early `Deactivate`.
- Unsynchronised reads of `PlayOdds` are not modelled as a memory model. `PollingLoop` instead takes the odds each tick sees as a parameter.
- `System.Random` is not modelled: each tick's draw is a parameter.
- Console I/O is not modelled: `Console.Clear`, the prompts, and `WriteOptions`. Console input is the sequence of lines still to be typed, and each `Console.ReadLine` takes the next one.
- File I/O is not modelled: `Directory.Exists`, `File.Exists`, `Directory.GetFiles`, `Path.GetFileName`, `StreamWriter` and `File.ReadAllLines`. Files are pairs of name and path, and the settings file is a sequence of lines. A name containing a line break would be split across lines by `ReadAllLines`; the model does not capture that.
- Float arithmetic and text are not modelled: `{Volume}` and `float.TryParse` depend on culture and precision, so they are the parameter `VolumeText`.
- `float.TryParse` also accepts `NaN`, `Infinity` and out-of-range numbers, which become infinity. No `real` stands for these values, so `VolumeText.parse` can only map such text to a finite volume or to `None`.
- SettingsLaws.SaveLoad: requires distinct names among the saved clips and among the clips loaded onto; duplicate names are covered only by `DuplicateNamesAlias`. This excludes nothing the program reaches: clip names are `Path.GetFileName` of one non-recursive `Directory.GetFiles` listing (lines 39 and 46), so they are distinct.
- Control.ApplyEdit: the new volume is the exact quotient value/100, not the nearest `float` that `volume / 100f` gives.
- Numbers.FormatInt: writes `-` for negative values, as the invariant culture does. `{PlayOdds}` uses the current culture's `NegativeSign`.
- Numbers.ParseInt: uses the invariant culture's signs `-` and `+`. It does not accept the trailing NUL characters that .NET also allows.
- Player.PlayProbability: requires 1 <= PlayOdds and 100 * PlayOdds <= 2147483647. The program computes `100 * PlayOdds` in wrapping 32-bit arithmetic. `Random.Next(0, 0)` returns 0, so PlayOdds = 0 plays on every tick. A negative bound throws, which ends the polling task.
- Player.PollingLoop: the same bounds on the odds of every tick as `PlayProbability`.
- Control.MenuStep: at the end of the input `Console.ReadLine` returns `null`, which the program ignores and then asks again forever; the model returns `Ignored` once and stops.
