/** The program's glue around the settings and lifecycle logic: building
    the clips at startup, the edit rule of the options menu, and the save
    that follows every edit. */
module Control {
  import opened Wrappers
  import opened Text
  import opened Numbers
  import opened Clips
  import opened Activation
  import opened Settings
  import opened SettingsLaws

  /** One clip per discovered file, each constructed with the default
      settings and activated at once. A file is given as its name and path. */
  function Discover(files: seq<(string, string)>): (clips: seq<Clip>)
    ensures |clips| == |files|
    ensures forall i :: 0 <= i < |files| ==>
      && clips[i].name == files[i].0 && clips[i].path == files[i].1
      && clips[i].playOdds == DefaultOdds && clips[i].volume == 1.0
      && clips[i].isActive && clips[i].task == Running(false) && Wf(clips[i])
  {
    if |files| == 0 then []
    else
      var f := files[|files| - 1];
      Discover(files[..|files| - 1]) + [Activate(NewClip(f.0, f.1))]
  }

  /** Startup: the program stops when the sound directory or the settings
      file is missing (after printing a message and waiting for a line), or
      when the directory holds no `.mp3` file. Otherwise the discovered clips
      take whatever the settings file holds for their names. `files` is
      `None` when the directory is missing. */
  function Startup(files: Option<seq<(string, string)>>, config: Option<seq<string>>, vt: VolumeText)
    : (r: Option<seq<Clip>>)
    ensures r.Some? <==> files.Some? && config.Some? && |files.value| > 0
    ensures r.Some? ==> |r.value| == |files.value|
    ensures r.Some? ==> forall i :: 0 <= i < |files.value| ==>
      && r.value[i].name == files.value[i].0 && r.value[i].path == files.value[i].1
      && r.value[i].isActive && r.value[i].task == Running(false) && Wf(r.value[i])
    ensures r.Some? ==> OddsInRange(r.value)
  {
    if files.None? || config.None? || |files.value| == 0 then None
    else
      var discovered := Discover(files.value);
      var loaded := LoadSettings(discovered, config, vt);
      assert forall i :: 0 <= i < |discovered| ==> SameClip(discovered[i], loaded[i]);
      Some(loaded)
  }

  /** A clip that no valid line of the settings file names starts with the
      default settings. */
  lemma StartupDefaults(files: seq<(string, string)>, lines: seq<string>, vt: VolumeText, i: int)
    requires 0 <= i < |files|
    requires forall k :: 0 <= k < |lines| && ParseRecord(lines[k], vt).Some? ==>
      ParseRecord(lines[k], vt).value.name != files[i].0
    ensures Startup(Some(files), Some(lines), vt).Some?
    ensures Startup(Some(files), Some(lines), vt).value[i].playOdds == DefaultOdds
    ensures Startup(Some(files), Some(lines), vt).value[i].volume == 1.0
  {
    LoadKeepsUnmentioned(Discover(files), lines, files[i].0, vt);
  }

  /** A clip takes the settings of the last valid line naming it, when it
      is the first clip of that name. */
  lemma StartupLastRecord(files: seq<(string, string)>, a: seq<string>, line: string, b: seq<string>,
                          vt: VolumeText, i: int)
    requires ParseRecord(line, vt).Some? && 0 <= i < |files|
    requires files[i].0 == ParseRecord(line, vt).value.name
    requires forall j :: 0 <= j < i ==> files[j].0 != files[i].0
    requires forall k :: 0 <= k < |b| && ParseRecord(b[k], vt).Some? ==>
      ParseRecord(b[k], vt).value.name != files[i].0
    ensures Startup(Some(files), Some(a + [line] + b), vt).Some?
    ensures Startup(Some(files), Some(a + [line] + b), vt).value[i].playOdds == ParseRecord(line, vt).value.playOdds
    ensures Startup(Some(files), Some(a + [line] + b), vt).value[i].volume == ParseRecord(line, vt).value.volume
  {
    LastRecordWins(Discover(files), a, line, b, vt, i);
  }

  /** The edit rule of the options menu: field 1 sets the play odds, field 2
      sets the volume to the given percentage over 100; any other field, or
      a missing value, leaves the clip as it was. */
  function ApplyEdit(c: Clip, field: Option<int>, value: Option<int>): (r: Clip)
    ensures SameClip(c, r)
    ensures field == Some(1) && value.Some? ==> r.playOdds == value.value && r.volume == c.volume
    ensures field == Some(2) && value.Some? ==> r.volume == value.value as real / 100.0 && r.playOdds == c.playOdds
    ensures !(field == Some(1) || field == Some(2)) || value.None? ==> r == c
  {
    match (field, value)
    case (Some(1), Some(odds)) => c.(playOdds := odds)
    case (Some(2), Some(percent)) => c.(volume := percent as real / 100.0)
    case _ => c
  }

  /** `Console.ReadLine()` on the input still to come: the next line and
      what follows it, or no line (`null`) once the input is exhausted. */
  function ReadLine(console: seq<string>): (Option<string>, seq<string>)
  {
    if |console| == 0 then (None, []) else (Some(console[0]), console[1..])
  }

  /** `int.TryParse` on a line that may be missing; a missing line fails. */
  function TryParse(line: Option<string>): Option<int>
  {
    match line
    case None => None
    case Some(s) => ParseInt(s)
  }

  /** The options menu asks for a new value only after field 1 or 2. */
  predicate ChoosesField(fieldLine: string)
  {
    ParseInt(fieldLine) == Some(1) || ParseInt(fieldLine) == Some(2)
  }

  /** `OpenOptions`: reads the field choice and, only when it is 1 or 2, the
      new value, each with `int.TryParse`. Returns the clip and the console
      lines left for the main menu. */
  function OpenOptions(c: Clip, console: seq<string>): (r: (Clip, seq<string>))
    ensures SameClip(c, r.0)
    ensures IsInt32(c.playOdds) ==> IsInt32(r.0.playOdds)
    ensures |console| > 0 && !ChoosesField(console[0]) ==> r == (c, console[1..])
    ensures |console| >= 2 && ChoosesField(console[0]) ==>
      r == (ApplyEdit(c, ParseInt(console[0]), ParseInt(console[1])), console[2..])
    ensures |console| < 2 ==> r == (c, [])
  {
    var field := ReadLine(console);
    var choice := TryParse(field.0);
    if choice == Some(1) || choice == Some(2) then
      var value := ReadLine(field.1);
      (ApplyEdit(c, choice, TryParse(value.0)), value.1)
    else (c, field.1)
  }

  /** A numeric menu choice that names a clip: the options menu edits clip
      `index`, counted from 1, and the program then saves all clips, that
      is writes `Save` of the result. */
  function MenuSelect(clips: seq<Clip>, index: int, console: seq<string>): (r: (seq<Clip>, seq<string>))
    requires 1 <= index <= |clips|
    ensures SameClips(clips, r.0)
    ensures r.0[index - 1] == OpenOptions(clips[index - 1], console).0
    ensures forall j :: 0 <= j < |clips| && j != index - 1 ==> r.0[j] == clips[j]
    ensures r.1 == OpenOptions(clips[index - 1], console).1
    ensures OddsInRange(clips) ==> OddsInRange(r.0)
  {
    var c := OpenOptions(clips[index - 1], console);
    var edited := clips[index - 1 := c.0];
    assert forall j :: 0 <= j < |clips| ==> edited[j] == clips[j] || j == index - 1;
    assert OddsInRange(clips) ==> OddsInRange(edited) by {
      assert IsInt32(clips[index - 1].playOdds) ==> IsInt32(c.0.playOdds);
    }
    (edited, c.1)
  }

  /** What one line typed at the main menu does: quit, nothing, an edit
      followed by a save, or a crash on a number that names no clip
      (`soundEffects[result - 1]` is not checked and throws). */
  datatype MenuOutcome = Quit | Ignored | Edited(clips: seq<Clip>) | Crashed

  /** The main menu: `q` quits, a number opens the options menu for that
      clip, anything else (a missing line included) is ignored. Returns the
      outcome and the console lines still to come. */
  function MenuStep(clips: seq<Clip>, console: seq<string>): (r: (MenuOutcome, seq<string>))
    ensures r.0.Quit? <==> |console| > 0 && console[0] == "q"
    ensures r.0.Ignored? <==> |console| == 0 || (console[0] != "q" && ParseInt(console[0]).None?)
    ensures r.0.Crashed? <==> (|console| > 0 && console[0] != "q" && ParseInt(console[0]).Some?
      && !(1 <= ParseInt(console[0]).value <= |clips|))
    ensures r.0.Edited? ==> var k := ParseInt(console[0]).value;
      && 1 <= k <= |clips|
      && SameClips(clips, r.0.clips)
      && r.0.clips[k - 1] == OpenOptions(clips[k - 1], console[1..]).0
      && (forall j :: 0 <= j < |clips| && j != k - 1 ==> r.0.clips[j] == clips[j])
      && r.1 == OpenOptions(clips[k - 1], console[1..]).1
    ensures !r.0.Edited? ==> r.1 == ReadLine(console).1
  {
    if |console| == 0 then (Ignored, [])
    else if console[0] == "q" then (Quit, console[1..])
    else
      match ParseInt(console[0])
      case None => (Ignored, console[1..])
      case Some(index) =>
        if 1 <= index <= |clips| then
          var e := MenuSelect(clips, index, console[1..]);
          (Edited(e.0), e.1)
        else (Crashed, console[1..])
  }

  /** The file written after an edit, loaded onto the clips as they were
      before the edit: each clip whose saved line is readable takes the
      edited play odds and the read-back volume; with separator-free names
      and volumes that read back unchanged, that is the edited clips. */
  lemma EditPersisted(clips: seq<Clip>, index: int, console: seq<string>, vt: VolumeText)
    requires DistinctNames(clips) && OddsInRange(clips)
    requires 1 <= index <= |clips|
    ensures var edited := MenuSelect(clips, index, console).0;
            var r := Load(clips, Save(edited, vt), vt);
            |r| == |clips| && forall j :: 0 <= j < |clips| ==> r[j] == Reloaded(clips[j], edited[j], vt)
    ensures var edited := MenuSelect(clips, index, console).0;
            BarFreeNames(clips) && ExactVolumes(edited, vt) ==> Load(clips, Save(edited, vt), vt) == edited
  {
    var edited := MenuSelect(clips, index, console).0;
    assert forall j :: 0 <= j < |clips| ==> edited[j].name == clips[j].name;
    assert DistinctNames(edited);
    assert BarFreeNames(clips) ==> BarFreeNames(edited);
    SaveLoadOnto(clips, edited, vt);
  }

  /** Two files `a.mp3` and `b.mp3`, and a settings file holding
      `a.mp3|500|0.5` and `unknown.mp3|10|1.0`: after startup `a.mp3` plays
      1 in 500 at half volume, `b.mp3` keeps the defaults, and the unknown
      record is dropped. Here and below, lines are written as concatenations
      of their fields, which keeps the sequence reasoning small. */
  lemma StartupScenario(vt: VolumeText)
    requires vt.parse("0.5") == Some(0.5) && vt.parse("1.0") == Some(1.0)
    ensures var a := Activate(NewClip("a.mp3", "sfx/a.mp3"));
            var b := Activate(NewClip("b.mp3", "sfx/b.mp3"));
            Startup(Some([("a.mp3", "sfx/a.mp3"), ("b.mp3", "sfx/b.mp3")]),
                    Some(["a.mp3" + "|" + "500" + "|" + "0.5", "unknown.mp3" + "|" + "10" + "|" + "1.0"]), vt)
              == Some([a.(playOdds := 500, volume := 0.5), b])
  {
    DiscoverTwo();
    ScenarioLoad(vt);
  }

  lemma ScenarioLoad(vt: VolumeText)
    requires vt.parse("0.5") == Some(0.5) && vt.parse("1.0") == Some(1.0)
    ensures var a := Activate(NewClip("a.mp3", "sfx/a.mp3"));
            var b := Activate(NewClip("b.mp3", "sfx/b.mp3"));
            Load([a, b], ["a.mp3" + "|" + "500" + "|" + "0.5", "unknown.mp3" + "|" + "10" + "|" + "1.0"], vt)
              == [a.(playOdds := 500, volume := 0.5), b]
  {
    var a := Activate(NewClip("a.mp3", "sfx/a.mp3"));
    var b := Activate(NewClip("b.mp3", "sfx/b.mp3"));
    var known := "a.mp3" + "|" + "500" + "|" + "0.5";
    var unknown := "unknown.mp3" + "|" + "10" + "|" + "1.0";
    KnownLine(vt);
    UnknownLine(vt);
    var lines := [known, unknown];
    var loaded := [a.(playOdds := 500, volume := 0.5), b];
    assert Load([a, b], lines[..1], vt) == loaded by {
      assert lines[..1] == [known] && lines[..1][..0] == [];
      FirstIndexUnique([a, b], 0, "a.mp3");
    }
    assert Merge(loaded, Record("unknown.mp3", 10, 1.0)) == loaded by {
      assert loaded[0].name != "unknown.mp3" && loaded[1].name != "unknown.mp3";
    }
  }

  lemma DiscoverTwo()
    ensures Discover([("a.mp3", "sfx/a.mp3"), ("b.mp3", "sfx/b.mp3")])
      == [Activate(NewClip("a.mp3", "sfx/a.mp3")), Activate(NewClip("b.mp3", "sfx/b.mp3"))]
  {
    var files := [("a.mp3", "sfx/a.mp3"), ("b.mp3", "sfx/b.mp3")];
    assert files[..1] == [("a.mp3", "sfx/a.mp3")];
    assert files[..1][..0] == [];
  }

  lemma KnownLine(vt: VolumeText)
    requires vt.parse("0.5") == Some(0.5)
    ensures ParseRecord("a.mp3" + "|" + "500" + "|" + "0.5", vt) == Some(Record("a.mp3", 500, 0.5))
  {
    SplitThree("a.mp3", "500", "0.5", '|');
    Parse500();
  }

  lemma UnknownLine(vt: VolumeText)
    requires vt.parse("1.0") == Some(1.0)
    ensures ParseRecord("unknown.mp3" + "|" + "10" + "|" + "1.0", vt) == Some(Record("unknown.mp3", 10, 1.0))
  {
    SplitThree("unknown.mp3", "10", "1.0", '|');
    Parse10();
  }

  lemma Parse500()
    ensures ParseInt("500") == Some(500)
  {
    assert ValueOf("500") == 500 by {
      assert "500"[..2] == "50" && "50"[..1] == "5" && "5"[..0] == "";
    }
    ParseDigits("500");
  }

  lemma Parse10()
    ensures ParseInt("10") == Some(10)
  {
    assert ValueOf("10") == 10 by {
      assert "10"[..1] == "1" && "1"[..0] == "";
    }
    ParseDigits("10");
  }

  lemma DefaultOddsText()
    ensures FormatInt(DefaultOdds) == "1200"
  {
    assert Digits(1) == "1";
    assert Digits(12) == "12";
    assert Digits(120) == "120";
  }

  lemma EditInputs()
    ensures ParseInt("1") == Some(1) && ParseInt("2") == Some(2) && ParseInt("3") == Some(3)
    ensures ParseInt("50") == Some(50)
  {
    assert ValueOf("1") == 1 by { assert "1"[..0] == ""; }
    ParseDigits("1");
    assert ValueOf("2") == 2 by { assert "2"[..0] == ""; }
    ParseDigits("2");
    assert ValueOf("3") == 3 by { assert "3"[..0] == ""; }
    ParseDigits("3");
    assert ValueOf("50") == 50 by { assert "50"[..1] == "5"; assert "5"[..0] == ""; }
    ParseDigits("50");
  }

  lemma EditHalvesVolume(c: Clip)
    ensures OpenOptions(c, ["2", "50"]) == (c.(volume := 0.5), [])
  {
    EditInputs();
    assert ["2", "50"][2..] == [];
  }

  /** Field 3 asks for no value: the next line goes back to the main menu. */
  lemma OtherFieldReadsNoValue(c: Clip)
    ensures OpenOptions(c, ["3", "q"]) == (c, ["q"])
  {
    EditInputs();
    assert ["3", "q"][1..] == ["q"];
  }

  /** Typing 1, then field 2 and value 50, halves clip 1's volume and
      leaves no input unread. */
  lemma EditScenario()
    ensures var a := Activate(NewClip("a.mp3", "sfx/a.mp3"));
            MenuStep([a], ["1", "2", "50"]) == (Edited([a.(volume := 0.5)]), [])
  {
    var a := Activate(NewClip("a.mp3", "sfx/a.mp3"));
    EditInputs();
    assert ["1", "2", "50"][1..] == ["2", "50"];
    assert "1" != "q";
    EditHalvesVolume(a);
    var e := MenuSelect([a], 1, ["2", "50"]);
    assert e.0 == [a.(volume := 0.5)] && e.1 == [];
  }

  /** The save that follows that edit writes the default play odds and the
      new volume. */
  lemma EditScenarioSaved(vt: VolumeText)
    ensures var a := Activate(NewClip("a.mp3", "sfx/a.mp3")).(volume := 0.5);
            Save([a], vt) == ["a.mp3" + "|" + "1200" + "|" + vt.format(0.5)]
  {
    var a := Activate(NewClip("a.mp3", "sfx/a.mp3")).(volume := 0.5);
    assert Save([a], vt) == [FormatRecord(a, vt)] by {
      assert [a][..0] == [];
    }
    DefaultOddsText();
  }
}
