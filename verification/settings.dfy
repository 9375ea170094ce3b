/** `SaveSettings`, `SFX.ToString` and `LoadSettings`: the settings file as
    a sequence of `name|playOdds|volume` lines, and the merge of those lines
    into the clips discovered at startup. */
module Settings {
  import opened Wrappers
  import opened Text
  import opened Numbers
  import opened Clips

  /** How a volume is written and read back (`{Volume}` and
      `float.TryParse`). Both are culture- and precision-dependent, so the
      model takes them as parameters. */
  datatype VolumeText = VolumeText(format: real -> string, parse: string -> Option<real>)

  /** The volume a load recovers from the text a save wrote for `v`: none
      when that text holds a separator or does not parse, which makes the
      line unreadable. With .NET's `float` text this is `v` rounded. */
  function ReadBack(vt: VolumeText, v: real): (r: Option<real>)
    ensures r.Some? <==> '|' !in vt.format(v) && vt.parse(vt.format(v)).Some?
  {
    if '|' in vt.format(v) then None else vt.parse(vt.format(v))
  }

  /** Every clip's volume survives being written and read back unchanged. */
  predicate ExactVolumes(clips: seq<Clip>, vt: VolumeText)
  {
    forall i :: 0 <= i < |clips| ==> ReadBack(vt, clips[i].volume) == Some(clips[i].volume)
  }

  /** One well-formed line of the settings file. */
  datatype Record = Record(name: string, playOdds: int, volume: real)

  /** Every clip's play odds fit in a 32-bit `int`, as the `SFX.PlayOdds`
      property does. */
  predicate OddsInRange(clips: seq<Clip>)
  {
    forall i :: 0 <= i < |clips| ==> IsInt32(clips[i].playOdds)
  }

  /** `SFX.ToString()`: the clip's name, play odds and volume, separated by `|`. */
  function FormatRecord(c: Clip, vt: VolumeText): string
  {
    c.name + "|" + FormatInt(c.playOdds) + "|" + vt.format(c.volume)
  }

  /** A saved line splits into the clip's name, play odds and volume text
      when neither the name nor the volume text holds a separator; otherwise
      it holds more than two separators. */
  lemma FormatRecordFields(c: Clip, vt: VolumeText)
    ensures '|' !in c.name && '|' !in vt.format(c.volume) ==>
      Split(FormatRecord(c, vt), '|') == [c.name, FormatInt(c.playOdds), vt.format(c.volume)]
    ensures '|' in c.name || '|' in vt.format(c.volume) ==> Count(FormatRecord(c, vt), '|') > 2
  {
    var line := FormatRecord(c, vt);
    if '|' !in c.name && '|' !in vt.format(c.volume) {
      SplitThree(c.name, FormatInt(c.playOdds), vt.format(c.volume), '|');
    }
    assert Count(line, '|') == Count(c.name, '|') + 2 + Count(vt.format(c.volume), '|') by {
      CountAppend(c.name + "|" + FormatInt(c.playOdds) + "|", vt.format(c.volume), '|');
      CountAppend(c.name + "|" + FormatInt(c.playOdds), "|", '|');
      CountAppend(c.name + "|", FormatInt(c.playOdds), '|');
      CountAppend(c.name, "|", '|');
      assert Count(FormatInt(c.playOdds), '|') == 0 by {
        SplitNoSeparator(FormatInt(c.playOdds), '|');
      }
      assert Count("|", '|') == 1;
    }
    if '|' in c.name {
      CountPositive(c.name, '|');
    }
    if '|' in vt.format(c.volume) {
      CountPositive(vt.format(c.volume), '|');
    }
  }

  /** `SaveSettings`: one line per clip, written in array order. */
  function Save(clips: seq<Clip>, vt: VolumeText): (lines: seq<string>)
    ensures |lines| == |clips|
  {
    if |clips| == 0 then []
    else Save(clips[..|clips| - 1], vt) + [FormatRecord(clips[|clips| - 1], vt)]
  }

  /** The saved file holds, at each position, the line of the clip at that
      position. */
  lemma SaveLines(clips: seq<Clip>, vt: VolumeText)
    ensures forall i :: 0 <= i < |clips| ==> Save(clips, vt)[i] == FormatRecord(clips[i], vt)
  {
    forall i | 0 <= i < |clips|
      ensures Save(clips, vt)[i] == FormatRecord(clips[i], vt)
    {
      SaveLine(clips, vt, i);
    }
  }

  /** Line `i` of the saved file is the line of clip `i`. */
  lemma {:induction false} SaveLine(clips: seq<Clip>, vt: VolumeText, i: int)
    requires 0 <= i < |clips|
    ensures Save(clips, vt)[i] == FormatRecord(clips[i], vt)
  {
    var init := clips[..|clips| - 1];
    if i < |init| {
      SaveLine(init, vt, i);
      assert clips[i] == init[i];
    }
  }

  /** The record a line holds, if it splits on `|` into exactly three fields
      whose second is an `int` and whose third is a volume. */
  function ParseRecord(line: string, vt: VolumeText): (r: Option<Record>)
    ensures r.Some? ==> IsInt32(r.value.playOdds) && '|' !in r.value.name
    ensures Count(line, '|') != 2 ==> r == None
  {
    var parts := Split(line, '|');
    if |parts| != 3 then None
    else
      match (ParseInt(parts[1]), vt.parse(parts[2]))
      case (Some(odds), Some(volume)) => Some(Record(parts[0], odds, volume))
      case _ => None
  }

  /** Clip `i` is the first one named `name`. */
  predicate IsFirst(clips: seq<Clip>, i: int, name: string)
  {
    0 <= i < |clips| && clips[i].name == name && forall j :: 0 <= j < i ==> clips[j].name != name
  }

  /** `soundEffects.FirstOrDefault(s => s.Name == name)`, as a position. */
  function FirstIndex(clips: seq<Clip>, name: string): (r: Option<nat>)
    ensures r.Some? ==> r.value < |clips| && clips[r.value].name == name
    ensures r.Some? ==> forall j :: 0 <= j < r.value ==> clips[j].name != name
    ensures r.None? ==> forall j :: 0 <= j < |clips| ==> clips[j].name != name
  {
    if |clips| == 0 then None
    else if clips[0].name == name then Some(0)
    else
      match FirstIndex(clips[1..], name)
      case None => None
      case Some(i) => Some(i + 1)
  }

  /** Apply one record: the first clip carrying its name takes its play odds
      and volume; every other clip is unchanged; no clip is added. */
  function Merge(clips: seq<Clip>, rec: Record): (r: seq<Clip>)
    ensures SameClips(clips, r)
    ensures (forall j :: 0 <= j < |clips| ==> clips[j].name != rec.name) ==> r == clips
    ensures forall i :: IsFirst(clips, i, rec.name) ==>
      && r[i].playOdds == rec.playOdds && r[i].volume == rec.volume
      && (forall j :: 0 <= j < |clips| && j != i ==> r[j] == clips[j])
  {
    match FirstIndex(clips, rec.name)
    case None => clips
    case Some(i) => clips[i := clips[i].(playOdds := rec.playOdds, volume := rec.volume)]
  }

  /** One iteration of the loading loop. */
  function ApplyLine(clips: seq<Clip>, line: string, vt: VolumeText): (r: seq<Clip>)
    ensures SameClips(clips, r)
  {
    match ParseRecord(line, vt)
    case None => clips
    case Some(rec) => Merge(clips, rec)
  }

  /** The lines applied one after another, in file order. */
  function Load(clips: seq<Clip>, lines: seq<string>, vt: VolumeText): (r: seq<Clip>)
    ensures SameClips(clips, r)
    ensures OddsInRange(clips) ==> OddsInRange(r)
  {
    if |lines| == 0 then clips
    else ApplyLine(Load(clips, lines[..|lines| - 1], vt), lines[|lines| - 1], vt)
  }

  /** `LoadSettings`: a missing file changes nothing; otherwise its lines
      are loaded. */
  function LoadSettings(clips: seq<Clip>, file: Option<seq<string>>, vt: VolumeText): (r: seq<Clip>)
    ensures SameClips(clips, r)
    ensures file.None? ==> r == clips
    ensures OddsInRange(clips) ==> OddsInRange(r)
  {
    match file
    case None => clips
    case Some(lines) => Load(clips, lines, vt)
  }

  /** The search `FirstOrDefault` performs: the position of the first clip
      named `name`, or `|clips|` when there is none. */
  method FindFirst(clips: seq<Clip>, name: string) returns (i: nat)
    ensures i <= |clips|
    ensures i < |clips| ==> IsFirst(clips, i, name)
    ensures i == |clips| ==> forall j :: 0 <= j < |clips| ==> clips[j].name != name
  {
    i := 0;
    while i < |clips| && clips[i].name != name
      invariant i <= |clips|
      invariant forall j :: 0 <= j < i ==> clips[j].name != name
    {
      i := i + 1;
    }
  }

  /** The loading loop as the program runs it: each line split, checked and
      merged into the first clip of that name, in place. */
  method LoadLines(clips: seq<Clip>, lines: seq<string>, vt: VolumeText) returns (r: seq<Clip>)
    ensures r == Load(clips, lines, vt)
  {
    r := clips;
    for k := 0 to |lines|
      invariant r == Load(clips, lines[..k], vt)
    {
      assert lines[..k + 1][..k] == lines[..k];
      ghost var before := r;
      var parts := Split(lines[k], '|');
      if |parts| == 3 {
        var odds := ParseInt(parts[1]);
        var volume := vt.parse(parts[2]);
        if odds.Some? && volume.Some? {
          var i := FindFirst(r, parts[0]);
          if i < |r| {
            assert FirstIndex(r, parts[0]) == Some(i) by {
              FirstIndexUnique(r, i, parts[0]);
            }
            r := r[i := r[i].(playOdds := odds.value, volume := volume.value)];
          }
          assert r == Merge(before, Record(parts[0], odds.value, volume.value));
        }
      }
      assert r == ApplyLine(before, lines[k], vt);
    }
    assert lines[..|lines|] == lines;
  }

  /** `FirstIndex` finds the first clip with a name wherever it is. */
  lemma FirstIndexUnique(clips: seq<Clip>, i: int, name: string)
    requires IsFirst(clips, i, name)
    ensures FirstIndex(clips, name) == Some(i)
  {
  }
}
