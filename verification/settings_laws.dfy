/** What loading and saving settings promise: malformed and unknown lines
    are skipped, later records override earlier ones, and saving then
    loading restores every clip's settings. */
module SettingsLaws {
  import opened Wrappers
  import opened Text
  import opened Numbers
  import opened Clips
  import opened Settings

  /** No two clips share a name. */
  predicate DistinctNames(clips: seq<Clip>)
  {
    forall i, j :: 0 <= i < j < |clips| ==> clips[i].name != clips[j].name
  }

  /** Every name can be written to the settings file unambiguously. */
  predicate BarFreeNames(clips: seq<Clip>)
  {
    forall i :: 0 <= i < |clips| ==> '|' !in clips[i].name
  }

  /** The record a load reads back from the line saved for `c`: none when
      the name or the volume text holds a separator, or the volume text
      does not parse. */
  function SavedRecord(c: Clip, vt: VolumeText): Option<Record>
  {
    if '|' in c.name then None
    else
      match ReadBack(vt, c.volume)
      case None => None
      case Some(v) => Some(Record(c.name, c.playOdds, v))
  }

  /** `c` after loading the lines saved from `source`: the settings read back
      for the first source clip with the same name, if any and if readable. */
  function Restored(c: Clip, source: seq<Clip>, vt: VolumeText): Clip
  {
    match FirstIndex(source, c.name)
    case None => c
    case Some(i) =>
      match SavedRecord(source[i], vt)
      case None => c
      case Some(rec) => c.(playOdds := rec.playOdds, volume := rec.volume)
  }

  /** A saved line parses back to the clip's name, play odds and the volume
      its text reads back as; a line whose name or volume text holds a
      separator, or whose volume text does not parse, is no record. */
  lemma ParseFormatRecord(c: Clip, vt: VolumeText)
    requires IsInt32(c.playOdds)
    ensures ParseRecord(FormatRecord(c, vt), vt) == SavedRecord(c, vt)
  {
    FormatRecordFields(c, vt);
    FormatParse(c.playOdds);
  }

  /** Loading two chunks of lines is loading the first, then the second. */
  lemma {:induction false} LoadAppend(clips: seq<Clip>, a: seq<string>, b: seq<string>, vt: VolumeText)
    ensures Load(clips, a + b, vt) == Load(Load(clips, a, vt), b, vt)
  {
    if |b| > 0 {
      var b' := b[..|b| - 1];
      assert (a + b)[..|a + b| - 1] == a + b';
      LoadAppend(clips, a, b', vt);
    } else {
      assert a + b == a;
    }
  }

  /** A line that does not split into three fields, or whose play odds or
      volume do not parse, is skipped as if absent. */
  lemma MalformedLineSkipped(clips: seq<Clip>, a: seq<string>, bad: string, b: seq<string>, vt: VolumeText)
    requires var parts := Split(bad, '|');
      |parts| != 3 || ParseInt(parts[1]).None? || vt.parse(parts[2]).None?
    ensures Load(clips, a + [bad] + b, vt) == Load(clips, a + b, vt)
  {
    LoadAppend(clips, a + [bad], b, vt);
    LoadAppend(clips, a, b, vt);
    assert (a + [bad])[..|a|] == a;
  }

  /** A valid record naming no clip is discarded: loading it changes nothing. */
  lemma UnknownNameSkipped(clips: seq<Clip>, a: seq<string>, line: string, b: seq<string>, vt: VolumeText)
    requires ParseRecord(line, vt).Some?
    requires forall j :: 0 <= j < |clips| ==> clips[j].name != ParseRecord(line, vt).value.name
    ensures Load(clips, a + [line] + b, vt) == Load(clips, a + b, vt)
  {
    var rec := ParseRecord(line, vt).value;
    var s := Load(clips, a, vt);
    assert Load(clips, a + [line], vt) == s by {
      assert (a + [line])[..|a|] == a;
      assert forall j :: 0 <= j < |s| ==> s[j].name == clips[j].name;
      assert Merge(s, rec) == s;
    }
    LoadAppend(clips, a + [line], b, vt);
    LoadAppend(clips, a, b, vt);
  }

  /** Lines carrying no valid record for `name` leave the clips of that name
      untouched. */
  lemma {:induction false} LoadKeepsUnmentioned(clips: seq<Clip>, lines: seq<string>, name: string, vt: VolumeText)
    requires forall k :: 0 <= k < |lines| && ParseRecord(lines[k], vt).Some? ==>
      ParseRecord(lines[k], vt).value.name != name
    ensures forall i :: 0 <= i < |clips| && clips[i].name == name ==> Load(clips, lines, vt)[i] == clips[i]
  {
    if |lines| > 0 {
      var init := lines[..|lines| - 1];
      LoadKeepsUnmentioned(clips, init, name, vt);
      var s := Load(clips, init, vt);
      match ParseRecord(lines[|lines| - 1], vt)
      case None =>
      case Some(rec) =>
        forall i | 0 <= i < |clips| && clips[i].name == name
          ensures Merge(s, rec)[i] == s[i]
        {
          match FirstIndex(s, rec.name)
          case None =>
          case Some(m) =>
            assert s[m].name == rec.name != name == s[i].name;
        }
    }
  }

  /** Lines are applied in file order: when a valid record is the last one
      naming a clip, the first clip of that name ends up with its settings. */
  lemma LastRecordWins(clips: seq<Clip>, a: seq<string>, line: string, b: seq<string>, vt: VolumeText, i: int)
    requires ParseRecord(line, vt).Some?
    requires IsFirst(clips, i, ParseRecord(line, vt).value.name)
    requires forall k :: 0 <= k < |b| && ParseRecord(b[k], vt).Some? ==>
      ParseRecord(b[k], vt).value.name != ParseRecord(line, vt).value.name
    ensures Load(clips, a + [line] + b, vt)[i].playOdds == ParseRecord(line, vt).value.playOdds
    ensures Load(clips, a + [line] + b, vt)[i].volume == ParseRecord(line, vt).value.volume
  {
    var rec := ParseRecord(line, vt).value;
    LoadAppend(clips, a + [line], b, vt);
    assert (a + [line])[..|a|] == a;
    var s := Load(clips, a, vt);
    assert IsFirst(s, i, rec.name);
    var s' := Load(clips, a + [line], vt);
    assert s' == Merge(s, rec);
    assert s'[i].name == rec.name;
    LoadKeepsUnmentioned(s', b, rec.name, vt);
  }

  /** The first clip with a name, looked up in a longer list: the one in
      the shorter list if there is one, otherwise the added clip if it
      carries the name. */
  lemma {:induction false} FirstIndexSnoc(clips: seq<Clip>, name: string)
    requires |clips| > 0
    ensures FirstIndex(clips[..|clips| - 1], name).Some? ==>
      FirstIndex(clips, name) == FirstIndex(clips[..|clips| - 1], name)
    ensures FirstIndex(clips[..|clips| - 1], name).None? ==>
      FirstIndex(clips, name) == if clips[|clips| - 1].name == name then Some(|clips| - 1) else None
  {
    var n := |clips|;
    var init := clips[..n - 1];
    match FirstIndex(init, name)
    case Some(i) =>
      assert IsFirst(clips, i, name);
      FirstIndexUnique(clips, i, name);
    case None =>
      if clips[n - 1].name == name {
        assert IsFirst(clips, n - 1, name);
        FirstIndexUnique(clips, n - 1, name);
      }
  }

  /** The last saved line moves the target clip of the same name, and only
      that clip, from the settings restored by the earlier lines to the
      settings restored by all of them. */
  lemma SaveLoadStep(target: seq<Clip>, source: seq<Clip>, s: seq<Clip>, vt: VolumeText, j: int)
    requires |source| > 0 && DistinctNames(source) && DistinctNames(target)
    requires IsInt32(source[|source| - 1].playOdds)
    requires SameClips(target, s) && 0 <= j < |target|
    requires s[j] == Restored(target[j], source[..|source| - 1], vt)
    ensures ApplyLine(s, FormatRecord(source[|source| - 1], vt), vt)[j] == Restored(target[j], source, vt)
  {
    var n := |source|;
    var init := source[..n - 1];
    var last := source[n - 1];
    ParseFormatRecord(last, vt);
    FirstIndexSnoc(source, target[j].name);
    match SavedRecord(last, vt)
    case None =>
    case Some(rec) =>
      if target[j].name == last.name {
        assert IsFirst(s, j, rec.name);
      } else {
        match FirstIndex(s, rec.name)
        case None =>
        case Some(m) =>
          assert s[m].name == rec.name;
      }
  }

  /** Saving `source` and loading the file onto `target`: every target clip
      whose name a source clip carries takes the play odds and the read-back
      volume of that clip, provided its line is readable; every other target
      clip is unchanged. This needs distinct source names, 32-bit play odds
      and distinct target names. */
  lemma {:induction false} SaveLoad(target: seq<Clip>, source: seq<Clip>, vt: VolumeText)
    requires DistinctNames(source) && OddsInRange(source)
    requires DistinctNames(target)
    ensures |Load(target, Save(source, vt), vt)| == |target|
    ensures forall j :: 0 <= j < |target| ==> Load(target, Save(source, vt), vt)[j] == Restored(target[j], source, vt)
  {
    var n := |source|;
    if n > 0 {
      var init := source[..n - 1];
      var last := source[n - 1];
      SaveLoad(target, init, vt);
      var lines := Save(source, vt);
      assert lines[..n - 1] == Save(init, vt);
      var s := Load(target, Save(init, vt), vt);
      assert Load(target, lines, vt) == ApplyLine(s, FormatRecord(last, vt), vt);
      forall j | 0 <= j < |target|
        ensures ApplyLine(s, FormatRecord(last, vt), vt)[j] == Restored(target[j], source, vt)
      {
        SaveLoadStep(target, source, s, vt, j);
      }
    }
  }

  /** A clip after the line saved for `after` is loaded onto it: that line's
      settings when it is readable, otherwise the clip as it was. */
  function Reloaded(before: Clip, after: Clip, vt: VolumeText): Clip
  {
    match SavedRecord(after, vt)
    case None => before
    case Some(rec) => after.(volume := rec.volume)
  }

  /** Loading the saved settings of `after` onto clips that differ from it
      at most in settings: each clip whose line is readable takes the play
      odds of `after` and the read-back volume, the others keep theirs. When
      names have no separator and every volume reads back unchanged, the
      result is `after` itself. */
  lemma SaveLoadOnto(before: seq<Clip>, after: seq<Clip>, vt: VolumeText)
    requires SameClips(before, after)
    requires DistinctNames(after) && OddsInRange(after)
    ensures var r := Load(before, Save(after, vt), vt);
      && |r| == |after|
      && forall j :: 0 <= j < |after| ==> r[j] == Reloaded(before[j], after[j], vt)
    ensures BarFreeNames(after) && ExactVolumes(after, vt) ==> Load(before, Save(after, vt), vt) == after
  {
    SaveLoad(before, after, vt);
    forall j | 0 <= j < |before|
      ensures Restored(before[j], after, vt) == Reloaded(before[j], after[j], vt)
    {
      assert SameClip(before[j], after[j]);
      FirstIndexUnique(after, j, before[j].name);
    }
    if BarFreeNames(after) && ExactVolumes(after, vt) {
      forall j | 0 <= j < |before|
        ensures Reloaded(before[j], after[j], vt) == after[j]
      {
        assert '|' !in after[j].name;
        assert ReadBack(vt, after[j].volume) == Some(after[j].volume);
      }
    }
  }

  /** Saving the clips and loading the file back onto them restores every
      clip's play odds; the volumes come back as they read, and unchanged
      when names have no separator and every volume reads back as itself. */
  lemma SaveLoadIdentity(clips: seq<Clip>, vt: VolumeText)
    requires DistinctNames(clips) && OddsInRange(clips)
    ensures var r := Load(clips, Save(clips, vt), vt);
      && SameClips(clips, r)
      && forall j :: 0 <= j < |clips| ==> r[j].playOdds == clips[j].playOdds
    ensures BarFreeNames(clips) && ExactVolumes(clips, vt) ==> Load(clips, Save(clips, vt), vt) == clips
  {
    SaveLoadOnto(clips, clips, vt);
  }

  /** Two clips with one name alias each other: saving and loading never
      touches the second clip, and when the second line is readable the
      first clip ends with the second one's settings, because both lines
      update the first clip and the later line wins. */
  lemma DuplicateNamesAlias(vt: VolumeText)
    ensures var first := ClipWith("boom.mp3", "a/boom.mp3", 10, 0.5);
            var second := ClipWith("boom.mp3", "b/boom.mp3", 20, 1.0);
            var r := Load([first, second], Save([first, second], vt), vt);
            && |r| == 2 && r[1] == second
            && (ReadBack(vt, 1.0).Some? ==> r[0] == first.(playOdds := 20, volume := ReadBack(vt, 1.0).value))
  {
    var first := ClipWith("boom.mp3", "a/boom.mp3", 10, 0.5);
    var second := ClipWith("boom.mp3", "b/boom.mp3", 20, 1.0);
    var clips := [first, second];
    var lines := Save(clips, vt);
    assert '|' !in first.name;
    assert lines == [FormatRecord(first, vt), FormatRecord(second, vt)] by {
      SaveLines(clips, vt);
    }
    assert lines[..1] == [FormatRecord(first, vt)] && lines[..1][..0] == [];
    var s1 := ApplyLine(clips, FormatRecord(first, vt), vt);
    assert s1[1] == second && s1[0] == first.(playOdds := s1[0].playOdds, volume := s1[0].volume) by {
      ParseFormatRecord(first, vt);
      FirstIndexUnique(clips, 0, "boom.mp3");
    }
    assert Load(clips, lines[..1], vt) == s1;
    assert Load(clips, lines, vt) == ApplyLine(s1, FormatRecord(second, vt), vt);
    ParseFormatRecord(second, vt);
    FirstIndexUnique(s1, 0, "boom.mp3");
  }
}
