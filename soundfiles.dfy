/** The map from file-name stems to loaded buffers built in
    exercises/src/playing-audio-buffers.js:72-75: each path goes through
    `replace(/^.*[\\\/]/, '')` and `split('.')[0]`. */
module SoundFiles {

  /** The sound files the exercise loads (lines 13-22). */
  const SOUNDFILES: seq<string> := [
    "./assets/kick.wav",
    "./assets/snare.wav",
    "./assets/clap.wav",
    "./assets/hh.wav",
    "./assets/rimshot.wav",
    "./assets/give_you_up.wav",
    "./assets/let_you_down.wav",
    "./assets/run_around_and_hurt_you.wav"
  ]

  /** The regular expression's `[\\\/]`. */
  predicate IsSeparator(c: char)
  {
    c == '/' || c == '\\'
  }

  /** The characters a regular expression's `.` does not match. */
  predicate IsLineTerminator(c: char)
  {
    c == '\n' || c == '\r' || c == '\U{2028}' || c == '\U{2029}'
  }

  /** Index of the first line terminator, or `|p|` if there is none: `^.*`
      cannot reach past it. */
  function FirstLineEnd(p: string): (e: nat)
    ensures e <= |p|
    ensures forall i :: 0 <= i < e ==> !IsLineTerminator(p[i])
    ensures e < |p| ==> IsLineTerminator(p[e])
  {
    if p == [] || IsLineTerminator(p[0]) then 0 else 1 + FirstLineEnd(p[1..])
  }

  /** One past the last separator before index `k`, or 0 if there is none. */
  function AfterLastSeparator(p: string, k: nat): (d: nat)
    requires k <= |p|
    ensures d <= k
    ensures d > 0 ==> IsSeparator(p[d - 1])
    ensures forall i :: d <= i < k ==> !IsSeparator(p[i])
  {
    if k == 0 then 0
    else if IsSeparator(p[k - 1]) then k
    else AfterLastSeparator(p, k - 1)
  }

  /** Where the greedy match of `^.*[\\\/]` ends: one past the last separator
      before the first line terminator, or 0 when there is none there. */
  function KeyStart(p: string): (d: nat)
    ensures d <= FirstLineEnd(p) <= |p|
    ensures d == 0 || IsSeparator(p[d - 1])
    ensures forall i :: d <= i < FirstLineEnd(p) ==> !IsSeparator(p[i])
  {
    AfterLastSeparator(p, FirstLineEnd(p))
  }

  /** `replace(/^.*[\\\/]/, '')`: the greedy match runs from the start through
      the last separator of the first line; without a separator there, nothing
      is removed. */
  function StripDirectory(p: string): (r: string)
  {
    p[KeyStart(p)..]
  }

  /** Index of the first `.`, or `|s|` if there is none. */
  function FirstDot(s: string): (e: nat)
    ensures e <= |s|
    ensures forall i :: 0 <= i < e ==> s[i] != '.'
    ensures e < |s| ==> s[e] == '.'
  {
    if s == [] || s[0] == '.' then 0 else 1 + FirstDot(s[1..])
  }

  /** `split('.')[0]`: the text before the first dot. */
  function BeforeFirstDot(s: string): (r: string)
  {
    s[..FirstDot(s)]
  }

  /** The key a sound file is stored under. */
  function KeyOf(path: string): (r: string)
  {
    BeforeFirstDot(StripDirectory(path))
  }

  /** The key never contains a dot. */
  lemma KeyHasNoDot(path: string)
    ensures '.' !in KeyOf(path)
  {
    var s := StripDirectory(path);
    assert forall i :: 0 <= i < |KeyOf(path)| ==> KeyOf(path)[i] == s[i];
  }

  /** On a one-line path the key contains no separator: everything through
      the last one is removed. */
  lemma KeyHasNoSeparator(path: string)
    requires forall i :: 0 <= i < |path| ==> !IsLineTerminator(path[i])
    ensures forall i :: 0 <= i < |KeyOf(path)| ==> !IsSeparator(KeyOf(path)[i])
  {
    var e := FirstLineEnd(path);
    assert e == |path|;
    var d := AfterLastSeparator(path, e);
    assert forall i :: 0 <= i < |KeyOf(path)| ==> KeyOf(path)[i] == path[d + i];
  }

  /** The key is the slice of the path that starts at `KeyStart` and ends
      at the first dot after that point (or at the end). */
  lemma KeyIsSlice(path: string)
    ensures KeyStart(path) + |KeyOf(path)| <= |path|
    ensures KeyOf(path) == path[KeyStart(path)..KeyStart(path) + |KeyOf(path)|]
    ensures KeyStart(path) + |KeyOf(path)| == |path| || path[KeyStart(path) + |KeyOf(path)|] == '.'
    ensures forall i :: KeyStart(path) <= i < KeyStart(path) + |KeyOf(path)| ==> path[i] != '.'
  {
    var start := KeyStart(path);
    var s := path[start..];
    var f := FirstDot(s);
    assert KeyOf(path) == s[..f];
    forall i | start <= i < start + f ensures path[i] != '.' {
      assert path[i] == s[i - start];
    }
  }

  /** A bare name: no separator and no dot. */
  predicate IsPlainName(name: string)
  {
    forall i :: 0 <= i < |name| ==> !IsSeparator(name[i]) && name[i] != '.'
  }

  /** A bare name is its own key. */
  lemma PlainNameIsItsOwnKey(name: string)
    requires IsPlainName(name)
    ensures KeyOf(name) == name
  {
    var e := FirstLineEnd(name);
    var d := AfterLastSeparator(name, e);
    assert d == 0;
    var f := FirstDot(name);
    assert f == |name|;
  }

  /** The key of `./assets/<stem>.wav` is `<stem>`. A line break inside the
      stem does not matter: the separator before the stem is on the first line. */
  lemma AssetKey(stem: string)
    requires IsPlainName(stem)
    ensures KeyOf("./assets/" + stem + ".wav") == stem
  {
    var p := "./assets/" + stem + ".wav";
    var e := FirstLineEnd(p);
    assert forall i :: 0 <= i < 9 ==> !IsLineTerminator(p[i]);
    assert e >= 9;
    assert forall i :: 9 <= i < |p| ==> !IsSeparator(p[i]);
    var d := KeyStart(p);
    assert IsSeparator(p[8]);
    assert d == 9;
    var s := StripDirectory(p);
    assert s == stem + ".wav";
    assert FirstDot(s) == |stem| by {
      assert s[|stem|] == '.';
      assert forall i :: 0 <= i < |stem| ==> s[i] == stem[i];
    }
  }

  /** A line break before the directory part stops the regular expression:
      nothing is stripped and the key keeps its separator. */
  lemma LineBreakKeepsDirectory()
    ensures KeyOf("a\n/b.wav") == "a\n/b"
  {
    var p := "a\n/b.wav";
    assert FirstLineEnd(p) == 1;
    assert AfterLastSeparator(p, 1) == 0;
    assert FirstDot(p) == 4 by {
      assert p[4] == '.';
    }
  }

  /** The stems of the listed sound files. */
  const STEMS: seq<string> := [
    "kick", "snare", "clap", "hh", "rimshot", "give_you_up", "let_you_down", "run_around_and_hurt_you"
  ]

  /** Each listed path is `./assets/<stem>.wav`. */
  lemma SoundFilePaths()
    ensures |SOUNDFILES| == |STEMS|
    ensures forall i :: 0 <= i < |SOUNDFILES| ==> SOUNDFILES[i] == "./assets/" + STEMS[i] + ".wav"
  {
    DrumPaths();
    PhrasePaths();
  }

  /** The five drum samples (literal comparisons are split to keep each proof small). */
  lemma DrumPaths()
    ensures forall i :: 0 <= i < 5 ==> SOUNDFILES[i] == "./assets/" + STEMS[i] + ".wav"
  {
    assert SOUNDFILES[0] == "./assets/" + STEMS[0] + ".wav";
    assert SOUNDFILES[1] == "./assets/" + STEMS[1] + ".wav";
    assert SOUNDFILES[2] == "./assets/" + STEMS[2] + ".wav";
    assert SOUNDFILES[3] == "./assets/" + STEMS[3] + ".wav";
    assert SOUNDFILES[4] == "./assets/" + STEMS[4] + ".wav";
  }

  /** The three vocal phrases. */
  lemma PhrasePaths()
    ensures forall i :: 5 <= i < 8 ==> SOUNDFILES[i] == "./assets/" + STEMS[i] + ".wav"
  {
    assert SOUNDFILES[5] == "./assets/" + STEMS[5] + ".wav";
    assert SOUNDFILES[6] == "./assets/" + STEMS[6] + ".wav";
    LongestPath();
  }

  /** The longest path, on its own. */
  lemma LongestPath()
    ensures SOUNDFILES[7] == "./assets/" + STEMS[7] + ".wav"
  {
  }

  /** Each listed path yields its stem as key. */
  lemma SoundFileKeys()
    ensures |SOUNDFILES| == |STEMS|
    ensures forall i :: 0 <= i < |SOUNDFILES| ==> KeyOf(SOUNDFILES[i]) == STEMS[i]
  {
    SoundFilePaths();
    StemsArePlain();
    forall i | 0 <= i < |SOUNDFILES| ensures KeyOf(SOUNDFILES[i]) == STEMS[i] {
      AssetKey(STEMS[i]);
    }
  }

  /** No stem contains a separator or a dot. */
  lemma StemsArePlain()
    ensures forall i :: 0 <= i < |STEMS| ==> IsPlainName(STEMS[i])
  {
  }

  /** The listed paths have pairwise different keys. */
  lemma SoundFileKeysDistinct()
    ensures forall i, j :: 0 <= i < j < |SOUNDFILES| ==> KeyOf(SOUNDFILES[i]) != KeyOf(SOUNDFILES[j])
  {
    SoundFileKeys();
    StemsDistinct();
  }

  /** The stems differ in length, except `kick` and `clap`, which differ in
      their first letter. */
  lemma StemsDistinct()
    ensures forall i, j :: 0 <= i < j < |STEMS| ==> STEMS[i] != STEMS[j]
  {
    forall i, j | 0 <= i < j < |STEMS| ensures STEMS[i] != STEMS[j] {
      if i == 0 && j == 2 {
        assert STEMS[i][0] != STEMS[j][0];
      } else {
        assert |STEMS[i]| != |STEMS[j]|;
      }
    }
  }

  /** `Object.fromEntries`: entries are stored in order, so a later entry
      replaces an earlier one with the same key. */
  function FromEntries<V>(entries: seq<(string, V)>): (r: map<string, V>)
  {
    if entries == [] then map[]
    else
      var last := entries[|entries| - 1];
      FromEntries(entries[..|entries| - 1])[last.0 := last.1]
  }

  /** A key is bound iff some entry has it, and it is bound to the value of
      the last entry that has it. */
  lemma {:induction false} FromEntriesBinds<V>(entries: seq<(string, V)>)
    ensures forall k :: k in FromEntries(entries) <==> exists i :: 0 <= i < |entries| && entries[i].0 == k
    ensures forall i :: 0 <= i < |entries| && (forall j :: i < j < |entries| ==> entries[j].0 != entries[i].0)
               ==> FromEntries(entries)[entries[i].0] == entries[i].1
  {
    if entries != [] {
      var n := |entries| - 1;
      var front := entries[..n];
      var last := entries[n];
      var before := FromEntries(front);
      assert FromEntries(entries) == before[last.0 := last.1];
      FromEntriesBinds(front);
      forall k | k in FromEntries(entries) ensures exists i :: 0 <= i < |entries| && entries[i].0 == k {
        if k == last.0 {
          assert entries[n].0 == k;
        } else {
          assert k in before;
          var i :| 0 <= i < |front| && front[i].0 == k;
          assert entries[i].0 == k;
        }
      }
      forall k | exists i :: 0 <= i < |entries| && entries[i].0 == k ensures k in FromEntries(entries) {
        var i :| 0 <= i < |entries| && entries[i].0 == k;
        if i < n {
          assert front[i].0 == k;
          assert k in before;
        }
      }
      forall i | 0 <= i < |entries| && (forall j :: i < j < |entries| ==> entries[j].0 != entries[i].0)
        ensures FromEntries(entries)[entries[i].0] == entries[i].1
      {
        if i < n {
          assert front[i] == entries[i];
          assert entries[n].0 != entries[i].0;
          assert forall j :: i < j < |front| ==> front[j].0 != front[i].0 by {
            forall j | i < j < |front| ensures front[j].0 != front[i].0 {
              assert front[j] == entries[j];
            }
          }
          assert before[front[i].0] == front[i].1;
        }
      }
    }
  }

  /** With pairwise different keys the map has one binding per entry. */
  lemma {:induction false} FromEntriesSize<V>(entries: seq<(string, V)>)
    requires forall i, j :: 0 <= i < j < |entries| ==> entries[i].0 != entries[j].0
    ensures |FromEntries(entries)| == |entries|
  {
    if entries != [] {
      var front := entries[..|entries| - 1];
      FromEntriesSize(front);
      FromEntriesBinds(front);
      var last := entries[|entries| - 1];
      assert last.0 !in FromEntries(front);
    }
  }

  /** The pairs `[key(soundfiles[idx]), buffer]` of line 73-75, one per loaded buffer. */
  function BufferEntries<V>(soundfiles: seq<string>, buffers: seq<V>): (r: seq<(string, V)>)
    requires |buffers| <= |soundfiles|
    ensures |r| == |buffers|
  {
    seq(|buffers|, idx requires 0 <= idx < |buffers| => (KeyOf(soundfiles[idx]), buffers[idx]))
  }

  /** `model.buffers` (lines 72-75). */
  function BufferMap<V>(soundfiles: seq<string>, buffers: seq<V>): (r: map<string, V>)
    requires |buffers| <= |soundfiles|
  {
    FromEntries(BufferEntries(soundfiles, buffers))
  }

  /** The map's keys are the keys of the loaded files; each key is bound to the
      buffer of the last file that has it, which is the file's own buffer when
      no later file shares its key. */
  lemma BufferMapBinds<V>(soundfiles: seq<string>, buffers: seq<V>)
    requires |buffers| <= |soundfiles|
    ensures forall k :: k in BufferMap(soundfiles, buffers) <==>
      exists idx :: 0 <= idx < |buffers| && KeyOf(soundfiles[idx]) == k
    ensures forall idx ::
      (0 <= idx < |buffers| && (forall j :: idx < j < |buffers| ==> KeyOf(soundfiles[j]) != KeyOf(soundfiles[idx])))
      ==> BufferMap(soundfiles, buffers)[KeyOf(soundfiles[idx])] == buffers[idx]
  {
    var entries := BufferEntries(soundfiles, buffers);
    FromEntriesBinds(entries);
    forall k | exists idx :: 0 <= idx < |buffers| && KeyOf(soundfiles[idx]) == k
      ensures k in BufferMap(soundfiles, buffers)
    {
      var idx :| 0 <= idx < |buffers| && KeyOf(soundfiles[idx]) == k;
      assert entries[idx].0 == k;
    }
    forall idx | 0 <= idx < |buffers| && (forall j :: idx < j < |buffers| ==> KeyOf(soundfiles[j]) != KeyOf(soundfiles[idx]))
      ensures BufferMap(soundfiles, buffers)[KeyOf(soundfiles[idx])] == buffers[idx]
    {
      assert forall j :: idx < j < |buffers| ==> entries[j].0 != entries[idx].0;
    }
  }

  /** When the files have pairwise different keys, the map has one binding
      per loaded buffer and each file's key is bound to its own buffer. */
  lemma DistinctKeysMap<V>(soundfiles: seq<string>, keys: seq<string>, buffers: seq<V>)
    requires |buffers| == |soundfiles| == |keys|
    requires forall i :: 0 <= i < |soundfiles| ==> KeyOf(soundfiles[i]) == keys[i]
    requires forall i, j :: 0 <= i < j < |keys| ==> keys[i] != keys[j]
    ensures |BufferMap(soundfiles, buffers)| == |buffers|
    ensures forall i :: 0 <= i < |keys| ==>
      (keys[i] in BufferMap(soundfiles, buffers) && BufferMap(soundfiles, buffers)[keys[i]] == buffers[i])
  {
    var entries := BufferEntries(soundfiles, buffers);
    assert forall i :: 0 <= i < |entries| ==> entries[i].0 == keys[i];
    FromEntriesSize(entries);
    BufferMapBinds(soundfiles, buffers);
    forall i | 0 <= i < |keys|
      ensures keys[i] in BufferMap(soundfiles, buffers) && BufferMap(soundfiles, buffers)[keys[i]] == buffers[i]
    {
      assert forall j :: i < j < |buffers| ==> KeyOf(soundfiles[j]) != KeyOf(soundfiles[i]);
    }
  }

  /** For the listed sound files every stem is bound to its own buffer, and
      there is one binding per buffer. */
  lemma SoundFileMap<V>(buffers: seq<V>)
    requires |buffers| == |SOUNDFILES|
    ensures |BufferMap(SOUNDFILES, buffers)| == |buffers|
    ensures forall i :: 0 <= i < |STEMS| ==>
      (STEMS[i] in BufferMap(SOUNDFILES, buffers) && BufferMap(SOUNDFILES, buffers)[STEMS[i]] == buffers[i])
  {
    SoundFileKeys();
    StemsDistinct();
    DistinctKeysMap(SOUNDFILES, STEMS, buffers);
  }
}
