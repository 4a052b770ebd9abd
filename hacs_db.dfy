/** `_load_json_db` of the HACS dataset over an already parsed `database` object: the label
    dictionary built from every video's annotations, then one record per video of the split. */
module HacsDb {
  import opened Wrappers
  import opened Points

  /** One annotation: the action name (`label`), its id (`label_id`) and its segment in seconds. */
  datatype Act = Act(name: string, labelId: int, segment: Segment)

  /** One entry of `database`; an absent `fps` or `annotations` key is `None`. */
  datatype VideoEntry = VideoEntry(subset: string, fps: Option<real>, duration: real, annotations: Option<seq<Act>>)

  /** One element of `dict_db`. */
  datatype Record = Record(id: string, fps: real, duration: real, segments: Option<seq<Segment>>, labels: Option<seq<int>>)

  /** The exceptions `_load_json_db` can raise: a `KeyError` on a missing `annotations` key
      while building the label dictionary, the `Unknown video FPS.` assertion, and a `KeyError`
      on an action name missing from the dictionary. */
  datatype LoadError = NoAnnotationsKey(video: string) | UnknownFps(video: string) | UnknownLabel(name: string)

  function LowerChar(ch: char): char
  {
    if 'A' <= ch <= 'Z' then (ch as int - 'A' as int + 'a' as int) as char else ch
  }

  /** `str.lower()` on ASCII letters: the result has no upper-case letter, every upper-case
      letter becomes its lower-case partner 32 code points up, and every other character is
      kept. */
  function Lower(s: string): (r: string)
    ensures |r| == |s|
    ensures forall i :: 0 <= i < |r| ==> !('A' <= r[i] <= 'Z')
    ensures forall i :: 0 <= i < |s| && 'A' <= s[i] <= 'Z' ==> r[i] as int == s[i] as int + 32
    ensures forall i :: 0 <= i < |s| && !('A' <= s[i] <= 'Z') ==> r[i] == s[i]
  {
    seq(|s|, i requires 0 <= i < |s| => LowerChar(s[i]))
  }

  /** Lower-casing twice is lower-casing once, so a subset name that is already lower case
      selects the same split. */
  lemma LowerIdempotent(s: string)
    ensures Lower(Lower(s)) == Lower(s)
  {
    var t := Lower(s);
    assert forall i :: 0 <= i < |t| ==> Lower(t)[i] == t[i];
  }

  predicate InSplit(v: VideoEntry, split: seq<string>)
  {
    Lower(v.subset) in split
  }

  /** The inner loop `label_dict[act['label']] = act['label_id']` over the first `n` acts. */
  function AddLabels(d: map<string, int>, acts: seq<Act>, n: nat): (r: map<string, int>)
    requires n <= |acts|
    decreases n
  {
    if n == 0 then d else AddLabels(d, acts, n - 1)[acts[n - 1].name := acts[n - 1].labelId]
  }

  /** The outer loop over the first `n` videos; it fails on the first video without an
      `annotations` key, whatever its subset. */
  function LabelDictUpTo(db: seq<(string, VideoEntry)>, n: nat): Result<map<string, int>, LoadError>
    requires n <= |db|
    decreases n
  {
    if n == 0 then Ok(map[])
    else
      match LabelDictUpTo(db, n - 1)
      case Err(e) => Err(e)
      case Ok(d) =>
        match db[n - 1].1.annotations
        case None => Err(NoAnnotationsKey(db[n - 1].0))
        case Some(acts) => Ok(AddLabels(d, acts, |acts|))
  }

  function LabelDict(db: seq<(string, VideoEntry)>): Result<map<string, int>, LoadError>
  {
    LabelDictUpTo(db, |db|)
  }

  /** The `labels` array of a video: all 0 for a single class, else each name looked up. */
  function MapLabels(acts: seq<Act>, numClasses: int, d: map<string, int>, n: nat): Result<seq<int>, LoadError>
    requires n <= |acts|
    decreases n
  {
    if n == 0 then Ok([])
    else
      match MapLabels(acts, numClasses, d, n - 1)
      case Err(e) => Err(e)
      case Ok(ls) =>
        if numClasses == 1 then Ok(ls + [0])
        else if acts[n - 1].name in d then Ok(ls + [d[acts[n - 1].name]])
        else Err(UnknownLabel(acts[n - 1].name))
  }

  function Segments(acts: seq<Act>): (r: seq<Segment>)
    ensures |r| == |acts| && forall i :: 0 <= i < |acts| ==> r[i] == acts[i].segment
  {
    seq(|acts|, i requires 0 <= i < |acts| => acts[i].segment)
  }

  /** The record of one video of the split, given its fps. */
  function MakeRecord(key: string, v: VideoEntry, fps: real, numClasses: int, d: map<string, int>): Result<Record, LoadError>
  {
    match v.annotations
    case Some(acts) =>
      if |acts| > 0 then
        match MapLabels(acts, numClasses, d, |acts|)
        case Err(e) => Err(e)
        case Ok(ls) => Ok(Record(key, fps, v.duration, Some(Segments(acts)), Some(ls)))
      else Ok(Record(key, fps, v.duration, None, None))
    case None => Ok(Record(key, fps, v.duration, None, None))
  }

  /** The fps of a video: the configured default when there is one, else the video's own. */
  function ChooseFps(defaultFps: Option<real>, v: VideoEntry): Option<real>
  {
    if defaultFps.Some? then defaultFps else v.fps
  }

  /** The second loop over the first `n` videos. */
  function RecordsUpTo(db: seq<(string, VideoEntry)>, split: seq<string>, defaultFps: Option<real>,
                       numClasses: int, d: map<string, int>, n: nat): Result<seq<Record>, LoadError>
    requires n <= |db|
    decreases n
  {
    if n == 0 then Ok([])
    else
      match RecordsUpTo(db, split, defaultFps, numClasses, d, n - 1)
      case Err(e) => Err(e)
      case Ok(rs) =>
        var (key, v) := db[n - 1];
        if !InSplit(v, split) then Ok(rs)
        else
          match ChooseFps(defaultFps, v)
          case None => Err(UnknownFps(key))
          case Some(f) =>
            match MakeRecord(key, v, f, numClasses, d)
            case Err(e) => Err(e)
            case Ok(r) => Ok(rs + [r])
  }

  /** `_load_json_db`: the records of the split and the label dictionary. */
  function LoadSpec(db: seq<(string, VideoEntry)>, split: seq<string>, defaultFps: Option<real>, numClasses: int)
    : Result<(seq<Record>, map<string, int>), LoadError>
  {
    match LabelDict(db)
    case Err(e) => Err(e)
    case Ok(d) =>
      match RecordsUpTo(db, split, defaultFps, numClasses, d, |db|)
      case Err(e) => Err(e)
      case Ok(rs) => Ok((rs, d))
  }

  /** `_load_json_db`: the label dictionary first, then the records of the split. */
  method LoadJsonDb(db: seq<(string, VideoEntry)>, split: seq<string>, defaultFps: Option<real>, numClasses: int)
    returns (r: Result<(seq<Record>, map<string, int>), LoadError>)
    ensures r == LoadSpec(db, split, defaultFps, numClasses)
  {
    var labelDict := BuildLabelDict(db);
    if labelDict.Err? {
      return Err(labelDict.error);
    }
    var records := BuildRecords(db, split, defaultFps, numClasses, labelDict.value);
    if records.Err? {
      return Err(records.error);
    }
    return Ok((records.value, labelDict.value));
  }

  /** The first loop: `label_dict[act['label']] = act['label_id']` for every act of every video. */
  method BuildLabelDict(db: seq<(string, VideoEntry)>) returns (r: Result<map<string, int>, LoadError>)
    ensures r == LabelDict(db)
  {
    var labelDict: map<string, int> := map[];
    var k := 0;
    while k < |db|
      invariant 0 <= k <= |db|
      invariant LabelDictUpTo(db, k) == Ok(labelDict)
    {
      var (key, v) := db[k];
      if v.annotations.None? {
        assert LabelDictUpTo(db, k + 1) == Err(NoAnnotationsKey(key));
        LabelDictErrorSticks(db, k + 1, |db|);
        return Err(NoAnnotationsKey(key));
      }
      var acts := v.annotations.value;
      var j := 0;
      ghost var before := labelDict;
      while j < |acts|
        invariant 0 <= j <= |acts|
        invariant labelDict == AddLabels(before, acts, j)
      {
        labelDict := labelDict[acts[j].name := acts[j].labelId];
        j := j + 1;
      }
      k := k + 1;
    }
    return Ok(labelDict);
  }

  /** The second loop: skip videos outside the split, pick the fps, build the record. */
  method BuildRecords(db: seq<(string, VideoEntry)>, split: seq<string>, defaultFps: Option<real>,
                      numClasses: int, labelDict: map<string, int>)
    returns (r: Result<seq<Record>, LoadError>)
    ensures r == RecordsUpTo(db, split, defaultFps, numClasses, labelDict, |db|)
  {
    var records: seq<Record> := [];
    var k := 0;
    while k < |db|
      invariant 0 <= k <= |db|
      invariant RecordsUpTo(db, split, defaultFps, numClasses, labelDict, k) == Ok(records)
    {
      var (key, v) := db[k];
      if Lower(v.subset) !in split {
        k := k + 1;
        continue;
      }
      var fps: real;
      if defaultFps.Some? {
        fps := defaultFps.value;
      } else if v.fps.Some? {
        fps := v.fps.value;
      } else {
        RecordsErrorSticks(db, split, defaultFps, numClasses, labelDict, k + 1, |db|);
        return Err(UnknownFps(key));
      }
      var rec := BuildRecord(key, v, fps, numClasses, labelDict);
      if rec.Err? {
        RecordsErrorSticks(db, split, defaultFps, numClasses, labelDict, k + 1, |db|);
        return Err(rec.error);
      }
      records := records + [rec.value];
      k := k + 1;
    }
    return Ok(records);
  }

  /** The loop over one video's annotations filling `segments` and `labels`. */
  method BuildRecord(key: string, v: VideoEntry, fps: real, numClasses: int, labelDict: map<string, int>)
    returns (r: Result<Record, LoadError>)
    ensures r == MakeRecord(key, v, fps, numClasses, labelDict)
  {
    if v.annotations.None? || |v.annotations.value| == 0 {
      return Ok(Record(key, fps, v.duration, None, None));
    }
    var acts := v.annotations.value;
    var segs: seq<Segment> := [];
    var labels: seq<int> := [];
    var j := 0;
    while j < |acts|
      invariant 0 <= j <= |acts|
      invariant segs == Segments(acts[..j])
      invariant MapLabels(acts, numClasses, labelDict, j) == Ok(labels)
    {
      segs := segs + [acts[j].segment];
      if numClasses == 1 {
        labels := labels + [0];
      } else if acts[j].name in labelDict {
        labels := labels + [labelDict[acts[j].name]];
      } else {
        MapLabelsErrorSticks(acts, numClasses, labelDict, j + 1, |acts|);
        return Err(UnknownLabel(acts[j].name));
      }
      j := j + 1;
    }
    assert acts[..j] == acts;
    return Ok(Record(key, fps, v.duration, Some(segs), Some(labels)));
  }

  lemma {:induction false} LabelDictErrorSticks(db: seq<(string, VideoEntry)>, k: nat, n: nat)
    requires k <= n <= |db| && LabelDictUpTo(db, k).Err?
    ensures LabelDictUpTo(db, n) == LabelDictUpTo(db, k)
    decreases n - k
  {
    if k < n {
      LabelDictErrorSticks(db, k, n - 1);
    }
  }

  lemma {:induction false} RecordsErrorSticks(db: seq<(string, VideoEntry)>, split: seq<string>, defaultFps: Option<real>,
                                              numClasses: int, d: map<string, int>, k: nat, n: nat)
    requires k <= n <= |db| && RecordsUpTo(db, split, defaultFps, numClasses, d, k).Err?
    ensures RecordsUpTo(db, split, defaultFps, numClasses, d, n) == RecordsUpTo(db, split, defaultFps, numClasses, d, k)
    decreases n - k
  {
    if k < n {
      RecordsErrorSticks(db, split, defaultFps, numClasses, d, k, n - 1);
    }
  }

  lemma {:induction false} MapLabelsErrorSticks(acts: seq<Act>, numClasses: int, d: map<string, int>, k: nat, n: nat)
    requires k <= n <= |acts| && MapLabels(acts, numClasses, d, k).Err?
    ensures MapLabels(acts, numClasses, d, n) == MapLabels(acts, numClasses, d, k)
    decreases n - k
  {
    if k < n {
      MapLabelsErrorSticks(acts, numClasses, d, k, n - 1);
    }
  }

  /** The labels of a video: all 0 for a single class, else the dictionary entry of every action
      name; the lookup fails exactly when some name is missing from the dictionary. */
  lemma {:induction false} MapLabelsMeaning(acts: seq<Act>, numClasses: int, d: map<string, int>, n: nat)
    requires n <= |acts|
    ensures MapLabels(acts, numClasses, d, n).Ok? <==> numClasses == 1 || forall i :: 0 <= i < n ==> acts[i].name in d
    ensures MapLabels(acts, numClasses, d, n).Ok? ==>
      var ls := MapLabels(acts, numClasses, d, n).value;
      |ls| == n && forall i :: 0 <= i < n ==> ls[i] == (if numClasses == 1 then 0 else d[acts[i].name])
    decreases n
  {
    if n > 0 {
      MapLabelsMeaning(acts, numClasses, d, n - 1);
      if MapLabels(acts, numClasses, d, n - 1).Err? {
        MapLabelsErrorSticks(acts, numClasses, d, n - 1, n);
      }
    }
  }

  /** The first loop fails exactly when some video has no `annotations` key, and then with the
      key of the first such video. */
  lemma {:induction false} LabelDictError(db: seq<(string, VideoEntry)>, n: nat)
    requires n <= |db|
    ensures LabelDictUpTo(db, n).Err? <==> exists k :: 0 <= k < n && db[k].1.annotations.None?
    ensures LabelDictUpTo(db, n).Err? ==>
      exists k :: (0 <= k < n && db[k].1.annotations.None?
        && LabelDictUpTo(db, n).error == NoAnnotationsKey(db[k].0)
        && forall j :: 0 <= j < k ==> db[j].1.annotations.Some?)
    decreases n
  {
    if n > 0 {
      LabelDictError(db, n - 1);
    }
  }

  /** Every action name of every video is a key of the dictionary. */
  lemma {:induction false} LabelDictCovers(db: seq<(string, VideoEntry)>, n: nat)
    requires n <= |db| && LabelDictUpTo(db, n).Ok?
    ensures forall k, i :: 0 <= k < n && db[k].1.annotations.Some? && 0 <= i < |db[k].1.annotations.value| ==>
      db[k].1.annotations.value[i].name in LabelDictUpTo(db, n).value
    decreases n
  {
    if n > 0 {
      LabelDictCovers(db, n - 1);
      var acts := db[n - 1].1.annotations.value;
      AddLabelsKeys(LabelDictUpTo(db, n - 1).value, acts, |acts|);
    }
  }

  /** Each key of the dictionary maps to the id of some action carrying that name. */
  lemma {:induction false} LabelDictOrigin(db: seq<(string, VideoEntry)>, n: nat, name: string)
    requires n <= |db| && LabelDictUpTo(db, n).Ok? && name in LabelDictUpTo(db, n).value
    ensures exists k, i :: (0 <= k < n && db[k].1.annotations.Some? && 0 <= i < |db[k].1.annotations.value|
      && db[k].1.annotations.value[i] == Act(name, LabelDictUpTo(db, n).value[name], db[k].1.annotations.value[i].segment))
    decreases n
  {
    var d := LabelDictUpTo(db, n).value;
    var prev := LabelDictUpTo(db, n - 1).value;
    var acts := db[n - 1].1.annotations.value;
    AddLabelsOrigin(prev, acts, |acts|, name);
    if exists i :: 0 <= i < |acts| && acts[i].name == name && acts[i].labelId == d[name] {
      var i :| 0 <= i < |acts| && acts[i].name == name && acts[i].labelId == d[name];
      assert db[n - 1].1.annotations.value[i] == acts[i];
    } else {
      LabelDictOrigin(db, n - 1, name);
    }
  }

  /** After the inner loop, a key maps to the id of one of the actions with that name, or keeps
      its earlier value. */
  lemma {:induction false} AddLabelsOrigin(d: map<string, int>, acts: seq<Act>, n: nat, name: string)
    requires n <= |acts| && name in AddLabels(d, acts, n)
    ensures (exists i :: 0 <= i < n && acts[i].name == name && acts[i].labelId == AddLabels(d, acts, n)[name])
      || (name in d && AddLabels(d, acts, n)[name] == d[name])
    decreases n
  {
    if n > 0 && acts[n - 1].name != name {
      AddLabelsOrigin(d, acts, n - 1, name);
    }
  }

  /** The inner loop adds exactly the names of the actions as keys. */
  lemma {:induction false} AddLabelsKeys(d: map<string, int>, acts: seq<Act>, n: nat)
    requires n <= |acts|
    ensures AddLabels(d, acts, n).Keys == d.Keys + set i | 0 <= i < n :: acts[i].name
    decreases n
  {
    if n > 0 {
      AddLabelsKeys(d, acts, n - 1);
      assert (set i | 0 <= i < n :: acts[i].name) == (set i | 0 <= i < n - 1 :: acts[i].name) + {acts[n - 1].name};
    }
  }

  /** Last write wins: a name maps to the id of its last action. */
  lemma {:induction false} AddLabelsLast(d: map<string, int>, acts: seq<Act>, n: nat, i: nat)
    requires i < n <= |acts|
    requires forall j :: i < j < n ==> acts[j].name != acts[i].name
    ensures acts[i].name in AddLabels(d, acts, n) && AddLabels(d, acts, n)[acts[i].name] == acts[i].labelId
    decreases n
  {
    if i < n - 1 {
      AddLabelsLast(d, acts, n - 1, i);
    }
  }

  /** The positions of the videos of the split among the first `n`, in database order. */
  function SplitIndices(db: seq<(string, VideoEntry)>, split: seq<string>, n: nat): (r: seq<nat>)
    requires n <= |db|
    ensures forall i :: 0 <= i < |r| ==> r[i] < n && InSplit(db[r[i]].1, split)
    ensures forall i, j :: 0 <= i < j < |r| ==> r[i] < r[j]
    decreases n
  {
    if n == 0 then []
    else SplitIndices(db, split, n - 1) + (if InSplit(db[n - 1].1, split) then [n - 1] else [])
  }

  /** No video of the split is skipped. */
  lemma {:induction false} SplitComplete(db: seq<(string, VideoEntry)>, split: seq<string>, n: nat)
    requires n <= |db|
    ensures forall k :: 0 <= k < n && InSplit(db[k].1, split) ==> k in SplitIndices(db, split, n)
    decreases n
  {
    if n > 0 {
      SplitComplete(db, split, n - 1);
    }
  }

  /** A successful second loop yields one record per video of the split, in database order:
      record `i` is the record of the `i`-th video of the split, built with the default fps
      when one is configured and with the video's own fps otherwise. The loop fails when no
      fps is configured and a video of the split has none. */
  lemma {:induction false} RecordsMeaning(db: seq<(string, VideoEntry)>, split: seq<string>, defaultFps: Option<real>,
                                          numClasses: int, d: map<string, int>, n: nat)
    requires n <= |db|
    ensures defaultFps.None? && (exists k :: 0 <= k < n && InSplit(db[k].1, split) && db[k].1.fps.None?) ==>
      RecordsUpTo(db, split, defaultFps, numClasses, d, n).Err?
    ensures RecordsUpTo(db, split, defaultFps, numClasses, d, n).Ok? ==>
      var rs := RecordsUpTo(db, split, defaultFps, numClasses, d, n).value;
      var idx := SplitIndices(db, split, n);
      |rs| == |idx| && forall i :: 0 <= i < |rs| ==>
        var (key, v) := db[idx[i]];
        (defaultFps.Some? || v.fps.Some?)
        && rs[i].fps == (if defaultFps.Some? then defaultFps.value else v.fps.value)
        && MakeRecord(key, v, rs[i].fps, numClasses, d) == Ok(rs[i])
    decreases n
  {
    if n > 0 {
      RecordsMeaning(db, split, defaultFps, numClasses, d, n - 1);
      if RecordsUpTo(db, split, defaultFps, numClasses, d, n - 1).Err? {
        RecordsErrorSticks(db, split, defaultFps, numClasses, d, n - 1, n);
      } else if RecordsUpTo(db, split, defaultFps, numClasses, d, n).Ok? && InSplit(db[n - 1].1, split) {
        var (key, v) := db[n - 1];
        var f := ChooseFps(defaultFps, v).value;
        var r := MakeRecord(key, v, f, numClasses, d).value;
        RecordContents(key, v, f, numClasses, d);
        assert r.fps == f;
      }
    }
  }

  /** The contents of one record: `segments` and `labels` are `None` exactly when the video has
      no annotations (or an empty list); otherwise they are index-aligned with the actions,
      the segments copied and the labels all 0 for a single class or mapped through the
      dictionary. */
  lemma RecordContents(key: string, v: VideoEntry, fps: real, numClasses: int, d: map<string, int>)
    requires MakeRecord(key, v, fps, numClasses, d).Ok?
    ensures var r := MakeRecord(key, v, fps, numClasses, d).value;
      r.id == key && r.fps == fps && r.duration == v.duration
      && (r.segments.None? <==> v.annotations.None? || |v.annotations.value| == 0)
      && r.labels.None? == r.segments.None?
      && (r.segments.Some? ==>
            var acts := v.annotations.value;
            r.labels.Some? && |r.segments.value| == |r.labels.value| == |acts|
            && forall i :: 0 <= i < |acts| ==>
                 r.segments.value[i] == acts[i].segment
                 && (if numClasses == 1 then r.labels.value[i] == 0
                     else acts[i].name in d && r.labels.value[i] == d[acts[i].name]))
  {
    if v.annotations.Some? && |v.annotations.value| > 0 {
      MapLabelsMeaning(v.annotations.value, numClasses, d, |v.annotations.value|);
    }
  }

  /** With the dictionary the first loop builds, the label lookup of the second loop never
      fails: every error of `_load_json_db` is a missing `annotations` key or a missing fps. */
  lemma NoUnknownLabel(db: seq<(string, VideoEntry)>, split: seq<string>, defaultFps: Option<real>, numClasses: int)
    ensures LoadSpec(db, split, defaultFps, numClasses).Err? ==>
      !LoadSpec(db, split, defaultFps, numClasses).error.UnknownLabel?
  {
    LabelDictError(db, |db|);
    if LabelDict(db).Ok? {
      LabelDictCovers(db, |db|);
      RecordsNoUnknownLabel(db, split, defaultFps, numClasses, LabelDict(db).value, |db|);
    }
  }

  lemma {:induction false} RecordsNoUnknownLabel(db: seq<(string, VideoEntry)>, split: seq<string>, defaultFps: Option<real>,
                                                 numClasses: int, d: map<string, int>, n: nat)
    requires n <= |db|
    requires forall k, i :: 0 <= k < |db| && db[k].1.annotations.Some? && 0 <= i < |db[k].1.annotations.value| ==>
      db[k].1.annotations.value[i].name in d
    ensures RecordsUpTo(db, split, defaultFps, numClasses, d, n).Err? ==>
      !RecordsUpTo(db, split, defaultFps, numClasses, d, n).error.UnknownLabel?
    decreases n
  {
    if n > 0 {
      RecordsNoUnknownLabel(db, split, defaultFps, numClasses, d, n - 1);
      var v := db[n - 1].1;
      if v.annotations.Some? {
        var acts := v.annotations.value;
        forall i | 0 <= i < |acts|
          ensures acts[i].name in d
        {
          assert db[n - 1].1.annotations.value[i] == acts[i];
        }
        MapLabelsMeaning(acts, numClasses, d, |acts|);
      }
    }
  }
}
