/** What the two yolopose_v1 splitters have in common: keep the `.txt` label
    files of a folder listing, group them by video, shuffle the video ids and
    cut them 70 / 15 / rest. */
module YoloGrouping {
  import opened Wrappers
  import opened Strings
  import opened Seqs
  import opened Grouping
  import VideoSplit

  // ------------------------------------------------------------ label files

  /** [f for f in listing if f.endswith('.txt')]. */
  function TxtFiles(listing: seq<string>): seq<string> {
    if |listing| == 0 then []
    else
      var f := listing[|listing| - 1];
      TxtFiles(listing[..|listing| - 1]) + (if EndsWith(f, ".txt") then [f] else [])
  }

  /** The filter keeps exactly the names ending in `.txt`. */
  lemma {:induction false} TxtFilesMembers(listing: seq<string>, f: string)
    ensures f in TxtFiles(listing) <==> f in listing && EndsWith(f, ".txt")
  {
    if |listing| > 0 {
      var init := listing[..|listing| - 1];
      TxtFilesMembers(init, f);
      assert listing == init + [listing[|listing| - 1]];
    }
  }

  /** ... and keeps listing order: the filter of a concatenation is the
      concatenation of the filters. */
  lemma {:induction false} TxtFilesAppend(a: seq<string>, b: seq<string>)
    ensures TxtFiles(a + b) == TxtFiles(a) + TxtFiles(b)
    decreases |b|
  {
    if |b| == 0 {
      assert a + b == a;
    } else {
      var init := b[..|b| - 1];
      assert (a + b)[..|a + b| - 1] == a + init;
      TxtFilesAppend(a, init);
    }
  }

  // --------------------------------------------------------------- video id

  /** The video id of a label file: the stem's '_' tokens, and
      "_".join(parts[:2]) of them; none (the file is skipped) when the stem
      has fewer than two tokens. */
  function VideoKey(name: string): Option<string> {
    var parts := Split(StripExtension(name), '_');
    if |parts| < 2 then None else Some(Join(parts[..2], '_'))
  }

  lemma {:induction false} JoinTwo(x: string, y: string, sep: char)
    ensures Join([x, y], sep) == x + [sep] + y
  {
    assert [x, y][1..] == [y];
  }

  /** A file is skipped exactly when its stem holds no '_', and otherwise
      its video id is the one get_video_id_from_filename of the COCO splitter
      computes. */
  lemma {:induction false} VideoKeyAgrees(name: string)
    ensures VideoKey(name).Some? <==> '_' in StripExtension(name)
    ensures VideoKey(name).Some? ==> VideoKey(name).value == VideoSplit.VideoIdFromFilename(name)
  {
    var stem := StripExtension(name);
    var parts := Split(stem, '_');
    SplitTokens(stem, '_');
    if |parts| >= 2 {
      assert parts[..2] == [parts[0], parts[1]];
      JoinTwo(parts[0], parts[1], '_');
      assert VideoKey(name) == Some(parts[0] + "_" + parts[1]);
      assert VideoSplit.VideoIdFromFilename(name) == parts[0] + "_" + parts[1];
    } else {
      assert VideoKey(name) == None;
    }
  }

  /** A frame `a_b<rest>.<ext>` (a and b free of '_', rest empty or starting
      with '_') is a label of video `a_b`. */
  lemma {:induction false} VideoKeyOfFrame(a: string, b: string, rest: string, ext: string)
    requires '_' !in a && '_' !in b && (rest == [] || rest[0] == '_')
    requires '/' !in a + b + rest
    requires |ext| >= 1 && ext[0] == '.' && '.' !in ext[1..] && '/' !in ext
    ensures VideoKey(a + "_" + b + rest + ext) == Some(a + "_" + b)
  {
    var stem := a + "_" + b + rest;
    VideoSplit.VideoIdOfFrame(a, b, rest, ext);
    assert '/' !in stem;
    assert stem[|a|] == '_';
    assert HasNonDot(stem[LastIndexOf(stem, '/') + 1..]);
    StripExtensionOf(stem, ext);
    VideoKeyAgrees(stem + ext);
  }

  /** A stem without '_' (and not made of dots alone) is skipped. */
  lemma {:induction false} VideoKeyNoUnderscore(stem: string, ext: string)
    requires '_' !in stem && '/' !in stem && |stem| >= 1 && stem[0] != '.'
    requires |ext| >= 1 && ext[0] == '.' && '.' !in ext[1..] && '/' !in ext
    ensures VideoKey(stem + ext) == None
  {
    assert LastIndexOf(stem, '/') == -1;
    assert HasNonDot(stem[LastIndexOf(stem, '/') + 1..]) by {
      assert stem[LastIndexOf(stem, '/') + 1..][0] == stem[0];
    }
    StripExtensionOf(stem, ext);
    VideoKeyAgrees(stem + ext);
  }

  /** The name of the comments: "52807_1_44.txt" is a label of video
      "52807_1". */
  lemma {:induction false} VideoKeyExample(frame: string)
    requires frame == "52807_1_44.txt"
    ensures VideoKey(frame) == Some("52807_1")
  {
    var a, b, rest, ext := "52807", "1", "_44", ".txt";
    assert '_' !in a && '_' !in b && rest[0] == '_' by { }
    assert '/' !in a + b + rest by { }
    assert ext[0] == '.' && '.' !in ext[1..] && '/' !in ext by { }
    assert a + "_" + b + rest + ext == frame by { }
    assert a + "_" + b == "52807_1" by { }
    VideoKeyOfFrame(a, b, rest, ext);
  }

  /** A stem without '_', such as that of "52807.txt", is skipped. */
  lemma {:induction false} SkippedExample(other: string)
    requires other == "52807.txt"
    ensures VideoKey(other) == None
  {
    var a, ext := "52807", ".txt";
    assert '_' !in a && '/' !in a && |a| >= 1 && a[0] != '.' by { }
    assert ext[0] == '.' && '.' !in ext[1..] && '/' !in ext by { }
    assert a + ext == other by { }
    VideoKeyNoUnderscore(a, ext);
  }

  // --------------------------------------------------------------- grouping

  /** The (video id, file) pairs the grouping loop appends: one per file
      that has a video id, in order. */
  function Keyed(files: seq<string>): (pairs: seq<(string, string)>)
    ensures |pairs| <= |files|
  {
    if |files| == 0 then []
    else
      var f := files[|files| - 1];
      var k := VideoKey(f);
      Keyed(files[..|files| - 1]) + (if k.Some? then [(k.value, f)] else [])
  }

  lemma {:induction false} KeyedStep(files: seq<string>, i: int)
    requires 0 <= i < |files|
    ensures var k := VideoKey(files[i]);
      Keyed(files[..i + 1]) == Keyed(files[..i]) + (if k.Some? then [(k.value, files[i])] else [])
  {
    assert files[..i + 1][..i] == files[..i];
  }

  /** The pairs grouped from a folder listing. */
  function LabelPairs(listing: seq<string>): seq<(string, string)> {
    Keyed(TxtFiles(listing))
  }

  /** list(video_groups.keys()). */
  function VideoIds(listing: seq<string>): seq<string> {
    KeysInOrder(LabelPairs(listing))
  }

  /** Every grouped label file, in listing order. */
  function GroupedLabels(listing: seq<string>): seq<string> {
    Values(LabelPairs(listing))
  }

  /** A file is among the files of the videos in `vids` exactly when it has a
      video id and that id is in `vids`. */
  lemma {:induction false} KeyedMembers(files: seq<string>, vids: set<string>, f: string)
    ensures f in ValuesWithKeyIn(Keyed(files), vids) <==> f in files && VideoKey(f).Some? && VideoKey(f).value in vids
  {
    if |files| > 0 {
      var init := files[..|files| - 1];
      var g := files[|files| - 1];
      assert files == init + [g];
      KeyedMembers(init, vids, f);
      var p := Keyed(init);
      if VideoKey(g).Some? {
        var x := (VideoKey(g).value, g);
        var all := p + [x];
        assert Keyed(files) == all;
        assert all[..|all| - 1] == p;
        assert ValuesWithKeyIn(all, vids) == ValuesWithKeyIn(p, vids) + (if x.0 in vids then [g] else []);
      } else {
        assert Keyed(files) == p;
      }
    }
  }

  /** The grouped files are the files that have a video id. */
  lemma {:induction false} KeyedValues(files: seq<string>, f: string)
    ensures f in Values(Keyed(files)) <==> f in files && VideoKey(f).Some?
  {
    if |files| > 0 {
      var init := files[..|files| - 1];
      var g := files[|files| - 1];
      assert files == init + [g];
      KeyedValues(init, f);
      var p := Keyed(init);
      if VideoKey(g).Some? {
        var all := p + [(VideoKey(g).value, g)];
        assert all[..|all| - 1] == p;
      }
    }
  }

  /** No file is grouped twice when the listing names each file once. */
  lemma {:induction false} KeyedDistinct(files: seq<string>)
    requires Distinct(files)
    ensures Distinct(Values(Keyed(files)))
  {
    if |files| > 0 {
      var init := files[..|files| - 1];
      var g := files[|files| - 1];
      assert files == init + [g];
      DistinctHalves(init, [g]);
      KeyedDistinct(init);
      var p := Keyed(init);
      if VideoKey(g).Some? {
        var all := p + [(VideoKey(g).value, g)];
        assert all[..|all| - 1] == p;
        KeyedValues(init, g);
        assert Values(all) == Values(p) + [g];
      }
    }
  }

  lemma {:induction false} TxtFilesDistinct(listing: seq<string>)
    requires Distinct(listing)
    ensures Distinct(TxtFiles(listing))
  {
    if |listing| > 0 {
      var init := listing[..|listing| - 1];
      var g := listing[|listing| - 1];
      assert listing == init + [g];
      DistinctHalves(init, [g]);
      TxtFilesDistinct(init);
      TxtFilesMembers(init, g);
    }
  }

  /** A label file is grouped exactly when it ends in `.txt` and its stem
      holds a '_'; a listing that names each file once groups each of them
      once. */
  lemma {:induction false} GroupedLabelsMembers(listing: seq<string>, f: string)
    ensures f in GroupedLabels(listing) <==> f in listing && EndsWith(f, ".txt") && '_' in StripExtension(f)
    ensures Distinct(listing) ==> Distinct(GroupedLabels(listing))
  {
    KeyedValues(TxtFiles(listing), f);
    TxtFilesMembers(listing, f);
    VideoKeyAgrees(f);
    if Distinct(listing) {
      TxtFilesDistinct(listing);
      KeyedDistinct(TxtFiles(listing));
    }
  }

  /** Lines 20 and 28-35 of split-img-txt-yolo.py (9-20 of split_yolo_txt.py):
      keep the `.txt` names, then video_groups[video_id].append(name) for
      each name that has a video id. */
  method GroupLabels(listing: seq<string>) returns (videoIds: seq<string>, groups: map<string, seq<string>>)
    ensures IsGrouping(LabelPairs(listing), videoIds, groups)
  {
    var txtFiles := TxtFiles(listing);
    videoIds := [];
    groups := map[];
    for i := 0 to |txtFiles|
      invariant IsGrouping(Keyed(txtFiles[..i]), videoIds, groups)
    {
      var txtFile := txtFiles[i];
      KeyedStep(txtFiles, i);
      var parts := Split(StripExtension(txtFile), '_');
      if |parts| < 2 {
        assert VideoKey(txtFile) == None;
        assert Keyed(txtFiles[..i + 1]) == Keyed(txtFiles[..i]);
        continue;
      }
      var videoId := Join(parts[..2], '_');
      assert VideoKey(txtFile) == Some(videoId);
      assert Keyed(txtFiles[..i + 1]) == Keyed(txtFiles[..i]) + [(videoId, txtFile)];
      GroupingStep(Keyed(txtFiles[..i]), videoId, txtFile, videoIds, groups);
      if videoId !in groups {
        videoIds := videoIds + [videoId];
        groups := groups[videoId := []];
      }
      groups := groups[videoId := groups[videoId] + [txtFile]];
    }
    assert txtFiles[..|txtFiles|] == txtFiles;
  }

  /** A file is in the concatenated groups of some videos exactly when it is
      a grouped label file whose video is one of them. */
  lemma {:induction false} ConcatMembers(listing: seq<string>, videoIds: seq<string>, groups: map<string, seq<string>>,
                                         vids: seq<string>, f: string)
    requires IsGrouping(LabelPairs(listing), videoIds, groups)
    ensures f in Concat(vids, groups)
        <==> f in listing && EndsWith(f, ".txt") && VideoKey(f).Some? && VideoKey(f).value in vids
  {
    TxtFilesMembers(listing, f);
    if |vids| > 0 {
      var init := vids[..|vids| - 1];
      var k := vids[|vids| - 1];
      assert vids == init + [k];
      ConcatMembers(listing, videoIds, groups, init, f);
      KeyedMembers(TxtFiles(listing), {k}, f);
      if k !in groups {
        assert k !in KeySet(LabelPairs(listing));
        ValuesWithKeyInAbsent(LabelPairs(listing), k);
      }
    }
  }

  // ------------------------------------------------------------ the split

  /** int(total_videos * 0.70), with 0.70 the exact rational 70/100. */
  function TrainCount(total: nat): nat {
    total * 70 / 100
  }

  /** int(total_videos * 0.15), with 0.15 the exact rational 15/100. */
  function ValCount(total: nat): nat {
    total * 15 / 100
  }

  /** The two counts are the floors of 70% and 15% of the total, and never
      add up to more than the total, so test gets the rest. */
  lemma {:induction false} CountsMeaning(total: nat)
    ensures 100 * TrainCount(total) <= 70 * total < 100 * (TrainCount(total) + 1)
    ensures 100 * ValCount(total) <= 15 * total < 100 * (ValCount(total) + 1)
    ensures TrainCount(total) + ValCount(total) <= total
  {
    var t, v := TrainCount(total), ValCount(total);
    assert total * 70 == 100 * t + (total * 70) % 100;
    assert total * 15 == 100 * v + (total * 15) % 100;
    assert 100 * (t + v) <= 85 * total;
  }

  /** video_ids[:train], video_ids[train:train+val] and video_ids[train+val:]
      of the shuffled ids. */
  function SplitIds(shuffled: seq<string>): (seq<string>, seq<string>, seq<string>) {
    var t := TrainCount(|shuffled|);
    var v := ValCount(|shuffled|);
    (PySlice(shuffled, 0, t), PySlice(shuffled, t, t + v), PySlice(shuffled, t + v, |shuffled|))
  }

  /** For a shuffle of distinct video ids the three slices are, in order, the
      whole shuffled list, of the sizes the counts give, pairwise disjoint,
      and together they hold every id. */
  lemma {:induction false} SplitIdsPartition(videoIds: seq<string>, shuffled: seq<string>)
    requires Distinct(videoIds) && multiset(shuffled) == multiset(videoIds)
    ensures var (tr, va, te) := SplitIds(shuffled);
      && tr + va + te == shuffled
      && |tr| == TrainCount(|shuffled|) && |va| == ValCount(|shuffled|)
      && |te| == |shuffled| - TrainCount(|shuffled|) - ValCount(|shuffled|)
      && Elems(tr) !! Elems(va) && Elems(tr) !! Elems(te) && Elems(va) !! Elems(te)
      && Elems(tr) + Elems(va) + Elems(te) == Elems(videoIds)
  {
    var n := |shuffled|;
    var t, v := TrainCount(n), ValCount(n);
    CountsMeaning(n);
    PySlicesPartition(shuffled, t, v);
    PySliceNonNegative(shuffled, 0, t);
    PySliceNonNegative(shuffled, t, t + v);
    ShuffledSlicesPartition(videoIds, shuffled, t, v);
  }

  /** Every grouped label file is in the file list of exactly one part, and
      no other file is in any. */
  lemma {:induction false} LabelInOnePart(listing: seq<string>, videoIds: seq<string>, groups: map<string, seq<string>>,
                                          shuffled: seq<string>, f: string)
    requires IsGrouping(LabelPairs(listing), videoIds, groups)
    requires multiset(shuffled) == multiset(videoIds)
    ensures var (tr, va, te) := SplitIds(shuffled);
      && (f in GroupedLabels(listing) <==> f in Concat(tr, groups) || f in Concat(va, groups) || f in Concat(te, groups))
      && !(f in Concat(tr, groups) && f in Concat(va, groups))
      && !(f in Concat(tr, groups) && f in Concat(te, groups))
      && !(f in Concat(va, groups) && f in Concat(te, groups))
  {
    var (tr, va, te) := SplitIds(shuffled);
    SplitIdsPartition(videoIds, shuffled);
    ConcatMembers(listing, videoIds, groups, tr, f);
    ConcatMembers(listing, videoIds, groups, va, f);
    ConcatMembers(listing, videoIds, groups, te, f);
    KeyedValues(TxtFiles(listing), f);
    TxtFilesMembers(listing, f);
    if VideoKey(f).Some? && f in TxtFiles(listing) {
      var k := VideoKey(f).value;
      KeyedMembers(TxtFiles(listing), {k}, f);
      ValuesWithKeyInAbsentContra(LabelPairs(listing), k, f);
      assert k in Elems(videoIds);
      assert k in Elems(tr) || k in Elems(va) || k in Elems(te);
    }
  }

  /** A value filed under key k means k occurs. */
  lemma {:induction false} ValuesWithKeyInAbsentContra(pairs: seq<(string, string)>, k: string, f: string)
    requires f in ValuesWithKeyIn(pairs, {k})
    ensures k in KeySet(pairs)
  {
    if k !in KeySet(pairs) {
      ValuesWithKeyInAbsent(pairs, k);
    }
  }

  /** Together the three file lists are every grouped label file, each as
      often as it was grouped (once, when the listing names each file once). */
  lemma {:induction false} PartsCoverLabels(listing: seq<string>, videoIds: seq<string>, groups: map<string, seq<string>>,
                                            shuffled: seq<string>)
    requires IsGrouping(LabelPairs(listing), videoIds, groups)
    requires multiset(shuffled) == multiset(videoIds)
    ensures var (tr, va, te) := SplitIds(shuffled);
      multiset(Concat(tr, groups) + Concat(va, groups) + Concat(te, groups)) == multiset(GroupedLabels(listing))
    ensures var (tr, va, te) := SplitIds(shuffled);
      Distinct(listing) ==> Distinct(Concat(tr, groups) + Concat(va, groups) + Concat(te, groups))
  {
    var pairs := LabelPairs(listing);
    var (tr, va, te) := SplitIds(shuffled);
    SplitIdsPartition(videoIds, shuffled);
    ConcatAppend(tr, va, groups);
    ConcatAppend(tr + va, te, groups);
    var all := Concat(tr, groups) + Concat(va, groups) + Concat(te, groups);
    assert all == Concat(shuffled, groups);
    DistinctPermutation(videoIds, shuffled);
    ElemsPermutation(videoIds, shuffled);
    forall k | k in shuffled ensures k in groups && groups[k] == ValuesWithKeyIn(pairs, {k}) {
      assert k in Elems(shuffled);
    }
    GroupsConcatenated(pairs, shuffled, groups);
    ValuesWithKeyInAll(pairs, Elems(shuffled));
    if Distinct(listing) {
      GroupedLabelsMembers(listing, "");
      DistinctPermutation(GroupedLabels(listing), all);
    }
  }
}
