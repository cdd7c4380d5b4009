/** split_train_val_test.py: split a merged COCO file into train/val/test so
    that all frames of one video land in the same split, each output renumbered
    densely from 1. */
module VideoSplit {
  import opened Wrappers
  import opened Coco
  import opened Strings
  import opened Seqs
  import opened Grouping

  /** get_video_id_from_filename: the first two '_' tokens of the stem joined
      by '_', or the whole stem when it holds no '_'. */
  function VideoIdFromFilename(fileName: string): (key: string)
    ensures key <= StripExtension(fileName)
    ensures ('_' in key) <==> ('_' in StripExtension(fileName))
    ensures '_' !in StripExtension(fileName) ==> key == StripExtension(fileName)
  {
    var base := StripExtension(fileName);
    var tokens := Split(base, '_');
    if |tokens| >= 2 then
      JoinSplit(base, '_');
      JoinStartsWithFirstTwo(tokens, '_');
      tokens[0] + "_" + tokens[1]
    else base
  }

  lemma {:induction false} JoinStartsWithFirstTwo(parts: seq<string>, sep: char)
    requires |parts| >= 2
    ensures parts[0] + [sep] + parts[1] <= Join(parts, sep)
  {
    var rest := parts[1..];
    if |rest| >= 2 {
      assert Join(rest, sep) == parts[1] + [sep] + Join(rest[1..], sep);
    }
  }

  /** A frame name `a_b<rest>.<ext>`, where a and b hold no '_' and rest is
      empty or starts with '_', belongs to video `a_b`. */
  lemma {:induction false} VideoIdOfFrame(a: string, b: string, rest: string, ext: string)
    requires '_' !in a && '_' !in b && (rest == [] || rest[0] == '_')
    requires '/' !in a + b + rest
    requires |ext| >= 1 && ext[0] == '.' && '.' !in ext[1..] && '/' !in ext
    ensures VideoIdFromFilename(a + "_" + b + rest + ext) == a + "_" + b
  {
    var stem := a + "_" + b + rest;
    assert '/' !in stem;
    assert stem[|a|] == '_';
    assert HasNonDot(stem[LastIndexOf(stem, '/') + 1..]);
    StripExtensionOf(stem, ext);
    SplitFirstTwo(a, b, rest, '_');
  }

  /** The example of the docstring: "52701_1_4.jpg" is a frame of "52701_1". */
  lemma {:induction false} VideoIdExample(fileName: string)
    requires fileName == "52701_1_4.jpg"
    ensures VideoIdFromFilename(fileName) == "52701_1"
  {
    var a, b, rest, ext := "52701", "1", "_4", ".jpg";
    assert '_' !in a && '_' !in b && rest[0] == '_' by { }
    assert '/' !in a + b + rest by { }
    assert ext[0] == '.' && '.' !in ext[1..] && '/' !in ext by { }
    assert a + "_" + b + rest + ext == fileName by { }
    VideoIdOfFrame(a, b, rest, ext);
  }

  // ---------------------------------------------------------------- ratios

  /** A ratio given on the command line, as the exact rational num/den. */
  datatype Ratio = Ratio(num: int, den: int)

  predicate WellFormed(r: Ratio) { r.den > 0 }

  function Abs(x: int): nat { if x < 0 then -x else x }

  /** The check of main: |train + val + test - 1| <= 1e-6, in exact arithmetic. */
  predicate RatiosSumToOne(t: Ratio, v: Ratio, s: Ratio)
    requires WellFormed(t) && WellFormed(v) && WellFormed(s)
  {
    var d := t.den * v.den * s.den;
    var n := t.num * v.den * s.den + v.num * t.den * s.den + s.num * t.den * v.den;
    Abs(n - d) * 1000000 <= d
  }

  /** int(total * ratio). */
  function Count(total: nat, r: Ratio): int
    requires WellFormed(r)
  {
    TruncDiv(total * r.num, r.den)
  }

  /** split_train_val_test applied to the list that random.shuffle produced:
      the first int(total*train_ratio) ids, the next int(total*val_ratio), and
      the rest, each as a set. test_ratio is not used. */
  function SplitTrainValTest(shuffled: seq<string>, trainRatio: Ratio, valRatio: Ratio): (set<string>, set<string>, set<string>)
    requires WellFormed(trainRatio) && WellFormed(valRatio)
  {
    var total := |shuffled|;
    var trainCount := Count(total, trainRatio);
    var valCount := Count(total, valRatio);
    (Elems(PySlice(shuffled, 0, trainCount)),
     Elems(PySlice(shuffled, trainCount, trainCount + valCount)),
     Elems(PySlice(shuffled, trainCount + valCount, total)))
  }

  /** For ratios that are not negative and a shuffle of distinct video ids, the
      three sets are pairwise disjoint and together hold every id; train is the
      first int(total*train_ratio) shuffled ids, val the next
      int(total*val_ratio) and test the rest (each bound clamped at the list
      end). */
  lemma {:induction false} SplitTrainValTestPartition(videoIds: seq<string>, shuffled: seq<string>, trainRatio: Ratio, valRatio: Ratio)
    requires WellFormed(trainRatio) && WellFormed(valRatio)
    requires trainRatio.num >= 0 && valRatio.num >= 0
    requires Distinct(videoIds) && multiset(shuffled) == multiset(videoIds)
    ensures var (tr, va, te) := SplitTrainValTest(shuffled, trainRatio, valRatio);
      && tr !! va && tr !! te && va !! te
      && tr + va + te == Elems(videoIds)
      && var n := |shuffled|;
         var a := Count(n, trainRatio);
         var v := Count(n, valRatio);
         && 0 <= a && 0 <= v
         && tr == Elems(shuffled[..Min(a, n)])
         && va == Elems(shuffled[Min(a, n)..Min(a + v, n)])
         && te == Elems(shuffled[Min(a + v, n)..])
  {
    var n := |shuffled|;
    CountNonNegative(n, trainRatio);
    CountNonNegative(n, valRatio);
    var a := Count(n, trainRatio);
    var v := Count(n, valRatio);
    var p1, p2, p3 := PySlice(shuffled, 0, a), PySlice(shuffled, a, a + v), PySlice(shuffled, a + v, n);
    assert SplitTrainValTest(shuffled, trainRatio, valRatio) == (Elems(p1), Elems(p2), Elems(p3));
    ShuffledSlicesPartition(videoIds, shuffled, a, v);
    ThreeSlices(shuffled, a, v);
  }

  /** Two videos with the default ratios 0.7 / 0.15: int(2 * 0.7) == 1 video
      goes to train, int(2 * 0.15) == 0 to val, and the other one to test. */
  lemma {:induction false} TwoVideosDefaultRatios(x: string, y: string)
    requires x != y
    ensures SplitTrainValTest([x, y], Ratio(7, 10), Ratio(15, 100)) == ({x}, {}, {y})
  {
    assert Count(2, Ratio(7, 10)) == 1 && Count(2, Ratio(15, 100)) == 0;
    assert PySlice([x, y], 0, 1) == [x];
    assert PySlice([x, y], 1, 1) == [];
    assert PySlice([x, y], 1, 2) == [y];
    assert Elems([x]) == {x} && Elems([y]) == {y};
    assert Elems<string>([]) == {};
  }

  lemma {:induction false} CountNonNegative(total: nat, r: Ratio)
    requires WellFormed(r) && r.num >= 0
    ensures Count(total, r) >= 0
  {
    assert total * r.num >= 0;
  }

  /** With a negative train ratio (which the sum check lets through, e.g.
      -0.5/0.5/1.0) the slices overlap: the first video is in train and test. */
  lemma {:induction false} NegativeRatioOverlaps(x: string, y: string)
    requires x != y
    ensures var (tr, va, te) := SplitTrainValTest([x, y], Ratio(-1, 2), Ratio(1, 2));
      x in tr && x in te
    ensures RatiosSumToOne(Ratio(-1, 2), Ratio(1, 2), Ratio(1, 1))
  {
    assert Count(2, Ratio(-1, 2)) == -1;
    assert PySlice([x, y], 0, -1) == [x];
    assert PySlice([x, y], 0, 2) == [x, y];
  }

  // -------------------------------------------------------------- grouping

  function KeyOf(img: Image): string { VideoIdFromFilename(img.fileName) }

  function Ids(images: seq<Image>): (ids: seq<int>)
    ensures |ids| == |images| && forall j :: 0 <= j < |ids| ==> ids[j] == images[j].id
  {
    if |images| == 0 then [] else Ids(images[..|images| - 1]) + [images[|images| - 1].id]
  }

  /** Each image tagged with its video key: the (key, id) pairs the grouping
      loop of main appends. */
  function Tagged(images: seq<Image>): (pairs: seq<(string, int)>)
    ensures |pairs| == |images|
    ensures forall j :: 0 <= j < |pairs| ==> pairs[j] == (KeyOf(images[j]), images[j].id)
  {
    if |images| == 0 then []
    else Tagged(images[..|images| - 1]) + [(KeyOf(images[|images| - 1]), images[|images| - 1].id)]
  }

  lemma {:induction false} TaggedAppend(images: seq<Image>, i: int)
    requires 0 <= i < |images|
    ensures Tagged(images[..i + 1]) == Tagged(images[..i]) + [(VideoIdFromFilename(images[i].fileName), images[i].id)]
  {
    assert images[..i + 1][..i] == images[..i];
  }

  lemma {:induction false} ValuesOfTagged(images: seq<Image>)
    ensures Values(Tagged(images)) == Ids(images)
  {
  }

  /** The grouping loop of main: video_to_image_ids[key].append(img["id"]),
      the dict keeping its keys in insertion order. */
  method GroupImagesByVideo(images: seq<Image>) returns (keys: seq<string>, groups: map<string, seq<int>>)
    ensures IsGrouping(Tagged(images), keys, groups)
  {
    keys := [];
    groups := map[];
    for i := 0 to |images|
      invariant IsGrouping(Tagged(images[..i]), keys, groups)
    {
      var img := images[i];
      var vidKey := VideoIdFromFilename(img.fileName);
      GroupingStep(Tagged(images[..i]), vidKey, img.id, keys, groups);
      TaggedAppend(images, i);
      if vidKey !in groups {
        keys := keys + [vidKey];
        groups := groups[vidKey := []];
      }
      groups := groups[vidKey := groups[vidKey] + [img.id]];
    }
    assert images[..|images|] == images;
  }

  /** Frames of one video share a group: an image's id is in the group of its
      own key and in no other. */
  lemma {:induction false} SameVideoSameGroup(images: seq<Image>, keys: seq<string>, groups: map<string, seq<int>>, j: int, k: string)
    requires IsGrouping(Tagged(images), keys, groups)
    requires 0 <= j < |images| && k in groups
    requires forall i :: 0 <= i < |images| && i != j ==> images[i].id != images[j].id
    ensures images[j].id in groups[k] <==> k == KeyOf(images[j])
  {
    ValueInGroup(Tagged(images), j, k);
  }

  // ------------------------------------------------------------ assignment

  datatype Part = Train | Val | Test

  /** The if/elif/else of main: train first, then val, else test. */
  function PartOf(key: string, trainVids: set<string>, valVids: set<string>): Part {
    if key in trainVids then Train else if key in valVids then Val else Test
  }

  /** The ids that main's loop extends the list of `part` with, in key order. */
  function Gathered(keys: seq<string>, groups: map<string, seq<int>>, trainVids: set<string>, valVids: set<string>, part: Part): seq<int>
    requires forall k :: k in keys ==> k in groups
  {
    if |keys| == 0 then []
    else
      var k := keys[|keys| - 1];
      Gathered(keys[..|keys| - 1], groups, trainVids, valVids, part)
        + (if PartOf(k, trainVids, valVids) == part then groups[k] else [])
  }

  /** The assignment loop of main. */
  method AssignImageIds(keys: seq<string>, groups: map<string, seq<int>>, trainVids: set<string>, valVids: set<string>)
    returns (trainImageIds: seq<int>, valImageIds: seq<int>, testImageIds: seq<int>)
    requires forall k :: k in keys ==> k in groups
    ensures trainImageIds == Gathered(keys, groups, trainVids, valVids, Train)
    ensures valImageIds == Gathered(keys, groups, trainVids, valVids, Val)
    ensures testImageIds == Gathered(keys, groups, trainVids, valVids, Test)
  {
    trainImageIds, valImageIds, testImageIds := [], [], [];
    for i := 0 to |keys|
      invariant trainImageIds == Gathered(keys[..i], groups, trainVids, valVids, Train)
      invariant valImageIds == Gathered(keys[..i], groups, trainVids, valVids, Val)
      invariant testImageIds == Gathered(keys[..i], groups, trainVids, valVids, Test)
    {
      var vidKey := keys[i];
      var imgIds := groups[vidKey];
      assert keys[..i + 1][..i] == keys[..i];
      if vidKey in trainVids {
        trainImageIds := trainImageIds + imgIds;
      } else if vidKey in valVids {
        valImageIds := valImageIds + imgIds;
      } else {
        testImageIds := testImageIds + imgIds;
      }
    }
    assert keys[..|keys|] == keys;
  }

  function KeysOfPart(keys: seq<string>, trainVids: set<string>, valVids: set<string>, part: Part): set<string> {
    set k | k in keys && PartOf(k, trainVids, valVids) == part
  }

  /** The ids gathered for a part are, as a multiset, the ids of the images
      whose key belongs to that part. */
  lemma {:induction false} GatheredIds(pairs: seq<(string, int)>, keys: seq<string>, groups: map<string, seq<int>>,
                                       trainVids: set<string>, valVids: set<string>, part: Part)
    requires Distinct(keys)
    requires forall k :: k in keys ==> k in groups && groups[k] == ValuesWithKeyIn(pairs, {k})
    ensures multiset(Gathered(keys, groups, trainVids, valVids, part))
         == multiset(ValuesWithKeyIn(pairs, KeysOfPart(keys, trainVids, valVids, part)))
  {
    if |keys| == 0 {
      assert KeysOfPart(keys, trainVids, valVids, part) == {};
      ValuesWithKeyInEmpty(pairs);
    } else {
      var init := keys[..|keys| - 1];
      var k := keys[|keys| - 1];
      var before := KeysOfPart(init, trainVids, valVids, part);
      var g := Gathered(init, groups, trainVids, valVids, part);
      KeysOfPartStep(keys, trainVids, valVids, part);
      assert forall x :: x in init ==> x in keys;
      GatheredIds(pairs, init, groups, trainVids, valVids, part);
      if PartOf(k, trainVids, valVids) == part {
        assert Gathered(keys, groups, trainVids, valVids, part) == g + groups[k];
        assert k in keys;
        ValuesWithKeyInUnion(pairs, before, {k});
      } else {
        assert Gathered(keys, groups, trainVids, valVids, part) == g;
      }
    }
  }

  /** Adding the last key to the keys of a part. */
  lemma {:induction false} KeysOfPartStep(keys: seq<string>, trainVids: set<string>, valVids: set<string>, part: Part)
    requires |keys| > 0 && Distinct(keys)
    ensures var init, k := keys[..|keys| - 1], keys[|keys| - 1];
      && Distinct(init)
      && KeysOfPart(init, trainVids, valVids, part) !! {k}
      && (PartOf(k, trainVids, valVids) == part ==>
            KeysOfPart(keys, trainVids, valVids, part) == KeysOfPart(init, trainVids, valVids, part) + {k})
      && (PartOf(k, trainVids, valVids) != part ==>
            KeysOfPart(keys, trainVids, valVids, part) == KeysOfPart(init, trainVids, valVids, part))
  {
    var init, k := keys[..|keys| - 1], keys[|keys| - 1];
    assert keys == init + [k];
    DistinctHalves(init, [k]);
    DistinctPartsDisjoint(init, [k]);
    assert k !in init;
    forall x
      ensures x in KeysOfPart(keys, trainVids, valVids, part)
          <==> x in KeysOfPart(init, trainVids, valVids, part) || (x == k && PartOf(k, trainVids, valVids) == part)
    {
      assert x in keys <==> x in init || x == k;
    }
  }

  /** The three lists together hold every grouped value, each as often as
      it occurs among the tagged pairs. */
  lemma {:induction false} PartsCoverAll(pairs: seq<(string, int)>, keys: seq<string>, groups: map<string, seq<int>>,
                      trainVids: set<string>, valVids: set<string>)
    requires IsGrouping(pairs, keys, groups)
    ensures multiset(Gathered(keys, groups, trainVids, valVids, Train))
          + multiset(Gathered(keys, groups, trainVids, valVids, Val))
          + multiset(Gathered(keys, groups, trainVids, valVids, Test))
         == multiset(Values(pairs))
  {
    var t := KeysOfPart(keys, trainVids, valVids, Train);
    var v := KeysOfPart(keys, trainVids, valVids, Val);
    var s := KeysOfPart(keys, trainVids, valVids, Test);
    GatheredIds(pairs, keys, groups, trainVids, valVids, Train);
    GatheredIds(pairs, keys, groups, trainVids, valVids, Val);
    GatheredIds(pairs, keys, groups, trainVids, valVids, Test);
    KeysOfPartCover(keys, trainVids, valVids);
    ValuesWithKeyInUnion(pairs, t, v);
    ValuesWithKeyInUnion(pairs, t + v, s);
    ValuesWithKeyInAll(pairs, Elems(keys));
  }

  /** Every key belongs to exactly one part. */
  lemma {:induction false} KeysOfPartCover(keys: seq<string>, trainVids: set<string>, valVids: set<string>)
    ensures var t, v, s := KeysOfPart(keys, trainVids, valVids, Train), KeysOfPart(keys, trainVids, valVids, Val),
                           KeysOfPart(keys, trainVids, valVids, Test);
      t !! v && (t + v) !! s && t + v + s == Elems(keys)
  {
  }

  /** Every image id lands in exactly one of the three lists: together they
      are the image ids of the input, each as often as it occurs there. */
  lemma {:induction false} EveryImageInOnePart(images: seq<Image>, keys: seq<string>, groups: map<string, seq<int>>,
                            trainVids: set<string>, valVids: set<string>)
    requires IsGrouping(Tagged(images), keys, groups)
    ensures multiset(Gathered(keys, groups, trainVids, valVids, Train))
          + multiset(Gathered(keys, groups, trainVids, valVids, Val))
          + multiset(Gathered(keys, groups, trainVids, valVids, Test))
         == multiset(Ids(images))
  {
    PartsCoverAll(Tagged(images), keys, groups, trainVids, valVids);
    ValuesOfTagged(images);
  }

  // ---------------------------------------------------------------- subset

  /** What build_subset_coco returns: the images whose id is in the subset,
      renumbered 1..k in their order; the annotations of those images,
      renumbered 1..m with image_id rewritten; passthrough metadata with the
      defaults [] / {} / []. "images" or "annotations" missing raises KeyError. */
  function Subset(merged: Dataset, subset: set<int>): Result<Dataset> {
    if merged.images.None? then Err(KeyError("images"))
    else if merged.annotations.None? then Err(KeyError("annotations"))
    else
      var kept := ImagesWithIds(merged.images.value, subset);
      Ok(Dataset(
        Some(merged.licenses.GetOr(JArr([]))),
        Some(merged.info.GetOr(JObj([]))),
        Some(merged.categories.GetOr(JArr([]))),
        Some(Renumbered(kept, 0)),
        Some(Reassigned(merged.annotations.value, IdMap(kept, 0), 0))))
  }

  /** The image loop of build_subset_coco: keep the images whose id is in
      the subset, give them the ids 1, 2, ... and record old id -> new id. */
  method SelectImages(images: seq<Image>, subsetIds: set<int>) returns (subsetImages: seq<Image>, imgIdMap: map<int, int>)
    ensures subsetImages == Renumbered(ImagesWithIds(images, subsetIds), 0)
    ensures imgIdMap == IdMap(ImagesWithIds(images, subsetIds), 0)
  {
    imgIdMap := map[];
    var newImgId := 1;
    subsetImages := [];
    for i := 0 to |images|
      invariant subsetImages == Renumbered(ImagesWithIds(images[..i], subsetIds), 0)
      invariant imgIdMap == IdMap(ImagesWithIds(images[..i], subsetIds), 0)
      invariant newImgId == |ImagesWithIds(images[..i], subsetIds)| + 1
    {
      var img := images[i];
      ghost var kept := ImagesWithIds(images[..i], subsetIds);
      assert images[..i + 1] == images[..i] + [img];
      ImagesWithIdsSnoc(images[..i], img, subsetIds);
      if img.id in subsetIds {
        RenumberedSnoc(kept, img, 0);
        IdMapSnoc(kept, img, 0);
        subsetImages := subsetImages + [img.(id := newImgId)];
        imgIdMap := imgIdMap[img.id := newImgId];
        newImgId := newImgId + 1;
        assert subsetImages == Renumbered(kept + [img], 0);
        assert imgIdMap == IdMap(kept + [img], 0);
      } else {
        assert subsetImages == Renumbered(kept, 0);
      }
    }
    assert images[..|images|] == images;
  }

  /** The annotation loop of build_subset_coco: keep the annotations of kept
      images, give them the ids 1, 2, ... and rewrite their image_id. */
  method SelectAnnotations(annotations: seq<Annotation>, imgIdMap: map<int, int>) returns (subsetAnnotations: seq<Annotation>)
    ensures subsetAnnotations == Reassigned(annotations, imgIdMap, 0)
  {
    var newAnnId := 1;
    subsetAnnotations := [];
    for j := 0 to |annotations|
      invariant subsetAnnotations == Reassigned(annotations[..j], imgIdMap, 0)
      invariant newAnnId == |subsetAnnotations| + 1
    {
      var ann := annotations[j];
      assert annotations[..j + 1][..j] == annotations[..j];
      if ann.imageId in imgIdMap {
        subsetAnnotations := subsetAnnotations + [ann.(imageId := imgIdMap[ann.imageId], id := newAnnId)];
        newAnnId := newAnnId + 1;
      }
    }
    assert annotations[..|annotations|] == annotations;
  }

  /** build_subset_coco. */
  method BuildSubsetCoco(merged: Dataset, imageIdsSubset: seq<int>) returns (r: Result<Dataset>)
    ensures r == Subset(merged, Elems(imageIdsSubset))
  {
    var subsetIds := Elems(imageIdsSubset);
    if merged.images.None? {
      return Err(KeyError("images"));
    }
    var subsetImages, imgIdMap := SelectImages(merged.images.value, subsetIds);
    if merged.annotations.None? {
      return Err(KeyError("annotations"));
    }
    var subsetAnnotations := SelectAnnotations(merged.annotations.value, imgIdMap);
    r := Ok(Dataset(
      Some(merged.licenses.GetOr(JArr([]))),
      Some(merged.info.GetOr(JObj([]))),
      Some(merged.categories.GetOr(JArr([]))),
      Some(subsetImages),
      Some(subsetAnnotations)));
  }

  /** The subset's images are exactly the input images whose id is in the
      subset, in their order, with the dense ids 1..k. */
  lemma {:induction false} SubsetImages(merged: Dataset, subset: set<int>)
    requires merged.images.Some? && merged.annotations.Some?
    ensures Subset(merged, subset).Ok?
    ensures var imgs := Subset(merged, subset).value.images.value;
      var kept := ImagesWithIds(merged.images.value, subset);
      && |imgs| == |kept|
      && (forall j :: 0 <= j < |imgs| ==> imgs[j] == kept[j].(id := j + 1))
      && (forall x :: x in kept <==> x in merged.images.value && x.id in subset)
  {
    var kept := ImagesWithIds(merged.images.value, subset);
    RenumberedIds(kept, 0);
    ImagesWithIdsMembers(merged.images.value, subset);
  }

  /** The subset's annotations have the ids 1..m and each points at one of
      the ids 1..k of the subset's images; an annotation is kept exactly when
      its image_id is in the subset and is the id of an input image. */
  lemma {:induction false} SubsetAnnotations(merged: Dataset, subset: set<int>)
    requires merged.images.Some? && merged.annotations.Some?
    ensures Subset(merged, subset).Ok?
    ensures var out := Subset(merged, subset).value;
      var anns := out.annotations.value;
      && (forall j :: 0 <= j < |anns| ==> anns[j].id == j + 1 && 1 <= anns[j].imageId <= |out.images.value|)
      && (forall a :: a in Kept(merged.annotations.value, IdMap(ImagesWithIds(merged.images.value, subset), 0)) <==>
            a in merged.annotations.value && a.imageId in subset
            && exists x :: x in merged.images.value && x.id == a.imageId)
  {
    var images := merged.images.value;
    var kept := ImagesWithIds(images, subset);
    var m := IdMap(kept, 0);
    var anns := Reassigned(merged.annotations.value, m, 0);
    ReassignedIds(merged.annotations.value, m, 0);
    IdMapKeysValues(kept, 0);
    ImagesWithIdsMembers(images, subset);
    KeptMembers(merged.annotations.value, m);
    forall a | a in merged.annotations.value
      ensures a.imageId in m <==> a.imageId in subset && exists x :: x in images && x.id == a.imageId
    {
      if a.imageId in m {
        var i :| 0 <= i < |kept| && kept[i].id == a.imageId;
        assert kept[i] in kept;
      }
      if a.imageId in subset && exists x :: x in images && x.id == a.imageId {
        var x :| x in images && x.id == a.imageId;
        assert x in kept;
        var i :| 0 <= i < |kept| && kept[i] == x;
        assert a.imageId in ImageIds(kept);
      }
    }
  }

  // ------------------------------------------------------------------ main

  function AllGroups(images: seq<Image>): map<string, seq<int>> {
    map k | k in KeysInOrder(Tagged(images)) :: ValuesWithKeyIn(Tagged(images), {k})
  }

  /** The three subsets main writes, or the exception it raises. */
  function SplitResult(merged: Dataset, trainRatio: Ratio, valRatio: Ratio, testRatio: Ratio, shuffled: seq<string>)
    : Result<(Dataset, Dataset, Dataset)>
    requires WellFormed(trainRatio) && WellFormed(valRatio) && WellFormed(testRatio)
  {
    if !RatiosSumToOne(trainRatio, valRatio, testRatio) then
      Err(ValueError("train_ratio + val_ratio + test_ratio must equal 1.0"))
    else if merged.images.None? then Err(KeyError("images"))
    else
      var images := merged.images.value;
      var keys := KeysInOrder(Tagged(images));
      var groups := AllGroups(images);
      var (trainVids, valVids, _) := SplitTrainValTest(shuffled, trainRatio, valRatio);
      var train := Subset(merged, Elems(Gathered(keys, groups, trainVids, valVids, Train)));
      var val := Subset(merged, Elems(Gathered(keys, groups, trainVids, valVids, Val)));
      var test := Subset(merged, Elems(Gathered(keys, groups, trainVids, valVids, Test)));
      if train.Err? then Err(train.error)
      else Ok((train.value, val.value, test.value))
  }

  /** main, from the ratio check to the three subsets (argument parsing, the
      file reads and writes and the prints are left out; `shuffled` is what
      random.shuffle made of the list of video keys). */
  method SplitDataset(merged: Dataset, trainRatio: Ratio, valRatio: Ratio, testRatio: Ratio, shuffled: seq<string>)
    returns (r: Result<(Dataset, Dataset, Dataset)>)
    requires WellFormed(trainRatio) && WellFormed(valRatio) && WellFormed(testRatio)
    ensures r == SplitResult(merged, trainRatio, valRatio, testRatio, shuffled)
  {
    if !RatiosSumToOne(trainRatio, valRatio, testRatio) {
      return Err(ValueError("train_ratio + val_ratio + test_ratio must equal 1.0"));
    }
    if merged.images.None? {
      return Err(KeyError("images"));
    }
    var images := merged.images.value;
    var keys, groups := GroupImagesByVideo(images);
    assert groups == AllGroups(images);
    var (trainVids, valVids, testVids) := SplitTrainValTest(shuffled, trainRatio, valRatio);
    var trainIds, valIds, testIds := AssignImageIds(keys, groups, trainVids, valVids);
    var train := BuildSubsetCoco(merged, trainIds);
    var val := BuildSubsetCoco(merged, valIds);
    var test := BuildSubsetCoco(merged, testIds);
    if train.Err? {
      return Err(train.error);
    }
    r := Ok((train.value, val.value, test.value));
  }
}
