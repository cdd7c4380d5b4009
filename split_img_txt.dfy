/** split-img-txt-yolo.py: group the label files of a folder by video, split
    the shuffled videos 70 / 15 / rest, and copy every label of a part, with
    the image of the same stem when one exists, into labels/<part> and
    images/<part>. */
module SplitImgTxt {
  import opened Wrappers
  import opened Strings
  import opened Seqs
  import opened Grouping
  import opened YoloGrouping

  /** image_extensions, in the order they are tried. */
  const ImageExtensions: seq<string> := [".jpg", ".jpeg", ".png"]

  /** The first name `base + ext`, over `exts` in order, that exists. */
  function FirstExisting(base: string, exts: seq<string>, existing: set<string>): Option<string>
    decreases |exts|
  {
    if |exts| == 0 then None
    else if base + exts[0] in existing then Some(base + exts[0])
    else FirstExisting(base, exts[1..], existing)
  }

  /** `base + exts[i]` exists and no earlier extension does. */
  predicate FirstAt(base: string, exts: seq<string>, existing: set<string>, i: int) {
    && 0 <= i < |exts|
    && base + exts[i] in existing
    && forall j :: 0 <= j < i ==> base + exts[j] !in existing
  }

  /** The search finds a name exactly when some extension gives an existing
      name, and then it is the one of the earliest such extension. */
  lemma {:induction false} FirstExistingMeaning(base: string, exts: seq<string>, existing: set<string>)
    ensures FirstExisting(base, exts, existing).None? <==> forall i :: 0 <= i < |exts| ==> base + exts[i] !in existing
    ensures forall i :: FirstAt(base, exts, existing, i) ==> FirstExisting(base, exts, existing) == Some(base + exts[i])
    decreases |exts|
  {
    if |exts| > 0 {
      var tail := exts[1..];
      FirstExistingMeaning(base, tail, existing);
      forall i | 0 <= i < |tail| ensures tail[i] == exts[i + 1] { }
      forall i | FirstAt(base, exts, existing, i) ensures FirstExisting(base, exts, existing) == Some(base + exts[i]) {
        if i > 0 {
          assert FirstAt(base, tail, existing, i - 1);
        }
      }
      if base + exts[0] !in existing {
        forall i | 0 < i < |exts| ensures exts[i] == tail[i - 1] { }
      }
    }
  }

  /** The extension loop of copy_files: try base + ext for each extension in
      turn and stop at the first that exists. */
  method FindImage(base: string, existing: set<string>) returns (found: Option<string>)
    ensures found == FirstExisting(base, ImageExtensions, existing)
  {
    found := None;
    var i := 0;
    while i < |ImageExtensions|
      invariant 0 <= i <= |ImageExtensions|
      invariant FirstExisting(base, ImageExtensions, existing) == FirstExisting(base, ImageExtensions[i..], existing)
    {
      var imageFile := base + ImageExtensions[i];
      if imageFile in existing {
        found := Some(imageFile);
        break;
      }
      assert ImageExtensions[i..][1..] == ImageExtensions[i + 1..];
      i := i + 1;
    }
  }

  /** The image copied with a label: the first existing name of its stem
      with one of the image extensions. */
  function ImageOf(txtFile: string, existing: set<string>): Option<string> {
    FirstExisting(StripExtension(txtFile), ImageExtensions, existing)
  }

  /** The images copied with some labels, in copy order. */
  function FoundImages(labels: seq<string>, existing: set<string>): (images: seq<string>)
    ensures |images| <= |labels|
  {
    if |labels| == 0 then []
    else
      var found := ImageOf(labels[|labels| - 1], existing);
      FoundImages(labels[..|labels| - 1], existing) + (if found.Some? then [found.value] else [])
  }

  lemma {:induction false} FirstExistingInExisting(base: string, exts: seq<string>, existing: set<string>)
    ensures FirstExisting(base, exts, existing).Some? ==> FirstExisting(base, exts, existing).value in existing
    decreases |exts|
  {
    if |exts| > 0 {
      FirstExistingInExisting(base, exts[1..], existing);
    }
  }

  /** Only images that exist are copied. */
  lemma {:induction false} FoundImagesExist(labels: seq<string>, existing: set<string>, img: string)
    requires img in FoundImages(labels, existing)
    ensures img in existing
  {
    var init := labels[..|labels| - 1];
    var l := labels[|labels| - 1];
    FirstExistingInExisting(StripExtension(l), ImageExtensions, existing);
    if img !in FoundImages(init, existing) {
      assert ImageOf(l, existing) == Some(img);
    } else {
      FoundImagesExist(init, existing, img);
    }
  }

  /** Every image copied belongs to one of the labels: it is the label's
      stem followed by an image extension. */
  lemma {:induction false} FoundImageOfLabel(labels: seq<string>, existing: set<string>, img: string)
    requires img in FoundImages(labels, existing)
    ensures exists l :: l in labels && ImageOf(l, existing) == Some(img)
  {
    var l := labels[|labels| - 1];
    var init := labels[..|labels| - 1];
    if ImageOf(l, existing) == Some(img) {
      assert l in labels;
    } else {
      FoundImageOfLabel(init, existing, img);
      var l' :| l' in init && ImageOf(l', existing) == Some(img);
      assert l' in labels;
    }
  }

  /** The (part, name) pairs of names copied into the directory of a part. */
  function InPart(part: string, names: seq<string>): set<(string, string)> {
    set n | n in names :: (part, n)
  }

  lemma {:induction false} InPartAppend(part: string, names: seq<string>, n: string)
    ensures InPart(part, names + [n]) == InPart(part, names) + {(part, n)}
  {
    assert forall x :: x in names + [n] <==> x in names || x == n;
  }

  lemma {:induction false} InPartConcat(part: string, a: seq<string>, b: seq<string>)
    ensures InPart(part, a + b) == InPart(part, a) + InPart(part, b)
  {
    assert forall x :: x in a + b <==> x in a || x in b;
  }

  lemma {:induction false} InPartMembers(part: string, names: seq<string>, p: string, n: string)
    ensures (p, n) in InPart(part, names) <==> p == part && n in names
  {
    if p == part && n in names {
      assert (part, n) in InPart(part, names);
    }
  }

  /** The images of the labels of a + b are those of a, then those of b. */
  lemma {:induction false} FoundImagesAppend(a: seq<string>, b: seq<string>, existing: set<string>)
    ensures FoundImages(a + b, existing) == FoundImages(a, existing) + FoundImages(b, existing)
    decreases |b|
  {
    if |b| == 0 {
      assert a + b == a;
    } else {
      var init := b[..|b| - 1];
      assert (a + b)[..|a + b| - 1] == a + init;
      FoundImagesAppend(a, init, existing);
    }
  }

  lemma {:induction false} FoundImagesStep(labels: seq<string>, j: int, existing: set<string>)
    requires 0 <= j < |labels|
    ensures var found := ImageOf(labels[j], existing);
      FoundImages(labels[..j + 1], existing)
        == if found.Some? then FoundImages(labels[..j], existing) + [found.value] else FoundImages(labels[..j], existing)
  {
    assert labels[..j + 1][..j] == labels[..j];
  }

  /** Copying the label of step j extends the copied labels by one. */
  lemma {:induction false} LabelStep(before: set<(string, string)>, part: string, group: seq<string>, j: int)
    requires 0 <= j < |group|
    ensures before + InPart(part, group[..j]) + {(part, group[j])} == before + InPart(part, group[..j + 1])
  {
    assert group[..j + 1] == group[..j] + [group[j]];
    InPartAppend(part, group[..j], group[j]);
  }

  /** Copying the image found at step j, if any, extends the copied images
      by it. */
  lemma {:induction false} ImageStep(before: set<(string, string)>, part: string, group: seq<string>, j: int, existing: set<string>)
    requires 0 <= j < |group|
    ensures var found := ImageOf(group[j], existing);
      && before + InPart(part, FoundImages(group[..j], existing)) + (if found.Some? then {(part, found.value)} else {})
         == before + InPart(part, FoundImages(group[..j + 1], existing))
      && |FoundImages(group[..j + 1], existing)| == |FoundImages(group[..j], existing)| + (if found.Some? then 1 else 0)
  {
    FoundImagesStep(group, j, existing);
    var found := ImageOf(group[j], existing);
    if found.Some? {
      InPartAppend(part, FoundImages(group[..j], existing), found.value);
    }
  }

  /** Copying the labels of video i, and their images, extends what was
      copied for the videos before it. */
  lemma {:induction false} VideoStep(labelsBefore: set<(string, string)>, imagesBefore: set<(string, string)>, part: string,
                                     videoIds: seq<string>, i: int, groups: map<string, seq<string>>, existing: set<string>)
    requires 0 <= i < |videoIds|
    ensures var done, group := Concat(videoIds[..i], groups), GroupOf(groups, videoIds[i]);
      var next := Concat(videoIds[..i + 1], groups);
      && |next| == |done| + |group|
      && |FoundImages(next, existing)| == |FoundImages(done, existing)| + |FoundImages(group, existing)|
      && labelsBefore + InPart(part, done) + InPart(part, group) == labelsBefore + InPart(part, next)
      && imagesBefore + InPart(part, FoundImages(done, existing)) + InPart(part, FoundImages(group, existing))
         == imagesBefore + InPart(part, FoundImages(next, existing))
  {
    var done, group := Concat(videoIds[..i], groups), GroupOf(groups, videoIds[i]);
    assert videoIds[..i + 1][..i] == videoIds[..i];
    assert Concat(videoIds[..i + 1], groups) == done + group;
    CopiedInTurn(labelsBefore, part, done, group);
    FoundImagesAppend(done, group, existing);
    CopiedInTurn(imagesBefore, part, FoundImages(done, existing), FoundImages(group, existing));
  }

  /** Copying a, then b, into a part copies a + b. */
  lemma {:induction false} CopiedInTurn(before: set<(string, string)>, part: string, a: seq<string>, b: seq<string>)
    ensures before + InPart(part, a) + InPart(part, b) == before + InPart(part, a + b)
  {
    InPartConcat(part, a, b);
  }

  /** The three copies in turn add up to the exported pairs. */
  lemma {:induction false} ExportedInTurn(before: set<(string, string)>, train: seq<string>, val: seq<string>, test: seq<string>)
    ensures before + InPart("train", train) + InPart("val", val) + InPart("test", test) == before + Exported(train, val, test)
  {
  }

  class ExportFolder {
    /** The names present in the folder: what os.path.exists answers. */
    const existing: set<string>
    /** (part, name) for each label copied into labels/<part>. */
    var labels: set<(string, string)>
    /** (part, name) for each image copied into images/<part>. */
    var images: set<(string, string)>

    /** The folder before the copy: the part directories are empty. */
    constructor (existing: set<string>)
      ensures this.existing == existing && labels == {} && images == {}
    {
      this.existing := existing;
      labels := {};
      images := {};
    }

    /** The body of the inner loop of copy_files for one label: copy it,
        then copy the image found for it, if any. */
    method CopyLabel(txtFile: string, part: string) returns (imageCopied: bool)
      modifies this
      ensures labels == old(labels) + {(part, txtFile)}
      ensures imageCopied == ImageOf(txtFile, existing).Some?
      ensures images == old(images) + (if imageCopied then {(part, ImageOf(txtFile, existing).value)} else {})
    {
      labels := labels + {(part, txtFile)};
      var foundImage := FindImage(StripExtension(txtFile), existing);
      // `if found_image:` — a found name ends with an extension, so it is never empty.
      if foundImage.Some? {
        images := images + {(part, foundImage.value)};
      }
      imageCopied := foundImage.Some?;
    }

    /** The inner loop of copy_files over the labels of one video: each
        label is copied and counted, and so is the image found for it. */
    method CopyGroup(group: seq<string>, part: string, imagesBefore: nat, labelsBefore: nat)
      returns (imagesCount: nat, labelsCount: nat)
      modifies this
      ensures labelsCount == labelsBefore + |group|
      ensures imagesCount == imagesBefore + |FoundImages(group, existing)|
      ensures labels == old(labels) + InPart(part, group)
      ensures images == old(images) + InPart(part, FoundImages(group, existing))
    {
      imagesCount, labelsCount := imagesBefore, labelsBefore;
      for j := 0 to |group|
        invariant labelsCount == labelsBefore + j
        invariant imagesCount == imagesBefore + |FoundImages(group[..j], existing)|
        invariant labels == old(labels) + InPart(part, group[..j])
        invariant images == old(images) + InPart(part, FoundImages(group[..j], existing))
      {
        var txtFile := group[j];
        ghost var labelsBefore, imagesBefore := labels, images;
        var imageCopied := CopyLabel(txtFile, part);
        labelsCount := labelsCount + 1;
        if imageCopied {
          imagesCount := imagesCount + 1;
        }
        LabelStep(old(labels), part, group, j);
        ImageStep(old(images), part, group, j, existing);
      }
      assert group[..|group|] == group;
    }

    /** copy_files(video_ids, split): every label of the given videos is
        copied and counted, and so is the image found for it. */
    method CopyFiles(videoIds: seq<string>, part: string, groups: map<string, seq<string>>)
      returns (imagesCount: nat, labelsCount: nat)
      modifies this
      ensures labelsCount == |Concat(videoIds, groups)|
      ensures imagesCount == |FoundImages(Concat(videoIds, groups), existing)| <= labelsCount
      ensures labels == old(labels) + InPart(part, Concat(videoIds, groups))
      ensures images == old(images) + InPart(part, FoundImages(Concat(videoIds, groups), existing))
    {
      imagesCount, labelsCount := 0, 0;
      for i := 0 to |videoIds|
        invariant labelsCount == |Concat(videoIds[..i], groups)|
        invariant imagesCount == |FoundImages(Concat(videoIds[..i], groups), existing)|
        invariant labels == old(labels) + InPart(part, Concat(videoIds[..i], groups))
        invariant images == old(images) + InPart(part, FoundImages(Concat(videoIds[..i], groups), existing))
      {
        var group := GroupOf(groups, videoIds[i]);
        imagesCount, labelsCount := CopyGroup(group, part, imagesCount, labelsCount);
        VideoStep(old(labels), old(images), part, videoIds, i, groups, existing);
      }
      assert videoIds[..|videoIds|] == videoIds;
    }

    /** The whole script on a folder listing: group, split, and copy_files
        for train, val and test in turn. `shuffled` is the order that
        random.shuffle gave the video ids. */
    method SplitAndCopy(listing: seq<string>, shuffled: seq<string>)
      returns (groups: map<string, seq<string>>,
               trainImages: nat, trainLabels: nat, valImages: nat, valLabels: nat, testImages: nat, testLabels: nat)
      requires multiset(shuffled) == multiset(VideoIds(listing))
      modifies this
      ensures IsGrouping(LabelPairs(listing), VideoIds(listing), groups)
      ensures var (tr, va, te) := SplitIds(shuffled);
        && labels == old(labels) + Exported(Concat(tr, groups), Concat(va, groups), Concat(te, groups))
        && images == old(images) + Exported(FoundImages(Concat(tr, groups), existing),
                                            FoundImages(Concat(va, groups), existing),
                                            FoundImages(Concat(te, groups), existing))
        && trainLabels == |Concat(tr, groups)| && valLabels == |Concat(va, groups)| && testLabels == |Concat(te, groups)|
      ensures trainImages <= trainLabels && valImages <= valLabels && testImages <= testLabels
      ensures trainLabels + valLabels + testLabels == |GroupedLabels(listing)|
    {
      var videoIds;
      videoIds, groups := GroupLabels(listing);
      var (trainIds, valIds, testIds) := SplitIds(shuffled);
      trainImages, trainLabels := CopyFiles(trainIds, "train", groups);
      valImages, valLabels := CopyFiles(valIds, "val", groups);
      testImages, testLabels := CopyFiles(testIds, "test", groups);
      ExportedInTurn(old(labels), Concat(trainIds, groups), Concat(valIds, groups), Concat(testIds, groups));
      ExportedInTurn(old(images), FoundImages(Concat(trainIds, groups), existing),
                     FoundImages(Concat(valIds, groups), existing), FoundImages(Concat(testIds, groups), existing));
      PartsCoverLabels(listing, videoIds, groups, shuffled);
      MultisetSize(Concat(trainIds, groups) + Concat(valIds, groups) + Concat(testIds, groups), GroupedLabels(listing));
    }
  }

  /** Rearrangements have the same length. */
  lemma {:induction false} MultisetSize(a: seq<string>, b: seq<string>)
    requires multiset(a) == multiset(b)
    ensures |a| == |b|
  {
    assert |a| == |multiset(a)| && |b| == |multiset(b)|;
  }

  /** The (part, name) pairs copied for the train, val and test lists. */
  function Exported(train: seq<string>, val: seq<string>, test: seq<string>): set<(string, string)> {
    InPart("train", train) + InPart("val", val) + InPart("test", test)
  }

  lemma {:induction false} ExportedMembers(train: seq<string>, val: seq<string>, test: seq<string>, p: string, f: string)
    ensures (p, f) in Exported(train, val, test)
        <==> (p == "train" && f in train) || (p == "val" && f in val) || (p == "test" && f in test)
  {
    InPartMembers("train", train, p, f);
    InPartMembers("val", val, p, f);
    InPartMembers("test", test, p, f);
  }

  /** After a run into empty part directories, a label is in labels/<part>
      for exactly one part when it was grouped, and in none otherwise. */
  lemma {:induction false} CopiedToOnePart(listing: seq<string>, videoIds: seq<string>, groups: map<string, seq<string>>,
                                           shuffled: seq<string>, f: string)
    requires IsGrouping(LabelPairs(listing), videoIds, groups)
    requires multiset(shuffled) == multiset(videoIds)
    ensures var (tr, va, te) := SplitIds(shuffled);
      var copied := Exported(Concat(tr, groups), Concat(va, groups), Concat(te, groups));
      && (f in GroupedLabels(listing) <==> ("train", f) in copied || ("val", f) in copied || ("test", f) in copied)
      && (forall p :: (p, f) in copied ==> p == "train" || p == "val" || p == "test")
      && !(("train", f) in copied && ("val", f) in copied)
      && !(("train", f) in copied && ("test", f) in copied)
      && !(("val", f) in copied && ("test", f) in copied)
  {
    var (tr, va, te) := SplitIds(shuffled);
    var a, b, c := Concat(tr, groups), Concat(va, groups), Concat(te, groups);
    LabelInOnePart(listing, videoIds, groups, shuffled, f);
    assert "train" != "val" && "train" != "test" && "val" != "test" by { }
    forall p | (p, f) in Exported(a, b, c) ensures p == "train" || p == "val" || p == "test" {
      ExportedMembers(a, b, c, p, f);
    }
    ExportedMembers(a, b, c, "train", f);
    ExportedMembers(a, b, c, "val", f);
    ExportedMembers(a, b, c, "test", f);
  }
}
