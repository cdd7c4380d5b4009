/** merge_annotations.py: merge several COCO keypoint files into one,
    renumbering image and annotation ids with two global counters and then
    dropping the images that no annotation refers to. */
module Merge {
  import opened Wrappers
  import opened Coco

  /** data.get("images", []) and data.get("annotations", []). */
  function ImagesOf(d: Dataset): seq<Image> { d.images.GetOr([]) }
  function AnnotationsOf(d: Dataset): seq<Annotation> { d.annotations.GetOr([]) }

  /** The images of all files, in file order and then list order. */
  function AllImages(files: seq<Dataset>): seq<Image> {
    if |files| == 0 then []
    else AllImages(files[..|files| - 1]) + ImagesOf(files[|files| - 1])
  }

  /** merged["images"] before the final filter: each file's images numbered
      on from the image counter, which is never reset between files. */
  function MergedImages(files: seq<Dataset>): seq<Image> {
    if |files| == 0 then []
    else
      var init := files[..|files| - 1];
      MergedImages(init) + Renumbered(ImagesOf(files[|files| - 1]), |AllImages(init)|)
  }

  /** merged["annotations"]: each file's annotations resolved through that
      file's own old->new image map, numbered on from the annotation counter. */
  function MergedAnnotations(files: seq<Dataset>): seq<Annotation> {
    if |files| == 0 then []
    else
      var init := files[..|files| - 1];
      var last := files[|files| - 1];
      var prev := MergedAnnotations(init);
      prev + Reassigned(AnnotationsOf(last), IdMap(ImagesOf(last), |AllImages(init)|), |prev|)
  }

  /** The "categories" of the first file, [] when it has none or there is no file. */
  function FirstCategories(files: seq<Dataset>): Json {
    if |files| == 0 then JArr([]) else files[0].categories.GetOr(JArr([]))
  }

  /** The document the script writes. */
  function Merged(files: seq<Dataset>): Dataset {
    var anns := MergedAnnotations(files);
    Dataset(
      Some(JArr([])), Some(JObj([])), Some(FirstCategories(files)),
      Some(ImagesWithIds(MergedImages(files), ReferencedIds(anns))),
      Some(anns))
  }

  /** merge_coco_annotations, with the parsed input files as its argument and
      the document it would dump as its result. */
  method MergeCocoAnnotations(files: seq<Dataset>) returns (merged: Dataset)
    ensures merged == Merged(files)
  {
    var images: seq<Image> := [];
    var annotations: seq<Annotation> := [];
    var categories := JArr([]);
    var currentImageId := 0;
    var currentAnnId := 0;
    var categoriesCopied := false;
    for i := 0 to |files|
      invariant categoriesCopied == (i > 0)
      invariant categories == FirstCategories(files[..i])
      invariant images == MergedImages(files[..i])
      invariant annotations == MergedAnnotations(files[..i])
      invariant currentImageId == |AllImages(files[..i])|
      invariant currentAnnId == |annotations|
    {
      var data := files[i];
      if !categoriesCopied {
        categories := data.categories.GetOr(JArr([]));
        categoriesCopied := true;
      }
      assert files[..i + 1][..i] == files[..i];
      var imageIdMap, added := AddImages(ImagesOf(data), currentImageId);
      images := images + added;
      currentImageId := currentImageId + |added|;
      var kept := AddAnnotations(AnnotationsOf(data), imageIdMap, currentAnnId);
      annotations := annotations + kept;
      currentAnnId := currentAnnId + |kept|;
    }
    assert files[..|files|] == files;
    var annotatedImageIds := AnnotatedImageIds(annotations);
    var filteredImages := FilterImages(images, annotatedImageIds);
    merged := Dataset(Some(JArr([])), Some(JObj([])), Some(categories), Some(filteredImages), Some(annotations));
  }

  /** Step 1 for one file: every image copied with the next id of the global
      counter (starting after `counter`), its old id mapped to the new one. */
  method AddImages(imgs: seq<Image>, counter: int) returns (imageIdMap: map<int, int>, added: seq<Image>)
    ensures added == Renumbered(imgs, counter)
    ensures imageIdMap == IdMap(imgs, counter)
  {
    var currentImageId := counter;
    imageIdMap := map[];
    added := [];
    for k := 0 to |imgs|
      invariant added == Renumbered(imgs[..k], counter)
      invariant imageIdMap == IdMap(imgs[..k], counter)
      invariant currentImageId == counter + k
    {
      var img := imgs[k];
      var oldId := img.id;
      var newImgId := currentImageId + 1;
      currentImageId := currentImageId + 1;
      added := added + [img.(id := newImgId)];
      imageIdMap := imageIdMap[oldId := newImgId];
      assert imgs[..k + 1][..k] == imgs[..k];
    }
    assert imgs[..|imgs|] == imgs;
  }

  /** Step 2 for one file: an annotation whose image_id the file's map lacks
      is skipped; the others get the next annotation id (after `counter`) and
      their image_id rewritten through the map. */
  method AddAnnotations(anns: seq<Annotation>, imageIdMap: map<int, int>, counter: int) returns (kept: seq<Annotation>)
    ensures kept == Reassigned(anns, imageIdMap, counter)
  {
    var currentAnnId := counter;
    kept := [];
    for k := 0 to |anns|
      invariant kept == Reassigned(anns[..k], imageIdMap, counter)
      invariant currentAnnId == counter + |kept|
    {
      var ann := anns[k];
      assert anns[..k + 1][..k] == anns[..k];
      if ann.imageId !in imageIdMap {
        continue;
      }
      currentAnnId := currentAnnId + 1;
      kept := kept + [ann.(id := currentAnnId, imageId := imageIdMap[ann.imageId])];
    }
    assert anns[..|anns|] == anns;
  }

  /** The set of image ids used by at least one annotation. */
  method AnnotatedImageIds(annotations: seq<Annotation>) returns (ids: set<int>)
    ensures ids == ReferencedIds(annotations)
  {
    ids := {};
    for j := 0 to |annotations|
      invariant ids == ReferencedIds(annotations[..j])
    {
      ids := ids + {annotations[j].imageId};
      assert annotations[..j + 1][..j] == annotations[..j];
    }
    assert annotations[..|annotations|] == annotations;
  }

  /** The images whose id is in `ids`, in order. */
  method FilterImages(images: seq<Image>, ids: set<int>) returns (filtered: seq<Image>)
    ensures filtered == ImagesWithIds(images, ids)
  {
    filtered := [];
    for j := 0 to |images|
      invariant filtered == ImagesWithIds(images[..j], ids)
    {
      if images[j].id in ids {
        filtered := filtered + [images[j]];
      }
      assert images[..j + 1][..j] == images[..j];
    }
    assert images[..|images|] == images;
  }

  /** Before filtering, the merged images are the input images in order with
      ids 1..N, N the total image count: one counter runs across all files. */
  lemma {:induction false} MergedImagesNumbered(files: seq<Dataset>)
    ensures |MergedImages(files)| == |AllImages(files)|
    ensures forall j :: 0 <= j < |MergedImages(files)| ==>
      MergedImages(files)[j] == AllImages(files)[j].(id := j + 1)
  {
    if |files| > 0 {
      var init := files[..|files| - 1];
      MergedImagesNumbered(init);
      RenumberedIds(ImagesOf(files[|files| - 1]), |AllImages(init)|);
    }
  }

  /** Annotation ids are 1..M in output order. */
  lemma {:induction false} MergedAnnotationIds(files: seq<Dataset>)
    ensures forall j :: 0 <= j < |MergedAnnotations(files)| ==> MergedAnnotations(files)[j].id == j + 1
  {
    if |files| > 0 {
      var init := files[..|files| - 1];
      var last := files[|files| - 1];
      MergedAnnotationIds(init);
      ReassignedIds(AnnotationsOf(last), IdMap(ImagesOf(last), |AllImages(init)|), |MergedAnnotations(init)|);
    }
  }

  /** Every merged annotation points at one of the ids 1..N handed to the
      images. */
  lemma {:induction false} MergedAnnotationsInRange(files: seq<Dataset>)
    ensures forall a :: a in MergedAnnotations(files) ==> 1 <= a.imageId <= |AllImages(files)|
  {
    if |files| > 0 {
      var init := files[..|files| - 1];
      var last := files[|files| - 1];
      var base := |AllImages(init)|;
      var m := IdMap(ImagesOf(last), base);
      MergedAnnotationsInRange(init);
      ReassignedPointsIntoMap(AnnotationsOf(last), m, |MergedAnnotations(init)|);
      IdMapKeysValues(ImagesOf(last), base);
      forall a | a in MergedAnnotations(files) ensures 1 <= a.imageId <= |AllImages(files)| {
        if a !in MergedAnnotations(init) {
          var o :| o in m && m[o] == a.imageId;
        }
      }
    }
  }

  /** Referential integrity of the merged output, both ways: every annotation
      points at an output image, and every output image has an annotation. */
  lemma {:induction false} MergeReferentialIntegrity(files: seq<Dataset>)
    ensures var d := Merged(files);
      && (forall a :: a in d.annotations.value ==> exists img :: img in d.images.value && img.id == a.imageId)
      && (forall img :: img in d.images.value ==> exists a :: a in d.annotations.value && a.imageId == img.id)
  {
    var d := Merged(files);
    var anns := MergedAnnotations(files);
    var pre := MergedImages(files);
    var ids := ReferencedIds(anns);
    MergedImagesNumbered(files);
    MergedAnnotationsInRange(files);
    ImagesWithIdsMembers(pre, ids);
    forall a | a in anns ensures exists img :: img in d.images.value && img.id == a.imageId {
      var j :| 0 <= j < |anns| && anns[j] == a;
      var img := pre[a.imageId - 1];
      assert img.id == a.imageId && img in pre;
      assert img in d.images.value;
    }
    forall img | img in d.images.value ensures exists a :: a in anns && a.imageId == img.id {
      assert img.id in ids;
      var j :| 0 <= j < |anns| && anns[j].imageId == img.id;
      assert anns[j] in anns;
    }
  }

  /** The output image ids are strictly increasing, hence pairwise distinct,
      and the relative order of images is kept; they are not re-densified. */
  lemma {:induction false} MergeImageIdsIncreasing(files: seq<Dataset>)
    ensures IdsIncreasing(Merged(files).images.value)
  {
    MergedImagesNumbered(files);
    ImagesWithIdsIncreasing(MergedImages(files), ReferencedIds(MergedAnnotations(files)));
  }

  /** Output annotation ids are pairwise distinct. */
  lemma {:induction false} MergeAnnotationIdsDistinct(files: seq<Dataset>)
    ensures var anns := Merged(files).annotations.value;
      forall i, j :: 0 <= i < j < |anns| ==> anns[i].id != anns[j].id
  {
    MergedAnnotationIds(files);
  }

  /** Categories come from the first file only; with no file they are []. */
  lemma {:induction false} MergeCategoriesFromFirst(first: Dataset, rest: seq<Dataset>)
    ensures Merged([first] + rest).categories == Some(first.categories.GetOr(JArr([])))
    ensures Merged([]).categories == Some(JArr([]))
  {
  }

  /** Two files with one image and one annotation each, whatever ids they
      use (the same id in both, say): the images get ids 1 and 2 and the
      annotations ids 1 and 2, each pointing at the image of its own file. */
  lemma {:induction false} MergeTwoFilesExample(a: Image, b: Image, x: Annotation, y: Annotation)
    requires x.imageId == a.id && y.imageId == b.id
    ensures var f1 := Dataset(None, None, None, Some([a]), Some([x]));
      var f2 := Dataset(None, None, None, Some([b]), Some([y]));
      && Merged([f1, f2]).images == Some([a.(id := 1), b.(id := 2)])
      && Merged([f1, f2]).annotations == Some([x.(id := 1, imageId := 1), y.(id := 2, imageId := 2)])
  {
    var f1 := Dataset(None, None, None, Some([a]), Some([x]));
    var f2 := Dataset(None, None, None, Some([b]), Some([y]));
    var imgs := [a.(id := 1), b.(id := 2)];
    var anns := [x.(id := 1, imageId := 1), y.(id := 2, imageId := 2)];
    TwoFilesImages(f1, f2, a, b);
    TwoFilesAnnotations(f1, f2, a, b, x, y);
    ReferencedIdsOfPair(anns[0], anns[1]);
    BothKept(imgs);
  }

  lemma {:induction false} TwoFilesImages(f1: Dataset, f2: Dataset, a: Image, b: Image)
    requires f1.images == Some([a]) && f2.images == Some([b])
    ensures MergedImages([f1, f2]) == [a.(id := 1), b.(id := 2)]
    ensures AllImages([f1]) == [a]
  {
    assert [f1, f2][..1] == [f1] && [f1][..0] == [];
    assert ImagesOf(f1) == [a] && ImagesOf(f2) == [b];
    assert AllImages([f1]) == AllImages([]) + [a];
    SingleImage(a, 0);
    SingleImage(b, 1);
    assert MergedImages([f1]) == MergedImages([]) + Renumbered([a], 0);
    assert MergedImages([f1, f2]) == MergedImages([f1]) + Renumbered([b], 1);
  }

  lemma {:induction false} TwoFilesAnnotations(f1: Dataset, f2: Dataset, a: Image, b: Image, x: Annotation, y: Annotation)
    requires f1.images == Some([a]) && f2.images == Some([b])
    requires f1.annotations == Some([x]) && f2.annotations == Some([y])
    requires x.imageId == a.id && y.imageId == b.id
    ensures MergedAnnotations([f1, f2]) == [x.(id := 1, imageId := 1), y.(id := 2, imageId := 2)]
  {
    var p := MergedAnnotations([f1]);
    assert p == [x.(id := 1, imageId := 1)] by {
      assert [f1][..0] == [];
      SingleImage(a, 0);
      SingleAnnotation(x, map[a.id := 1], 0);
      assert p == MergedAnnotations([]) + Reassigned([x], IdMap([a], 0), 0);
    }
    assert MergedAnnotations([f1, f2]) == p + Reassigned([y], IdMap([b], 1), 1) by {
      assert [f1, f2][..1] == [f1] && [f1][..0] == [];
      assert AllImages([f1]) == AllImages([]) + [a];
    }
    assert Reassigned([y], IdMap([b], 1), 1) == [y.(id := 2, imageId := 2)] by {
      SingleImage(b, 1);
      SingleAnnotation(y, map[b.id := 2], 1);
    }
  }

  lemma {:induction false} BothKept(imgs: seq<Image>)
    requires |imgs| == 2 && imgs[0].id == 1 && imgs[1].id == 2
    ensures ImagesWithIds(imgs, {1, 2}) == imgs
  {
    ImagesWithIdsAll(imgs, {1, 2});
  }

  /** After the filter the ids need not be 1..k: an unannotated first image
      leaves a gap. */
  lemma {:induction false} MergeIdsNotDense(a: Image, b: Image, x: Annotation)
    requires a.id != b.id && x.imageId == b.id
    ensures Merged([Dataset(None, None, None, Some([a, b]), Some([x]))]).images == Some([b.(id := 2)])
  {
    var f := Dataset(None, None, None, Some([a, b]), Some([x]));
    var r := [a.(id := 1), b.(id := 2)];
    OneFileTwoImages(f, a, b, x);
    assert ReferencedIds([x.(id := 1, imageId := 2)]) == {2} by {
      assert [x.(id := 1, imageId := 2)][..0] == [];
    }
    SecondKept(r);
  }

  lemma {:induction false} OneFileTwoImages(f: Dataset, a: Image, b: Image, x: Annotation)
    requires f.images == Some([a, b]) && f.annotations == Some([x])
    requires a.id != b.id && x.imageId == b.id
    ensures MergedImages([f]) == [a.(id := 1), b.(id := 2)]
    ensures MergedAnnotations([f]) == [x.(id := 1, imageId := 2)]
  {
    assert [f][..0] == [];
    assert MergedImages([f]) == MergedImages([]) + Renumbered([a, b], 0);
    assert [a, b][..1] == [a];
    SingleImage(a, 0);
    var m := IdMap([a, b], 0);
    assert m == IdMap([a], 0)[b.id := 2];
    SingleAnnotation(x, m, 0);
    assert MergedAnnotations([f]) == MergedAnnotations([]) + Reassigned([x], m, 0);
  }

  lemma {:induction false} SecondKept(r: seq<Image>)
    requires |r| == 2 && r[0].id == 1 && r[1].id == 2
    ensures ImagesWithIds(r, {2}) == [r[1]]
  {
    assert r[..1] == [r[0]] && r[..1][..0] == [];
    assert ImagesWithIds(r[..1], {2}) == [];
  }

  lemma {:induction false} SingleImage(x: Image, base: int)
    ensures Renumbered([x], base) == [x.(id := base + 1)]
    ensures IdMap([x], base) == map[x.id := base + 1]
  {
    assert [x][..0] == [];
  }

  lemma {:induction false} SingleAnnotation(x: Annotation, m: map<int, int>, base: int)
    ensures x.imageId in m ==> Reassigned([x], m, base) == [x.(id := base + 1, imageId := m[x.imageId])]
  {
    assert [x][..0] == [];
  }

  lemma {:induction false} ReferencedIdsOfPair(x: Annotation, y: Annotation)
    ensures ReferencedIds([x, y]) == {x.imageId, y.imageId}
  {
    assert [x, y][..1] == [x] && [x][..0] == [];
  }

  /** Filtering by a set that holds every id keeps the whole list. */
  lemma {:induction false} ImagesWithIdsAll(imgs: seq<Image>, ids: set<int>)
    requires forall k :: 0 <= k < |imgs| ==> imgs[k].id in ids
    ensures ImagesWithIds(imgs, ids) == imgs
  {
    if |imgs| > 0 {
      ImagesWithIdsAll(imgs[..|imgs| - 1], ids);
    }
  }
}
