/** COCO keypoint annotation sets, and the renumbering steps that both the
    merger and the splitter perform on them. */
module Coco {
  import opened Wrappers

  /** A JSON value, for the fields the scripts pass through untouched. */
  datatype Json =
    | JNull
    | JBool(b: bool)
    | JNum(n: int)
    | JStr(s: string)
    | JArr(items: seq<Json>)
    | JObj(fields: seq<(string, Json)>)

  /** An entry of "images": its "id", its "file_name", and all its other fields. */
  datatype Image = Image(id: int, fileName: string, rest: Json)

  /** An entry of "annotations": its "id", its "image_id", and all its other
      fields (keypoints, bbox, category_id, ...). */
  datatype Annotation = Annotation(id: int, imageId: int, rest: Json)

  /** A parsed annotation file; a top-level key the file lacks is None. */
  datatype Dataset = Dataset(
    licenses: Option<Json>,
    info: Option<Json>,
    categories: Option<Json>,
    images: Option<seq<Image>>,
    annotations: Option<seq<Annotation>>)

  function ImageIds(imgs: seq<Image>): set<int> {
    set k | 0 <= k < |imgs| :: imgs[k].id
  }

  /** The set of image ids some annotation refers to. */
  function ReferencedIds(anns: seq<Annotation>): (ids: set<int>)
    ensures forall j :: 0 <= j < |anns| ==> anns[j].imageId in ids
    ensures forall id :: id in ids ==> exists j :: 0 <= j < |anns| && anns[j].imageId == id
  {
    if |anns| == 0 then {}
    else ReferencedIds(anns[..|anns| - 1]) + {anns[|anns| - 1].imageId}
  }

  /** Ids strictly increasing along the list (so pairwise distinct). */
  predicate IdsIncreasing(imgs: seq<Image>) {
    forall i, j :: 0 <= i < j < |imgs| ==> imgs[i].id < imgs[j].id
  }

  /** The images given consecutive ids base+1, base+2, ... in list order; every
      other field is kept as it was. */
  function Renumbered(imgs: seq<Image>, base: int): (r: seq<Image>)
    ensures |r| == |imgs|
  {
    if |imgs| == 0 then []
    else Renumbered(imgs[..|imgs| - 1], base) + [imgs[|imgs| - 1].(id := base + |imgs|)]
  }

  /** Renumbering changes the id of the k-th image to base+k+1 and nothing
      else. */
  lemma {:induction false} RenumberedIds(imgs: seq<Image>, base: int)
    ensures forall k :: 0 <= k < |imgs| ==> Renumbered(imgs, base)[k] == imgs[k].(id := base + k + 1)
  {
    if |imgs| > 0 {
      RenumberedIds(imgs[..|imgs| - 1], base);
    }
  }

  /** The old-id -> new-id map filled while the images are renumbered from
      base+1: each image's old id is sent to its new id. */
  function IdMap(imgs: seq<Image>, base: int): map<int, int> {
    if |imgs| == 0 then map[]
    else IdMap(imgs[..|imgs| - 1], base)[imgs[|imgs| - 1].id := base + |imgs|]
  }

  /** Every key of the map is the old id of some image, every old id is a key,
      and a key's value is the new id of an image that carried that old id. */
  lemma {:induction false} IdMapKeysValues(imgs: seq<Image>, base: int)
    ensures IdMap(imgs, base).Keys == ImageIds(imgs)
    ensures forall o :: o in IdMap(imgs, base) ==>
      base < IdMap(imgs, base)[o] <= base + |imgs| && imgs[IdMap(imgs, base)[o] - base - 1].id == o
  {
    if |imgs| > 0 {
      var init := imgs[..|imgs| - 1];
      IdMapKeysValues(init, base);
      forall k | 0 <= k < |init| ensures init[k] == imgs[k] { }
      assert ImageIds(imgs) == ImageIds(init) + {imgs[|imgs| - 1].id};
    }
  }

  lemma {:induction false} RenumberedSnoc(imgs: seq<Image>, img: Image, base: int)
    ensures Renumbered(imgs + [img], base) == Renumbered(imgs, base) + [img.(id := base + |imgs| + 1)]
  {
    var all := imgs + [img];
    assert all[..|all| - 1] == imgs;
  }

  lemma {:induction false} IdMapSnoc(imgs: seq<Image>, img: Image, base: int)
    ensures IdMap(imgs + [img], base) == IdMap(imgs, base)[img.id := base + |imgs| + 1]
  {
    var all := imgs + [img];
    assert all[..|all| - 1] == imgs;
  }

  /** When an old id repeats, the map sends it to the new id of its LAST
      image: later entries overwrite earlier ones. */
  lemma {:induction false} IdMapLaterWins(imgs: seq<Image>, base: int, k: int)
    requires 0 <= k < |imgs|
    requires forall j :: k < j < |imgs| ==> imgs[j].id != imgs[k].id
    ensures imgs[k].id in IdMap(imgs, base) && IdMap(imgs, base)[imgs[k].id] == base + k + 1
  {
    if k < |imgs| - 1 {
      IdMapLaterWins(imgs[..|imgs| - 1], base, k);
    }
  }

  /** The images whose id is in ids, in their original order. */
  function ImagesWithIds(imgs: seq<Image>, ids: set<int>): (r: seq<Image>)
    ensures |r| <= |imgs|
  {
    if |imgs| == 0 then []
    else
      var p := ImagesWithIds(imgs[..|imgs| - 1], ids);
      var x := imgs[|imgs| - 1];
      if x.id in ids then p + [x] else p
  }

  /** The filter keeps exactly the images whose id is in ids. */
  lemma {:induction false} ImagesWithIdsMembers(imgs: seq<Image>, ids: set<int>)
    ensures forall x :: x in ImagesWithIds(imgs, ids) <==> x in imgs && x.id in ids
  {
    if |imgs| > 0 {
      var init := imgs[..|imgs| - 1];
      ImagesWithIdsMembers(init, ids);
      assert imgs == init + [imgs[|imgs| - 1]];
    }
  }

  lemma {:induction false} ImagesWithIdsSnoc(imgs: seq<Image>, img: Image, ids: set<int>)
    ensures ImagesWithIds(imgs + [img], ids) == ImagesWithIds(imgs, ids) + (if img.id in ids then [img] else [])
  {
    var all := imgs + [img];
    assert all[..|all| - 1] == imgs;
  }

  /** Filtering keeps the order: strictly increasing ids stay strictly
      increasing. */
  lemma {:induction false} ImagesWithIdsIncreasing(imgs: seq<Image>, ids: set<int>)
    requires IdsIncreasing(imgs)
    ensures IdsIncreasing(ImagesWithIds(imgs, ids))
  {
    if |imgs| > 0 {
      var init := imgs[..|imgs| - 1];
      ImagesWithIdsIncreasing(init, ids);
      var p := ImagesWithIds(init, ids);
      ImagesWithIdsMembers(init, ids);
      forall y | y in p ensures y.id < imgs[|imgs| - 1].id {
        var i :| 0 <= i < |init| && init[i] == y;
      }
    }
  }

  /** The annotations whose image_id is a key of m, in their original order. */
  function Kept(anns: seq<Annotation>, m: map<int, int>): seq<Annotation> {
    if |anns| == 0 then []
    else
      var p := Kept(anns[..|anns| - 1], m);
      var a := anns[|anns| - 1];
      if a.imageId in m then p + [a] else p
  }

  /** The filter keeps exactly the annotations whose image_id is a key of m. */
  lemma {:induction false} KeptMembers(anns: seq<Annotation>, m: map<int, int>)
    ensures forall a :: a in Kept(anns, m) <==> a in anns && a.imageId in m
  {
    if |anns| > 0 {
      var init := anns[..|anns| - 1];
      KeptMembers(init, m);
      assert anns == init + [anns[|anns| - 1]];
    }
  }

  /** The annotation pass shared by merger and splitter: an annotation whose
      image_id is not a key of m is dropped; each other one gets the next id
      after base and its image_id rewritten through m, all other fields kept. */
  function Reassigned(anns: seq<Annotation>, m: map<int, int>, base: int): (r: seq<Annotation>)
    ensures |r| == |Kept(anns, m)|
  {
    if |anns| == 0 then []
    else
      var p := Reassigned(anns[..|anns| - 1], m, base);
      var a := anns[|anns| - 1];
      if a.imageId in m then p + [a.(id := base + |p| + 1, imageId := m[a.imageId])] else p
  }

  /** The j-th kept annotation gets the id base+j+1 and the image_id the map
      gives its old image_id; every other field is kept. */
  lemma {:induction false} ReassignedIds(anns: seq<Annotation>, m: map<int, int>, base: int)
    ensures forall j :: 0 <= j < |Kept(anns, m)| ==>
      && Kept(anns, m)[j].imageId in m
      && Reassigned(anns, m, base)[j] == Kept(anns, m)[j].(id := base + j + 1, imageId := m[Kept(anns, m)[j].imageId])
  {
    if |anns| > 0 {
      ReassignedIds(anns[..|anns| - 1], m, base);
    }
  }

  /** Every reassigned annotation points at a value of the map. */
  lemma {:induction false} ReassignedPointsIntoMap(anns: seq<Annotation>, m: map<int, int>, base: int)
    ensures forall a :: a in Reassigned(anns, m, base) ==> a.imageId in m.Values
  {
    var r := Reassigned(anns, m, base);
    var kept := Kept(anns, m);
    ReassignedIds(anns, m, base);
    forall a | a in r ensures a.imageId in m.Values {
      var j :| 0 <= j < |r| && r[j] == a;
      assert kept[j] in kept;
    }
  }
}
