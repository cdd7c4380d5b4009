# Fine-Tune dataset preparation, modelled in Dafny

Fine-Tune prepares pose-estimation datasets for training. This project models
its five data-preparation scripts and proves what they guarantee:

- **merge_annotations.py** merges several COCO keypoint annotation files into
  one. It renumbers image and annotation ids with two global counters, drops
  annotations whose image is not in their own file, and then drops every image
  that no annotation refers to (modules `Coco`, `Merge`).
- **split_train_val_test.py** splits a merged COCO file into train, val and
  test. Images are grouped by a video key taken from the file name. The
  shuffled keys are cut at `int(n * train_ratio)` and `int(n * val_ratio)`,
  and each subset is renumbered densely from 1 (module `VideoSplit`).
- **yolopose_v3/yolo_annot_correction.py** sanitizes YOLO pose label files. On
  each line of five or more tokens, a keypoint whose x or y is outside
  [0, 1] becomes `0.0 0.0 0`. After each line the file is overwritten with
  that line, or removed when no visible keypoint is left (module
  `LabelCorrection`).
- **yolopose_v1/split-img-txt-yolo.py** groups the `.txt` label files of a
  folder by video. It splits the shuffled videos 70 / 15 / rest and copies
  each label, with the image of the same stem, into `labels/<part>` and
  `images/<part>` (modules `YoloGrouping`, `SplitImgTxt`).
- **yolopose_v1/yolo_1.1_210/split_yolo_txt.py** does the same grouping and
  split, and writes the file names of each part to `train.txt`, `val.txt` and
  `test.txt` (modules `YoloGrouping`, `SplitYoloTxt`).

Shared modules:

- `Wrappers`: `Option`, `Result` and the Python exceptions raised on bad
  input (`KeyError`, `ValueError`, `FileNotFoundError`).
- `Strings`: `str.split` with a separator, `str.join`, `str.endswith` and
  `os.path.splitext`.
- `Seqs`: Python slicing with clamped and negative bounds, `int()`
  truncation, permutations.
- `Grouping`: the `defaultdict(list)` grouping loop every splitter runs.

How the code is modelled:

- Each loop that builds a list, map or counter is a `method` with loop
  invariants. It is proved equal to a recursive specification function, and
  the properties are lemmas about that function.
- The label directory of the sanitizer is the class
  `LabelCorrection.LabelDirectory`, whose `files` map is updated in place.
- The export folder of `split-img-txt-yolo.py` is the class
  `SplitImgTxt.ExportFolder`. Its label and image copies are sets of
  `(part, name)` pairs that grow in place.

Behaviour worth noting:

- The merged file's image ids are not dense after the final filter. An
  unannotated image leaves a gap (`Merge.MergeIdsNotDense`). Only the
  splitter's outputs are renumbered 1..k.
- The sanitizer writes the file once per line, not once per file. Only the
  last written line survives (`LabelCorrection.LastLineDecides`). A second
  line that removes the file raises `FileNotFoundError`
  (`LabelCorrection.SecondRemovalFails`).
- A line of fewer than five tokens does nothing: the file keeps its old text
  unless a later line rewrites it (`LabelCorrection.RunLinesAllSkipped`).

## Model

| member | source | states |
|---|---|---|
| Strings.SplitTokens | split_train_val_test.py:31-33 | no token of `s.split(sep)` holds `sep`, and there are at least two tokens exactly when `sep` occurs in `s` |
| Strings.JoinSplit | split_train_val_test.py:32-34 | joining the tokens of a split with the separator gives the string back |
| Strings.SplitJoin | yolopose_v1/split-img-txt-yolo.py:31-34 | splitting a join of separator-free tokens gives the tokens back |
| Strings.SplitAround | yolopose_v1/yolo_1.1_210/split_yolo_txt.py:53-63 | splitting `a + sep + b` is splitting `a`, then `b` |
| Strings.StripExtension | split_train_val_test.py:31 | `splitext(p)[0]` is a prefix of `p`; when shorter, it stops at a '.' of the last path component with no further '.' after it; a name without '.' is unchanged |
| Strings.StripExtensionOf | split_train_val_test.py:31 | stripping the extension of `stem + ".ext"` gives `stem` back |
| Seqs.PyIndex | split_train_val_test.py:52-54 | a slice bound is clamped to 0..n and is the bound itself when already in range |
| Seqs.PySlicesPartition | split_train_val_test.py:52-54 | `s[:a] + s[a:a+b] + s[a+b:] == s` for non-negative `a`, `b` |
| Seqs.DistinctPermutation | split_train_val_test.py:45 | shuffling a duplicate-free list keeps it duplicate-free |
| Seqs.ElemsPermutation | split_train_val_test.py:45 | a shuffled list has the same elements |
| Seqs.ShuffledSlicesPartition | split_train_val_test.py:45-54 | the three slices of a shuffle of distinct ids are pairwise disjoint and hold every id |
| Grouping.KeysInOrder | split_train_val_test.py:116-124 | the dictionary's keys are duplicate-free and are exactly the keys that occur |
| Grouping.GroupingStep | split_train_val_test.py:121 | one `groups[k].append(v)` keeps the grouping of the pairs seen so far |
| Grouping.ValuesWithKeyInAbsent | split_train_val_test.py:116 | a key that never occurs has no values |
| Grouping.ValuesWithKeyInUnion | split_train_val_test.py:137-143 | selecting values by two disjoint key sets adds up the multisets |
| Grouping.ValuesWithKeyInAll | split_train_val_test.py:137-143 | selecting by a set holding every key keeps every value, in order |
| Grouping.GroupsConcatenated | yolopose_v1/yolo_1.1_210/split_yolo_txt.py:40-50 | concatenating the groups of distinct keys gives, as a multiset, the values of those keys |
| Grouping.ConcatAppend | yolopose_v1/yolo_1.1_210/split_yolo_txt.py:40-50 | extending with the groups of `a + b` is extending with those of `a`, then those of `b` |
| Grouping.ValueInGroup | split_train_val_test.py:118-121 | a value carried by one entry only is in the group of its own key and in no other |
| Coco.ReferencedIds | merge_annotations.py:94-96 | the set holds every annotation's image_id and nothing else |
| Coco.RenumberedIds | merge_annotations.py:62-70 | the k-th image gets id base+k+1 and keeps every other field |
| Coco.IdMapKeysValues | merge_annotations.py:72 | the map's keys are exactly the old ids; each value is the new id of an image that had that old id |
| Coco.IdMapLaterWins | merge_annotations.py:72 | a repeated old id maps to the new id of its last image |
| Coco.ImagesWithIds | merge_annotations.py:99-102 | the filter never lengthens the list |
| Coco.ImagesWithIdsMembers | merge_annotations.py:99-102 | the filter keeps exactly the images whose id is in the set |
| Coco.ImagesWithIdsIncreasing | merge_annotations.py:99-104 | filtering keeps strictly increasing ids increasing |
| Coco.KeptMembers | merge_annotations.py:79-81 | an annotation is kept exactly when its image_id is in the map |
| Coco.Reassigned | merge_annotations.py:75-87 | as many annotations come out as are kept |
| Coco.ReassignedIds | merge_annotations.py:75-87 | the j-th kept annotation gets id base+j+1 and the mapped image_id, other fields unchanged |
| Coco.ReassignedPointsIntoMap | merge_annotations.py:85 | every rewritten image_id is a new id from the map |
| Merge.AddImages | merge_annotations.py:62-72 | the image loop yields the renumbered images and the old-to-new id map |
| Merge.AddAnnotations | merge_annotations.py:75-87 | the annotation loop skips unmapped annotations and renumbers the rest from the counter |
| Merge.AnnotatedImageIds | merge_annotations.py:94-96 | the loop collects the set of referenced image ids |
| Merge.FilterImages | merge_annotations.py:99-104 | the loop keeps the images whose id is referenced, in order |
| Merge.MergeCocoAnnotations | merge_annotations.py:24-104 | the merged document equals `Merged(files)`: categories of the first file, renumbered and filtered images, reassigned annotations |
| Merge.MergedImagesNumbered | merge_annotations.py:40-70 | before filtering, the images are all input images in order with ids 1..N; the counter is never reset between files |
| Merge.MergedAnnotationIds | merge_annotations.py:41-84 | annotation ids are 1..M in output order |
| Merge.MergedAnnotationsInRange | merge_annotations.py:75-85 | every annotation points at one of the image ids 1..N |
| Merge.MergeReferentialIntegrity | merge_annotations.py:79-104 | every output annotation points at an output image, and every output image has an annotation |
| Merge.MergeImageIdsIncreasing | merge_annotations.py:99-109 | output image ids are strictly increasing, so distinct |
| Merge.MergeAnnotationIdsDistinct | merge_annotations.py:83-87 | output annotation ids are pairwise distinct |
| Merge.MergeCategoriesFromFirst | merge_annotations.py:44-53 | categories come from the first file only, [] when it has none or there is no file |
| Merge.MergeTwoFilesExample | merge_annotations.py:24-28 | two files reusing the same ids get images 1, 2 and annotations 1, 2, each pointing at its own file's image |
| Merge.MergeIdsNotDense | merge_annotations.py:98-109 | an unannotated first image leaves the output ids starting at 2 |
| VideoSplit.VideoIdFromFilename | split_train_val_test.py:25-38 | the key is a prefix of the stem, holds '_' exactly when the stem does, and is the whole stem when it has no '_' |
| VideoSplit.VideoIdOfFrame | split_train_val_test.py:25-38 | a frame `a_b<rest>.<ext>` belongs to video `a_b` |
| VideoSplit.VideoIdExample | split_train_val_test.py:28 | "52701_1_4.jpg" belongs to "52701_1" |
| VideoSplit.SplitTrainValTestPartition | split_train_val_test.py:40-55 | with non-negative ratios, train/val/test are pairwise disjoint and cover every video; train is the first int(n*train_ratio) shuffled ids, val the next int(n*val_ratio) and test the rest, each bound clamped at the list end |
| VideoSplit.TwoVideosDefaultRatios | split_train_val_test.py:45-54 | two videos with ratios 0.7 / 0.15 go one to train, none to val, one to test |
| VideoSplit.NegativeRatioOverlaps | split_train_val_test.py:48-54 | a negative train ratio passes the sum check yet puts a video in both train and test |
| VideoSplit.Tagged | split_train_val_test.py:118-121 | each image is tagged with its video key and its id, in order |
| VideoSplit.GroupImagesByVideo | split_train_val_test.py:116-121 | the loop groups image ids by video key in first-appearance order |
| VideoSplit.SameVideoSameGroup | split_train_val_test.py:115-121 | an image id is in the group of its own video and in no other |
| VideoSplit.AssignImageIds | split_train_val_test.py:137-143 | the if/elif/else loop extends each part's list with the groups of its keys, in key order |
| VideoSplit.GatheredIds | split_train_val_test.py:137-143 | each part's list is, as a multiset, the ids of the images whose key falls in that part |
| VideoSplit.KeysOfPartCover | split_train_val_test.py:138-143 | every key falls in exactly one part |
| VideoSplit.PartsCoverAll | split_train_val_test.py:132-143 | the three lists together hold every grouped value exactly as often as it occurs |
| VideoSplit.EveryImageInOnePart | split_train_val_test.py:132-143 | the three lists together are the input image ids, each as often as it occurs |
| VideoSplit.SelectImages | split_train_val_test.py:73-81 | the loop keeps the subset's images, renumbered from 1, and maps old id to new id |
| VideoSplit.SelectAnnotations | split_train_val_test.py:84-91 | the loop keeps the annotations of kept images, renumbered from 1 with rewritten image_id |
| VideoSplit.BuildSubsetCoco | split_train_val_test.py:57-93 | the result equals `Subset`: passthrough metadata with defaults, KeyError when "images" or "annotations" is missing |
| VideoSplit.SubsetImages | split_train_val_test.py:72-81 | the subset's images are the selected input images in order with dense ids 1..k |
| VideoSplit.SubsetAnnotations | split_train_val_test.py:83-91 | annotation ids are 1..m, each pointing into 1..k; an annotation is kept exactly when its image is selected and exists |
| VideoSplit.SplitDataset | split_train_val_test.py:105-148 | main yields ValueError when the ratios do not sum to 1 within 1e-6, KeyError on missing keys, otherwise the three subsets |
| LabelCorrection.WordsClean | yolopose_v3/yolo_annot_correction.py:34 | every token of `line.strip().split()` is non-empty and free of whitespace |
| LabelCorrection.WordsOfJoin | yolopose_v3/yolo_annot_correction.py:34-73 | a line written as `' '.join(tokens) + '\n'` reads back as the same tokens |
| LabelCorrection.WordsNewline | yolopose_v3/yolo_annot_correction.py:34 | a trailing newline adds no token |
| LabelCorrection.TripleOutcome | yolopose_v3/yolo_annot_correction.py:49-62 | a triple fails exactly when x or y is not a number, or v is not an int for a kept triple; it is kept exactly when both coordinates are valid, zeroed otherwise |
| LabelCorrection.CorrectedErrPrefix | yolopose_v3/yolo_annot_correction.py:49-52 | once a triple raises, the loop raises that error |
| LabelCorrection.CorrectedShape | yolopose_v3/yolo_annot_correction.py:49-50 | a successful loop saw a multiple of three tokens and returns as many; a trailing partial group fails |
| LabelCorrection.CorrectedTriples | yolopose_v3/yolo_annot_correction.py:49-60 | every output triple is the correction of the input triple at the same place |
| LabelCorrection.CorrectedVisible | yolopose_v3/yolo_annot_correction.py:46-62 | valid_keypoints_exist holds exactly when some triple is kept with non-zero visibility |
| LabelCorrection.CorrectedInRangeOrZeroed | yolopose_v3/yolo_annot_correction.py:55-60 | after correction every triple has both coordinates in [0, 1] or is exactly "0.0 0.0 0" |
| LabelCorrection.CorrectedIdempotent | yolopose_v3/yolo_annot_correction.py:49-62 | correcting corrected keypoints changes nothing |
| LabelCorrection.CorrectedTokens | yolopose_v3/yolo_annot_correction.py:57-60 | every output token is the input token at its place or one of "0.0", "0" |
| LabelCorrection.CorrectKeypoints | yolopose_v3/yolo_annot_correction.py:44-62 | the three-at-a-time loop computes `Corrected`, raising the same errors |
| LabelCorrection.BoxCheckMeaning | yolopose_v3/yolo_annot_correction.py:42 | all() is true exactly when every box coordinate is valid, and raises exactly when the first invalid one is not a number |
| LabelCorrection.ProcessLine | yolopose_v3/yolo_annot_correction.py:34-76 | the line body skips short lines, propagates parse errors, and writes `values[:5] + new_keypoints` or removes the file |
| LabelCorrection.WrittenLine | yolopose_v3/yolo_annot_correction.py:73 | a rewritten line reads back as the five leading tokens, unchanged whatever their range, then the corrected keypoints |
| LabelCorrection.LineIdempotent | yolopose_v3/yolo_annot_correction.py:33-73 | sanitizing a rewritten line rewrites it to itself |
| LabelCorrection.BoxRangeIrrelevant | yolopose_v3/yolo_annot_correction.py:41-76 | box tokens out of range do not change whether the file is written or removed |
| LabelCorrection.OutOfRangeOnlyKeypoint | yolopose_v3/yolo_annot_correction.py:55-76 | a line whose only keypoint has x = 1.5 gets that keypoint zeroed and its file removed |
| LabelCorrection.WrittenFileLines | yolopose_v3/yolo_annot_correction.py:31-33 | a rewritten file splits at newlines into one line, whose words are those of the whole text, and an empty last piece |
| LabelCorrection.FileIdempotent | yolopose_v3/yolo_annot_correction.py:27-76 | running the per-line loop again on a file the sanitizer rewrote leaves the directory unchanged and raises nothing |
| LabelCorrection.CleanAllIdempotent | yolopose_v3/yolo_annot_correction.py:24-76 | a second run over a directory whose listed label files all hold sanitizer output changes nothing and raises nothing |
| LabelCorrection.RunLinesErrPrefix | yolopose_v3/yolo_annot_correction.py:33-77 | once an exception stops the loop, later lines change nothing |
| LabelCorrection.RunLinesFrame | yolopose_v3/yolo_annot_correction.py:28-76 | the per-line loop touches no file but its own |
| LabelCorrection.RunLinesAllSkipped | yolopose_v3/yolo_annot_correction.py:35-36 | a file whose lines are all short is left as it was |
| LabelCorrection.LastLineDecides | yolopose_v3/yolo_annot_correction.py:71-76 | the last line that writes or removes decides the file: it holds exactly that line's text, or is gone |
| LabelCorrection.SecondRemovalFails | yolopose_v3/yolo_annot_correction.py:74-76 | a second line that removes the file raises FileNotFoundError |
| LabelCorrection.CleanAllErrPrefix | yolopose_v3/yolo_annot_correction.py:24-77 | once an exception stops the script, later files are not visited |
| LabelCorrection.CleanAllFrame | yolopose_v3/yolo_annot_correction.py:24-26 | a file that is not a listed ".txt" file is never touched |
| LabelCorrection.LabelDirectory.Overwrite | yolopose_v3/yolo_annot_correction.py:72-73 | the file's text becomes the written line; other files are unchanged |
| LabelCorrection.LabelDirectory.Remove | yolopose_v3/yolo_annot_correction.py:76 | the file is removed, or FileNotFoundError when it is gone |
| LabelCorrection.LabelDirectory.Apply | yolopose_v3/yolo_annot_correction.py:71-76 | performs a line's action on the directory, or reports its error with the directory unchanged |
| LabelCorrection.LabelDirectory.CorrectFile | yolopose_v3/yolo_annot_correction.py:28-77 | reading and processing one file leaves the directory and error that `RunLines` describes |
| LabelCorrection.LabelDirectory.CleanDirectory | yolopose_v3/yolo_annot_correction.py:24-77 | the whole script leaves the directory and error that `CleanAll` describes |
| YoloGrouping.TxtFilesMembers | yolopose_v1/split-img-txt-yolo.py:20 | the filter keeps exactly the names ending in ".txt" |
| YoloGrouping.TxtFilesAppend | yolopose_v1/split-img-txt-yolo.py:20 | the filter keeps listing order |
| YoloGrouping.TxtFilesDistinct | yolopose_v1/split-img-txt-yolo.py:20 | filtering a duplicate-free listing keeps it duplicate-free |
| YoloGrouping.VideoKeyAgrees | yolopose_v1/split-img-txt-yolo.py:30-34 | a file is skipped exactly when its stem has no '_'; otherwise its video id is the COCO splitter's key |
| YoloGrouping.VideoKeyOfFrame | yolopose_v1/split-img-txt-yolo.py:30-34 | a label `a_b<rest>.txt` belongs to video `a_b` |
| YoloGrouping.VideoKeyNoUnderscore | yolopose_v1/split-img-txt-yolo.py:32-33 | a stem without '_' is skipped |
| YoloGrouping.VideoKeyExample | yolopose_v1/split-img-txt-yolo.py:26-27 | "52807_1_44.txt" belongs to video "52807_1" |
| YoloGrouping.SkippedExample | yolopose_v1/split-img-txt-yolo.py:32-33 | "52807.txt" is skipped |
| YoloGrouping.KeyedMembers | yolopose_v1/split-img-txt-yolo.py:28-35 | a file is among the files of some videos exactly when it has a video id among them |
| YoloGrouping.KeyedValues | yolopose_v1/split-img-txt-yolo.py:28-35 | the grouped files are exactly the files that have a video id |
| YoloGrouping.KeyedDistinct | yolopose_v1/split-img-txt-yolo.py:28-35 | no file is grouped twice when the listing names each file once |
| YoloGrouping.GroupedLabelsMembers | yolopose_v1/split-img-txt-yolo.py:20-35 | a file is grouped exactly when it ends in ".txt" and its stem has '_' |
| YoloGrouping.GroupLabels | yolopose_v1/split-img-txt-yolo.py:20-35 | the loop groups the label files by video id in first-appearance order, skipping names without '_' |
| YoloGrouping.ConcatMembers | yolopose_v1/split-img-txt-yolo.py:52-57 | a file is in the groups of some videos exactly when it is a grouped label of one of them |
| YoloGrouping.CountsMeaning | yolopose_v1/split-img-txt-yolo.py:41-45 | the counts are the floors of 70% and 15% of the total and together never exceed it, so test_count is not negative |
| YoloGrouping.SplitIdsPartition | yolopose_v1/split-img-txt-yolo.py:38-50 | the three slices concatenate to the shuffle, have the stated sizes, are disjoint and cover every video |
| YoloGrouping.LabelInOnePart | yolopose_v1/split-img-txt-yolo.py:48-57 | every grouped label is in the file list of exactly one part, and no other file is in any |
| YoloGrouping.PartsCoverLabels | yolopose_v1/split-img-txt-yolo.py:48-57 | the three file lists together are the grouped labels as a multiset, duplicate-free for a duplicate-free listing |
| SplitYoloTxt.BuildFileList | yolopose_v1/yolo_1.1_210/split_yolo_txt.py:40-50 | the extend loop concatenates the groups of the given videos in order |
| SplitYoloTxt.WriteList | yolopose_v1/yolo_1.1_210/split_yolo_txt.py:53-63 | the write loop emits each name followed by a newline |
| SplitYoloTxt.ListTextThen | yolopose_v1/yolo_1.1_210/split_yolo_txt.py:53-63 | splitting a list text followed by more text at newlines starts with the names, in order |
| SplitYoloTxt.ListTextLines | yolopose_v1/yolo_1.1_210/split_yolo_txt.py:53-63 | a list file reads back as its names, one per line, then an empty last piece |
| SplitYoloTxt.SplitLabelLists | yolopose_v1/yolo_1.1_210/split_yolo_txt.py:9-63 | the script groups, splits, and writes the three lists, which together are every grouped label file |
| SplitImgTxt.FirstExistingMeaning | yolopose_v1/split-img-txt-yolo.py:64-72 | the search finds nothing exactly when no extension gives an existing name, and otherwise finds the earliest one |
| SplitImgTxt.FindImage | yolopose_v1/split-img-txt-yolo.py:64-72 | the loop with break returns the first existing `base + ext` |
| SplitImgTxt.FoundImages | yolopose_v1/split-img-txt-yolo.py:73-77 | at most one image is copied per label |
| SplitImgTxt.FoundImagesExist | yolopose_v1/split-img-txt-yolo.py:70-77 | only images that exist are copied |
| SplitImgTxt.FoundImageOfLabel | yolopose_v1/split-img-txt-yolo.py:64-77 | every copied image is the stem of one of the labels plus an image extension |
| SplitImgTxt.FoundImagesAppend | yolopose_v1/split-img-txt-yolo.py:55-77 | the images of the labels of `a + b` are those of `a`, then those of `b` |
| SplitImgTxt.InPartMembers | yolopose_v1/split-img-txt-yolo.py:60-61 | `(p, n)` is copied into a part exactly when `p` is that part and `n` one of its names |
| SplitImgTxt.ExportFolder.CopyLabel | yolopose_v1/split-img-txt-yolo.py:59-77 | the label is copied, and its image too exactly when one is found |
| SplitImgTxt.ExportFolder.CopyGroup | yolopose_v1/split-img-txt-yolo.py:57-77 | the inner loop copies and counts every label of a video and every image found |
| SplitImgTxt.ExportFolder.CopyFiles | yolopose_v1/split-img-txt-yolo.py:52-80 | copy_files copies every label of the videos and their found images; labels_count is their number and images_count is at most that |
| SplitImgTxt.ExportFolder.SplitAndCopy | yolopose_v1/split-img-txt-yolo.py:20-85 | the script copies each part's labels and images, and the three label counts add up to the number of grouped labels |
| SplitImgTxt.ExportedMembers | yolopose_v1/split-img-txt-yolo.py:83-85 | a pair is exported exactly when its name is in that part's list |
| SplitImgTxt.CopiedToOnePart | yolopose_v1/split-img-txt-yolo.py:48-85 | a grouped label lands in exactly one of labels/train, labels/val and labels/test, and any other name in none |

## Left out

- File and console I/O: JSON parsing and dumping, `open`, `os.listdir`, `os.makedirs` and the prints. Inputs are parameters: parsed datasets, directory listings, file texts and the set of existing names. The part directories start empty.
- `shutil.copy` is a `(part, name)` pair added to a set. File contents and copy failures are not modelled.
- `random.shuffle` and the seed: the shuffled order is a parameter, required to be a rearrangement of the video ids.
- Floating point: `int(n * 0.70)`, `int(n * 0.15)` and the command-line ratios are computed on exact rationals. IEEE rounding can give one less: `90 * 0.70` is 62.99999999999999 in binary floating point, so the script takes 62 videos where the model takes 63. The 1e-6 ratio check is likewise exact.
- `float()` and `int()` on tokens are a parameter (`Conv`) that may fail. Which strings Python accepts, including "nan" and "inf", is not modelled; `CorrectedIdempotent` and `LineIdempotent` require only that "0.0" and "0" parse as zero.
- `os.path.splitext` treats only '/' as a path separator; the Windows `ntpath` variant is not modelled.
- `readlines()` is a split at '\n' (universal newlines are not modelled). A text ending in a newline yields one extra empty piece, which has no tokens and is skipped like any short line.
- Dead values of the scripts: `updated_lines`, `corrected_line` and `test_count`.
- Missing "id", "file_name" or "image_id" fields inside an image or annotation are not modelled: the records always carry them.
- VideoSplit.SplitTrainValTestPartition: requires non-negative ratios. `NegativeRatioOverlaps` shows what the script does otherwise.
- VideoSplit.SplitDataset: the shuffled key list is not required to be a rearrangement of the video keys, so its contract says only that the result is the one `SplitResult` computes.
- yolopose_v1/try-n-fail-train/train.py and select_and_copy_images.py are not part of this model (training and ad-hoc copying, outside the data-preparation core).
