/** yolo_1.1_210/split_yolo_txt.py: group the label files of a folder by
    video, split the shuffled videos 70 / 15 / rest, and write the names of
    each part's label files to train.txt, val.txt and test.txt. */
module SplitYoloTxt {
  import opened Strings
  import opened Seqs
  import opened Grouping
  import opened YoloGrouping

  /** One of the extend loops: for vid in ids, files.extend(video_groups[vid]). */
  method BuildFileList(ids: seq<string>, groups: map<string, seq<string>>) returns (files: seq<string>)
    ensures files == Concat(ids, groups)
  {
    files := [];
    for i := 0 to |ids|
      invariant files == Concat(ids[..i], groups)
    {
      assert ids[..i + 1][..i] == ids[..i];
      files := files + GroupOf(groups, ids[i]);
    }
    assert ids[..|ids|] == ids;
  }

  /** The text of a list file: every name followed by a newline. */
  function ListText(names: seq<string>): string {
    if |names| == 0 then "" else ListText(names[..|names| - 1]) + names[|names| - 1] + "\n"
  }

  /** One of the write loops: for name in files, f.write(name + '\n'). */
  method WriteList(names: seq<string>) returns (text: string)
    ensures text == ListText(names)
  {
    text := "";
    for i := 0 to |names|
      invariant text == ListText(names[..i])
    {
      assert names[..i + 1][..i] == names[..i];
      text := text + names[i] + "\n";
    }
    assert names[..|names|] == names;
  }

  lemma {:induction false} ListTextLast(names: seq<string>, s: string)
    requires |names| > 0
    ensures ListText(names) + s == ListText(names[..|names| - 1]) + (names[|names| - 1] + "\n" + s)
  {
  }

  /** Reading back what follows a list file's text line by line starts with
      the names, in order. */
  lemma {:induction false} ListTextThen(names: seq<string>, s: string)
    requires forall i :: 0 <= i < |names| ==> '\n' !in names[i]
    ensures Split(ListText(names) + s, '\n') == names + Split(s, '\n')
  {
    if |names| > 0 {
      var init := names[..|names| - 1];
      var n := names[|names| - 1];
      var rest := n + "\n" + s;
      ListTextLast(names, s);
      assert forall i :: 0 <= i < |init| ==> '\n' !in init[i] by {
        assert forall i :: 0 <= i < |init| ==> init[i] == names[i];
      }
      ListTextThen(init, rest);
      SplitLine(n, s, '\n');
      SeqAssoc(init, [n], Split(s, '\n'));
      assert names == init + [n];
    } else {
      assert ListText(names) + s == s;
    }
  }

  lemma {:induction false} SeqAssoc<T>(a: seq<T>, b: seq<T>, c: seq<T>)
    ensures a + (b + c) == (a + b) + c
  {
  }

  /** A list file holds one name per line, in list order, each line ended by
      a newline: splitting its text at newlines gives the names and, after
      the last newline, nothing. */
  lemma {:induction false} ListTextLines(names: seq<string>)
    requires forall i :: 0 <= i < |names| ==> '\n' !in names[i]
    ensures Split(ListText(names), '\n') == names + [""]
  {
    ListTextThen(names, "");
    assert ListText(names) + "" == ListText(names);
  }

  /** The whole script on a folder listing. `shuffled` is the order that
      random.shuffle gave the video ids. */
  method SplitLabelLists(listing: seq<string>, shuffled: seq<string>)
    returns (groups: map<string, seq<string>>,
             trainFiles: seq<string>, valFiles: seq<string>, testFiles: seq<string>,
             trainText: string, valText: string, testText: string)
    requires multiset(shuffled) == multiset(VideoIds(listing))
    ensures IsGrouping(LabelPairs(listing), VideoIds(listing), groups)
    ensures var (tr, va, te) := SplitIds(shuffled);
      trainFiles == Concat(tr, groups) && valFiles == Concat(va, groups) && testFiles == Concat(te, groups)
    ensures multiset(trainFiles + valFiles + testFiles) == multiset(GroupedLabels(listing))
    ensures trainText == ListText(trainFiles) && valText == ListText(valFiles) && testText == ListText(testFiles)
  {
    var videoIds;
    videoIds, groups := GroupLabels(listing);
    var (trainIds, valIds, testIds) := SplitIds(shuffled);
    trainFiles := BuildFileList(trainIds, groups);
    valFiles := BuildFileList(valIds, groups);
    testFiles := BuildFileList(testIds, groups);
    PartsCoverLabels(listing, videoIds, groups, shuffled);
    trainText := WriteList(trainFiles);
    valText := WriteList(valFiles);
    testText := WriteList(testFiles);
  }
}
