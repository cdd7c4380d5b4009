/** yolo_annot_correction.py: the YOLO pose label sanitizer. Every `.txt`
    label file of a directory is read line by line; each line of at least five
    tokens has its keypoint triples corrected (an out-of-range (x, y) becomes
    "0.0 0.0 0"), and then the file is overwritten with that line or removed,
    line after line. */
module LabelCorrection {
  import opened Wrappers
  import opened Strings

  // ------------------------------------------------------------ tokens

  /** The characters Python's str.isspace() accepts, which str.split() with no
      argument splits on. */
  predicate IsSpace(c: char) {
    || c == ' ' || c == '\t' || c == '\n' || c == '\r' || c == '\U{000B}' || c == '\U{000C}'
    || ('\U{001C}' <= c <= '\U{001F}') || c == '\U{0085}' || c == '\U{00A0}' || c == '\U{1680}'
    || ('\U{2000}' <= c <= '\U{200A}') || c == '\U{2028}' || c == '\U{2029}' || c == '\U{202F}'
    || c == '\U{205F}' || c == '\U{3000}'
  }

  /** A token str.split() can produce: not empty, no whitespace in it. */
  predicate Clean(w: string) {
    |w| > 0 && forall k :: 0 <= k < |w| ==> !IsSpace(w[k])
  }

  /** The words of s, the current word so far being `cur`. */
  function WordsFrom(s: string, cur: string): seq<string>
    decreases |s|
  {
    if |s| == 0 then (if cur == [] then [] else [cur])
    else if IsSpace(s[0]) then (if cur == [] then [] else [cur]) + WordsFrom(s[1..], [])
    else WordsFrom(s[1..], cur + [s[0]])
  }

  /** line.strip().split(): the maximal runs of non-whitespace characters. */
  function Words(s: string): seq<string> {
    WordsFrom(s, [])
  }

  /** Every word is a clean token. */
  lemma {:induction false} WordsFromClean(s: string, cur: string)
    requires forall k :: 0 <= k < |cur| ==> !IsSpace(cur[k])
    ensures forall i :: 0 <= i < |WordsFrom(s, cur)| ==> Clean(WordsFrom(s, cur)[i])
    decreases |s|
  {
    if |s| > 0 {
      if IsSpace(s[0]) {
        WordsFromClean(s[1..], []);
      } else {
        WordsFromClean(s[1..], cur + [s[0]]);
      }
    }
  }

  lemma {:induction false} WordsClean(s: string)
    ensures forall i :: 0 <= i < |Words(s)| ==> Clean(Words(s)[i])
  {
    WordsFromClean(s, []);
  }

  /** Reading across a run of non-whitespace extends the current word. */
  lemma {:induction false} WordsFromRun(w: string, rest: string, cur: string)
    requires forall k :: 0 <= k < |w| ==> !IsSpace(w[k])
    ensures WordsFrom(w + rest, cur) == WordsFrom(rest, cur + w)
    decreases |w|
  {
    if |w| > 0 {
      assert (w + rest)[1..] == w[1..] + rest;
      assert cur + [w[0]] + w[1..] == cur + w;
      WordsFromRun(w[1..], rest, cur + [w[0]]);
    } else {
      assert w + rest == rest;
      assert cur + w == cur;
    }
  }

  /** Splitting ' '.join(ws) + '\n' gives ws back when every token is clean:
      a written label line reads back as the tokens that were written. */
  lemma {:induction false} WordsOfJoin(ws: seq<string>)
    requires forall i :: 0 <= i < |ws| ==> Clean(ws[i])
    ensures Words(Join(ws, ' ') + "\n") == ws
    decreases |ws|
  {
    if |ws| == 0 {
      assert Join(ws, ' ') + "\n" == "\n";
      assert "\n"[1..] == [];
    } else if |ws| == 1 {
      WordsFromRun(ws[0], "\n", []);
      assert [] + ws[0] == ws[0];
    } else {
      var tail := Join(ws[1..], ' ') + "\n";
      assert Join(ws, ' ') + "\n" == ws[0] + ([' '] + tail);
      WordsFromRun(ws[0], [' '] + tail, []);
      assert ([' '] + tail)[1..] == tail;
      assert [] + ws[0] == ws[0];
      WordsOfJoin(ws[1..]);
      assert ws == [ws[0]] + ws[1..];
    }
  }

  /** A trailing newline adds no word. */
  lemma {:induction false} WordsNewline(s: string)
    ensures Words(s + "\n") == Words(s)
  {
    WordsFromNewline(s, []);
  }

  lemma {:induction false} WordsFromNewline(s: string, cur: string)
    ensures WordsFrom(s + "\n", cur) == WordsFrom(s, cur)
    decreases |s|
  {
    if |s| > 0 {
      assert (s + "\n")[1..] == s[1..] + "\n";
      if IsSpace(s[0]) {
        WordsFromNewline(s[1..], []);
      } else {
        WordsFromNewline(s[1..], cur + [s[0]]);
      }
    } else {
      assert s + "\n" == "\n";
    }
  }

  /** file.readlines(), up to a final empty piece when the text ends with a
      newline (that piece has no words and is skipped like any short line). */
  function Lines(content: string): seq<string> {
    Split(content, '\n')
  }

  // ------------------------------------------------------ number parsing

  /** Python's float() and int() on a token: None where they raise
      ValueError. */
  datatype Conv = Conv(toFloat: string -> Option<real>, toInt: string -> Option<int>)

  /** float("0.0") == 0.0 and int("0") == 0, as Python has them. */
  predicate Standard(conv: Conv) {
    conv.toFloat("0.0") == Some(0.0) && conv.toInt("0") == Some(0)
  }

  predicate InRange(r: real) {
    0.0 <= r <= 1.0
  }

  /** is_valid_coord: 0.0 <= float(x) <= 1.0, raising ValueError when x is not
      a number. */
  function IsValidCoord(x: string, conv: Conv): Result<bool> {
    match conv.toFloat(x)
    case None => Err(ValueError("could not convert string to float"))
    case Some(r) => Ok(InRange(r))
  }

  // ------------------------------------------------------------ keypoints

  /** The triple an invalid keypoint is replaced with. */
  const Zeroed: seq<string> := ["0.0", "0.0", "0"]

  /** One iteration of the keypoint loop: float(x), float(y), then the range
      test; an in-range triple is kept verbatim and counts as visible when
      int(v) != 0, any other becomes Zeroed (v is then never parsed). */
  function CorrectTriple(x: string, y: string, v: string, conv: Conv): Result<(seq<string>, bool)> {
    match conv.toFloat(x)
    case None => Err(ValueError("could not convert string to float"))
    case Some(xf) =>
      match conv.toFloat(y)
      case None => Err(ValueError("could not convert string to float"))
      case Some(yf) =>
        if !InRange(xf) || !InRange(yf) then Ok((Zeroed, false))
        else
          match conv.toInt(v)
          case None => Err(ValueError("invalid literal for int()"))
          case Some(n) => Ok(([x, y, v], n != 0))
  }

  /** A triple is kept exactly when both coordinates are valid, and it is
      zeroed exactly when one is not; parse errors come from x, then y, then
      (only for a kept triple) v. */
  lemma {:induction false} TripleOutcome(x: string, y: string, v: string, conv: Conv)
    ensures CorrectTriple(x, y, v, conv).Err? <==>
      || IsValidCoord(x, conv).Err? || IsValidCoord(y, conv).Err?
      || (IsValidCoord(x, conv) == Ok(true) && IsValidCoord(y, conv) == Ok(true) && conv.toInt(v).None?)
    ensures IsValidCoord(x, conv) == Ok(true) && IsValidCoord(y, conv) == Ok(true) && conv.toInt(v).Some? ==>
      CorrectTriple(x, y, v, conv) == Ok(([x, y, v], conv.toInt(v) != Some(0)))
    ensures ((IsValidCoord(x, conv) == Ok(false) && IsValidCoord(y, conv).Ok?)
          || (IsValidCoord(x, conv) == Ok(true) && IsValidCoord(y, conv) == Ok(false))) ==>
      CorrectTriple(x, y, v, conv) == Ok((Zeroed, false))
  {
  }

  /** The result of the keypoint loop on keypoints = values[5:]: the corrected
      tokens and valid_keypoints_exist. The triples are taken in order; an
      error in a triple is raised before anything after it, and a trailing
      group of fewer than three tokens fails to unpack. */
  function Corrected(kps: seq<string>, conv: Conv): Result<(seq<string>, bool)>
    decreases |kps|
  {
    if |kps| == 0 then Ok(([], false))
    else if |kps| % 3 != 0 then
      var full := Corrected(kps[..|kps| - |kps| % 3], conv);
      if full.Err? then full else Err(ValueError("not enough values to unpack"))
    else
      var prev := Corrected(kps[..|kps| - 3], conv);
      if prev.Err? then prev
      else
        match CorrectTriple(kps[|kps| - 3], kps[|kps| - 2], kps[|kps| - 1], conv)
        case Err(e) => Err(e)
        case Ok((t, visible)) => Ok((prev.value.0 + t, prev.value.1 || visible))
  }

  /** The i-th triple's correction. */
  function TripleAt(kps: seq<string>, i: nat, conv: Conv): Result<(seq<string>, bool)>
    requires 3 * i + 3 <= |kps|
  {
    CorrectTriple(kps[3 * i], kps[3 * i + 1], kps[3 * i + 2], conv)
  }

  /** Once a prefix of whole triples fails, the loop fails with that error. */
  lemma {:induction false} CorrectedErrPrefix(kps: seq<string>, j: nat, conv: Conv)
    requires j <= |kps| && j % 3 == 0 && Corrected(kps[..j], conv).Err?
    ensures Corrected(kps, conv) == Corrected(kps[..j], conv)
    decreases |kps|
  {
    if |kps| == j {
      assert kps[..j] == kps;
    } else if |kps| % 3 != 0 {
      var m := |kps| - |kps| % 3;
      var p := kps[..m];
      assert p[..j] == kps[..j];
      CorrectedErrPrefix(p, j, conv);
    } else {
      var p := kps[..|kps| - 3];
      assert p[..j] == kps[..j];
      CorrectedErrPrefix(p, j, conv);
    }
  }

  /** A successful loop saw a multiple of three tokens and gives back as many
      tokens as it was given; a count that is not a multiple of three fails. */
  lemma {:induction false} CorrectedShape(kps: seq<string>, conv: Conv)
    requires Corrected(kps, conv).Ok?
    ensures |kps| % 3 == 0 && |Corrected(kps, conv).value.0| == |kps|
    decreases |kps|
  {
    if |kps| > 0 {
      if |kps| % 3 != 0 {
        assert false;
      }
      CorrectedShape(kps[..|kps| - 3], conv);
    }
  }

  /** Triples wholly inside a prefix are the same triples. */
  lemma {:induction false} TripleAtPrefix(kps: seq<string>, m: nat, i: nat, conv: Conv)
    requires m <= |kps| && 3 * i + 3 <= m
    ensures TripleAt(kps[..m], i, conv) == TripleAt(kps, i, conv)
  {
  }

  /** Triple i is kept and has a non-zero visibility. */
  predicate VisibleAt(kps: seq<string>, i: nat, conv: Conv) {
    3 * i + 3 <= |kps| && TripleAt(kps, i, conv).Ok? && TripleAt(kps, i, conv).value.1
  }

  /** What a successful loop computed: every triple corrected in place. */
  lemma {:induction false} CorrectedTriples(kps: seq<string>, conv: Conv)
    requires Corrected(kps, conv).Ok?
    ensures |kps| % 3 == 0
    ensures |Corrected(kps, conv).value.0| == |kps|
    ensures forall i: nat :: 3 * i + 3 <= |kps| ==>
      && TripleAt(kps, i, conv).Ok?
      && Corrected(kps, conv).value.0[3 * i..3 * i + 3] == TripleAt(kps, i, conv).value.0
    decreases |kps|
  {
    CorrectedShape(kps, conv);
    if |kps| > 0 {
      var p := kps[..|kps| - 3];
      CorrectedTriples(p, conv);
      var nk := Corrected(kps, conv).value.0;
      var pk := Corrected(p, conv).value.0;
      var last := (|kps| - 3) / 3;
      assert nk == pk + TripleAt(kps, last, conv).value.0;
      forall i: nat | 3 * i + 3 <= |kps|
        ensures TripleAt(kps, i, conv).Ok? && nk[3 * i..3 * i + 3] == TripleAt(kps, i, conv).value.0
      {
        if i < last {
          TripleAtPrefix(kps, |kps| - 3, i, conv);
          assert nk[3 * i..3 * i + 3] == pk[3 * i..3 * i + 3];
        }
      }
    }
  }

  /** valid_keypoints_exist holds exactly when some triple is kept with a
      non-zero visibility. */
  lemma {:induction false} CorrectedVisible(kps: seq<string>, conv: Conv)
    requires Corrected(kps, conv).Ok?
    ensures Corrected(kps, conv).value.1 <==> exists i: nat :: VisibleAt(kps, i, conv)
    decreases |kps|
  {
    CorrectedShape(kps, conv);
    if |kps| > 0 {
      var p := kps[..|kps| - 3];
      CorrectedVisible(p, conv);
      var last := (|kps| - 3) / 3;
      assert TripleAt(kps, last, conv) == CorrectTriple(kps[|kps| - 3], kps[|kps| - 2], kps[|kps| - 1], conv);
      assert Corrected(kps, conv).value.1 == (Corrected(p, conv).value.1 || TripleAt(kps, last, conv).value.1);
      if TripleAt(kps, last, conv).value.1 {
        assert VisibleAt(kps, last, conv);
      }
      if exists i: nat :: VisibleAt(p, i, conv) {
        var i: nat :| VisibleAt(p, i, conv);
        TripleAtPrefix(kps, |kps| - 3, i, conv);
        assert VisibleAt(kps, i, conv);
      }
      if exists i: nat :: VisibleAt(kps, i, conv) {
        var i: nat :| VisibleAt(kps, i, conv);
        if i < last {
          TripleAtPrefix(kps, |kps| - 3, i, conv);
          assert VisibleAt(p, i, conv);
        }
      }
    }
  }

  /** The range law: after correction every triple either has both
      coordinates in [0, 1] or is exactly Zeroed. */
  lemma {:induction false} CorrectedInRangeOrZeroed(kps: seq<string>, conv: Conv)
    requires Corrected(kps, conv).Ok?
    ensures var nk := Corrected(kps, conv).value.0;
      forall i: nat :: 3 * i + 3 <= |nk| ==>
        nk[3 * i..3 * i + 3] == Zeroed
        || (IsValidCoord(nk[3 * i], conv) == Ok(true) && IsValidCoord(nk[3 * i + 1], conv) == Ok(true))
  {
    CorrectedTriples(kps, conv);
    var nk := Corrected(kps, conv).value.0;
    forall i: nat | 3 * i + 3 <= |nk|
      ensures nk[3 * i..3 * i + 3] == Zeroed
        || (IsValidCoord(nk[3 * i], conv) == Ok(true) && IsValidCoord(nk[3 * i + 1], conv) == Ok(true))
    {
      assert nk[3 * i..3 * i + 3] == TripleAt(kps, i, conv).value.0;
      assert nk[3 * i] == nk[3 * i..3 * i + 3][0] && nk[3 * i + 1] == nk[3 * i..3 * i + 3][1];
    }
  }

  /** Correcting corrected keypoints changes nothing. */
  lemma {:induction false} CorrectedIdempotent(kps: seq<string>, conv: Conv)
    requires Standard(conv) && Corrected(kps, conv).Ok?
    ensures Corrected(Corrected(kps, conv).value.0, conv) == Corrected(kps, conv)
    decreases |kps|
  {
    CorrectedShape(kps, conv);
    if |kps| > 0 {
      var p := kps[..|kps| - 3];
      CorrectedIdempotent(p, conv);
      CorrectedShape(p, conv);
      var pk := Corrected(p, conv).value.0;
      var nk := Corrected(kps, conv).value.0;
      var x, y, v := kps[|kps| - 3], kps[|kps| - 2], kps[|kps| - 1];
      TripleIdempotent(x, y, v, conv);
      var t := CorrectTriple(x, y, v, conv).value.0;
      assert nk == pk + t;
      assert nk[..|nk| - 3] == pk;
      assert nk[|nk| - 3] == t[0] && nk[|nk| - 2] == t[1] && nk[|nk| - 1] == t[2];
    }
  }

  /** Correcting a corrected triple gives the same triple and visibility. */
  lemma {:induction false} TripleIdempotent(x: string, y: string, v: string, conv: Conv)
    requires Standard(conv) && CorrectTriple(x, y, v, conv).Ok?
    ensures var t := CorrectTriple(x, y, v, conv).value.0;
      |t| == 3 && CorrectTriple(t[0], t[1], t[2], conv) == CorrectTriple(x, y, v, conv)
  {
  }


  /** Every corrected token is an input token or one of the Zeroed tokens. */
  lemma {:induction false} CorrectedTokens(kps: seq<string>, conv: Conv)
    requires Corrected(kps, conv).Ok?
    ensures |Corrected(kps, conv).value.0| == |kps|
    ensures forall j :: 0 <= j < |Corrected(kps, conv).value.0| ==>
      Corrected(kps, conv).value.0[j] == kps[j] || Corrected(kps, conv).value.0[j] in Zeroed
    decreases |kps|
  {
    CorrectedShape(kps, conv);
    if |kps| > 0 {
      var p := kps[..|kps| - 3];
      CorrectedTokens(p, conv);
    }
  }

  /** The keypoint loop of the script, stepping through the tokens three at a
      time. */
  method CorrectKeypoints(keypoints: seq<string>, conv: Conv) returns (r: Result<(seq<string>, bool)>)
    ensures r == Corrected(keypoints, conv)
  {
    var newKeypoints: seq<string> := [];
    var validKeypointsExist := false;
    var i := 0;
    while i < |keypoints|
      invariant 0 <= i <= |keypoints| && i % 3 == 0
      invariant Corrected(keypoints[..i], conv) == Ok((newKeypoints, validKeypointsExist))
      decreases |keypoints| - i
    {
      if |keypoints| - i < 3 {
        assert keypoints[..|keypoints| - |keypoints| % 3] == keypoints[..i];
        return Err(ValueError("not enough values to unpack"));
      }
      var x, y, v := keypoints[i], keypoints[i + 1], keypoints[i + 2];
      assert keypoints[..i + 3][..i] == keypoints[..i];
      var xFloat := conv.toFloat(x);
      if xFloat.None? {
        r := Err(ValueError("could not convert string to float"));
        CorrectedErrPrefix(keypoints, i + 3, conv);
        return;
      }
      var yFloat := conv.toFloat(y);
      if yFloat.None? {
        r := Err(ValueError("could not convert string to float"));
        CorrectedErrPrefix(keypoints, i + 3, conv);
        return;
      }
      if !InRange(xFloat.value) || !InRange(yFloat.value) {
        newKeypoints := newKeypoints + Zeroed;
      } else {
        var vInt := conv.toInt(v);
        if vInt.None? {
          r := Err(ValueError("invalid literal for int()"));
          CorrectedErrPrefix(keypoints, i + 3, conv);
          return;
        }
        newKeypoints := newKeypoints + [x, y, v];
        if vInt.value != 0 {
          validKeypointsExist := true;
        }
      }
      i := i + 3;
    }
    assert keypoints[..i] == keypoints;
    r := Ok((newKeypoints, validKeypointsExist));
  }

  // ------------------------------------------------------------- the box

  /** box_valid = all(0.0 <= float(c) <= 1.0 for c in box_coords), evaluated
      lazily: it stops at the first coordinate out of range, so a bad token
      after that one raises nothing. */
  function BoxCheck(coords: seq<string>, conv: Conv): Result<bool> {
    if |coords| == 0 then Ok(true)
    else
      match conv.toFloat(coords[0])
      case None => Err(ValueError("could not convert string to float"))
      case Some(r) => if !InRange(r) then Ok(false) else BoxCheck(coords[1..], conv)
  }

  /** Coordinate i is the first that is not valid, and it is not a number. */
  predicate RaisesAt(coords: seq<string>, i: int, conv: Conv) {
    && 0 <= i < |coords| && IsValidCoord(coords[i], conv).Err?
    && forall k :: 0 <= k < i ==> IsValidCoord(coords[k], conv) == Ok(true)
  }

  /** all() is true exactly when every coordinate is valid, and it raises
      exactly when the first coordinate that is not valid is not a number. */
  lemma {:induction false} BoxCheckMeaning(coords: seq<string>, conv: Conv)
    ensures BoxCheck(coords, conv) == Ok(true) <==> forall i :: 0 <= i < |coords| ==> IsValidCoord(coords[i], conv) == Ok(true)
    ensures BoxCheck(coords, conv).Err? <==> exists i :: RaisesAt(coords, i, conv)
  {
    if |coords| > 0 {
      var tail := coords[1..];
      BoxCheckMeaning(tail, conv);
      forall i | 0 < i < |coords| ensures coords[i] == tail[i - 1] { }
      var c0 := IsValidCoord(coords[0], conv);
      if c0 == Ok(true) {
        if exists i :: RaisesAt(coords, i, conv) {
          var i :| RaisesAt(coords, i, conv);
          assert RaisesAt(tail, i - 1, conv);
        }
        if exists i :: RaisesAt(tail, i, conv) {
          var i :| RaisesAt(tail, i, conv);
          assert RaisesAt(coords, i + 1, conv);
        }
      } else if c0.Err? {
        assert RaisesAt(coords, 0, conv);
      } else {
        forall i | 0 <= i < |coords| ensures !RaisesAt(coords, i, conv) {
          if i > 0 {
            assert IsValidCoord(coords[0], conv) != Ok(true);
          }
        }
      }
    }
  }

  // ------------------------------------------------------------ one line

  /** What the script does with one line. */
  datatype Action =
    | Skip                   // fewer than five tokens: nothing happens
    | Write(content: string) // the file is overwritten with this text
    | Delete                 // the file is removed

  /** The decision for one line's tokens: short lines are skipped; otherwise
      the box is checked (only its errors matter), the keypoints corrected,
      and the file overwritten with values[:5] + new_keypoints when a visible
      keypoint is left, removed when none is. */
  function ActionOf(values: seq<string>, conv: Conv): Result<Action> {
    if |values| < 5 then Ok(Skip)
    else
      match BoxCheck(values[1..5], conv)
      case Err(e) => Err(e)
      case Ok(_) =>
        match Corrected(values[5..], conv)
        case Err(e) => Err(e)
        case Ok((newKeypoints, valid)) =>
          if valid then Ok(Write(Join(values[..5] + newKeypoints, ' ') + "\n")) else Ok(Delete)
  }

  function LineAction(line: string, conv: Conv): Result<Action> {
    ActionOf(Words(line), conv)
  }

  /** The body of the per-line loop, up to the write or remove. */
  method ProcessLine(line: string, conv: Conv) returns (r: Result<Action>)
    ensures r == LineAction(line, conv)
  {
    var values := Words(line);
    if |values| < 5 {
      return Ok(Skip);
    }
    var boxValid := BoxCheck(values[1..5], conv);
    if boxValid.Err? {
      return Err(boxValid.error);
    }
    var corrected := CorrectKeypoints(values[5..], conv);
    if corrected.Err? {
      return Err(corrected.error);
    }
    var (newKeypoints, validKeypointsExist) := corrected.value;
    if validKeypointsExist {
      r := Ok(Write(Join(values[..5] + newKeypoints, ' ') + "\n"));
    } else {
      r := Ok(Delete);
    }
  }

  /** A rewritten line reads back as the class id and the four box tokens,
      unchanged whatever their range, followed by the corrected keypoints;
      the written text is one line. */
  lemma {:induction false} WrittenLine(line: string, conv: Conv)
    requires LineAction(line, conv).Ok? && LineAction(line, conv).value.Write?
    ensures var values := Words(line);
      && |values| >= 5
      && Corrected(values[5..], conv).Ok?
      && Words(LineAction(line, conv).value.content) == values[..5] + Corrected(values[5..], conv).value.0
  {
    WrittenTokensClean(line, conv);
    WordsOfJoin(Words(line)[..5] + Corrected(Words(line)[5..], conv).value.0);
  }

  /** The tokens a rewritten line is joined from are clean. */
  lemma {:induction false} WrittenTokensClean(line: string, conv: Conv)
    requires LineAction(line, conv).Ok? && LineAction(line, conv).value.Write?
    ensures var values := Words(line);
      && |values| >= 5
      && Corrected(values[5..], conv).Ok?
      && var ws := values[..5] + Corrected(values[5..], conv).value.0;
         && LineAction(line, conv).value.content == Join(ws, ' ') + "\n"
         && forall i :: 0 <= i < |ws| ==> Clean(ws[i])
  {
    var values := Words(line);
    var nk := Corrected(values[5..], conv).value.0;
    WordsClean(line);
    CorrectedTokens(values[5..], conv);
    var ws := values[..5] + nk;
    forall i | 0 <= i < |ws| ensures Clean(ws[i]) {
      if i < 5 {
        assert ws[i] == values[i];
      } else {
        assert ws[i] == nk[i - 5];
        assert nk[i - 5] == values[5..][i - 5] || nk[i - 5] in Zeroed;
      }
    }
  }

  /** Sanitizing a sanitized line changes nothing: the rewritten text, read
      again, is rewritten to itself. */
  lemma {:induction false} LineIdempotent(line: string, conv: Conv)
    requires Standard(conv)
    requires LineAction(line, conv).Ok? && LineAction(line, conv).value.Write?
    ensures LineAction(LineAction(line, conv).value.content, conv) == LineAction(line, conv)
  {
    var values := Words(line);
    var nk := Corrected(values[5..], conv).value.0;
    WrittenLine(line, conv);
    var c := LineAction(line, conv).value.content;
    var again := Words(c);
    assert again[1..5] == values[1..5];
    assert again[5..] == nk;
    assert again[..5] == values[..5];
    CorrectedIdempotent(values[5..], conv);
  }

  /** The box range decides nothing: two lines that differ only in box
      tokens that parse lead to the same kind of action. */
  lemma {:induction false} BoxRangeIrrelevant(values: seq<string>, other: seq<string>, conv: Conv)
    requires |values| >= 5 && |other| >= 5
    requires values[0] == other[0] && values[5..] == other[5..]
    requires BoxCheck(values[1..5], conv).Ok? && BoxCheck(other[1..5], conv).Ok?
    ensures ActionOf(values, conv).Ok? <==> ActionOf(other, conv).Ok?
    ensures ActionOf(values, conv) == Ok(Delete) <==> ActionOf(other, conv) == Ok(Delete)
  {
  }

  /** The tokens of a line whose only keypoint has x = 1.5: the keypoint is
      zeroed, no visible keypoint is left, and the file is removed. */
  lemma {:induction false} OutOfRangeOnlyKeypoint(values: seq<string>, conv: Conv)
    requires values == ["0", "0.5", "0.5", "0.2", "0.2", "1.5", "0.3", "2"]
    requires conv.toFloat("0.5") == Some(0.5) && conv.toFloat("0.2") == Some(0.2)
    requires conv.toFloat("1.5") == Some(1.5) && conv.toFloat("0.3") == Some(0.3)
    ensures Corrected(values[5..], conv) == Ok((Zeroed, false))
    ensures ActionOf(values, conv) == Ok(Delete)
  {
    var box := values[1..5];
    assert box[1..][1..][1..][1..] == [];
    assert BoxCheck(box[1..][1..][1..], conv) == Ok(true);
    assert BoxCheck(box[1..][1..], conv) == Ok(true);
    assert BoxCheck(box[1..], conv) == Ok(true);
    assert BoxCheck(box, conv) == Ok(true);
    var kps := values[5..];
    assert kps[..0] == [];
    assert CorrectTriple(kps[0], kps[1], kps[2], conv) == Ok((Zeroed, false));
    assert [] + Zeroed == Zeroed;
    assert Corrected(kps, conv) == Ok((Zeroed, false));
  }

  // ------------------------------------------------------------- a file

  /** The state of the label directory after some steps, and the exception
      that stopped the script, if any. */
  datatype Outcome = Outcome(files: map<string, string>, error: Option<Error>)

  /** open(path, 'w').write(content) or os.remove(path) on the current file;
      removing a file that is already gone raises FileNotFoundError. */
  function Perform(files: map<string, string>, name: string, a: Action): Result<map<string, string>> {
    match a
    case Skip => Ok(files)
    case Write(content) => Ok(files[name := content])
    case Delete => if name in files then Ok(files - {name}) else Err(FileNotFound(name))
  }

  /** The per-line loop over `lines`, each line acting on the file in turn;
      the first exception stops everything with the effects so far kept. */
  function RunLines(files: map<string, string>, name: string, lines: seq<string>, conv: Conv): Outcome {
    if |lines| == 0 then Outcome(files, None)
    else
      var prev := RunLines(files, name, lines[..|lines| - 1], conv);
      if prev.error.Some? then prev
      else
        match LineAction(lines[|lines| - 1], conv)
        case Err(e) => Outcome(prev.files, Some(e))
        case Ok(a) =>
          match Perform(prev.files, name, a)
          case Err(e) => Outcome(prev.files, Some(e))
          case Ok(f) => Outcome(f, None)
  }

  /** Once an exception stops the loop, later lines change nothing. */
  lemma {:induction false} RunLinesErrPrefix(files: map<string, string>, name: string, lines: seq<string>, conv: Conv, m: nat)
    requires m <= |lines| && RunLines(files, name, lines[..m], conv).error.Some?
    ensures RunLines(files, name, lines, conv) == RunLines(files, name, lines[..m], conv)
    decreases |lines|
  {
    if |lines| == m {
      assert lines[..m] == lines;
    } else {
      var init := lines[..|lines| - 1];
      assert init[..m] == lines[..m];
      RunLinesErrPrefix(files, name, init, conv, m);
    }
  }

  /** The loop touches no file but its own. */
  lemma {:induction false} RunLinesFrame(files: map<string, string>, name: string, lines: seq<string>, conv: Conv, other: string)
    requires other != name
    ensures other in RunLines(files, name, lines, conv).files <==> other in files
    ensures other in files ==> RunLines(files, name, lines, conv).files[other] == files[other]
  {
    if |lines| > 0 {
      RunLinesFrame(files, name, lines[..|lines| - 1], conv, other);
    }
  }

  /** Lines that are all skipped leave the directory as it was. */
  lemma {:induction false} RunLinesAllSkipped(files: map<string, string>, name: string, lines: seq<string>, conv: Conv)
    requires forall j :: 0 <= j < |lines| ==> LineAction(lines[j], conv) == Ok(Skip)
    ensures RunLines(files, name, lines, conv) == Outcome(files, None)
  {
    if |lines| > 0 {
      RunLinesAllSkipped(files, name, lines[..|lines| - 1], conv);
    }
  }

  /** The last line that writes or removes decides the file: when no
      exception stopped the loop before it and every later line is skipped,
      the file holds exactly that line's text (every earlier line's text is
      lost), or is gone. */
  lemma {:induction false} LastLineDecides(files: map<string, string>, name: string, lines: seq<string>, conv: Conv, k: nat)
    requires k < |lines|
    requires LineAction(lines[k], conv).Ok? && LineAction(lines[k], conv).value != Skip
    requires forall j :: k < j < |lines| ==> LineAction(lines[j], conv) == Ok(Skip)
    requires RunLines(files, name, lines[..k], conv).error.None?
    requires LineAction(lines[k], conv).value.Delete? ==> name in RunLines(files, name, lines[..k], conv).files
    ensures var r := RunLines(files, name, lines, conv);
      && r.error.None?
      && (LineAction(lines[k], conv).value.Write? ==> name in r.files && r.files[name] == LineAction(lines[k], conv).value.content)
      && (LineAction(lines[k], conv).value.Delete? ==> name !in r.files)
  {
    var upto := lines[..k + 1];
    assert upto[..k] == lines[..k];
    RunLinesSkippedTail(files, name, lines, conv, k + 1);
  }

  /** Skipped lines after a prefix change nothing. */
  lemma {:induction false} RunLinesSkippedTail(files: map<string, string>, name: string, lines: seq<string>, conv: Conv, m: nat)
    requires m <= |lines|
    requires forall j :: m <= j < |lines| ==> LineAction(lines[j], conv) == Ok(Skip)
    ensures RunLines(files, name, lines, conv) == RunLines(files, name, lines[..m], conv)
    decreases |lines|
  {
    if |lines| == m {
      assert lines[..m] == lines;
    } else {
      var init := lines[..|lines| - 1];
      assert init[..m] == lines[..m];
      RunLinesSkippedTail(files, name, init, conv, m);
    }
  }

  /** Two lines that both remove the file: the second removal fails. */
  lemma {:induction false} SecondRemovalFails(files: map<string, string>, name: string, l1: string, l2: string, conv: Conv)
    requires LineAction(l1, conv) == Ok(Delete) && LineAction(l2, conv) == Ok(Delete)
    ensures RunLines(files, name, [l1, l2], conv).error == Some(FileNotFound(name))
    ensures RunLines(files, name, [l1, l2], conv).files == files - {name}
  {
    var lines := [l1, l2];
    assert lines[..1] == [l1];
    assert [l1][..0] == [];
    assert RunLines(files, name, [], conv) == Outcome(files, None);
    assert RunLines(files, name, [l1], conv)
      == (if name in files then Outcome(files - {name}, None) else Outcome(files, Some(FileNotFound(name))));
  }

  /** The whole script over a directory listing: names not ending in ".txt"
      are passed over; each other file is opened (FileNotFoundError if it is
      gone), its lines read once, and the per-line loop run on it. */
  function CleanAll(files: map<string, string>, listing: seq<string>, conv: Conv): Outcome {
    if |listing| == 0 then Outcome(files, None)
    else
      var prev := CleanAll(files, listing[..|listing| - 1], conv);
      var name := listing[|listing| - 1];
      if prev.error.Some? || !EndsWith(name, ".txt") then prev
      else if name !in prev.files then Outcome(prev.files, Some(FileNotFound(name)))
      else RunLines(prev.files, name, Lines(prev.files[name]), conv)
  }

  /** Once an exception stops the script, later files are not visited. */
  lemma {:induction false} CleanAllErrPrefix(files: map<string, string>, listing: seq<string>, conv: Conv, m: nat)
    requires m <= |listing| && CleanAll(files, listing[..m], conv).error.Some?
    ensures CleanAll(files, listing, conv) == CleanAll(files, listing[..m], conv)
    decreases |listing|
  {
    if |listing| == m {
      assert listing[..m] == listing;
    } else {
      var init := listing[..|listing| - 1];
      assert init[..m] == listing[..m];
      CleanAllErrPrefix(files, init, conv, m);
    }
  }

  /** A file that is not a listed ".txt" label file is never touched. */
  lemma {:induction false} CleanAllFrame(files: map<string, string>, listing: seq<string>, conv: Conv, other: string)
    requires other !in listing || !EndsWith(other, ".txt")
    ensures other in CleanAll(files, listing, conv).files <==> other in files
    ensures other in files ==> CleanAll(files, listing, conv).files[other] == files[other]
  {
    if |listing| > 0 {
      var init := listing[..|listing| - 1];
      assert other !in init || !EndsWith(other, ".txt");
      CleanAllFrame(files, init, conv, other);
      var prev := CleanAll(files, init, conv);
      var name := listing[|listing| - 1];
      if prev.error.None? && EndsWith(name, ".txt") && name in prev.files {
        RunLinesFrame(prev.files, name, Lines(prev.files[name]), conv, other);
      }
    }
  }

  /** Joining tokens that hold no whitespace puts no newline in the text. */
  lemma {:induction false} JoinNoNewline(ws: seq<string>)
    requires forall i :: 0 <= i < |ws| ==> Clean(ws[i])
    ensures '\n' !in Join(ws, ' ')
    decreases |ws|
  {
    if |ws| == 1 {
      forall k | 0 <= k < |ws[0]| ensures ws[0][k] != '\n' {
        assert !IsSpace(ws[0][k]);
      }
    } else if |ws| > 1 {
      JoinNoNewline([ws[0]]);
      JoinNoNewline(ws[1..]);
      assert Join(ws, ' ') == Join([ws[0]], ' ') + [' '] + Join(ws[1..], ' ');
    }
  }

  /** A file the sanitizer wrote holds its one line and, after the final
      newline, an empty piece. */
  lemma {:induction false} WrittenFileLines(line: string, conv: Conv)
    requires LineAction(line, conv).Ok? && LineAction(line, conv).value.Write?
    ensures var c := LineAction(line, conv).value.content;
      |c| >= 1 && Lines(c) == [c[..|c| - 1], ""] && Words(c[..|c| - 1]) == Words(c)
  {
    WrittenTokensClean(line, conv);
    var c := LineAction(line, conv).value.content;
    var values := Words(line);
    var j := Join(values[..5] + Corrected(values[5..], conv).value.0, ' ');
    JoinNoNewline(values[..5] + Corrected(values[5..], conv).value.0);
    assert c[..|c| - 1] == j;
    assert j + ['\n'] + "" == c;
    SplitLine(j, "", '\n');
    SplitNoSep("", '\n');
    WordsNewline(j);
  }

  /** Running the sanitizer again on a file it rewrote changes nothing: the
      file is overwritten with its own text and the empty last piece is
      skipped. */
  lemma {:induction false} FileIdempotent(files: map<string, string>, name: string, line: string, conv: Conv)
    requires Standard(conv)
    requires LineAction(line, conv).Ok? && LineAction(line, conv).value.Write?
    requires name in files && files[name] == LineAction(line, conv).value.content
    ensures RunLines(files, name, Lines(files[name]), conv) == Outcome(files, None)
  {
    var c := files[name];
    WrittenFileLines(line, conv);
    LineIdempotent(line, conv);
    var first := c[..|c| - 1];
    assert LineAction(first, conv) == Ok(Write(c));
    assert LineAction("", conv) == Ok(Skip);
    var lines := [first, ""];
    assert lines[..1] == [first];
    assert [first][..0] == [];
    assert files[name := c] == files;
    assert RunLines(files, name, [first], conv) == Outcome(files, None);
  }

  /** The text of a file that the sanitizer rewrote from some line. */
  ghost predicate Sanitized(content: string, conv: Conv) {
    exists line :: LineAction(line, conv) == Ok(Write(content))
  }

  /** A second run of the script over a directory whose listed label files
      all hold sanitizer output changes nothing and raises nothing. */
  lemma {:induction false} CleanAllIdempotent(files: map<string, string>, listing: seq<string>, conv: Conv)
    requires Standard(conv)
    requires forall name :: name in listing && EndsWith(name, ".txt") ==> name in files && Sanitized(files[name], conv)
    ensures CleanAll(files, listing, conv) == Outcome(files, None)
  {
    if |listing| > 0 {
      var init := listing[..|listing| - 1];
      var name := listing[|listing| - 1];
      assert forall x :: x in init ==> x in listing;
      CleanAllIdempotent(files, init, conv);
      if EndsWith(name, ".txt") {
        var line :| LineAction(line, conv) == Ok(Write(files[name]));
        FileIdempotent(files, name, line, conv);
      }
    }
  }

  /** The label directory: file name -> file text. */
  class LabelDirectory {
    var files: map<string, string>

    constructor(contents: map<string, string>)
      ensures files == contents
    {
      files := contents;
    }

    /** open(path, 'w').write(content). */
    method Overwrite(name: string, content: string)
      modifies this
      ensures files == old(files)[name := content]
    {
      files := files[name := content];
    }

    /** os.remove(path). */
    method Remove(name: string) returns (err: Option<Error>)
      modifies this
      ensures name in old(files) ==> err == None && files == old(files) - {name}
      ensures name !in old(files) ==> err == Some(FileNotFound(name)) && files == old(files)
    {
      if name !in files {
        return Some(FileNotFound(name));
      }
      files := files - {name};
      err := None;
    }

    /** The end of one line's iteration: overwrite the file with the
        corrected line, or remove it. */
    method Apply(name: string, a: Action) returns (err: Option<Error>)
      modifies this
      ensures Perform(old(files), name, a).Ok? ==> err == None && files == Perform(old(files), name, a).value
      ensures Perform(old(files), name, a).Err? ==> err == Some(Perform(old(files), name, a).error) && files == old(files)
    {
      err := None;
      match a
      case Skip =>
      case Write(content) =>
        Overwrite(name, content);
      case Delete =>
        err := Remove(name);
    }

    /** One label file: read its lines once, then handle them in order,
      overwriting or removing the file after each line. */
    method CorrectFile(name: string, conv: Conv) returns (err: Option<Error>)
      modifies this
      ensures name !in old(files) ==> err == Some(FileNotFound(name)) && files == old(files)
      ensures name in old(files) ==> Outcome(files, err) == RunLines(old(files), name, Lines(old(files)[name]), conv)
    {
      if name !in files {
        return Some(FileNotFound(name));
      }
      var lines := Lines(files[name]);
      ghost var start := files;
      err := None;
      for i := 0 to |lines|
        invariant err == None && Outcome(files, None) == RunLines(start, name, lines[..i], conv)
      {
        assert lines[..i + 1][..i] == lines[..i];
        var action := ProcessLine(lines[i], conv);
        if action.Err? {
          RunLinesErrPrefix(start, name, lines, conv, i + 1);
          return Some(action.error);
        }
        err := Apply(name, action.value);
        if err.Some? {
          RunLinesErrPrefix(start, name, lines, conv, i + 1);
          return;
        }
      }
      assert lines[..|lines|] == lines;
    }

    /** The script: every listed ".txt" file in listing order. */
    method CleanDirectory(listing: seq<string>, conv: Conv) returns (err: Option<Error>)
      modifies this
      ensures Outcome(files, err) == CleanAll(old(files), listing, conv)
    {
      ghost var start := files;
      err := None;
      for i := 0 to |listing|
        invariant err == None && Outcome(files, None) == CleanAll(start, listing[..i], conv)
      {
        assert listing[..i + 1][..i] == listing[..i];
        var fileName := listing[i];
        if !EndsWith(fileName, ".txt") {
          continue;
        }
        err := CorrectFile(fileName, conv);
        if err.Some? {
          CleanAllErrPrefix(start, listing, conv, i + 1);
          return;
        }
      }
      assert listing[..|listing|] == listing;
    }
  }
}
