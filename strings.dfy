/** The few Python string operations the scripts rely on: str.split with an
    explicit separator, str.join, str.endswith and os.path.splitext. */
module Strings {

  /** str.endswith(suffix). */
  predicate EndsWith(s: string, suffix: string) {
    |suffix| <= |s| && s[|s| - |suffix|..] == suffix
  }

  /** s.split(sep) for a one-character separator: never empty, and empty
      tokens are kept ("a__b".split('_') == ["a", "", "b"]). */
  function Split(s: string, sep: char): (parts: seq<string>)
    ensures |parts| >= 1
    decreases |s|
  {
    if |s| == 0 then [""]
    else
      var rest := Split(s[1..], sep);
      if s[0] == sep then [""] + rest
      else [[s[0]] + rest[0]] + rest[1..]
  }

  /** The tokens hold no separator, and there are at least two exactly when
      the string holds the separator. */
  lemma {:induction false} SplitTokens(s: string, sep: char)
    ensures forall i :: 0 <= i < |Split(s, sep)| ==> sep !in Split(s, sep)[i]
    ensures |Split(s, sep)| >= 2 <==> sep in s
    decreases |s|
  {
    if |s| > 0 {
      SplitTokens(s[1..], sep);
      assert s == [s[0]] + s[1..];
      var rest := Split(s[1..], sep);
      if s[0] != sep {
        forall i | 1 <= i < |Split(s, sep)| ensures sep !in Split(s, sep)[i] {
          assert Split(s, sep)[i] == rest[i];
        }
      }
    }
  }

  /** [sep].join(parts). */
  function Join(parts: seq<string>, sep: char): string {
    if |parts| == 0 then ""
    else if |parts| == 1 then parts[0]
    else parts[0] + [sep] + Join(parts[1..], sep)
  }

  /** Joining the tokens of a split gives the original string back. */
  lemma {:induction false} JoinSplit(s: string, sep: char)
    ensures Join(Split(s, sep), sep) == s
    decreases |s|
  {
    if |s| > 0 {
      JoinSplit(s[1..], sep);
      var rest := Split(s[1..], sep);
      if s[0] != sep && |rest| >= 2 {
        assert rest[1..][1..] == rest[2..];
      }
    }
  }

  /** Splitting text that starts with a separator-free chunk `a`. */
  lemma {:induction false} SplitPrefix(a: string, t: string, sep: char)
    requires sep !in a
    ensures Split(a + t, sep) == [a + Split(t, sep)[0]] + Split(t, sep)[1..]
    decreases |a|
  {
    var st := Split(t, sep);
    if |a| == 0 {
      assert a + t == t;
      assert a + st[0] == st[0];
      assert st == [st[0]] + st[1..];
    } else {
      assert (a + t)[1..] == a[1..] + t;
      SplitPrefix(a[1..], t, sep);
      assert [a[0]] + (a[1..] + Split(t, sep)[0]) == a + Split(t, sep)[0];
    }
  }

  /** Splitting a join of separator-free tokens gives the tokens back. */
  lemma {:induction false} SplitJoin(parts: seq<string>, sep: char)
    requires |parts| >= 1
    requires forall i :: 0 <= i < |parts| ==> sep !in parts[i]
    ensures Split(Join(parts, sep), sep) == parts
  {
    if |parts| == 1 {
      SplitPrefix(parts[0], "", sep);
      assert parts[0] + "" == parts[0];
    } else {
      var j := Join(parts[1..], sep);
      SplitJoin(parts[1..], sep);
      assert parts[0] + [sep] + j == parts[0] + ([sep] + j);
      SplitPrefix(parts[0], [sep] + j, sep);
      assert ([sep] + j)[1..] == j;
      var sj := Split([sep] + j, sep);
      assert sj == [""] + parts[1..];
      assert parts[0] + sj[0] == parts[0];
      assert sj[1..] == parts[1..];
      assert parts == [parts[0]] + parts[1..];
    }
  }

  /** A string without the separator is a single token. */
  lemma {:induction false} SplitNoSep(s: string, sep: char)
    requires sep !in s
    ensures Split(s, sep) == [s]
  {
    SplitPrefix(s, "", sep);
    assert s + "" == s;
  }

  /** Splitting a string that starts with character c. */
  lemma {:induction false} SplitCons(c: char, t: string, sep: char)
    ensures Split([c] + t, sep)
         == if c == sep then [""] + Split(t, sep) else [[c] + Split(t, sep)[0]] + Split(t, sep)[1..]
  {
    assert ([c] + t)[0] == c && ([c] + t)[1..] == t;
  }

  /** Splitting at one separator splits each side on its own:
      (a + sep + b).split(sep) == a.split(sep) + b.split(sep). */
  lemma {:induction false} SplitAround(a: string, b: string, sep: char)
    ensures Split(a + [sep] + b, sep) == Split(a, sep) + Split(b, sep)
    decreases |a|
  {
    if |a| == 0 {
      assert a + [sep] + b == [sep] + b;
      SplitCons(sep, b, sep);
      assert Split(a, sep) == [""];
    } else {
      var c, a' := a[0], a[1..];
      assert a == [c] + a';
      assert a + [sep] + b == [c] + (a' + [sep] + b);
      SplitAround(a', b, sep);
      if c == sep {
        SplitAroundSep(a', b, sep);
      } else {
        SplitAroundOther(c, a', b, sep);
      }
    }
  }

  lemma {:induction false} SplitAroundSep(a: string, b: string, sep: char)
    requires Split(a + [sep] + b, sep) == Split(a, sep) + Split(b, sep)
    ensures Split([sep] + (a + [sep] + b), sep) == Split([sep] + a, sep) + Split(b, sep)
  {
    SplitCons(sep, a + [sep] + b, sep);
    SplitCons(sep, a, sep);
  }

  lemma {:induction false} SplitAroundOther(c: char, a: string, b: string, sep: char)
    requires c != sep
    requires Split(a + [sep] + b, sep) == Split(a, sep) + Split(b, sep)
    ensures Split([c] + (a + [sep] + b), sep) == Split([c] + a, sep) + Split(b, sep)
  {
    var head, tail := Split(a, sep), Split(b, sep);
    SplitConsOther(c, a + [sep] + b, sep);
    SplitConsOther(c, a, sep);
    ConsAppend([c] + head[0], head, tail);
  }

  /** Splitting a string that starts with a character other than the
      separator: that character joins the first token. */
  lemma {:induction false} SplitConsOther(c: char, t: string, sep: char)
    requires c != sep
    ensures Split([c] + t, sep) == [[c] + Split(t, sep)[0]] + Split(t, sep)[1..]
  {
    assert ([c] + t)[0] == c && ([c] + t)[1..] == t;
  }

  lemma {:induction false} ConsAppend<T>(x: T, h: seq<T>, t: seq<T>)
    requires |h| >= 1
    ensures (h + t)[0] == h[0]
    ensures [x] + (h + t)[1..] == ([x] + h[1..]) + t
  {
    assert (h + t)[1..] == h[1..] + t;
  }

  /** A separator-free line followed by the separator splits off as one token. */
  lemma {:induction false} SplitLine(line: string, s: string, sep: char)
    requires sep !in line
    ensures Split(line + [sep] + s, sep) == [line] + Split(s, sep)
  {
    SplitAround(line, s, sep);
    SplitNoSep(line, sep);
  }

  /** The first two tokens of a name shaped `a_b` followed by nothing or by
      `_...`, where `a` and `b` hold no separator, are `a` and `b`. */
  lemma {:induction false} SplitFirstTwo(a: string, b: string, rest: string, sep: char)
    requires sep !in a && sep !in b
    requires rest == [] || rest[0] == sep
    ensures var parts := Split(a + [sep] + b + rest, sep);
      |parts| >= 2 && parts[0] == a && parts[1] == b
  {
    var t := b + rest;
    assert a + [sep] + b + rest == a + ([sep] + t);
    SplitPrefix(a, [sep] + t, sep);
    assert ([sep] + t)[1..] == t;
    SplitPrefix(b, rest, sep);
  }

  /** Index of the last occurrence of c in s, or -1. */
  function LastIndexOf(s: string, c: char): (i: int)
    ensures -1 <= i < |s|
    ensures i >= 0 ==> s[i] == c
    ensures forall k :: i < k < |s| ==> s[k] != c
  {
    if |s| == 0 then -1
    else if s[|s| - 1] == c then |s| - 1
    else LastIndexOf(s[..|s| - 1], c)
  }

  predicate HasNonDot(s: string) {
    exists k :: 0 <= k < |s| && s[k] != '.'
  }

  /** os.path.splitext(p)[0] for '/'-separated paths: p without the text from
      its last '.', provided that dot is in the final path component and is
      not one of the dots leading that component; p itself otherwise. */
  function StripExtension(p: string): (stem: string)
    ensures stem <= p
    ensures stem != p ==> p[|stem|] == '.' && '.' !in p[|stem| + 1..] && '/' !in p[|stem|..]
    ensures '.' !in p ==> stem == p
  {
    var dot := LastIndexOf(p, '.');
    var slash := LastIndexOf(p, '/');
    if slash < dot && HasNonDot(p[slash + 1..dot]) then p[..dot] else p
  }

  /** LastIndexOf is pinned down by its contract: an index holding c with no
      c after it (or -1 when c does not occur) is the last index. */
  lemma {:induction false} LastIndexOfUnique(s: string, c: char, i: int)
    requires -1 <= i < |s| && (i >= 0 ==> s[i] == c)
    requires forall k :: i < k < |s| ==> s[k] != c
    ensures LastIndexOf(s, c) == i
  {
  }

  /** Stripping the extension of `stem.ext` gives `stem` back, when the
      extension holds no further '.' or '/' and the last path component of
      `stem` is not made of dots alone. */
  lemma {:induction false} StripExtensionOf(stem: string, ext: string)
    requires |ext| >= 1 && ext[0] == '.' && '.' !in ext[1..] && '/' !in ext
    requires HasNonDot(stem[LastIndexOf(stem, '/') + 1..])
    ensures StripExtension(stem + ext) == stem
  {
    var p := stem + ext;
    forall k | |stem| < k < |p| ensures p[k] != '.' {
      assert p[k] == ext[1..][k - |stem| - 1];
    }
    LastIndexOfUnique(p, '.', |stem|);
    var s0 := LastIndexOf(stem, '/');
    forall k | s0 < k < |p| ensures p[k] != '/' {
      if k >= |stem| {
        assert p[k] == ext[k - |stem|];
      } else {
        assert p[k] == stem[k];
      }
    }
    assert s0 >= 0 ==> p[s0] == stem[s0];
    LastIndexOfUnique(p, '/', s0);
    assert p[s0 + 1..|stem|] == stem[s0 + 1..];
    assert p[..|stem|] == stem;
  }
}
