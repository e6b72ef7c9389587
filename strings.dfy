/**
 * The string operations the server's parsers are built from: splitting on
 * a separator, finding a character, prefixes, and whitespace trimming.
 */
module Strings {
  import opened Wrappers

  /** The pieces of `s` between occurrences of `sep`, as splitting a string gives; never empty. */
  function Split(s: string, sep: char): (parts: seq<string>)
    ensures |parts| >= 1
    ensures forall k :: 0 <= k < |parts| ==> sep !in parts[k]
    ensures Join(parts, sep) == s
    decreases |s|
  {
    if |s| == 0 then [""]
    else
      var rest := Split(s[1..], sep);
      if s[0] == sep then
        assert ([""] + rest)[1..] == rest;
        [""] + rest
      else
        JoinHead(s[0], rest, sep);
        [[s[0]] + rest[0]] + rest[1..]
  }

  /** The pieces joined back together with `sep` between neighbours. */
  function Join(parts: seq<string>, sep: char): string
    requires |parts| >= 1
    decreases |parts|
  {
    if |parts| == 1 then parts[0] else parts[0] + [sep] + Join(parts[1..], sep)
  }

  /** Putting a character in front of the first piece puts it in front of the join. */
  lemma JoinHead(c: char, parts: seq<string>, sep: char)
    requires |parts| >= 1
    ensures Join([[c] + parts[0]] + parts[1..], sep) == [c] + Join(parts, sep)
  {
    var q := [[c] + parts[0]] + parts[1..];
    assert q[1..] == parts[1..];
  }

  /** How many times `c` occurs in `s`. */
  function Occurrences(s: string, c: char): nat
    decreases |s|
  {
    if |s| == 0 then 0 else (if s[0] == c then 1 else 0) + Occurrences(s[1..], c)
  }

  /** Splitting gives one piece more than there are separators. */
  lemma {:induction false} SplitCount(s: string, sep: char)
    ensures |Split(s, sep)| == Occurrences(s, sep) + 1
    decreases |s|
  {
    if |s| > 0 {
      SplitCount(s[1..], sep);
    }
  }

  lemma {:induction false} SplitWithout(s: string, sep: char)
    requires sep !in s
    ensures Split(s, sep) == [s]
    decreases |s|
  {
    if |s| > 0 {
      assert sep !in s[1..] by {
        forall k | 0 <= k < |s[1..]| ensures s[1..][k] != sep {
          assert s[1..][k] == s[k + 1];
        }
      }
      SplitWithout(s[1..], sep);
      assert [s[0]] + s[1..] == s;
    }
  }

  /** Two separator-free pieces joined by one separator split back into those two pieces. */
  lemma {:induction false} SplitTwo(a: string, b: string, sep: char)
    requires sep !in a && sep !in b
    ensures Split(a + [sep] + b, sep) == [a, b]
    decreases |a|
  {
    if |a| == 0 {
      assert a + [sep] + b == [sep] + b;
      assert ([sep] + b)[1..] == b;
      SplitWithout(b, sep);
    } else {
      var s := a + [sep] + b;
      assert s[0] == a[0];
      assert s[1..] == a[1..] + [sep] + b;
      assert sep !in a[1..] by {
        forall k | 0 <= k < |a[1..]| ensures a[1..][k] != sep {
          assert a[1..][k] == a[k + 1];
        }
      }
      SplitTwo(a[1..], b, sep);
      assert [a[0]] + a[1..] == a;
    }
  }

  /** The index of the first `c` in `s`, if any. */
  function Find(s: string, c: char): (r: Option<nat>)
    ensures r.Some? ==> r.value < |s| && s[r.value] == c && c !in s[..r.value]
    ensures r.None? <==> c !in s
    decreases |s|
  {
    if |s| == 0 then None
    else if s[0] == c then Some(0)
    else match Find(s[1..], c)
      case None => None
      case Some(k) => Some(k + 1)
  }

  /** The first `c` in `a + b` is the head of `b` when `a` has none. */
  lemma {:induction false} FindAfter(a: string, b: string, c: char)
    requires c !in a && |b| > 0 && b[0] == c
    ensures Find(a + b, c) == Some(|a|)
    decreases |a|
  {
    if |a| > 0 {
      assert (a + b)[0] == a[0];
      assert (a + b)[1..] == a[1..] + b;
      FindAfter(a[1..], b, c);
    }
  }

  /** The first piece of a split is the text up to the first separator, or all of it. */
  lemma {:induction false} SplitHead(s: string, sep: char)
    ensures Find(s, sep).Some? ==> Split(s, sep)[0] == s[..Find(s, sep).value]
    ensures Find(s, sep).None? ==> Split(s, sep)[0] == s
    decreases |s|
  {
    if |s| > 0 && s[0] != sep {
      SplitHead(s[1..], sep);
      if Find(s[1..], sep).Some? {
        var k := Find(s[1..], sep).value;
        assert s[..k + 1] == [s[0]] + s[1..][..k];
      } else {
        assert s == [s[0]] + s[1..];
      }
    }
  }

  predicate StartsWith(s: string, prefix: string)
  {
    |prefix| <= |s| && s[..|prefix|] == prefix
  }

  /** Strips `prefix` from the front as many times as it occurs there. */
  function TrimStartMatches(s: string, prefix: string): (r: string)
    requires |prefix| > 0
    ensures !StartsWith(r, prefix)
    ensures |r| <= |s| && r == s[|s| - |r|..]
    ensures Copies(s[..|s| - |r|], prefix)
    decreases |s|
  {
    if StartsWith(s, prefix) then
      var r := TrimStartMatches(s[|prefix|..], prefix);
      assert s[..|s| - |r|][|prefix|..] == s[|prefix|..][..|s| - |prefix| - |r|];
      r
    else
      s
  }

  /** `t` is zero or more copies of `p` in a row. */
  predicate Copies(t: string, p: string)
    decreases |t|
  {
    |t| == 0 || (|p| > 0 && StartsWith(t, p) && Copies(t[|p|..], p))
  }

  /** The characters with the Unicode White_Space property. */
  predicate IsWhitespace(c: char)
  {
    c == ' ' || c == '\t' || c == '\n' || c == '\r' || c == '\U{000B}' || c == '\U{000C}'
    || c == '\U{0085}' || c == '\U{00A0}' || c == '\U{1680}' || ('\U{2000}' <= c <= '\U{200A}')
    || c == '\U{2028}' || c == '\U{2029}' || c == '\U{202F}' || c == '\U{205F}' || c == '\U{3000}'
  }

  function TrimStart(s: string): (r: string)
    ensures |r| <= |s| && r == s[|s| - |r|..]
    ensures |r| > 0 ==> !IsWhitespace(r[0])
    ensures forall k :: 0 <= k < |s| - |r| ==> IsWhitespace(s[k])
    decreases |s|
  {
    if |s| > 0 && IsWhitespace(s[0]) then TrimStart(s[1..]) else s
  }

  function TrimEnd(s: string): (r: string)
    ensures |r| <= |s| && r == s[..|r|]
    ensures |r| > 0 ==> !IsWhitespace(r[|r| - 1])
    ensures forall k :: |r| <= k < |s| ==> IsWhitespace(s[k])
    decreases |s|
  {
    if |s| > 0 && IsWhitespace(s[|s| - 1]) then TrimEnd(s[..|s| - 1]) else s
  }

  /** Leading and trailing whitespace removed. */
  function Trim(s: string): (r: string)
    ensures |r| > 0 ==> !IsWhitespace(r[0]) && !IsWhitespace(r[|r| - 1])
  {
    TrimEnd(TrimStart(s))
  }

  /** The length of the leading run of non-whitespace characters. */
  function RunLength(s: string): (n: nat)
    ensures n <= |s|
    ensures forall j :: 0 <= j < n ==> !IsWhitespace(s[j])
    ensures n < |s| ==> IsWhitespace(s[n])
    decreases |s|
  {
    if |s| == 0 || IsWhitespace(s[0]) then 0 else 1 + RunLength(s[1..])
  }

  predicate WhitespaceFree(w: string)
  {
    forall j :: 0 <= j < |w| ==> !IsWhitespace(w[j])
  }

  /** The maximal whitespace-free pieces of `s`, in order (Rust's `split_whitespace`). */
  function Words(s: string): (words: seq<string>)
    ensures forall k :: 0 <= k < |words| ==> |words[k]| > 0 && WhitespaceFree(words[k])
    decreases |s|
  {
    if |s| == 0 then []
    else if IsWhitespace(s[0]) then Words(s[1..])
    else
      var n := RunLength(s);
      [s[..n]] + Words(s[n..])
  }

  /** The words are the maximal runs of non-whitespace of `s`, in order, and nothing else is dropped. */
  lemma {:induction false} WordsAreMaximalRuns(s: string)
    ensures exists gaps :: Layout(s, gaps, Words(s))
    decreases |s|
  {
    if |s| == 0 {
      assert Words(s) == [];
      assert Weave([""], []) == s;
      assert Layout(s, [""], Words(s));
    } else if IsWhitespace(s[0]) {
      WordsAreMaximalRuns(s[1..]);
      GapGrows(s, Words(s[1..]));
      assert Words(s) == Words(s[1..]);
    } else {
      var n := RunLength(s);
      WordsAreMaximalRuns(s[n..]);
      WordInFront(s, n, Words(s[n..]));
      assert Words(s) == [s[..n]] + Words(s[n..]);
    }
  }

  predicate AllWhitespace(g: string)
  {
    forall j :: 0 <= j < |g| ==> IsWhitespace(g[j])
  }

  /** gaps[0] + words[0] + gaps[1] + ... + words[n-1] + gaps[n]. */
  function Weave(gaps: seq<string>, words: seq<string>): string
    requires |gaps| == |words| + 1
    decreases |words|
  {
    if |words| == 0 then gaps[0] else gaps[0] + words[0] + Weave(gaps[1..], words[1..])
  }

  /**
   * `s` is the words in order, separated by whitespace gaps that are
   * non-empty between two words; with whitespace-free, non-empty words this
   * makes them the maximal runs of non-whitespace of `s`.
   */
  ghost predicate Layout(s: string, gaps: seq<string>, words: seq<string>)
  {
    && |gaps| == |words| + 1
    && (forall i :: 0 <= i < |gaps| ==> AllWhitespace(gaps[i]))
    && (forall i :: 0 < i < |words| ==> |gaps[i]| > 0)
    && s == Weave(gaps, words)
  }

  /** A leading whitespace character joins the first gap. */
  lemma GapGrows(s: string, words: seq<string>)
    requires |s| > 0 && IsWhitespace(s[0])
    requires exists gaps :: Layout(s[1..], gaps, words)
    ensures exists gaps :: Layout(s, gaps, words)
  {
    var gaps :| Layout(s[1..], gaps, words);
    var g := [[s[0]] + gaps[0]] + gaps[1..];
    assert g[1..] == gaps[1..];
    assert s == [s[0]] + s[1..];
    if |words| > 0 {
      assert Weave(g, words) == [s[0]] + gaps[0] + words[0] + Weave(gaps[1..], words[1..]);
    }
    assert AllWhitespace(g[0]);
    assert Layout(s, g, words);
  }

  /** A leading run of non-whitespace becomes the first word, behind an empty gap. */
  lemma WordInFront(s: string, n: nat, words: seq<string>)
    requires 0 < n <= |s| && WhitespaceFree(s[..n])
    requires n < |s| ==> IsWhitespace(s[n])
    requires forall k :: 0 <= k < |words| ==> |words[k]| > 0 && WhitespaceFree(words[k])
    requires exists gaps :: Layout(s[n..], gaps, words)
    ensures exists gaps :: Layout(s, gaps, [s[..n]] + words)
  {
    var gaps :| Layout(s[n..], gaps, words);
    var w := [s[..n]] + words;
    var g := [""] + gaps;
    assert g[1..] == gaps && w[1..] == words;
    assert s == s[..n] + s[n..];
    if |words| > 0 {
      var t := s[n..];
      assert t == gaps[0] + words[0] + Weave(gaps[1..], words[1..]);
      assert !IsWhitespace(words[0][0]);
      assert IsWhitespace(t[0]);
      assert |gaps[0]| > 0;
    }
    assert Layout(s, g, w);
  }

  /** Leading whitespace does not change the words. */
  lemma {:induction false} WordsSkip(gap: string, s: string)
    requires forall j :: 0 <= j < |gap| ==> IsWhitespace(gap[j])
    ensures Words(gap + s) == Words(s)
    decreases |gap|
  {
    if |gap| > 0 {
      assert (gap + s)[0] == gap[0];
      assert (gap + s)[1..] == gap[1..] + s;
      WordsSkip(gap[1..], s);
    } else {
      assert gap + s == s;
    }
  }

  lemma {:induction false} RunLengthOf(a: string, s: string)
    requires WhitespaceFree(a)
    requires |s| == 0 || IsWhitespace(s[0])
    ensures RunLength(a + s) == |a|
    decreases |a|
  {
    if |a| == 0 {
      assert a + s == s;
    } else {
      assert (a + s)[0] == a[0];
      assert (a + s)[1..] == a[1..] + s;
      RunLengthOf(a[1..], s);
    }
  }

  /** A whitespace-free word followed by whitespace or nothing is the first word. */
  lemma WordsHead(a: string, s: string)
    requires |a| > 0 && WhitespaceFree(a)
    requires |s| == 0 || IsWhitespace(s[0])
    ensures Words(a + s) == [a] + Words(s)
  {
    var t := a + s;
    RunLengthOf(a, s);
    assert !IsWhitespace(t[0]);
    assert t[..|a|] == a && t[|a|..] == s;
  }

  /** A whitespace-free text is one word. */
  lemma WordsSingle(b: string)
    requires |b| > 0 && WhitespaceFree(b)
    ensures Words(b) == [b]
  {
    RunLengthAll(b);
    assert b[..|b|] == b;
    assert Words(b[|b|..]) == [];
  }

  lemma {:induction false} RunLengthAll(b: string)
    requires WhitespaceFree(b)
    ensures RunLength(b) == |b|
    decreases |b|
  {
    if |b| > 0 {
      assert WhitespaceFree(b[1..]) by {
        forall j | 0 <= j < |b[1..]| ensures !IsWhitespace(b[1..][j]) {
          assert b[1..][j] == b[j + 1];
        }
      }
      RunLengthAll(b[1..]);
    }
  }

  /** Two words separated by one space split into exactly those two words. */
  lemma TwoWords(a: string, b: string)
    requires |a| > 0 && WhitespaceFree(a)
    requires |b| > 0 && WhitespaceFree(b)
    ensures Words(a + " " + b) == [a, b]
  {
    var gap := " " + b;
    assert Words(a + gap) == [a] + Words(gap) by { WordsHead(a, gap); }
    assert Words(gap) == Words(b) by { WordsSkip(" ", b); }
    assert Words(b) == [b] by { WordsSingle(b); }
    assert a + " " + b == a + gap;
  }
}
