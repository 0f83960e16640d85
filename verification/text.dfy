/** Python's whitespace handling on strings: `str.split()` with no argument,
    `str.strip()` and `' '.join(...)`. */
module Text {

  /** The characters for which Python's `str.isspace()` holds; `split()` and
      `strip()` without arguments cut on exactly these. */
  const Whitespace: set<char> := {
    '\t', '\n', '\U{0B}', '\U{0C}', '\r', '\U{1C}', '\U{1D}', '\U{1E}', '\U{1F}', ' ',
    '\U{85}', '\U{A0}', '\U{1680}',
    '\U{2000}', '\U{2001}', '\U{2002}', '\U{2003}', '\U{2004}', '\U{2005}',
    '\U{2006}', '\U{2007}', '\U{2008}', '\U{2009}', '\U{200A}',
    '\U{2028}', '\U{2029}', '\U{202F}', '\U{205F}', '\U{3000}'
  }

  predicate IsSpace(c: char)
  {
    c in Whitespace
  }

  /** A token `split()` can produce: non-empty and free of whitespace. */
  predicate IsWord(w: string)
  {
    |w| > 0 && forall i :: 0 <= i < |w| ==> !IsSpace(w[i])
  }

  /** Python's `s.lstrip()`. */
  function TrimStart(s: string): (r: string)
    ensures |r| <= |s|
    ensures r == [] || !IsSpace(r[0])
    decreases |s|
  {
    if s == [] || !IsSpace(s[0]) then s else TrimStart(s[1..])
  }

  /** Python's `s.rstrip()`. */
  function TrimEnd(s: string): (r: string)
    ensures |r| <= |s|
    ensures r == [] || !IsSpace(r[|r| - 1])
    decreases |s|
  {
    if s == [] || !IsSpace(s[|s| - 1]) then s else TrimEnd(s[..|s| - 1])
  }

  /** Python's `s.strip()`. */
  function Strip(s: string): string
  {
    TrimEnd(TrimStart(s))
  }

  /** Length of the leading run of non-whitespace characters of s. */
  function WordEnd(s: string): (n: nat)
    ensures n <= |s|
    ensures s != [] && !IsSpace(s[0]) ==> n > 0
    decreases |s|
  {
    if s == [] || IsSpace(s[0]) then 0 else 1 + WordEnd(s[1..])
  }

  /** Python's `s.split()`: the maximal runs of non-whitespace characters, in order. */
  function Split(s: string): seq<string>
    decreases |s|
  {
    var t := TrimStart(s);
    if t == [] then [] else var n := WordEnd(t); [t[..n]] + Split(t[n..])
  }

  /** Python's `' '.join(ws)`. */
  function Join(ws: seq<string>): string
    decreases |ws|
  {
    if |ws| == 0 then "" else if |ws| == 1 then ws[0] else ws[0] + " " + Join(ws[1..])
  }

  /** `lstrip` removes exactly a leading run of whitespace. */
  lemma {:induction false} TrimStartDropsSpaces(s: string)
    ensures TrimStart(s) == s[|s| - |TrimStart(s)|..]
    ensures forall i :: 0 <= i < |s| - |TrimStart(s)| ==> IsSpace(s[i])
    decreases |s|
  {
    if s != [] && IsSpace(s[0]) {
      TrimStartDropsSpaces(s[1..]);
    }
  }

  /** `rstrip` removes exactly a trailing run of whitespace. */
  lemma {:induction false} TrimEndDropsSpaces(s: string)
    ensures TrimEnd(s) == s[..|TrimEnd(s)|]
    ensures forall i :: |TrimEnd(s)| <= i < |s| ==> IsSpace(s[i])
    decreases |s|
  {
    if s != [] && IsSpace(s[|s| - 1]) {
      TrimEndDropsSpaces(s[..|s| - 1]);
    }
  }

  /** The characters before WordEnd(s) are not whitespace, and the one at WordEnd(s), if any, is. */
  lemma {:induction false} WordEndIsRunEnd(s: string)
    ensures forall i :: 0 <= i < WordEnd(s) ==> !IsSpace(s[i])
    ensures WordEnd(s) == |s| || IsSpace(s[WordEnd(s)])
    decreases |s|
  {
    if s != [] && !IsSpace(s[0]) {
      WordEndIsRunEnd(s[1..]);
    }
  }

  lemma {:induction false} WordEndOfWord(w: string, tail: string)
    requires forall i :: 0 <= i < |w| ==> !IsSpace(w[i])
    requires tail == [] || IsSpace(tail[0])
    ensures WordEnd(w + tail) == |w|
    decreases |w|
  {
    if w == [] {
      assert w + tail == tail;
    } else {
      assert (w + tail)[1..] == w[1..] + tail;
      WordEndOfWord(w[1..], tail);
    }
  }

  lemma {:induction false} TrimStartSkipsSpaces(sp: string, s: string)
    requires forall i :: 0 <= i < |sp| ==> IsSpace(sp[i])
    ensures TrimStart(sp + s) == TrimStart(s)
    decreases |sp|
  {
    if sp == [] {
      assert sp + s == s;
    } else {
      assert (sp + s)[1..] == sp[1..] + s;
      TrimStartSkipsSpaces(sp[1..], s);
    }
  }

  /** Every token of a split is non-empty and free of whitespace. */
  lemma {:induction false} SplitGivesWords(s: string)
    ensures forall i :: 0 <= i < |Split(s)| ==> IsWord(Split(s)[i])
    decreases |s|
  {
    var t := TrimStart(s);
    if t != [] {
      var n := WordEnd(t);
      WordEndIsRunEnd(t);
      SplitGivesWords(t[n..]);
      assert IsWord(t[..n]);
      var ws := Split(s);
      assert ws == [t[..n]] + Split(t[n..]);
      assert forall i :: 1 <= i < |ws| ==> ws[i] == Split(t[n..])[i - 1];
    }
  }

  /** Leading whitespace never changes the split. */
  lemma SplitSkipsLeadingSpace(sp: string, s: string)
    requires forall i :: 0 <= i < |sp| ==> IsSpace(sp[i])
    ensures Split(sp + s) == Split(s)
  {
    TrimStartSkipsSpaces(sp, s);
  }

  /** A word followed by nothing or by whitespace is split off as the first token. */
  lemma SplitWordThen(w: string, tail: string)
    requires IsWord(w)
    requires tail == [] || IsSpace(tail[0])
    ensures Split(w + tail) == [w] + Split(tail)
  {
    var s := w + tail;
    assert s[0] == w[0];
    assert TrimStart(s) == s;
    WordEndOfWord(w, tail);
    assert s[..|w|] == w;
    assert s[|w|..] == tail;
  }

  lemma SplitSingle(w: string)
    requires IsWord(w)
    ensures Split(w) == [w]
  {
    assert w + "" == w;
    SplitWordThen(w, "");
  }

  /** A word, one space and a rest split into the word followed by the split of the rest. */
  lemma SplitCons(w: string, rest: string)
    requires IsWord(w)
    ensures Split(w + " " + rest) == [w] + Split(rest)
  {
    var sep := " " + rest;
    assert w + " " + rest == w + sep;
    assert IsSpace(sep[0]);
    SplitWordThen(w, sep);
    SplitSkipsLeadingSpace(" ", rest);
  }

  /** Splitting the single-space join of well-formed tokens gives the tokens back. */
  lemma {:induction false} SplitJoin(ws: seq<string>)
    requires forall i :: 0 <= i < |ws| ==> IsWord(ws[i])
    ensures Split(Join(ws)) == ws
    decreases |ws|
  {
    if |ws| == 1 {
      SplitSingle(ws[0]);
    } else if |ws| > 1 {
      SplitCons(ws[0], Join(ws[1..]));
      SplitJoin(ws[1..]);
      assert ws == [ws[0]] + ws[1..];
    }
  }

  /** Trailing whitespace never changes the split. */
  lemma {:induction false} SplitIgnoresTrailingSpace(s: string, sp: string)
    requires forall i :: 0 <= i < |sp| ==> IsSpace(sp[i])
    ensures Split(s + sp) == Split(s)
    decreases |s|
  {
    if s == [] {
      assert s + sp == sp + [];
      SplitSkipsLeadingSpace(sp, []);
    } else if IsSpace(s[0]) {
      assert s + sp == [s[0]] + (s[1..] + sp);
      assert s == [s[0]] + s[1..];
      SplitSkipsLeadingSpace([s[0]], s[1..] + sp);
      SplitSkipsLeadingSpace([s[0]], s[1..]);
      SplitIgnoresTrailingSpace(s[1..], sp);
    } else {
      var n := WordEnd(s);
      WordEndIsRunEnd(s);
      var w := s[..n];
      assert IsWord(w);
      assert s == w + s[n..];
      assert s + sp == w + (s[n..] + sp);
      SplitWordThen(w, s[n..]);
      SplitWordThen(w, s[n..] + sp);
      SplitIgnoresTrailingSpace(s[n..], sp);
    }
  }

  /** `strip()` only shortens, and leaves no whitespace at either end. */
  lemma StripTrimsBothEnds(s: string)
    ensures |Strip(s)| <= |s|
    ensures Strip(s) == [] || (!IsSpace(Strip(s)[0]) && !IsSpace(Strip(s)[|Strip(s)| - 1]))
  {
    TrimEndDropsSpaces(TrimStart(s));
  }

  /** `s.strip().split()` is `s.split()`: stripping first changes nothing. */
  lemma SplitIgnoresStrip(s: string)
    ensures Split(Strip(s)) == Split(s)
  {
    var t := TrimStart(s);
    TrimStartDropsSpaces(s);
    assert s == s[..|s| - |t|] + t;
    SplitSkipsLeadingSpace(s[..|s| - |t|], t);
    var e := TrimEnd(t);
    TrimEndDropsSpaces(t);
    assert t == e + t[|e|..];
    SplitIgnoresTrailingSpace(e, t[|e|..]);
  }
}
