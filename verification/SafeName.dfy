/** `to_safe_name`: a five-pass normaliser from command ids to names over [a-zA-Z0-9_]. */
module SafeName {
  import opened Text

  predicate Alphanumeric(c: char) {
    'a' <= c <= 'z' || 'A' <= c <= 'Z' || '0' <= c <= '9'
  }

  function Replace(s: string, c: char): string {
    if s == "" then "" else [if s[0] == c then '_' else s[0]] + Replace(s[1..], c)
  }

  /** `re.sub("[^a-zA-Z0-9_]", "", s)`. */
  function KeepWord(s: string): string {
    if s == "" then ""
    else (if Alphanumeric(s[0]) || s[0] == '_' then [s[0]] else "") + KeepWord(s[1..])
  }

  /** `re.sub("_+", "_", s)`. */
  function Collapse(s: string): string {
    if s == "" then ""
    else if |s| > 1 && s[0] == '_' && s[1] == '_' then Collapse(s[1..])
    else [s[0]] + Collapse(s[1..])
  }

  function TrimLeft(s: string): string {
    if s != "" && s[0] == '_' then TrimLeft(s[1..]) else s
  }

  function TrimRight(s: string): string {
    if s != "" && s[|s| - 1] == '_' then TrimRight(s[..|s| - 1]) else s
  }

  /** The passes after the initial `strip()`, up to and including the character filter. */
  function WordPasses(s: string): string {
    KeepWord(Replace(Replace(Replace(s, '.'), ' '), '-'))
  }

  function ToSafeName(id: string): string {
    if id == "" then "" else TrimRight(TrimLeft(Collapse(WordPasses(Strip(id)))))
  }

  /** Characters that become an underscore. */
  predicate Joint(c: char) {
    c == '.' || c == ' ' || c == '-' || c == '_'
  }

  /**
    One pass over the id. `pending`: a joint was read since the last letter; `started`: a letter
    was emitted. A pending underscore is emitted only between two letters.
  */
  function Scan(s: string, pending: bool, started: bool): string {
    if s == "" then ""
    else if Alphanumeric(s[0]) then
      (if pending && started then "_" else "") + [s[0]] + Scan(s[1..], false, true)
    else Scan(s[1..], pending || Joint(s[0]), started)
  }

  function OnePass(id: string): string { Scan(id, false, false) }

  /** Empty, or chunks of letters and digits joined by single underscores. */
  predicate Chunked(t: string) {
    && (forall i :: 0 <= i < |t| ==> Alphanumeric(t[i]) || t[i] == '_')
    && (t != "" ==> t[0] != '_' && t[|t| - 1] != '_')
    && (forall i :: 0 <= i < |t| - 1 ==> t[i] != '_' || t[i + 1] != '_')
  }

  lemma {:induction false} TrimRightCons(c: char, t: string)
    ensures TrimRight([c] + t) ==
            if TrimRight(t) == "" && c == '_' then "" else [c] + TrimRight(t)
  {
    var s := [c] + t;
    if t == "" {
      assert s[..0] == "";
    } else if t[|t| - 1] == '_' {
      assert s[..|s| - 1] == [c] + t[..|t| - 1];
      TrimRightCons(c, t[..|t| - 1]);
    }
  }

  lemma WordPassesStep(s: string)
    requires s != ""
    ensures WordPasses(s) ==
            (if Joint(s[0]) then "_" else if Alphanumeric(s[0]) then [s[0]] else "") + WordPasses(s[1..])
  {
    var a := Replace(s, '.');
    var b := Replace(a, ' ');
    assert a[1..] == Replace(s[1..], '.');
    assert b[1..] == Replace(a[1..], ' ');
    assert Replace(b, '-')[1..] == Replace(b[1..], '-');
  }

  /** After a letter: the scan agrees with collapsing and trimming on the right. */
  lemma {:induction false} ScanAfterLetter(s: string)
    ensures Scan(s, false, true) == TrimRight(Collapse(WordPasses(s)))
    ensures Scan(s, true, true) == TrimRight(Collapse("_" + WordPasses(s)))
  {
    if s == "" {
      assert Collapse("_" + WordPasses(s)) == "_";
      assert "_"[..0] == "";
    } else {
      WordPassesStep(s);
      ScanAfterLetter(s[1..]);
      var rest := WordPasses(s[1..]);
      if Alphanumeric(s[0]) {
        assert WordPasses(s) == [s[0]] + rest;
        var u := "_" + WordPasses(s);
        assert u[1..] == WordPasses(s) && WordPasses(s)[1..] == rest;
        TrimRightCons(s[0], Collapse(rest));
        TrimRightCons('_', [s[0]] + Collapse(rest));
      } else if Joint(s[0]) {
        assert WordPasses(s) == "_" + rest;
        assert ("_" + ("_" + rest))[1..] == "_" + rest;
      } else {
        assert WordPasses(s) == rest;
      }
    }
  }

  lemma {:induction false} TrimLeftCollapse(w: string)
    ensures TrimLeft(Collapse("_" + w)) == TrimLeft(Collapse(w))
  {
    assert ("_" + w)[1..] == w;
    if w != "" && w[0] == '_' {
    } else {
      assert Collapse("_" + w) == "_" + Collapse(w);
      assert ("_" + Collapse(w))[1..] == Collapse(w);
    }
  }

  /** Before the first letter: pending joints do not matter. */
  lemma {:induction false} ScanBeforeLetter(s: string, pending: bool)
    ensures Scan(s, pending, false) == TrimRight(TrimLeft(Collapse(WordPasses(s))))
  {
    if s != "" {
      WordPassesStep(s);
      var rest := WordPasses(s[1..]);
      if Alphanumeric(s[0]) {
        ScanAfterLetter(s[1..]);
        assert WordPasses(s) == [s[0]] + rest;
        assert WordPasses(s)[1..] == rest;
        TrimRightCons(s[0], Collapse(rest));
      } else {
        ScanBeforeLetter(s[1..], pending || Joint(s[0]));
        if Joint(s[0]) {
          TrimLeftCollapse(rest);
        } else {
          assert WordPasses(s) == rest;
        }
      }
    }
  }

  lemma {:induction false} ScanIgnoresLeadingSpace(s: string, pending: bool)
    ensures Scan(StripLeft(s), pending, false) == Scan(s, pending, false)
  {
    if s != "" && IsSpace(s[0]) {
      ScanIgnoresLeadingSpace(s[1..], pending);
      ScanBeforeLetter(s[1..], pending);
      ScanBeforeLetter(s[1..], pending || Joint(s[0]));
    }
  }

  lemma {:induction false} ScanIgnoresLastSpace(s: string, c: char, pending: bool, started: bool)
    requires IsSpace(c)
    ensures Scan(s + [c], pending, started) == Scan(s, pending, started)
  {
    if s == "" {
      assert s + [c] == [c] && [c][1..] == "";
    } else {
      assert (s + [c])[1..] == s[1..] + [c];
      ScanIgnoresLastSpace(s[1..], c, false, true);
      ScanIgnoresLastSpace(s[1..], c, pending || Joint(s[0]), started);
    }
  }

  lemma {:induction false} ScanIgnoresTrailingSpace(s: string, pending: bool, started: bool)
    ensures Scan(StripRight(s), pending, started) == Scan(s, pending, started)
  {
    if s != "" && IsSpace(s[|s| - 1]) {
      var front := s[..|s| - 1];
      ScanIgnoresTrailingSpace(front, pending, started);
      assert s == front + [s[|s| - 1]];
      ScanIgnoresLastSpace(front, s[|s| - 1], pending, started);
    }
  }

  /** The five passes compute what one left-to-right pass computes. */
  lemma PipelineIsOnePass(id: string)
    ensures ToSafeName(id) == OnePass(id)
  {
    ScanBeforeLetter(Strip(id), false);
    ScanIgnoresTrailingSpace(StripLeft(id), false, false);
    ScanIgnoresLeadingSpace(id, false);
  }

  /** What may follow a letter in a chunked name. */
  predicate AfterLetter(t: string) {
    t == ""
    || (Alphanumeric(t[0]) && AfterLetter(t[1..]))
    || (t[0] == '_' && |t| > 1 && Alphanumeric(t[1]) && AfterLetter(t[2..]))
  }

  lemma {:induction false} AfterLetterIsChunked(c: char, t: string)
    requires Alphanumeric(c)
    ensures AfterLetter(t) <==> Chunked([c] + t)
    decreases |t|
  {
    if t == "" {
    } else if Alphanumeric(t[0]) {
      assert [t[0]] + t[1..] == t;
      AfterLetterIsChunked(t[0], t[1..]);
      PrependLetter(c, t);
    } else if t[0] == '_' && |t| > 1 && Alphanumeric(t[1]) {
      var u := t[1..];
      assert [t[1]] + t[2..] == u && t == "_" + u;
      AfterLetterIsChunked(t[1], t[2..]);
      PrependJoint(c, u);
      assert [c] + t == [c] + "_" + u;
    } else {
      var s := [c] + t;
      assert s[1] == t[0] && (|t| > 1 ==> s[2] == t[1]);
    }
  }

  lemma PrependLetter(c: char, t: string)
    requires Alphanumeric(c) && t != "" && t[0] != '_'
    ensures Chunked([c] + t) <==> Chunked(t)
  {
    var s := [c] + t;
    if Chunked(s) {
      forall i | 0 <= i < |t| ensures t[i] == s[i + 1] {}
    }
  }

  lemma PrependJoint(c: char, u: string)
    requires Alphanumeric(c) && u != "" && u[0] != '_'
    ensures Chunked([c] + "_" + u) <==> Chunked(u)
  {
    var s := [c] + "_" + u;
    if Chunked(s) {
      forall i | 0 <= i < |u| ensures u[i] == s[i + 2] {}
    }
  }

  lemma {:induction false} ScanIsAfterLetter(s: string, pending: bool)
    ensures AfterLetter(Scan(s, pending, true))
  {
    if s != "" {
      ScanIsAfterLetter(s[1..], false);
      ScanIsAfterLetter(s[1..], pending || Joint(s[0]));
      if Alphanumeric(s[0]) && pending {
        var t := Scan(s[1..], false, true);
        assert Scan(s, pending, true) == "_" + [s[0]] + t;
        assert ("_" + [s[0]] + t)[2..] == t;
      }
    }
  }

  lemma {:induction false} ScanIsChunked(s: string, pending: bool)
    ensures Chunked(Scan(s, pending, false))
  {
    if s != "" {
      if Alphanumeric(s[0]) {
        ScanIsAfterLetter(s[1..], false);
        AfterLetterIsChunked(s[0], Scan(s[1..], false, true));
        assert Scan(s, pending, false) == [s[0]] + Scan(s[1..], false, true);
      } else {
        ScanIsChunked(s[1..], pending || Joint(s[0]));
      }
    }
  }

  lemma {:induction false} ScanKeepsAfterLetter(t: string)
    requires AfterLetter(t)
    ensures Scan(t, false, true) == t
    decreases |t|
  {
    if t != "" {
      if Alphanumeric(t[0]) {
        ScanKeepsAfterLetter(t[1..]);
        assert t == [t[0]] + t[1..];
      } else {
        ScanKeepsAfterLetter(t[2..]);
        assert t[1..][1..] == t[2..] && t[1..][0] == t[1];
        assert Scan(t[1..], true, true) == "_" + [t[1]] + Scan(t[2..], false, true);
        assert t == "_" + [t[1]] + t[2..];
      }
    }
  }

  lemma OnePassKeepsChunked(t: string)
    requires Chunked(t)
    ensures OnePass(t) == t
  {
    if t != "" {
      assert t == [t[0]] + t[1..];
      AfterLetterIsChunked(t[0], t[1..]);
      ScanKeepsAfterLetter(t[1..]);
    }
  }

  /** Results are in normal form, and the names left unchanged are exactly the normal forms. */
  lemma SafeNamesAreTheFixedPoints(id: string)
    ensures Chunked(ToSafeName(id))
    ensures ToSafeName(id) == id <==> Chunked(id)
    ensures ToSafeName(ToSafeName(id)) == ToSafeName(id)
  {
    PipelineIsOnePass(id);
    ScanIsChunked(id, false);
    PipelineIsOnePass(OnePass(id));
    OnePassKeepsChunked(OnePass(id));
    if Chunked(id) {
      OnePassKeepsChunked(id);
    }
  }

  // ----- what becomes of each part of an id -----

  /** ASCII letters and digits, by their codes. */
  predicate Letter(c: char) {
    97 <= c as int <= 122 || 65 <= c as int <= 90 || 48 <= c as int <= 57
  }

  predicate NoLetters(g: string) {
    forall c :: c in g ==> !Letter(c)
  }

  predicate HasJoint(g: string) {
    '.' in g || ' ' in g || '-' in g || '_' in g
  }

  lemma {:induction false} ScanSplits(x: string, rest: string, pending: bool, started: bool)
    requires x != "" && Alphanumeric(x[|x| - 1])
    ensures Scan(x + rest, pending, started) == Scan(x, pending, started) + Scan(rest, false, true)
  {
    assert (x + rest)[1..] == x[1..] + rest;
    if |x| > 1 {
      ScanSplits(x[1..], rest, false, true);
      ScanSplits(x[1..], rest, pending || Joint(x[0]), started);
    } else {
      assert x[1..] == "" && "" + rest == rest;
    }
  }

  lemma {:induction false} ScanGap(g: string, y: string, pending: bool, started: bool)
    requires NoLetters(g) && y != "" && Alphanumeric(y[0])
    ensures Scan(g + y, pending, started) == (if started && (pending || HasJoint(g)) then "_" else "") + OnePass(y)
  {
    if g == "" {
      assert g + y == y;
    } else {
      assert (g + y)[1..] == g[1..] + y && g[0] in g;
      assert g == [g[0]] + g[1..];
      ScanGap(g[1..], y, pending || Joint(g[0]), started);
    }
  }

  /** Between two letters or digits, what lies in between becomes one underscore, or vanishes without a joint. */
  lemma {:induction false} GapsBecomeUnderscores(x: string, g: string, y: string)
    requires x != "" && Letter(x[|x| - 1]) && NoLetters(g) && y != "" && Letter(y[0])
    ensures ToSafeName(x + g + y) == ToSafeName(x) + (if HasJoint(g) then "_" else "") + ToSafeName(y)
  {
    PipelineIsOnePass(x);
    PipelineIsOnePass(y);
    PipelineIsOnePass(x + g + y);
    assert x + g + y == x + (g + y);
    ScanSplits(x, g + y, false, false);
    ScanGap(g, y, false, true);
  }

  lemma {:induction false} ScanNothing(g: string, pending: bool, started: bool)
    requires NoLetters(g)
    ensures Scan(g, pending, started) == ""
  {
    if g != "" {
      assert g[0] in g;
      ScanNothing(g[1..], pending || Joint(g[0]), started);
    }
  }

  /** What comes before the first and after the last letter or digit is dropped, and a run of them stays. */
  lemma {:induction false} EndsAreDropped(g: string, x: string, g': string)
    requires NoLetters(g) && NoLetters(g')
    requires x != "" ==> Letter(x[0]) && Letter(x[|x| - 1])
    ensures ToSafeName(g + x + g') == ToSafeName(x)
    ensures (forall c :: c in x ==> Letter(c)) ==> ToSafeName(x) == x
  {
    PipelineIsOnePass(g + x + g');
    PipelineIsOnePass(x);
    ScanNothing(g', false, true);
    if x == "" {
      assert g + x + g' == g + g';
      ScanNothing(g + g', false, false);
    } else {
      assert g + x + g' == g + (x + g');
      ScanGap(g, x + g', false, false);
      ScanSplits(x, g', false, false);
    }
    if forall c :: c in x ==> Letter(c) {
      LettersStay(x);
    }
  }

  lemma LettersStay(x: string)
    requires forall c :: c in x ==> Letter(c)
    ensures ToSafeName(x) == x
  {
    assert forall i :: 0 <= i < |x| ==> x[i] in x;
    SafeNamesAreTheFixedPoints(x);
  }
}
