/** The parts of Python's `str` that the chat pipeline relies on. */
module Text {
  /** The characters that `str.strip()` removes. */
  predicate IsSpace(c: char) {
    var n := c as int;
    || 0x09 <= n <= 0x0D
    || 0x1C <= n <= 0x20
    || n in {0x85, 0xA0, 0x1680, 0x2028, 0x2029, 0x202F, 0x205F, 0x3000}
    || 0x2000 <= n <= 0x200A
  }

  function StripLeft(s: string): string {
    if s != "" && IsSpace(s[0]) then StripLeft(s[1..]) else s
  }

  function StripRight(s: string): string {
    if s != "" && IsSpace(s[|s| - 1]) then StripRight(s[..|s| - 1]) else s
  }

  function Strip(s: string): string {
    StripRight(StripLeft(s))
  }

  /** No white space at either end. */
  predicate Stripped(s: string) {
    s != "" ==> !IsSpace(s[0]) && !IsSpace(s[|s| - 1])
  }

  lemma {:induction false} StripLeftHead(s: string)
    ensures StripLeft(s) != "" ==> !IsSpace(StripLeft(s)[0])
  {
    if s != "" && IsSpace(s[0]) {
      StripLeftHead(s[1..]);
    }
  }

  lemma {:induction false} StripRightEnds(s: string)
    ensures StripRight(s) <= s
    ensures StripRight(s) != "" ==> !IsSpace(StripRight(s)[|StripRight(s)| - 1])
  {
    if s != "" && IsSpace(s[|s| - 1]) {
      StripRightEnds(s[..|s| - 1]);
    }
  }

  /** Stripping is idempotent: its results are exactly the strings it leaves alone. */
  lemma StripFixed(s: string)
    ensures Stripped(Strip(s))
    ensures Strip(s) == s <==> Stripped(s)
  {
    StripLeftHead(s);
    StripRightEnds(StripLeft(s));
  }

  lemma {:induction false} LeftPadding(pad: string, s: string)
    requires forall c :: c in pad ==> IsSpace(c)
    ensures StripLeft(pad + s) == StripLeft(s)
  {
    if pad == "" {
      assert pad + s == s;
    } else {
      assert (pad + s)[1..] == pad[1..] + s && pad[0] in pad;
      LeftPadding(pad[1..], s);
    }
  }

  lemma {:induction false} RightPadding(s: string, pad: string)
    requires forall c :: c in pad ==> IsSpace(c)
    ensures StripRight(s + pad) == StripRight(s)
  {
    if pad == "" {
      assert s + pad == s;
    } else {
      assert (s + pad)[..|s + pad| - 1] == s + pad[..|pad| - 1] && pad[|pad| - 1] in pad;
      RightPadding(s, pad[..|pad| - 1]);
    }
  }

  /** Spaces, tabs and line ends around a text go, and printable ASCII characters at its ends stay. */
  lemma {:induction false} PaddingIsStripped(pad: string, core: string, pad': string)
    requires forall c :: c in pad + pad' ==> c in " \t\n\r\U{000B}\U{000C}"
    requires core != "" ==> '!' <= core[0] <= '~' && '!' <= core[|core| - 1] <= '~'
    ensures Strip(pad + core + pad') == core
  {
    assert forall c :: c in pad ==> c in pad + pad';
    assert forall c :: c in pad' ==> c in pad + pad';
    assert pad + core + pad' == pad + (core + pad');
    LeftPadding(pad, core + pad');
    if core == "" {
      assert core + pad' == pad' + "";
      LeftPadding(pad', "");
    } else {
      assert (core + pad')[0] == core[0];
      RightPadding(core, pad');
    }
  }

  /** White space in full: the 29 code points that Python's `str.isspace` accepts. */
  lemma WhiteSpaceIs(c: char)
    ensures IsSpace(c) <==>
            c in "\t\n\U{000B}\U{000C}\r\U{001C}\U{001D}\U{001E}\U{001F} \U{0085}\U{00A0}\U{1680}"
            || c in "\U{2000}\U{2001}\U{2002}\U{2003}\U{2004}\U{2005}\U{2006}\U{2007}\U{2008}\U{2009}\U{200A}"
            || c in "\U{2028}\U{2029}\U{202F}\U{205F}\U{3000}"
  {
  }

  /**
    A JSON value read as text: falsy (missing, null, empty, ...), a string, or another truthy
    value, which has no `strip` method; `error` is the text of the exception that calling it raises.
  */
  datatype Field = Falsy | Word(text: string) | Odd(error: string)

  /** `a or b or ""`. */
  function FirstTruthy(a: Field, b: Field): Field {
    var chosen := if a == Falsy || a == Word("") then b else a;
    if chosen == Falsy then Word("") else chosen
  }

  predicate EndsWith(s: string, t: string) {
    |t| <= |s| && s[|s| - |t|..] == t
  }

  /** Code-point order on strings, as Python compares them. */
  predicate AtMost(a: string, b: string) {
    a == "" || (b != "" && (a[0] < b[0] || (a[0] == b[0] && AtMost(a[1..], b[1..]))))
  }

  lemma {:induction false} AtMostTotal(a: string, b: string)
    ensures AtMost(a, b) || AtMost(b, a)
  {
    if a != "" && b != "" && a[0] == b[0] {
      AtMostTotal(a[1..], b[1..]);
    }
  }

  lemma {:induction false} AtMostTransitive(a: string, b: string, c: string)
    requires AtMost(a, b) && AtMost(b, c)
    ensures AtMost(a, c)
  {
    if a != "" && a[0] == b[0] == c[0] {
      AtMostTransitive(a[1..], b[1..], c[1..]);
    }
  }

  lemma {:induction false} AtMostAntisymmetric(a: string, b: string)
    requires AtMost(a, b) && AtMost(b, a)
    ensures a == b
  {
    if a != "" {
      AtMostAntisymmetric(a[1..], b[1..]);
      assert a == [a[0]] + a[1..] && b == [b[0]] + b[1..];
    }
  }

  /** `a` and `b` have no common first character. */
  predicate Diverge(a: string, b: string) {
    a == "" || b == "" || a[0] != b[0]
  }

  /** After a common part the order is decided by the first characters that differ, or by the length. */
  lemma {:induction false} AtMostByFirstDifference(p: string, a: string, b: string)
    requires Diverge(a, b)
    ensures AtMost(p + a, p + b) <==> a == "" || (b != "" && a[0] < b[0])
  {
    if p == "" {
      assert p + a == a && p + b == b;
    } else {
      assert (p + a)[1..] == p[1..] + a && (p + b)[1..] == p[1..] + b;
      AtMostByFirstDifference(p[1..], a, b);
    }
  }

  /** Any two strings are compared in this way. */
  lemma {:induction false} FirstDifference(s: string, t: string) returns (p: string, a: string, b: string)
    ensures s == p + a && t == p + b && Diverge(a, b)
  {
    if s != "" && t != "" && s[0] == t[0] {
      p, a, b := FirstDifference(s[1..], t[1..]);
      p := [s[0]] + p;
    } else {
      p, a, b := "", s, t;
    }
  }

  /** A string that differs from every string in `xs`. */
  lemma {:induction false} FreshString(xs: seq<string>) returns (novel: string)
    ensures novel !in xs
    ensures forall x :: x in xs ==> |x| < |novel|
  {
    if xs == [] {
      novel := "";
    } else {
      var rest := FreshString(xs[1..]);
      novel := rest + xs[0] + "x";
    }
  }
}
