/**
  JSON text for lists of strings, as Python's `json.dumps` writes it with its defaults: ASCII only,
  "\uXXXX" escapes with surrogate pairs (sections 5 and 7 of RFC 8259). The reader takes that form.
*/
module Json {
  import opened Values
  import opened Text
  import opened SessionStores

  function HexDigit(d: nat): char
    requires d < 16
  {
    if d < 10 then ('0' as int + d) as char else ('a' as int + d - 10) as char
  }

  function HexValue(c: char): Option<nat> {
    if '0' <= c <= '9' then Some(c as int - '0' as int)
    else if 'a' <= c <= 'f' then Some(c as int - 'a' as int + 10)
    else if 'A' <= c <= 'F' then Some(c as int - 'A' as int + 10)
    else None
  }

  /** The unit as backslash, u and four hex digits. */
  function Unit(n: nat): (s: string)
    requires n < 0x10000
    ensures |s| == 6
  {
    ['\\', 'u', HexDigit(n / 4096), HexDigit(n / 256 % 16), HexDigit(n / 16 % 16), HexDigit(n % 16)]
  }

  /** A code point above 0xFFFF as a surrogate pair. */
  function Pair(n: nat): string
    requires 0x10000 <= n < 0x110000
  {
    Unit(0xD800 + (n - 0x10000) / 1024) + Unit(0xDC00 + (n - 0x10000) % 1024)
  }

  function ReadUnit(s: string): (n: Option<nat>)
    ensures n.Some? ==> |s| >= 6 && n.value < 0x10000
  {
    if |s| < 6 || s[0] != '\\' || s[1] != 'u' then None else
    match (HexValue(s[2]), HexValue(s[3]), HexValue(s[4]), HexValue(s[5]))
    case (Some(a), Some(b), Some(c), Some(d)) =>
      var n := ((a * 16 + b) * 16 + c) * 16 + d;
      if n < 0x10000 then Some(n) else None
    case _ => None
  }

  lemma HexRoundTrip(d: nat)
    requires d < 16
    ensures HexValue(HexDigit(d)) == Some(d)
  {
  }

  lemma HexDigitsOf(n: nat)
    requires n < 0x10000
    ensures n / 4096 < 16
    ensures n == ((n / 4096 * 16 + n / 256 % 16) * 16 + n / 16 % 16) * 16 + n % 16
  {
  }

  lemma UnitRoundTrip(n: nat, rest: string)
    requires n < 0x10000
    ensures ReadUnit(Unit(n) + rest) == Some(n)
  {
    HexDigitsOf(n);
    var a, b, c, d := n / 4096, n / 256 % 16, n / 16 % 16, n % 16;
    HexRoundTrip(a);
    HexRoundTrip(b);
    HexRoundTrip(c);
    HexRoundTrip(d);
    var s := Unit(n) + rest;
    assert s[2] == HexDigit(a) && s[3] == HexDigit(b) && s[4] == HexDigit(c) && s[5] == HexDigit(d);
  }

  /** The letter of a two-character escape. */
  function Short(c: char): Option<char> {
    match c
    case '"' => Some('"')
    case '\\' => Some('\\')
    case '\n' => Some('n')
    case '\r' => Some('r')
    case '\t' => Some('t')
    case '\U{0008}' => Some('b')
    case '\U{000C}' => Some('f')
    case _ => None
  }

  function Unshort(c: char): Option<char> {
    match c
    case '"' => Some('"')
    case '\\' => Some('\\')
    case '/' => Some('/')
    case 'n' => Some('\n')
    case 'r' => Some('\r')
    case 't' => Some('\t')
    case 'b' => Some('\U{0008}')
    case 'f' => Some('\U{000C}')
    case _ => None
  }

  function Escape(c: char): (s: string)
    ensures s != "" && s[0] != '"'
  {
    var n := c as int;
    if Short(c).Some? then ['\\', Short(c).value]
    else if ' ' <= c <= '~' then [c]
    else if n < 0x10000 then Unit(n)
    else Pair(n)
  }

  /** The first character of a string body that does not start with the closing quote. */
  function Unescape(s: string): (r: Option<(char, string)>)
    ensures r.Some? ==> |r.value.1| < |s|
  {
    if s == "" || s[0] < ' ' then None
    else if s[0] != '\\' then Some((s[0], s[1..]))
    else if |s| > 1 && Unshort(s[1]).Some? then Some((Unshort(s[1]).value, s[2..]))
    else match ReadUnit(s)
      case None => None
      case Some(n) =>
        if n < 0xD800 || 0xE000 <= n then Some((n as char, s[6..]))
        else if 0xDC00 <= n then None
        else match ReadUnit(s[6..])
          case None => None
          case Some(m) =>
            if 0xDC00 <= m < 0xE000 then Some(((0x10000 + (n - 0xD800) * 1024 + (m - 0xDC00)) as char, s[12..]))
            else None
  }

  lemma ShortRoundTrip(c: char, rest: string)
    requires Short(c).Some?
    ensures Unshort(Short(c).value) == Some(c)
    ensures Unescape(['\\', Short(c).value] + rest) == Some((c, rest))
  {
    var s := ['\\', Short(c).value] + rest;
    assert s[0] == '\\' && s[1] == Short(c).value && s[2..] == rest;
  }

  lemma SingleUnitRoundTrip(n: nat, rest: string)
    requires n < 0xD800 || 0xE000 <= n < 0x10000
    ensures Unescape(Unit(n) + rest) == Some((n as char, rest))
  {
    var s := Unit(n) + rest;
    UnitRoundTrip(n, rest);
    assert s[0] == '\\' && s[1] == 'u' && s[6..] == rest;
  }

  lemma PairIsUnescaped(s: string, high: nat, low: nat)
    requires |s| >= 12 && s[0] == '\\' && s[1] == 'u'
    requires ReadUnit(s) == Some(high) && ReadUnit(s[6..]) == Some(low)
    requires 0xD800 <= high < 0xDC00 <= low < 0xE000
    ensures Unescape(s) == Some(((0x10000 + (high - 0xD800) * 1024 + (low - 0xDC00)) as char, s[12..]))
  {
  }

  lemma PairRoundTrip(n: nat, rest: string)
    requires 0x10000 <= n < 0x110000
    ensures Unescape(Pair(n) + rest) == Some((n as char, rest))
  {
    var high, low := 0xD800 + (n - 0x10000) / 1024, 0xDC00 + (n - 0x10000) % 1024;
    var tail := Unit(low) + rest;
    var s := Unit(high) + tail;
    assert Unit(high) + Unit(low) + rest == s;
    UnitRoundTrip(high, tail);
    UnitRoundTrip(low, rest);
    assert s[6..] == tail && s[12..] == rest;
    PairIsUnescaped(s, high, low);
  }

  lemma PlainRoundTrip(c: char, rest: string)
    requires ' ' <= c && c != '\\'
    ensures Unescape([c] + rest) == Some((c, rest))
  {
    var s := [c] + rest;
    assert s[0] == c && s[1..] == rest;
  }

  lemma CodeRoundTrip(c: char, rest: string)
    requires Short(c).None? && !(' ' <= c <= '~')
    ensures Unescape(Escape(c) + rest) == Some((c, rest))
  {
    var n := c as int;
    if n < 0x10000 {
      assert Escape(c) == Unit(n);
      SingleUnitRoundTrip(n, rest);
    } else {
      assert Escape(c) == Pair(n);
      PairRoundTrip(n, rest);
    }
  }

  lemma EscapeRoundTrip(c: char, rest: string)
    ensures Unescape(Escape(c) + rest) == Some((c, rest))
  {
    if Short(c).Some? {
      ShortRoundTrip(c, rest);
    } else if ' ' <= c <= '~' {
      PlainRoundTrip(c, rest);
    } else {
      CodeRoundTrip(c, rest);
    }
  }

  /** A string's characters and its closing quote. */
  function Body(s: string): string {
    if s == "" then "\"" else Escape(s[0]) + Body(s[1..])
  }

  function ReadBody(t: string): (r: Option<(string, string)>)
    ensures r.Some? ==> |r.value.1| < |t|
    decreases |t|
  {
    if t == "" then None
    else if t[0] == '"' then Some(("", t[1..]))
    else match Unescape(t)
      case None => None
      case Some((c, after)) =>
        match ReadBody(after)
        case None => None
        case Some((s, rest)) => Some(([c] + s, rest))
  }

  lemma {:induction false} BodyRoundTrip(s: string, rest: string)
    ensures ReadBody(Body(s) + rest) == Some((s, rest))
  {
    if s == "" {
      assert (Body(s) + rest)[1..] == rest;
    } else {
      var tail := Body(s[1..]) + rest;
      assert Body(s) + rest == Escape(s[0]) + tail;
      EscapeRoundTrip(s[0], tail);
      BodyRoundTrip(s[1..], rest);
      assert s == [s[0]] + s[1..];
    }
  }

  /** The items after an opening quote, up to the closing bracket. */
  function Items(xs: seq<string>): string
    requires xs != []
  {
    Body(xs[0]) + (if |xs| == 1 then "]" else ", \"" + Items(xs[1..]))
  }

  function ReadItems(t: string): Option<seq<string>>
    decreases |t|
  {
    match ReadBody(t)
    case None => None
    case Some((s, rest)) =>
      if rest == "]" then Some([s])
      else if |rest| >= 3 && rest[..3] == ", \"" then
        match ReadItems(rest[3..])
        case None => None
        case Some(xs) => Some([s] + xs)
      else None
  }

  lemma {:induction false} ItemsRoundTrip(xs: seq<string>)
    requires xs != []
    ensures ReadItems(Items(xs)) == Some(xs)
  {
    if |xs| == 1 {
      BodyRoundTrip(xs[0], "]");
      assert xs == [xs[0]];
    } else {
      var rest := ", \"" + Items(xs[1..]);
      BodyRoundTrip(xs[0], rest);
      assert rest[..3] == ", \"" && rest[3..] == Items(xs[1..]);
      ItemsRoundTrip(xs[1..]);
      assert xs == [xs[0]] + xs[1..];
    }
  }

  function Dumps(xs: seq<string>): string {
    if xs == [] then "[]" else "[\"" + Items(xs)
  }

  function Loads(t: string): Option<seq<string>> {
    if t == "[]" then Some([])
    else if |t| >= 2 && t[..2] == "[\"" then ReadItems(t[2..])
    else None
  }

  const LIST_CODEC := Codec(Dumps, Loads)

  /** Writing a list of strings and reading it back is lossless, so the store laws hold with it. */
  lemma ListCodecIsLossless()
    ensures Lossless(LIST_CODEC)
  {
    forall xs ensures Loads(Dumps(xs)) == Some(xs) && Strip(Dumps(xs)) != "" {
      if xs != [] {
        var t := Dumps(xs);
        assert t[..2] == "[\"" && t[2..] == Items(xs);
        ItemsRoundTrip(xs);
      }
      assert Dumps(xs)[0] == '[';
      StripKeepsText(Dumps(xs));
    }
  }

  lemma StripKeepsText(s: string)
    requires s != "" && !IsSpace(s[0])
    ensures Strip(s) != ""
  {
    StripRightKeepsHead(s);
  }

  lemma {:induction false} StripRightKeepsHead(s: string)
    requires s != "" && !IsSpace(s[0])
    ensures StripRight(s) != ""
  {
    if IsSpace(s[|s| - 1]) {
      StripRightKeepsHead(s[..|s| - 1]);
    }
  }

  // ----- the text itself -----

  function Escaped(s: string): string {
    if s == "" then "" else Escaped(s[..|s| - 1]) + Escape(s[|s| - 1])
  }

  function Quoted(s: string): string {
    "\"" + Escaped(s) + "\""
  }

  function Joined(xs: seq<string>): string {
    if xs == [] then "" else if |xs| == 1 then Quoted(xs[0])
    else Joined(xs[..|xs| - 1]) + ", " + Quoted(xs[|xs| - 1])
  }

  lemma {:induction false} EscapedFront(c: char, s: string)
    ensures Escaped([c] + s) == Escape(c) + Escaped(s)
  {
    if s == "" {
      assert [c] + s == [c] && [c][..0] == "";
    } else {
      assert ([c] + s)[..|s|] == [c] + s[..|s| - 1];
      EscapedFront(c, s[..|s| - 1]);
      assert ([c] + s)[|s|] == s[|s| - 1];
      Reassociated(Escape(c), Escaped(s[..|s| - 1]), Escape(s[|s| - 1]), "", "");
    }
  }

  lemma {:induction false} BodyIsEscaped(s: string)
    ensures Body(s) == Escaped(s) + "\""
  {
    if s != "" {
      BodyIsEscaped(s[1..]);
      assert s == [s[0]] + s[1..];
      EscapedFront(s[0], s[1..]);
    }
  }

  lemma Reassociated(a: string, b: string, c: string, d: string, e: string)
    ensures a + b + c == a + (b + c)
    ensures a + b + c + d + e == a + b + (c + d + e)
    ensures a + (b + (c + (d + e))) == a + b + c + (d + e)
  {
  }

  lemma {:induction false} JoinedFront(x: string, xs: seq<string>)
    requires xs != []
    ensures Joined([x] + xs) == Quoted(x) + ", " + Joined(xs)
  {
    var all, front, last := [x] + xs, xs[..|xs| - 1], xs[|xs| - 1];
    assert all[..|all| - 1] == [x] + front && all[|all| - 1] == last;
    assert Joined(all) == Joined([x] + front) + ", " + Quoted(last);
    if |xs| == 1 {
      assert [x] + front == [x];
    } else {
      JoinedFront(x, front);
      Reassociated(Quoted(x), ", ", Joined(front), ", ", Quoted(last));
    }
  }

  lemma CommaBetween(body: string, rest: string)
    ensures "\"" + (body + (", \"" + rest)) == ("\"" + body) + ", " + ("\"" + rest)
  {
    assert ", \"" == ", " + "\"";
    Reassociated("\"", body, ", ", "\"", rest);
  }

  lemma ItemsStep(xs: seq<string>)
    requires |xs| > 1
    ensures "\"" + Items(xs) == Quoted(xs[0]) + ", " + ("\"" + Items(xs[1..]))
  {
    BodyIsEscaped(xs[0]);
    CommaBetween(Body(xs[0]), Items(xs[1..]));
    Reassociated("\"", Escaped(xs[0]), "\"", "", "");
    assert Quoted(xs[0]) == "\"" + Body(xs[0]);
  }

  lemma {:induction false} ItemsAreJoined(xs: seq<string>)
    requires xs != []
    ensures "\"" + Items(xs) == Joined(xs) + "]"
  {
    if |xs| == 1 {
      BodyIsEscaped(xs[0]);
      Reassociated("\"", Escaped(xs[0]), "\"", "]", "");
    } else {
      ItemsAreJoined(xs[1..]);
      ItemsStep(xs);
      assert xs == [xs[0]] + xs[1..];
      JoinedFront(xs[0], xs[1..]);
      Reassociated(Quoted(xs[0]), ", ", Joined(xs[1..]), "]", "");
    }
  }

  lemma BracketFirst(items: string, joined: string)
    requires "\"" + items == joined + "]"
    ensures "[\"" + items == "[" + joined + "]"
  {
    assert "[\"" + items == "[" + ("\"" + items);
    assert "[" + joined + "]" == "[" + (joined + "]");
  }

  /** The quoted and escaped strings, with a comma and a space between, in brackets. */
  lemma {:induction false} ListText(xs: seq<string>)
    ensures Dumps(xs) == "[" + Joined(xs) + "]"
  {
    if xs != [] {
      ItemsAreJoined(xs);
      BracketFirst(Items(xs), Joined(xs));
    }
  }

  const HEX := "0123456789abcdef"

  /** The code unit as backslash, u and its four digits in lower case. */
  predicate UnitText(text: string, n: nat) {
    exists a, b, c, d :: 0 <= a < 16 && 0 <= b < 16 && 0 <= c < 16 && 0 <= d < 16
      && n == a * 4096 + b * 256 + c * 16 + d && text == "\\u" + [HEX[a], HEX[b], HEX[c], HEX[d]]
  }

  /**
    How one character is written: quote, backslash and five control characters by their letters,
    other printable ASCII as it is, and the rest in UTF-16 code units.
  */
  lemma {:induction false} CharacterText(c: char)
    ensures Escape('"') == "\\\"" && Escape('\\') == "\\\\" && Escape('\n') == "\\n" && Escape('\r') == "\\r"
    ensures Escape('\t') == "\\t" && Escape('\U{0008}') == "\\b" && Escape('\U{000C}') == "\\f"
    ensures ' ' <= c <= '~' && c != '"' && c != '\\' ==> Escape(c) == [c]
    ensures !(' ' <= c <= '~') && c !in "\n\r\t\U{0008}\U{000C}" ==>
              if c as int < 0x10000 then UnitText(Escape(c), c as int)
              else |Escape(c)| == 12 && exists high: nat, low: nat ::
                     && UnitText(Escape(c)[..6], high) && UnitText(Escape(c)[6..], low)
                     && 0xD800 <= high < 0xDC00 <= low < 0xE000
                     && c as int == 0x10000 + (high - 0xD800) * 1024 + (low - 0xDC00)
  {
    var n := c as int;
    if Short(c).None? && !(' ' <= c <= '~') {
      if n < 0x10000 {
        UnitIsText(n);
      } else {
        var high, low := 0xD800 + (n - 0x10000) / 1024, 0xDC00 + (n - 0x10000) % 1024;
        UnitIsText(high);
        UnitIsText(low);
        assert Escape(c)[..6] == Unit(high) && Escape(c)[6..] == Unit(low);
      }
    }
  }

  lemma UnitIsText(n: nat)
    requires n < 0x10000
    ensures UnitText(Unit(n), n)
  {
    HexDigitsOf(n);
    var a, b, c, d := n / 4096, n / 256 % 16, n / 16 % 16, n % 16;
    DigitIsHex(a);
    DigitIsHex(b);
    DigitIsHex(c);
    DigitIsHex(d);
    assert Unit(n) == "\\u" + [HEX[a], HEX[b], HEX[c], HEX[d]];
    assert n == a * 4096 + b * 256 + c * 16 + d;
  }

  lemma DigitIsHex(d: nat)
    requires d < 16
    ensures HexDigit(d) == HEX[d]
  {
  }
}
