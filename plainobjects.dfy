/** The user object the session keeps: a plain JavaScript object whose
    properties hold strings, in insertion order; property assignment
    (which spread-then-override relies on); and the JSON text under which
    the object is kept in browser storage, with `JSON.stringify` and the
    part of `JSON.parse` that reads such objects back. */
module PlainObjects {
  import opened Wrappers
  import opened Text
  import JsValue

  /** The own properties of an object, in insertion order. */
  type Fields = seq<(string, string)>

  predicate HasKey(o: Fields, k: string) {
    exists i :: 0 <= i < |o| && o[i].0 == k
  }

  /** A JavaScript object never holds the same property twice. */
  predicate DistinctKeys(o: Fields) {
    forall i, j :: 0 <= i < j < |o| ==> o[i].0 != o[j].0
  }

  /** `o[k]`, or `None` for `undefined`. */
  function Get(o: Fields, k: string): (r: Option<string>)
    ensures r.None? <==> !HasKey(o, k)
    ensures r.Some? ==> (k, r.value) in o
    decreases |o|
  {
    if |o| == 0 then None
    else if o[0].0 == k then Some(o[0].1)
    else
      var r := Get(o[1..], k);
      assert HasKey(o[1..], k) ==> HasKey(o, k) by {
        if HasKey(o[1..], k) {
          var i :| 0 <= i < |o[1..]| && o[1..][i].0 == k;
          assert o[i + 1] == o[1..][i];
        }
      }
      r
  }

  /** The same object as a JSON value, as `response.json()` gives it:
      each property holds a JSON string. */
  function AsJson(o: Fields): (members: seq<(string, JsValue.Json)>)
    ensures |members| == |o|
    ensures forall i :: 0 <= i < |o| ==> members[i] == (o[i].0, JsValue.JStr(o[i].1))
    decreases |o|
  {
    if |o| == 0 then [] else [(o[0].0, JsValue.JStr(o[0].1))] + AsJson(o[1..])
  }

  /** Reading a property gives the same answer in either representation. */
  lemma {:induction false} LookupAsJson(o: Fields, k: string)
    ensures JsValue.Lookup(AsJson(o), k)
         == if Get(o, k).Some? then Some(JsValue.JStr(Get(o, k).value)) else None
    decreases |o|
  {
    if |o| > 0 && o[0].0 != k {
      LookupAsJson(o[1..], k);
      assert AsJson(o)[1..] == AsJson(o[1..]);
    }
  }

  /** `o[k] = v`: an existing property keeps its place and takes the new
      value; a new one is appended. */
  function Put(o: Fields, k: string, v: string): (r: Fields)
    ensures Get(r, k) == Some(v)
    ensures !HasKey(o, k) ==> r == o + [(k, v)]
    decreases |o|
  {
    if |o| == 0 then [(k, v)]
    else if o[0].0 == k then [(k, v)] + o[1..]
    else
      var tail := Put(o[1..], k, v);
      HasKeyTail(o, k);
      assert ([o[0]] + tail)[1..] == tail;
      assert !HasKey(o, k) ==> [o[0]] + tail == o + [(k, v)] by {
        if !HasKey(o, k) {
          assert [o[0]] + (o[1..] + [(k, v)]) == o + [(k, v)];
        }
      }
      [o[0]] + tail
  }

  lemma HasKeyTail(o: Fields, k: string)
    requires |o| > 0 && o[0].0 != k
    ensures HasKey(o, k) <==> HasKey(o[1..], k)
  {
    if HasKey(o, k) {
      var i :| 0 <= i < |o| && o[i].0 == k;
      assert o[1..][i - 1] == o[i];
    }
    if HasKey(o[1..], k) {
      var i :| 0 <= i < |o[1..]| && o[1..][i].0 == k;
      assert o[i + 1] == o[1..][i];
    }
  }

  /** Assigning one property leaves every other property as it was. */
  lemma {:induction false} PutOthers(o: Fields, k: string, v: string, k': string)
    requires k' != k
    ensures Get(Put(o, k, v), k') == Get(o, k')
    decreases |o|
  {
    if |o| > 0 && o[0].0 != k {
      PutOthers(o[1..], k, v, k');
      assert Put(o, k, v)[1..] == Put(o[1..], k, v);
    } else if |o| > 0 {
      assert Put(o, k, v)[1..] == o[1..];
    }
  }

  /** Assigning an existing property keeps the order of the properties. */
  lemma {:induction false} PutKeepsPlaces(o: Fields, k: string, v: string)
    requires HasKey(o, k)
    ensures |Put(o, k, v)| == |o|
    ensures forall i :: 0 <= i < |o| ==> Put(o, k, v)[i].0 == o[i].0
    decreases |o|
  {
    if o[0].0 != k {
      HasKeyTail(o, k);
      PutKeepsPlaces(o[1..], k, v);
      var r := Put(o, k, v);
      assert r == [o[0]] + Put(o[1..], k, v);
      forall i | 0 < i < |o| ensures r[i].0 == o[i].0 {
        assert r[i] == Put(o[1..], k, v)[i - 1] && o[i] == o[1..][i - 1];
      }
    }
  }

  /** Assignment keeps an object's properties distinct. */
  lemma {:induction false} PutDistinct(o: Fields, k: string, v: string)
    requires DistinctKeys(o)
    ensures DistinctKeys(Put(o, k, v))
    decreases |o|
  {
    if |o| > 0 && o[0].0 != k {
      var tail := Put(o[1..], k, v);
      var r := [o[0]] + tail;
      assert DistinctKeys(o[1..]) by {
        forall i, j | 0 <= i < j < |o[1..]| ensures o[1..][i].0 != o[1..][j].0 {
          assert o[1..][i] == o[i + 1] && o[1..][j] == o[j + 1];
        }
      }
      PutDistinct(o[1..], k, v);
      assert !HasKey(tail, o[0].0) by {
        PutOthers(o[1..], k, v, o[0].0);
        forall i | 0 <= i < |o[1..]| ensures o[1..][i].0 != o[0].0 {
          assert o[1..][i] == o[i + 1];
        }
      }
      forall i, j | 0 <= i < j < |r| ensures r[i].0 != r[j].0 {
        assert r[j] == tail[j - 1];
        if i > 0 {
          assert r[i] == tail[i - 1];
        }
      }
    } else if |o| > 0 {
      var r := Put(o, k, v);
      forall i, j | 0 <= i < j < |r| ensures r[i].0 != r[j].0 {
        assert r[j] == o[j];
        if i > 0 {
          assert r[i] == o[i];
        }
      }
    }
  }

  // ---------------------------------------------------------------------
  // JSON text for such objects.

  /** The lower-case hexadecimal digit of `d`. */
  function HexDigit(d: nat): char
    requires d < 16
  {
    "0123456789abcdef"[d]
  }

  function HexValue(c: char): (r: Option<nat>)
    ensures r.Some? ==> r.value < 16
  {
    if '0' <= c <= '9' then Some(c as int - '0' as int)
    else if 'a' <= c <= 'f' then Some(c as int - 'a' as int + 10)
    else if 'A' <= c <= 'F' then Some(c as int - 'A' as int + 10)
    else None
  }

  /** How `JSON.stringify` writes one character of a string: the quote and
      the backslash behind a backslash, the five control characters that
      have a short escape by it, the other control characters as `\u00xx`,
      everything else as itself. */
  function EscapeChar(c: char): string {
    if c == '"' then "\\\""
    else if c == '\\' then "\\\\"
    else if c == 8 as char then "\\b"
    else if c == 12 as char then "\\f"
    else if c == '\n' then "\\n"
    else if c == '\r' then "\\r"
    else if c == '\t' then "\\t"
    else if c < ' ' then "\\u00" + [HexDigit(c as int / 16), HexDigit(c as int % 16)]
    else [c]
  }

  function Escape(s: string): string
    decreases |s|
  {
    if |s| == 0 then "" else EscapeChar(s[0]) + Escape(s[1..])
  }

  /** A string literal. */
  function Quote(s: string): string {
    "\"" + Escape(s) + "\""
  }

  function MemberText(m: (string, string)): string {
    Quote(m.0) + ":" + Quote(m.1)
  }

  function MemberTexts(o: Fields): (ts: seq<string>)
    ensures |ts| == |o|
    decreases |o|
  {
    if |o| == 0 then [] else [MemberText(o[0])] + MemberTexts(o[1..])
  }

  function MembersText(o: Fields): string {
    Join(MemberTexts(o), ",")
  }

  /** `JSON.stringify(o)`: no white space, members in insertion order.
      The text is a braced object, so it is never empty and is a truthy
      item in storage. */
  function Stringify(o: Fields): (r: string)
    ensures |r| >= 2 && r[0] == '{' && r[|r| - 1] == '}'
  {
    "{" + MembersText(o) + "}"
  }

  predicate IsWhiteSpace(c: char) {
    c == ' ' || c == '\t' || c == '\n' || c == '\r'
  }

  function SkipWhiteSpace(s: string): (r: string)
    ensures |r| <= |s|
    ensures |r| > 0 ==> !IsWhiteSpace(r[0])
    ensures |s| > 0 && !IsWhiteSpace(s[0]) ==> r == s
    decreases |s|
  {
    if |s| > 0 && IsWhiteSpace(s[0]) then SkipWhiteSpace(s[1..]) else s
  }

  /** The value of four hex digits. */
  function HexQuad(s: string): (r: Option<nat>)
    requires |s| >= 4
    ensures r.Some? ==> r.value < 0x10000
  {
    match (HexValue(s[0]), HexValue(s[1]), HexValue(s[2]), HexValue(s[3]))
    case (Some(a), Some(b), Some(c), Some(d)) => Some(((a * 16 + b) * 16 + c) * 16 + d)
    case _ => None
  }

  /** Reads a `\uXXXX` escape of a low surrogate, the second half of a
      UTF-16 pair. */
  function LowSurrogate(s: string): (r: Option<nat>)
    ensures r.Some? ==> |s| >= 6 && 0xDC00 <= r.value < 0xE000
  {
    if |s| >= 6 && s[0] == '\\' && s[1] == 'u' then
      match HexQuad(s[2..6])
      case Some(low) => if 0xDC00 <= low < 0xE000 then Some(low) else None
      case None => None
    else None
  }

  /** The character a UTF-16 surrogate pair stands for. */
  function PairChar(high: nat, low: nat): (c: char)
    requires 0xD800 <= high < 0xDC00 && 0xDC00 <= low < 0xE000
    ensures 0x10000 <= c as int < 0x11_0000
  {
    (0x10000 + (high - 0xD800) * 0x400 + (low - 0xDC00)) as char
  }

  /** Reads the escape after a backslash: the character it stands for and
      the text after it. A high surrogate escape followed by a low one is
      read as the single character of the pair; a lone surrogate half is
      refused, since a character here is a Unicode scalar value. */
  function Unescape(s: string): (r: Option<(char, string)>)
    ensures r.Some? ==> |r.value.1| < |s|
  {
    if |s| == 0 then None
    else if s[0] == '"' || s[0] == '\\' || s[0] == '/' then Some((s[0], s[1..]))
    else if s[0] == 'b' then Some((8 as char, s[1..]))
    else if s[0] == 'f' then Some((12 as char, s[1..]))
    else if s[0] == 'n' then Some(('\n', s[1..]))
    else if s[0] == 'r' then Some(('\r', s[1..]))
    else if s[0] == 't' then Some(('\t', s[1..]))
    else if s[0] == 'u' && |s| >= 5 then
      match HexQuad(s[1..5])
      case None => None
      case Some(code) =>
        if code < 0xD800 || 0xE000 <= code then Some((code as char, s[5..]))
        else if code < 0xDC00 then
          match LowSurrogate(s[5..])
          case None => None
          case Some(low) => Some((PairChar(code, low), s[11..]))
        else None
    else None
  }

  /** Reads the rest of a string literal whose opening quote is already
      read: its value and the text after the closing quote. Unescaped
      control characters are refused, as `JSON.parse` refuses them. */
  function ParseStringBody(s: string): (r: Option<(string, string)>)
    ensures r.Some? ==> |r.value.1| < |s|
    decreases |s|
  {
    if |s| == 0 then None
    else if s[0] == '"' then Some(("", s[1..]))
    else if s[0] == '\\' then
      match Unescape(s[1..])
      case None => None
      case Some((c, rest)) =>
        match ParseStringBody(rest)
        case None => None
        case Some((v, after)) => Some(([c] + v, after))
    else if s[0] < ' ' then None
    else
      match ParseStringBody(s[1..])
      case None => None
      case Some((v, after)) => Some(([s[0]] + v, after))
  }

  function ParseString(s: string): (r: Option<(string, string)>)
    ensures r.Some? ==> |r.value.1| < |s|
  {
    if |s| > 0 && s[0] == '"' then ParseStringBody(s[1..]) else None
  }

  /** Reads `"key" : "value"`, with white space allowed around each token. */
  function ParseMember(s: string): (r: Option<(string, string, string)>)
    ensures r.Some? ==> |r.value.2| < |s|
  {
    match ParseString(SkipWhiteSpace(s))
    case None => None
    case Some((k, afterKey)) =>
      var t := SkipWhiteSpace(afterKey);
      if |t| > 0 && t[0] == ':' then
        match ParseString(SkipWhiteSpace(t[1..]))
        case None => None
        case Some((v, after)) => Some((k, v, after))
      else None
  }

  /** Reads members up to the closing brace, assigning each to `acc` in
      turn (so a repeated key keeps its first place and its last value). */
  function ParseMembers(s: string, acc: Fields): Option<(Fields, string)>
    decreases |s|
  {
    match ParseMember(s)
    case None => None
    case Some((k, v, after)) =>
      var t := SkipWhiteSpace(after);
      if |t| > 0 && t[0] == ',' then ParseMembers(t[1..], Put(acc, k, v))
      else if |t| > 0 && t[0] == '}' then Some((Put(acc, k, v), t[1..]))
      else None
  }

  function ParseObject(s: string): Option<(Fields, string)> {
    var t := SkipWhiteSpace(s);
    if |t| > 0 && t[0] == '{' then
      var u := SkipWhiteSpace(t[1..]);
      if |u| > 0 && u[0] == '}' then Some(([], u[1..])) else ParseMembers(t[1..], [])
    else None
  }

  /** `JSON.parse(s)` for texts that denote an object whose values are all
      strings; `None` for every other text. A repeated key in the text
      never gives a repeated property. */
  function Parse(s: string): (r: Option<Fields>)
    ensures r.Some? ==> DistinctKeys(r.value)
  {
    ParseObjectDistinct(s);
    match ParseObject(s)
    case None => None
    case Some((o, rest)) => if SkipWhiteSpace(rest) == "" then Some(o) else None
  }

  /** Assigning the members one by one keeps the properties distinct. */
  lemma {:induction false} ParseMembersDistinct(s: string, acc: Fields)
    requires DistinctKeys(acc)
    ensures ParseMembers(s, acc).Some? ==> DistinctKeys(ParseMembers(s, acc).value.0)
    decreases |s|
  {
    match ParseMember(s)
    case None =>
    case Some((k, v, after)) =>
      PutDistinct(acc, k, v);
      var t := SkipWhiteSpace(after);
      if |t| > 0 && t[0] == ',' {
        ParseMembersDistinct(t[1..], Put(acc, k, v));
      }
  }

  lemma ParseObjectDistinct(s: string)
    ensures ParseObject(s).Some? ==> DistinctKeys(ParseObject(s).value.0)
  {
    var t := SkipWhiteSpace(s);
    if |t| > 0 && t[0] == '{' {
      ParseMembersDistinct(t[1..], []);
    }
  }

  // ---------------------------------------------------------------------
  // Round trip.

  lemma UnescapeOfEscape(c: char, rest: string)
    requires EscapeChar(c) != [c]
    ensures |EscapeChar(c)| > 0 && EscapeChar(c)[0] == '\\'
    ensures Unescape(EscapeChar(c)[1..] + rest) == Some((c, rest))
  {
    var e := EscapeChar(c);
    var s := e[1..] + rest;
    if c < ' ' && c != 8 as char && c != 12 as char && c != '\n' && c != '\r' && c != '\t' {
      var hi, lo := c as int / 16, c as int % 16;
      assert s[0] == 'u' && s[1] == '0' && s[2] == '0';
      assert s[3] == HexDigit(hi) && s[4] == HexDigit(lo);
      assert HexValue(HexDigit(hi)) == Some(hi);
      assert HexValue(HexDigit(lo)) == Some(lo);
      assert s[5..] == rest;
    } else {
      assert s[1..] == rest;
    }
  }

  /** Four lower-case hex digits, as other JSON writers spell `\uXXXX`. */
  function Hex4(n: nat): (h: string)
    requires n < 0x10000
    ensures |h| == 4
  {
    [HexDigit(n / 0x1000), HexDigit(n / 0x100 % 16), HexDigit(n / 16 % 16), HexDigit(n % 16)]
  }

  lemma HexValueOfDigit(d: nat)
    requires d < 16
    ensures HexValue(HexDigit(d)) == Some(d)
  {
  }

  /** The four base-16 digits of a number below `0x10000` add back up to it. */
  lemma HexDigitsSum(n: nat)
    requires n < 0x10000
    ensures ((n / 0x1000 * 16 + n / 0x100 % 16) * 16 + n / 16 % 16) * 16 + n % 16 == n
  {
    assert n / 0x100 == n / 0x1000 * 16 + n / 0x100 % 16;
    assert n / 16 == n / 0x100 * 16 + n / 16 % 16;
    assert n == n / 16 * 16 + n % 16;
  }

  /** Four hex digits read back as the number they spell. */
  lemma HexQuadOfDigits(a: nat, b: nat, c: nat, d: nat)
    requires a < 16 && b < 16 && c < 16 && d < 16
    ensures HexQuad([HexDigit(a), HexDigit(b), HexDigit(c), HexDigit(d)]) == Some(((a * 16 + b) * 16 + c) * 16 + d)
  {
    HexValueOfDigit(a);
    HexValueOfDigit(b);
    HexValueOfDigit(c);
    HexValueOfDigit(d);
  }

  /** `Hex4` is read back by `HexQuad`. */
  lemma HexQuadOfHex4(n: nat)
    requires n < 0x10000
    ensures HexQuad(Hex4(n)) == Some(n)
  {
    HexQuadOfDigits(n / 0x1000, n / 0x100 % 16, n / 16 % 16, n % 16);
    HexDigitsSum(n);
  }

  /** The first half of the UTF-16 pair of a character above the Basic
      Multilingual Plane. */
  function HighHalf(c: char): (h: nat)
    requires c as int >= 0x10000
    ensures 0xD800 <= h < 0xDC00
  {
    0xD800 + (c as int - 0x10000) / 0x400
  }

  /** The second half of that pair. */
  function LowHalf(c: char): (l: nat)
    requires c as int >= 0x10000
    ensures 0xDC00 <= l < 0xE000
  {
    0xDC00 + (c as int - 0x10000) % 0x400
  }

  /** The two halves put back together give the character. */
  lemma PairOfHalves(c: char)
    requires c as int >= 0x10000
    ensures PairChar(HighHalf(c), LowHalf(c)) == c
  {
    var v := c as int - 0x10000;
    assert v / 0x400 * 0x400 + v % 0x400 == v;
  }

  /** A high surrogate escape followed by a low one is read as their pair. */
  lemma UnescapePair(s: string, high: nat, low: nat)
    requires |s| >= 11 && s[0] == 'u'
    requires 0xD800 <= high < 0xDC00
    requires HexQuad(s[1..5]) == Some(high) && LowSurrogate(s[5..]) == Some(low)
    ensures Unescape(s) == Some((PairChar(high, low), s[11..]))
  {
    assert s[5..][6..] == s[11..];
  }

  /** A character outside the Basic Multilingual Plane, written as the
      `\uXXXX\uXXXX` escapes of its UTF-16 pair (as JSON writers that keep
      to ASCII write it), is read back as that one character. */
  lemma SurrogatePairRead(c: char, rest: string)
    requires c as int >= 0x10000
    ensures Unescape("u" + Hex4(HighHalf(c)) + "\\u" + Hex4(LowHalf(c)) + rest) == Some((c, rest))
  {
    var high, low := HighHalf(c), LowHalf(c);
    var s := "u" + Hex4(high) + "\\u" + Hex4(low) + rest;
    var tail := "\\u" + Hex4(low) + rest;
    assert s[1..5] == Hex4(high) && s[5..] == tail;
    assert HexQuad(s[1..5]) == Some(high) by {
      HexQuadOfHex4(high);
    }
    assert LowSurrogate(tail) == Some(low) by {
      assert tail[0] == '\\' && tail[1] == 'u' && tail[2..6] == Hex4(low);
      HexQuadOfHex4(low);
    }
    assert s[11..] == rest;
    UnescapePair(s, high, low);
    PairOfHalves(c);
  }

  /** The value text `\ud83d\ude00"` reads as the emoji it escapes. */
  lemma EmojiValueRead(rest: string)
    ensures ParseStringBody("\\ud83d\\ude00\"" + rest) == Some(([0x1F600 as char], rest))
  {
    var emoji := 0x1F600 as char;
    var value := "\\ud83d\\ude00\"" + rest;
    assert Unescape(value[1..]) == Some((emoji, "\"" + rest)) by {
      assert HighHalf(emoji) == 0xD83D && LowHalf(emoji) == 0xDE00;
      assert Hex4(0xD83D) == "d83d" && Hex4(0xDE00) == "de00";
      assert value[1..] == "u" + "d83d" + "\\u" + "de00" + ("\"" + rest);
      SurrogatePairRead(emoji, "\"" + rest);
    }
    assert ParseStringBody("\"" + rest) == Some(("", rest)) by {
      assert ("\"" + rest)[1..] == rest;
    }
    assert value[0] == '\\';
    assert [emoji] + "" == [emoji];
  }

  /** A member whose value text reads as `v` reads as the key and `v`. */
  lemma ParseMemberWith(k: string, body: string, v: string, rest: string)
    requires ParseStringBody(body) == Some((v, rest))
    ensures ParseMember(Quote(k) + (":\"" + body)) == Some((k, v, rest))
  {
    var afterKey := ":\"" + body;
    ReadQuoted(k, afterKey);
    assert SkipWhiteSpace(afterKey) == afterKey && afterKey[1..] == "\"" + body by {
      assert afterKey[0] == ':';
    }
    assert ParseString(SkipWhiteSpace("\"" + body)) == Some((v, rest)) by {
      assert ("\"" + body)[0] == '"' && ("\"" + body)[1..] == body;
    }
  }

  /** The object text of the emoji example, after its opening brace. */
  lemma EmojiObjectText()
    ensures "{\"a\":\"\\ud83d\\ude00\"}"[1..] == Quote("a") + (":\"" + ("\\ud83d\\ude00\"" + "}"))
  {
    assert Quote("a") == "\"a\"" by {
      assert Escape("a") == "a";
    }
  }

  /** The members of the emoji example read as one property. */
  lemma EmojiMembers()
    ensures ParseMembers(Quote("a") + (":\"" + ("\\ud83d\\ude00\"" + "}")), []) == Some(([("a", [0x1F600 as char])], ""))
  {
    EmojiValueRead("}");
    ParseMemberWith("a", "\\ud83d\\ude00\"" + "}", [0x1F600 as char], "}");
    assert SkipWhiteSpace("}") == "}" && "}"[1..] == "";
    assert Put([], "a", [0x1F600 as char]) == [("a", [0x1F600 as char])];
  }

  /** `{"a":"\ud83d\ude00"}`, as a writer that keeps to ASCII stores an
      emoji, reads as the one-character string. */
  lemma ParseEscapedEmoji()
    ensures Parse("{\"a\":\"\\ud83d\\ude00\"}") == Some([("a", [0x1F600 as char])])
  {
    EmojiObjectText();
    ParseObjectFrom("{\"a\":\"\\ud83d\\ude00\"}");
    EmojiMembers();
  }

  /** A character `JSON.stringify` writes as itself is read as itself. */
  lemma ParsePlainChar(c: char, tail: string)
    requires EscapeChar(c) == [c]
    ensures ParseStringBody([c] + tail) ==
      match ParseStringBody(tail)
      case None => None
      case Some((v, after)) => Some(([c] + v, after))
  {
    assert c >= ' ' && c != '"' && c != '\\';
    assert ([c] + tail)[1..] == tail;
  }

  /** An escaped character is read back as the character it escapes. */
  lemma ParseEscapedChar(c: char, tail: string)
    requires EscapeChar(c) != [c]
    ensures ParseStringBody(EscapeChar(c) + tail) ==
      match ParseStringBody(tail)
      case None => None
      case Some((v, after)) => Some(([c] + v, after))
  {
    UnescapeOfEscape(c, tail);
    var s := EscapeChar(c) + tail;
    assert s[0] == '\\' && s[1..] == EscapeChar(c)[1..] + tail;
  }

  /** The string reader reads back an escaped string and stops at its
      closing quote. */
  lemma {:induction false} ParseEscaped(x: string, rest: string)
    ensures ParseStringBody(Escape(x) + "\"" + rest) == Some((x, rest))
    decreases |x|
  {
    if |x| == 0 {
      assert Escape(x) + "\"" + rest == "\"" + rest;
    } else {
      var c := x[0];
      var tail := Escape(x[1..]) + "\"" + rest;
      assert Escape(x) + "\"" + rest == EscapeChar(c) + tail;
      ParseEscaped(x[1..], rest);
      if EscapeChar(c) == [c] {
        ParsePlainChar(c, tail);
      } else {
        ParseEscapedChar(c, tail);
      }
      assert [c] + x[1..] == x;
    }
  }

  lemma ParseQuoted(x: string, rest: string)
    ensures ParseString(Quote(x) + rest) == Some((x, rest))
  {
    assert Quote(x) + rest == "\"" + (Escape(x) + "\"" + rest);
    ParseEscaped(x, rest);
  }

  /** A quoted string is read back, with no white space to skip first. */
  lemma ReadQuoted(x: string, rest: string)
    ensures ParseString(SkipWhiteSpace(Quote(x) + rest)) == Some((x, rest))
  {
    assert SkipWhiteSpace(Quote(x) + rest) == Quote(x) + rest by {
      assert (Quote(x) + rest)[0] == '"';
    }
    ParseQuoted(x, rest);
  }

  lemma ParseMemberText(m: (string, string), rest: string)
    ensures ParseMember(MemberText(m) + rest) == Some((m.0, m.1, rest))
  {
    var value := Quote(m.1) + rest;
    var afterKey := ":" + value;
    assert MemberText(m) + rest == Quote(m.0) + afterKey by {
      assert MemberText(m) == Quote(m.0) + ":" + Quote(m.1);
    }
    ReadQuoted(m.0, afterKey);
    assert SkipWhiteSpace(afterKey) == afterKey && afterKey[1..] == value by {
      assert afterKey[0] == ':';
    }
    ReadQuoted(m.1, rest);
  }

  lemma ParseMembersComma(m: (string, string), s: string, more: string, acc: Fields)
    requires s == MemberText(m) + ("," + more)
    ensures ParseMembers(s, acc) == ParseMembers(more, Put(acc, m.0, m.1))
  {
    ParseMemberText(m, "," + more);
    assert ("," + more)[1..] == more;
  }

  lemma ParseMembersBrace(m: (string, string), s: string, rest: string, acc: Fields)
    requires s == MemberText(m) + ("}" + rest)
    ensures ParseMembers(s, acc) == Some((Put(acc, m.0, m.1), rest))
  {
    ParseMemberText(m, "}" + rest);
    assert ("}" + rest)[1..] == rest;
  }

  lemma MembersTextSplit(o: Fields, rest: string)
    requires |o| > 0
    ensures |o| == 1 ==> MembersText(o) + "}" + rest == MemberText(o[0]) + ("}" + rest)
    ensures |o| > 1 ==> MembersText(o) + "}" + rest == MemberText(o[0]) + ("," + (MembersText(o[1..]) + "}" + rest))
  {
    var ts := MemberTexts(o);
    assert ts[0] == MemberText(o[0]) && ts[1..] == MemberTexts(o[1..]);
    if |o| == 1 {
      assert MembersText(o) + "}" + rest == MemberText(o[0]) + ("}" + rest) by {
        JoinFirst(ts, ",", "}" + rest);
      }
    } else {
      assert MembersText(o) + "}" + rest == MemberText(o[0]) + ("," + (MembersText(o[1..]) + "}" + rest)) by {
        JoinFirst(ts, ",", "}" + rest);
        assert MembersText(o[1..]) + "}" + rest == MembersText(o[1..]) + ("}" + rest);
      }
    }
  }

  /** Adding the properties of `o` one by one to `acc` always adds a new
      property. */
  predicate AllNewKeys(acc: Fields, o: Fields)
    decreases |o|
  {
    |o| == 0 || (Get(acc, o[0].0).None? && AllNewKeys(acc + [o[0]], o[1..]))
  }

  /** Distinct properties none of which is in `acc` are all new to it. */
  lemma {:induction false} DistinctAreNew(acc: Fields, o: Fields)
    requires DistinctKeys(o)
    requires forall i, j :: 0 <= i < |acc| && 0 <= j < |o| ==> acc[i].0 != o[j].0
    ensures AllNewKeys(acc, o)
    decreases |o|
  {
    if |o| > 0 {
      var acc' := acc + [o[0]];
      forall i, j | 0 <= i < |acc'| && 0 <= j < |o[1..]| ensures acc'[i].0 != o[1..][j].0 {
        assert o[1..][j] == o[j + 1];
        if i == |acc| {
          assert acc'[i] == o[0];
        } else {
          assert acc'[i] == acc[i];
        }
      }
      forall i, j | 0 <= i < j < |o[1..]| ensures o[1..][i].0 != o[1..][j].0 {
        assert o[1..][i] == o[i + 1] && o[1..][j] == o[j + 1];
      }
      DistinctAreNew(acc', o[1..]);
    }
  }

  lemma PutNew(acc: Fields, k: string, v: string)
    requires Get(acc, k).None?
    ensures Put(acc, k, v) == acc + [(k, v)]
  {
  }

  /** The member reader over the text of one member stops at the brace. */
  lemma ParseLastMember(o: Fields, acc: Fields, rest: string)
    requires |o| == 1 && Get(acc, o[0].0).None?
    ensures ParseMembers(MembersText(o) + "}" + rest, acc) == Some((acc + o, rest))
  {
    MembersTextSplit(o, rest);
    PutNew(acc, o[0].0, o[0].1);
    ParseMembersBrace(o[0], MembersText(o) + "}" + rest, rest, acc);
    assert acc + [o[0]] == acc + o by {
      assert o == [o[0]];
    }
  }

  /** Over the text of several members, the reader takes the first one
      and goes on after the comma, reading the others as before. */
  lemma ParseNextMember(o: Fields, acc: Fields, rest: string)
    requires |o| > 1 && Get(acc, o[0].0).None?
    requires ParseMembers(MembersText(o[1..]) + "}" + rest, acc + [o[0]]) == Some((acc + [o[0]] + o[1..], rest))
    ensures ParseMembers(MembersText(o) + "}" + rest, acc) == Some((acc + o, rest))
  {
    var s := MembersText(o) + "}" + rest;
    var more := MembersText(o[1..]) + "}" + rest;
    assert s == MemberText(o[0]) + ("," + more) by {
      MembersTextSplit(o, rest);
    }
    assert Put(acc, o[0].0, o[0].1) == acc + [o[0]] by {
      PutNew(acc, o[0].0, o[0].1);
    }
    assert ParseMembers(s, acc) == ParseMembers(more, acc + [o[0]]) by {
      ParseMembersComma(o[0], s, more, acc);
    }
    assert acc + [o[0]] + o[1..] == acc + o by {
      AppendFirst(acc, o);
    }
  }

  lemma AppendFirst(acc: Fields, o: Fields)
    requires |o| > 0
    ensures acc + [o[0]] + o[1..] == acc + o
  {
    assert [o[0]] + o[1..] == o;
  }

  /** The member reader reads back the members `o`, after those already in
      `acc`, up to the closing brace. */
  lemma {:induction false} ParseMembersText(o: Fields, acc: Fields, rest: string)
    requires |o| > 0 && AllNewKeys(acc, o)
    ensures ParseMembers(MembersText(o) + "}" + rest, acc) == Some((acc + o, rest))
    decreases |o|
  {
    if |o| > 1 {
      ParseMembersText(o[1..], acc + [o[0]], rest);
      ParseNextMember(o, acc, rest);
    } else {
      ParseLastMember(o, acc, rest);
    }
  }

  /** After the opening brace, a text that starts with a quote is read
      as members. */
  lemma ParseObjectBraced(body: string)
    requires |body| > 0 && body[0] == '"'
    ensures ParseObject("{" + body) == ParseMembers(body, [])
  {
    var s := "{" + body;
    assert s[0] == '{' && s[1..] == body;
  }

  /** A text that opens with a brace and then a quote is read as members. */
  lemma ParseObjectFrom(text: string)
    requires |text| > 1 && text[0] == '{' && text[1] == '"'
    ensures ParseObject(text) == ParseMembers(text[1..], [])
  {
    assert SkipWhiteSpace(text) == text;
    assert SkipWhiteSpace(text[1..]) == text[1..];
  }

  /** `JSON.parse(JSON.stringify(o))` gives back `o`, properties and order. */
  lemma ParseStringify(o: Fields)
    requires DistinctKeys(o)
    ensures Parse(Stringify(o)) == Some(o)
  {
    if |o| == 0 {
      assert Stringify(o) == "{}";
    } else {
      var body := MembersText(o) + "}" + "";
      assert Stringify(o) == "{" + body by {
        assert body == MembersText(o) + "}";
      }
      assert ParseObject("{" + body) == ParseMembers(body, []) by {
        MembersTextSplit(o, "");
        ParseObjectBraced(body);
      }
      assert ParseMembers(body, []) == Some((o, "")) by {
        DistinctAreNew([], o);
        ParseMembersText(o, [], "");
        assert [] + o == o;
      }
    }
  }
}
