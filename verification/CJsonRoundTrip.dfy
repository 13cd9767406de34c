/** Parsing what was printed gives the printed tree back, formatted or not. */
module CJsonRoundTrip {
  import opened CJson

  // ---------- Numbers ----------

  predicate AllDigits(s: string) {
    forall k :: 0 <= k < |s| ==> IsDigit(s[k])
  }

  lemma {:induction false} DigitsRoundTrip(n: nat)
    ensures AllDigits(Digits(n)) && Digits(n) != [] && DigitsValue(Digits(n)) == n
    ensures n > 0 ==> '1' <= Digits(n)[0] <= '9'
  {
    if n < 10 {
      assert Digits(n)[..0] == [];
    } else {
      DigitsRoundTrip(n / 10);
      assert Digits(n)[..|Digits(n)| - 1] == Digits(n / 10);
    }
  }

  lemma {:induction false} RunOfDigits(s: string, rest: string)
    requires AllDigits(s) && (rest == [] || !IsDigit(rest[0]))
    ensures DigitRun(s + rest) == |s|
  {
    if s == [] {
      assert s + rest == rest;
    } else {
      assert (s + rest)[1..] == s[1..] + rest;
      RunOfDigits(s[1..], rest);
    }
  }

  /** A text that does not carry on a number before it. */
  predicate Stops(rest: string) {
    rest == [] || !(IsDigit(rest[0]) || rest[0] in ".eE")
  }

  lemma ZeroDigits()
    ensures Digits(0) == "0" && DigitsValue("") == 0
  {
  }

  lemma NaturalRoundTrip(n: int, minus: bool, rest: string)
    requires n >= 0 && Stops(rest) && IsInt32(if minus then -n else n)
    ensures ParseMagnitude(Digits(n) + rest, minus) == Ok(Number(if minus then -n else n), rest)
  {
    hide Digits, DigitRun, DigitsValue, IsInt32;
    var digits := Digits(n);
    DigitsRoundTrip(n);
    if n == 0 {
      ZeroDigits();
      assert (digits + rest)[1..] == rest && rest[..0] == [];
    } else {
      RunOfDigits(digits, rest);
      assert (digits + rest)[..|digits|] == digits && (digits + rest)[|digits|..] == rest;
    }
  }

  lemma DecimalStart(n: int)
    ensures Decimal(n) != [] && (Decimal(n)[0] == '-' || IsDigit(Decimal(n)[0]))
  {
    hide Digits;
    DigitsRoundTrip(if n < 0 then -n else n);
  }

  lemma NumberRoundTrip(n: int, rest: string)
    requires Stops(rest) && IsInt32(n)
    ensures Decimal(n) != [] && (Decimal(n)[0] == '-' || IsDigit(Decimal(n)[0]))
    ensures ParseNumber(Decimal(n) + rest) == Ok(Number(n), rest)
  {
    hide Digits, ParseMagnitude, IsInt32, DigitsValue, Stops;
    DecimalStart(n);
    var m := if n < 0 then -n else n;
    var digits := Digits(m);
    DigitsRoundTrip(m);
    NaturalRoundTrip(m, n < 0, rest);
    if n < 0 {
      SignFirst(digits, rest);
    }
  }

  lemma SignFirst(digits: string, rest: string)
    ensures ("-" + digits + rest)[0] == '-' && ("-" + digits + rest)[1..] == digits + rest
  {
  }

  // ---------- Strings ----------

  lemma CharRoundTrip(c: char, s: string)
    requires c != '\0'
    ensures Unescape(EscapedChar(c) + s) == Prefixed([c], Unescape(s))
  {
    hide UnicodeEscape, Digit;
    var e := EscapedChar(c);
    if Special(c) {
      assert (e + s)[1..] == [e[1]] + s && ([e[1]] + s)[1..] == s;
    } else if c as int > 31 {
      assert (e + s)[1..] == s;
    } else {
      assert (e + s)[1..] == e[1..] + s && (e[1..] + s)[1..] == e[2..] + s;
      ControlRoundTrip(c, s);
    }
  }

  lemma ControlRoundTrip(c: char, s: string)
    requires 0 < c as int < 32
    ensures UnicodeEscape(['0', '0', Digit(c as int / 16), Digit(c as int % 16)] + s) == Ok([c], s)
  {
    var h := ['0', '0', Digit(c as int / 16), Digit(c as int % 16)] + s;
    assert HexValue(h[2]) == c as int / 16 && HexValue(h[3]) == c as int % 16;
    assert h[4..] == s;
  }

  lemma {:induction false} StringRoundTrip(s: string, rest: string)
    requires NulFree(s)
    ensures Unescape(Escaped(s) + "\"" + rest) == Ok(s, rest)
  {
    if s == [] {
      assert Escaped(s) + "\"" + rest == "\"" + rest;
    } else {
      var more := Escaped(s[1..]) + "\"" + rest;
      assert Escaped(s) + "\"" + rest == EscapedChar(s[0]) + more;
      CharRoundTrip(s[0], more);
      StringRoundTrip(s[1..], rest);
      assert [s[0]] + s[1..] == s;
    }
  }

  lemma QuotedRoundTrip(s: string, rest: string)
    requires NulFree(s)
    ensures ParseString(Quoted(s) + rest) == Ok(s, rest)
  {
    assert (Quoted(s) + rest)[1..] == Escaped(s) + "\"" + rest;
    StringRoundTrip(s, rest);
  }

  // ---------- Escapes of other characters ----------

  /** The code point a UTF-8 sequence encodes (section 3 of RFC 3629). */
  function Utf8Value(t: string): int
    requires 1 <= |t| <= 4
  {
    if |t| == 1 then t[0] as int
    else if |t| == 2 then (t[0] as int - 0xC0) * 0x40 + (t[1] as int - 0x80)
    else if |t| == 3 then (t[0] as int - 0xE0) * 0x1000 + (t[1] as int - 0x80) * 0x40 + (t[2] as int - 0x80)
    else
      (t[0] as int - 0xF0) * 0x4_0000 + (t[1] as int - 0x80) * 0x1000 + (t[2] as int - 0x80) * 0x40
      + (t[3] as int - 0x80)
  }

  /** Section 3 of RFC 3629: the shortest sequence for a code point, its lead byte telling the length. */
  predicate Encodes(t: string, uc: nat) {
    && 1 <= |t| <= 4 && Utf8Value(t) == uc
    && (forall k :: 0 < k < |t| ==> 0x80 <= t[k] as int < 0xC0)
    && match |t|
       case 1 => uc < 0x80
       case 2 => 0x80 <= uc < 0x800 && 0xC0 <= t[0] as int < 0xE0
       case 3 => 0x800 <= uc < 0x1_0000 && 0xE0 <= t[0] as int < 0xF0
       case _ => 0x1_0000 <= uc && 0xF0 <= t[0] as int < 0xF8
  }

  lemma Split64(n: nat, q: nat, r: nat)
    requires n == q * 64 + r && r < 64
    ensures n / 64 == q && n % 64 == r
  {
  }

  /** No code point has an encoding but the one that Utf8 gives. */
  lemma EncodesUnique(t: string, uc: nat)
    requires Encodes(t, uc) && uc < 0x11_0000
    ensures t == Utf8(uc)
  {
    hide Continuation;
    if |t| >= 2 {
      var x := t[1] as int - 0x80;
      if |t| == 2 {
        Split64(uc, t[0] as int - 0xC0, x);
      } else if |t| == 3 {
        var y := t[2] as int - 0x80;
        Split64(uc, (t[0] as int - 0xE0) * 64 + x, y);
        Split64(uc / 64, t[0] as int - 0xE0, x);
      } else {
        var y, z := t[2] as int - 0x80, t[3] as int - 0x80;
        Split64(uc, ((t[0] as int - 0xF0) * 64 + x) * 64 + y, z);
        Split64(uc / 64, (t[0] as int - 0xF0) * 64 + x, y);
        Split64(uc / 64 / 64, t[0] as int - 0xF0, x);
      }
    }
    forall k | 1 <= k < |t| ensures t[k] == Continuation(t[k] as int - 0x80) {
      OneContinuation(t[k]);
    }
    assert |t| == |Utf8(uc)|;
    ContinuationBits(uc);
    ContinuationBits(uc / 64);
    ContinuationBits(uc / 64 / 64);
  }

  lemma OneContinuation(c: char)
    requires 0x80 <= c as int < 0xC0
    ensures c == Continuation(c as int - 0x80)
  {
  }

  lemma ContinuationBits(uc: nat)
    ensures Continuation(uc) == Continuation(uc % 64)
  {
  }

  lemma Utf8Correct(uc: nat)
    requires uc < 0x11_0000
    ensures Encodes(Utf8(uc), uc)
  {
    var a := uc / 64;
    var b := a / 64;
    assert uc == a * 64 + uc % 64 && a == b * 64 + a % 64 && b == b / 64 * 64 + b % 64;
  }

  function HexDigit(d: nat, upper: bool): char
    requires d < 16
  {
    if upper then "0123456789ABCDEF"[d] else "0123456789abcdef"[d]
  }

  /** Four hexadecimal digits from the most significant down, each in its own case. */
  function HexText(uc: nat, upper: seq<bool>): (t: string)
    requires uc < 0x1_0000 && |upper| == 4
    ensures |t| == 4
  {
    [HexDigit(uc / 0x1000, upper[0]), HexDigit(uc / 0x100 % 16, upper[1]), HexDigit(uc / 0x10 % 16, upper[2]),
     HexDigit(uc % 16, upper[3])]
  }

  lemma HexDigitValue(d: nat, upper: bool)
    requires d < 16
    ensures IsHex(HexDigit(d, upper)) && HexValue(HexDigit(d, upper)) == d
  {
  }

  lemma HexPlaces(uc: nat)
    requires uc < 0x1_0000
    ensures uc / 0x1000 < 16
    ensures ((uc / 0x1000 * 16 + uc / 0x100 % 16) * 16 + uc / 0x10 % 16) * 16 + uc % 16 == uc
  {
  }

  /** parse_hex4 reads the digits of a number back, in either case. */
  lemma HexRoundTrip(uc: nat, upper: seq<bool>, rest: string)
    requires uc < 0x1_0000 && |upper| == 4
    ensures HasHex4(HexText(uc, upper) + rest) && Hex4(HexText(uc, upper) + rest) == uc
  {
    hide HexDigit, HexValue, IsHex;
    HexPlaces(uc);
    HexDigitValue(uc / 0x1000, upper[0]);
    HexDigitValue(uc / 0x100 % 16, upper[1]);
    HexDigitValue(uc / 0x10 % 16, upper[2]);
    HexDigitValue(uc % 16, upper[3]);
    var s := HexText(uc, upper) + rest;
    assert s[0] == HexText(uc, upper)[0] && s[1] == HexText(uc, upper)[1];
    assert s[2] == HexText(uc, upper)[2] && s[3] == HexText(uc, upper)[3];
  }

  lemma HexCase(c: char)
    requires IsHex(c)
    ensures c == HexDigit(HexValue(c), 'A' <= c <= 'F')
  {
  }

  lemma DigitPlaces(a: nat, b: nat, c: nat, d: nat)
    requires a < 16 && b < 16 && c < 16 && d < 16
    ensures var uc := ((a * 16 + b) * 16 + c) * 16 + d;
            uc < 0x1_0000 && uc / 0x1000 == a && uc / 0x100 % 16 == b && uc / 0x10 % 16 == c && uc % 16 == d
  {
  }

  /** Every text that parse_hex4 can read is the digits of its value. */
  lemma HexTextIsAll(hex: string)
    requires |hex| == 4 && HasHex4(hex)
    ensures exists upper: seq<bool> :: |upper| == 4 && hex == HexText(Hex4(hex), upper)
  {
    hide HexDigit, HexValue;
    var upper := seq(4, i requires 0 <= i < 4 => 'A' <= hex[i] <= 'F');
    DigitPlaces(HexValue(hex[0]), HexValue(hex[1]), HexValue(hex[2]), HexValue(hex[3]));
    HexCase(hex[0]);
    HexCase(hex[1]);
    HexCase(hex[2]);
    HexCase(hex[3]);
    assert hex == HexText(Hex4(hex), upper);
  }

  /** The four digits of a code point that is no surrogate, in either case, give its UTF-8 encoding. */
  lemma PlainEscape(uc: nat, upper: seq<bool>, rest: string)
    requires 0 < uc < 0x1_0000 && |upper| == 4 && !(0xD800 <= uc <= 0xDFFF)
    ensures var r := UnicodeEscape(HexText(uc, upper) + rest);
            r.Ok? && r.rest == rest && Encodes(r.value, uc)
  {
    hide Utf8, Encodes, HexText, Hex4, HasHex4;
    Utf8Correct(uc);
    HexRoundTrip(uc, upper, rest);
    assert (HexText(uc, upper) + rest)[4..] == rest;
  }

  /** A surrogate pair (section 2.1 of RFC 2781) gives the UTF-8 encoding of the character it stands for. */
  lemma SurrogatePair(uc: nat, upper: seq<bool>, upper': seq<bool>, rest: string)
    requires 0x1_0000 <= uc < 0x11_0000 && |upper| == |upper'| == 4
    ensures var high, low := 0xD800 + (uc - 0x1_0000) / 0x400, 0xDC00 + (uc - 0x1_0000) % 0x400;
            var r := UnicodeEscape(HexText(high, upper) + ("\\u" + (HexText(low, upper') + rest)));
            r.Ok? && r.rest == rest && Encodes(r.value, uc)
  {
    hide Utf8, Encodes, HexText, Hex4, HasHex4;
    var high, low := 0xD800 + (uc - 0x1_0000) / 0x400, 0xDC00 + (uc - 0x1_0000) % 0x400;
    var second := HexText(low, upper') + rest;
    var s := HexText(high, upper) + ("\\u" + second);
    Utf8Correct(uc);
    HexRoundTrip(high, upper, "\\u" + second);
    HexRoundTrip(low, upper', rest);
    assert s[6..] == second && s[10..] == rest && second[4..] == rest;
  }

  /** NUL, half a pair, or a pair whose second half is none, is dropped with all of its digits. */
  lemma DroppedEscapes(uc: nat, upper: seq<bool>, uc2: nat, upper2: seq<bool>, rest: string)
    requires uc < 0x1_0000 && uc2 < 0x1_0000 && |upper| == |upper2| == 4
    ensures uc == 0 || 0xDC00 <= uc <= 0xDFFF ==> UnicodeEscape(HexText(uc, upper) + rest) == Ok([], rest)
    ensures 0xD800 <= uc <= 0xDBFF && !("\\u" <= rest) ==> UnicodeEscape(HexText(uc, upper) + rest) == Ok([], rest)
    ensures 0xD800 <= uc <= 0xDBFF && !(0xDC00 <= uc2 <= 0xDFFF) ==>
              UnicodeEscape(HexText(uc, upper) + ("\\u" + (HexText(uc2, upper2) + rest))) == Ok([], rest)
  {
    hide Utf8, HexText, Hex4, HasHex4;
    HexRoundTrip(uc, upper, rest);
    var s := HexText(uc, upper) + rest;
    assert s[4..] == rest;
    if !("\\u" <= rest) {
      assert !(|s| >= 6 && s[4] == '\\' && s[5] == 'u');
    }
    var second := HexText(uc2, upper2) + rest;
    var pair := HexText(uc, upper) + ("\\u" + second);
    HexRoundTrip(uc, upper, "\\u" + second);
    HexRoundTrip(uc2, upper2, rest);
    assert pair[6..] == second && pair[10..] == rest;
  }

  // ---------- Blanks ----------

  predicate Blank(s: string) {
    forall k :: 0 <= k < |s| ==> s[k] as int <= 32
  }

  lemma {:induction false} SkipBlank(s: string, rest: string)
    requires Blank(s)
    ensures Skip(s + rest) == Skip(rest)
  {
    if s == [] {
      assert s + rest == rest;
    } else {
      assert (s + rest)[1..] == s[1..] + rest;
      SkipBlank(s[1..], rest);
    }
  }

  lemma {:induction false} SkipIdempotent(s: string)
    ensures Skip(Skip(s)) == Skip(s)
  {
    if s != [] {
      SkipIdempotent(s[1..]);
    }
  }

  /** No printed value begins with a blank or with the end of an array. */
  lemma PrintStart(j: Json, depth: nat, fmt: bool)
    ensures var t := Print(j, depth, fmt); t != [] && t[0] as int > 32 && t[0] != ']'
  {
    if j.Number? {
      DecimalStart(j.n);
    }
  }

  // ---------- Trees ----------

  /** parse_value decides by the first character, unless it may begin a word. */
  lemma NoWord(s: string)
    requires s != [] && s[0] !in "nft"
    ensures !("null" <= s) && !("false" <= s) && !("true" <= s)
  {
  }

  lemma WordValue(j: Json, depth: nat, fmt: bool, rest: string)
    requires j.Null? || j.True? || j.False?
    ensures ParseValue(Print(j, depth, fmt) + rest) == Ok(j, rest)
  {
    var s := Print(j, depth, fmt) + rest;
    assert s[0] == Print(j, depth, fmt)[0];
    assert s[|Print(j, depth, fmt)|..] == rest;
  }

  lemma NumberValue(n: int, depth: nat, fmt: bool, rest: string)
    requires Stops(rest) && IsInt32(n)
    ensures ParseValue(Print(Number(n), depth, fmt) + rest) == Ok(Number(n), rest)
  {
    hide ParseNumber, Decimal;
    NumberRoundTrip(n, rest);
    NoWord(Decimal(n) + rest);
  }

  lemma StringValue(s: string, depth: nat, fmt: bool, rest: string)
    requires NulFree(s)
    ensures ParseValue(Print(String(s), depth, fmt) + rest) == Ok(String(s), rest)
  {
    hide ParseString, Escaped;
    QuotedRoundTrip(s, rest);
    NoWord(Quoted(s) + rest);
  }

  lemma ArrayValue(items: seq<Json>, depth: nat, fmt: bool, rest: string)
    requires Representable(Array(items))
    ensures ParseValue(Print(Array(items), depth, fmt) + rest) == Ok(Array(items), rest)
    decreases items, 1
  {
    hide PrintItems, ParseItems;
    var inner, s := PrintItems(items, depth, fmt) + "]" + rest, Print(Array(items), depth, fmt) + rest;
    assert s[1..] == inner;
    NoWord(s);
    if items == [] {
      NoItems(depth, fmt);
      assert inner == "]" + rest;
    } else {
      ItemsStart(items, depth, fmt);
      assert Skip(inner) == inner;
      ItemsRoundTrip(items, depth, fmt, rest);
    }
  }

  lemma NoItems(depth: nat, fmt: bool)
    ensures PrintItems([], depth, fmt) == []
  {
  }

  lemma ItemsStart(items: seq<Json>, depth: nat, fmt: bool)
    requires items != []
    ensures var t := PrintItems(items, depth, fmt); t != [] && t[0] as int > 32 && t[0] != ']'
  {
    PrintStart(items[0], depth + 1, fmt);
  }

  lemma {:induction false} ItemsRoundTrip(items: seq<Json>, depth: nat, fmt: bool, rest: string)
    requires items != [] && Representable(Array(items))
    ensures ParseItems(PrintItems(items, depth, fmt) + "]" + rest) == Ok(items, rest)
    decreases items, 0
  {
    hide Print, PrintItems, ParseValue, ParseItems, Gap, Skip;
    var more := items[1..];
    var tail := PrintItems(more, depth, fmt) + "]" + rest;
    var after := Gap(more == [], fmt) + tail;
    ItemText(items, depth, fmt, rest);
    NoItems(depth, fmt);
    AfterItem(more == [], fmt, tail);
    ValueStart(items[0], depth + 1, fmt, after);
    ValueRoundTrip(items[0], depth + 1, fmt, after);
    FirstItem(Print(items[0], depth + 1, fmt) + after, items[0], after, tail);
    PrefixedHead(items, rest);
    if more != [] {
      ItemsRoundTrip(more, depth, fmt, rest);
    } else {
      assert tail == "]" + rest && ("]" + rest)[1..] == rest;
    }
  }

  lemma ItemText(items: seq<Json>, depth: nat, fmt: bool, rest: string)
    requires items != []
    ensures PrintItems(items, depth, fmt) + "]" + rest
         == Print(items[0], depth + 1, fmt) + (Gap(items[1..] == [], fmt)
             + (PrintItems(items[1..], depth, fmt) + "]" + rest))
  {
    hide Print, Gap;
    var text, gap, more := Print(items[0], depth + 1, fmt), Gap(|items| == 1, fmt), PrintItems(items[1..], depth, fmt);
    Nest3(text, gap, more, "]" + rest);
    Nest2(PrintItems(items, depth, fmt), "]", rest);
    Nest2(more, "]", rest);
    assert (|items| == 1) == (items[1..] == []);
  }

  lemma PrefixedHead<T>(xs: seq<T>, rest: string)
    requires xs != []
    ensures Prefixed([xs[0]], Ok(xs[1..], rest)) == Ok(xs, rest)
    ensures |xs| == 1 ==> [xs[0]] == xs
  {
    assert [xs[0]] + xs[1..] == xs;
  }

  lemma Nest3(a: string, b: string, c: string, d: string)
    ensures (a + b + c) + d == a + (b + (c + d))
  {
  }

  lemma ValueStart(j: Json, depth: nat, fmt: bool, after: string)
    ensures Skip(Print(j, depth, fmt) + after) == Print(j, depth, fmt) + after
  {
    hide Print;
    PrintStart(j, depth, fmt);
  }

  /** What follows an entry of an array ends a number, and leads to the next entry or to the end. */
  lemma AfterItem(last: bool, fmt: bool, tail: string)
    requires last ==> tail != [] && tail[0] == ']'
    ensures var after := Gap(last, fmt) + tail;
            Stops(after) && Skip(after) == after && after != [] && after[0] == (if last then ']' else ',')
    ensures last ==> Gap(last, fmt) + tail == tail
    ensures !last ==> Skip((Gap(last, fmt) + tail)[1..]) == Skip(tail)
  {
    var gap := Gap(last, fmt);
    if !last {
      assert (gap + tail)[1..] == gap[1..] + tail;
      SkipBlank(gap[1..], tail);
    }
  }

  /** parse_array reading one child. */
  lemma FirstItem(s: string, value: Json, after: string, tail: string)
    requires ParseValue(Skip(s)) == Ok(value, after) && Skip(after) == after && after != []
    requires after[0] == ',' ==> Skip(after[1..]) == Skip(tail)
    ensures after[0] == ',' ==> ParseItems(s) == Prefixed([value], ParseItems(tail))
    ensures after[0] == ']' ==> ParseItems(s) == Ok([value], after[1..])
  {
  }

  // ---------- Objects ----------

  lemma ObjectValue(members: seq<Member>, depth: nat, fmt: bool, rest: string)
    requires Representable(Object(members))
    ensures ParseValue(Print(Object(members), depth, fmt) + rest) == Ok(Object(members), rest)
    decreases members, 1
  {
    hide PrintMembers, ParseMembers, Skip, ParseItems, ParseNumber, ParseString, Indent, NewLine, Quoted;
    hide Decimal, PrintItems;
    var open, close := NewLine(fmt), Indent(if members == [] then depth - 1 else depth, fmt);
    var inner, s := PrintMembers(members, depth, fmt) + close + "}" + rest, Print(Object(members), depth, fmt) + rest;
    BlankIndent(if members == [] then depth - 1 else depth, fmt);
    Braced(open, PrintMembers(members, depth, fmt), close, rest);
    SkipBlank(open, inner);
    NoWord(s);
    if members == [] {
      NoMembers(depth, fmt);
      Nest2(close, "}", rest);
      SkipBlank(close, "}" + rest);
      SkipNothing("}" + rest);
    } else {
      MembersRoundTrip(members, depth, fmt, close, rest);
      SkipIdempotent(inner);
      SameMembers(Skip(inner), inner);
    }
  }

  lemma Braced(open: string, members: string, close: string, rest: string)
    ensures var s := "{" + open + members + close + "}" + rest;
            s[0] == '{' && s[1..] == open + (members + close + "}" + rest)
    ensures [] + close == close
  {
  }

  lemma BlankIndent(n: int, fmt: bool)
    ensures Blank(Indent(n, fmt)) && Blank(NewLine(fmt)) && Blank(NewLine(fmt) + Indent(n, fmt))
  {
  }

  lemma SkipNothing(s: string)
    requires s != [] && s[0] as int > 32
    ensures Skip(s) == s
  {
  }

  lemma NoMembers(depth: nat, fmt: bool)
    ensures PrintMembers([], depth, fmt) == []
  {
  }

  /** Blanks before the first child make no difference. */
  lemma SameMembers(s: string, t: string)
    requires Skip(s) == Skip(t)
    ensures ParseMembers(s) == ParseMembers(t)
  {
  }

  lemma {:induction false} MembersRoundTrip(members: seq<Member>, depth: nat, fmt: bool, close: string, rest: string)
    requires members != [] && Representable(Object(members)) && Blank(close)
    ensures var s := PrintMembers(members, depth, fmt) + close + "}" + rest;
            Skip(s) != [] && Skip(s)[0] == '\"' && ParseMembers(s) == Ok(members, rest)
    decreases members, 0
  {
    hide Print, ParseValue, ParseString, Quoted, ParseMembers, Skip, Indent, Colon, LineEnd, NewLine;
    var name, value, more, last := members[0].name, members[0].value, members[1..], |members| == 1;
    var lead, end := Indent(depth + 1, fmt), LineEnd(last, fmt);
    var tail := PrintMembers(more, depth, fmt) + close + "}" + rest;
    var after := end + tail;
    var afterName := Colon(fmt) + (Print(value, depth + 1, fmt) + after);
    MemberText(lead, Quoted(name), Colon(fmt), Print(value, depth + 1, fmt), end, PrintMembers(more, depth, fmt),
        close, rest);
    BlankIndent(depth + 1, fmt);
    SkipBlank(lead, Quoted(name) + afterName);
    QuotedStart(name, afterName);
    QuotedRoundTrip(name, afterName);
    AfterName(fmt, Print(value, depth + 1, fmt) + after);
    ValueStart(value, depth + 1, fmt, after);
    NoMembers(depth, fmt);
    AfterMember(last, fmt, tail, close, rest);
    ValueRoundTrip(value, depth + 1, fmt, after);
    PrefixedHead(members, rest);
    if more != [] {
      MembersRoundTrip(more, depth, fmt, close, rest);
      SameMembers(Skip(after)[1..], tail);
    } else {
      assert ("}" + rest)[1..] == rest;
    }
    FirstMember(lead + (Quoted(name) + afterName), name, afterName, value, after);
  }

  lemma MemberText(lead: string, name: string, colon: string, value: string, end: string, more: string,
      close: string, rest: string)
    ensures (lead + name + colon + value + end + more) + close + "}" + rest
         == lead + (name + (colon + (value + (end + (more + close + "}" + rest)))))
  {
    Nest3(lead + name + colon, value, end, more);
    Nest3(lead, name, colon, value + (end + more));
    assert value + (end + more) + (close + "}" + rest) == value + (end + (more + (close + "}" + rest)));
    assert colon + (value + (end + more)) + (close + "}" + rest)
        == colon + (value + (end + more) + (close + "}" + rest));
    assert more + (close + "}" + rest) == more + close + "}" + rest;
  }

  lemma QuotedStart(name: string, more: string)
    ensures Skip(Quoted(name) + more) == Quoted(name) + more && Quoted(name) != [] && Quoted(name)[0] == '\"'
  {
  }

  lemma AfterName(fmt: bool, text: string)
    ensures var s := Colon(fmt) + text; s[0] == ':' && Skip(s) == s && Skip(s[1..]) == Skip(text)
  {
    var s, blank := Colon(fmt) + text, Colon(fmt)[1..];
    assert s[1..] == blank + text;
    SkipBlank(blank, text);
  }

  /** What follows an entry of an object ends a number, and leads to the next entry or to the end. */
  lemma AfterMember(last: bool, fmt: bool, tail: string, close: string, rest: string)
    requires Blank(close) && (last ==> tail == close + "}" + rest)
    ensures var after := LineEnd(last, fmt) + tail;
            && Stops(after) && Skip(after) != []
            && if last then Skip(after) == "}" + rest else Skip(after)[0] == ',' && Skip(Skip(after)[1..]) == Skip(tail)
  {
    var nl, after := NewLine(fmt), LineEnd(last, fmt) + tail;
    if last {
      assert after == (nl + close) + ("}" + rest);
      SkipBlank(nl + close, "}" + rest);
      assert Stops(after);
    } else {
      assert Skip(after) == after && after[1..] == nl + tail;
      SkipBlank(nl, tail);
    }
  }

  /** parse_object reading one child. */
  lemma FirstMember(s: string, name: string, afterName: string, value: Json, after: string)
    requires ParseString(Skip(s)) == Ok(name, afterName)
    requires Skip(afterName) != [] && Skip(afterName)[0] == ':'
    requires ParseValue(Skip(Skip(afterName)[1..])) == Ok(value, after)
    ensures var u := Skip(after);
            ParseMembers(s) ==
              if u != [] && u[0] == ',' then Prefixed([Member(name, value)], ParseMembers(u[1..]))
              else if u != [] && u[0] == '}' then Ok([Member(name, value)], u[1..])
              else Malformed(u)
  {
  }

  lemma {:induction false} ValueRoundTrip(j: Json, depth: nat, fmt: bool, rest: string)
    requires Representable(j) && (j.Number? ==> Stops(rest))
    ensures ParseValue(Print(j, depth, fmt) + rest) == Ok(j, rest)
    decreases j, 1
  {
    hide Print, ParseValue;
    match j {
      case Null | True | False => WordValue(j, depth, fmt, rest);
      case Number(n) => NumberValue(n, depth, fmt, rest);
      case String(s) => StringValue(s, depth, fmt, rest);
      case Array(items) => ArrayValue(items, depth, fmt, rest);
      case Object(members) => ObjectValue(members, depth, fmt, rest);
    }
  }

  /** cJSON_Parse after cJSON_Print or cJSON_PrintUnformatted. */
  lemma PrintParse(j: Json, fmt: bool)
    requires Representable(j)
    ensures Parse(Print(j, 0, fmt)) == Ok(j, [])
  {
    hide Print, ParseValue;
    ValueStart(j, 0, fmt, []);
    assert Print(j, 0, fmt) + [] == Print(j, 0, fmt);
    ValueRoundTrip(j, 0, fmt, []);
  }

  /** Different trees have different texts, whichever way each is printed. */
  lemma PrintInjective(j: Json, k: Json, fmt: bool, fmt': bool)
    requires Representable(j) && Representable(k) && Print(j, 0, fmt) == Print(k, 0, fmt')
    ensures j == k
  {
    PrintParse(j, fmt);
    PrintParse(k, fmt');
  }

  // ---------- The texts themselves ----------

  /** Section 7 of RFC 8259: how each character is printed between the quotes. */
  lemma EscapeTexts(c: char)
    ensures EscapedChar('\"') == "\\\"" && EscapedChar('\\') == "\\\\"
    ensures EscapedChar(8 as char) == "\\b" && EscapedChar(12 as char) == "\\f"
    ensures EscapedChar('\n') == "\\n" && EscapedChar('\r') == "\\r" && EscapedChar('\t') == "\\t"
    ensures c as int > 31 && c != '\"' && c != '\\' ==> EscapedChar(c) == [c]
  {
  }

  /** The other control characters. */
  lemma ControlTexts(c: char)
    requires c as int <= 31 && c !in [8 as char, 12 as char, '\n', '\r', '\t']
    ensures EscapedChar(c) == "\\u" + HexText(c as int, [false, false, false, false])
  {
    hide HexDigit, Digit;
    SameDigit(0);
    SameDigit(c as int / 16);
    SameDigit(c as int % 16);
    assert Digit(0) == '0' by {
      ZeroDigit();
    }
  }

  lemma ZeroDigit()
    ensures Digit(0) == '0'
  {
  }

  lemma SameDigit(d: nat)
    requires d < 16
    ensures HexDigit(d, false) == Digit(d)
  {
  }

  lemma QuotedText(c: char)
    ensures Quoted([c]) == "\"" + EscapedChar(c) + "\""
  {
    hide EscapedChar;
    assert [c][1..] == [] && Escaped([]) == [];
    assert EscapedChar(c) + [] == EscapedChar(c);
  }

  /** The same section, read: the letters that stand for a character, and the others that stand for themselves. */
  lemma EscapeLetters(c: char, rest: string)
    ensures EscapeMeaning("b" + rest) == Ok([8 as char], rest) && EscapeMeaning("f" + rest) == Ok([12 as char], rest)
    ensures EscapeMeaning("n" + rest) == Ok("\n", rest) && EscapeMeaning("r" + rest) == Ok("\r", rest)
    ensures EscapeMeaning("t" + rest) == Ok("\t", rest)
    ensures c !in "bfnrtu" ==> EscapeMeaning([c] + rest) == Ok([c], rest)
  {
    assert ("b" + rest)[1..] == rest && ("f" + rest)[1..] == rest && ("n" + rest)[1..] == rest;
    assert ("r" + rest)[1..] == rest && ("t" + rest)[1..] == rest && ([c] + rest)[1..] == rest;
  }

  lemma SimpleTexts(depth: nat, fmt: bool)
    ensures Print(Null, depth, fmt) == "null" && Print(False, depth, fmt) == "false"
    ensures Print(True, depth, fmt) == "true"
    ensures Print(Array([]), depth, fmt) == "[]" && Print(Object([]), depth, false) == "{}"
    ensures Print(Object([]), depth, true) == "{\n" + Tabs(depth - 1) + "}"
  {
  }

  /** Decimal digits, the most significant first. */
  lemma NumberTexts(depth: nat, fmt: bool)
    ensures Print(Number(120), depth, fmt) == "120" && Print(Number(-7), depth, fmt) == "-7"
    ensures DigitsValue("120") == 120
  {
    assert "120"[..2] == "12" && "12"[..1] == "1" && "1"[..0] == "";
    assert Digits(1) == "1" && Digits(12) == "12";
  }

  lemma ArrayText(a: Json, b: Json, depth: nat)
    ensures Print(Array([a, b]), depth, true)
         == "[" + (Print(a, depth + 1, true) + ", " + Print(b, depth + 1, true)) + "]"
    ensures Print(Array([a, b]), depth, false)
         == "[" + (Print(a, depth + 1, false) + "," + Print(b, depth + 1, false)) + "]"
  {
    hide Print, PrintItems;
    Brackets([a, b], depth, true);
    Brackets([a, b], depth, false);
    TwoItems(a, b, depth, true);
    TwoItems(a, b, depth, false);
  }

  lemma Brackets(items: seq<Json>, depth: nat, fmt: bool)
    ensures Print(Array(items), depth, fmt) == "[" + PrintItems(items, depth, fmt) + "]"
  {
  }

  lemma Braces(members: seq<Member>, depth: nat)
    requires members != []
    ensures Print(Object(members), depth, true) == "{\n" + PrintMembers(members, depth, true) + Tabs(depth) + "}"
    ensures Print(Object(members), depth, false) == "{" + PrintMembers(members, depth, false) + "}"
  {
    hide PrintMembers;
  }

  lemma TwoItems(a: Json, b: Json, depth: nat, fmt: bool)
    ensures PrintItems([a, b], depth, fmt)
         == Print(a, depth + 1, fmt) + (if fmt then ", " else ",") + Print(b, depth + 1, fmt)
  {
    hide Print;
    assert [a, b][1..] == [b] && [b][1..] == [];
    NoItems(depth, fmt);
    assert PrintItems([b], depth, fmt) == Print(b, depth + 1, fmt);
  }

  lemma ObjectText(m: Member, n: Member, depth: nat)
    ensures Print(Object([m, n]), depth, true)
         == "{\n" + ((Tabs(depth + 1) + Quoted(m.name) + ":\t" + Print(m.value, depth + 1, true) + ",\n")
                     + (Tabs(depth + 1) + Quoted(n.name) + ":\t" + Print(n.value, depth + 1, true) + "\n"))
            + Tabs(depth) + "}"
    ensures Print(Object([m, n]), depth, false)
         == "{" + ((Quoted(m.name) + ":" + Print(m.value, depth + 1, false) + ",")
                   + (Quoted(n.name) + ":" + Print(n.value, depth + 1, false))) + "}"
  {
    hide Quoted, Print, PrintMembers;
    Braces([m, n], depth);
    TwoMembers(m, n, depth, true);
    TwoMembers(m, n, depth, false);
  }

  lemma TwoMembers(m: Member, n: Member, depth: nat, fmt: bool)
    ensures fmt ==>
              PrintMembers([m, n], depth, fmt)
              == (Tabs(depth + 1) + Quoted(m.name) + ":\t" + Print(m.value, depth + 1, fmt) + ",\n")
                 + (Tabs(depth + 1) + Quoted(n.name) + ":\t" + Print(n.value, depth + 1, fmt) + "\n")
    ensures !fmt ==>
              PrintMembers([m, n], depth, fmt)
              == (Quoted(m.name) + ":" + Print(m.value, depth + 1, fmt) + ",")
                 + (Quoted(n.name) + ":" + Print(n.value, depth + 1, fmt))
  {
    hide Print, Quoted;
    assert [m, n][1..] == [n] && [n][1..] == [];
    NoMembers(depth, fmt);
  }

  /** Numbers as the parser takes them: one leading zero is skipped, and a sign alone is a zero. */
  lemma NumberReadings()
    ensures ParseNumber("-") == Ok(Number(0), "") && ParseNumber("00") == Ok(Number(0), "0")
    ensures ParseNumber("-012") == Ok(Number(-12), "")
  {
    var s := "12";
    assert s[..1] == "1" && s[..2] == s && "1"[..0] == "" && s[1..] == "2" && s[2..] == "" && "2"[1..] == "";
    assert DigitsValue("1") == 1 && DigitsValue(s) == 12;
    assert DigitRun("2") == 1 && DigitRun(s) == 2;
    assert "-012"[1..] == "012" && "012"[1..] == s && "-"[1..] == "";
    assert "00"[1..] == "0" && "0"[..0] == "" && "0"[0..] == "0";
  }
}
