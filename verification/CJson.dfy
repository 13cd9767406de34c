/**
 JSON trees, the text cJSON prints for them and what its parser reads (cJSON.c), as
 functions.  A C string is the sequence of its bytes before the terminating NUL, one
 char per byte.
 */
module CJson {

  datatype Json =
    | Null
    | False
    | True
    | Number(n: int)
    | String(s: string)
    | Array(items: seq<Json>)
    | Object(members: seq<Member>)

  /** A child of an object: its `string` field, and the node itself. */
  datatype Member = Member(name: string, value: Json)

  const BACKSPACE := 8 as char
  const FORM_FEED := 12 as char

  predicate NulFree(s: string) {
    '\0' !in s
  }

  predicate IsInt32(n: int) {
    -0x8000_0000 <= n < 0x8000_0000
  }

  /** The trees that have a C representation and a number printed as an integer. */
  predicate Representable(j: Json) {
    match j
    case Number(n) => IsInt32(n)
    case String(s) => NulFree(s)
    case Array(items) => forall x :: x in items ==> Representable(x)
    case Object(members) => forall m :: m in members ==> NulFree(m.name) && Representable(m.value)
    case _ => true
  }

  // ---------- Printing ----------

  function Digit(d: nat): char
    requires d < 16
  {
    if d < 10 then ('0' as int + d) as char else ('a' as int + d - 10) as char
  }

  function Digits(n: nat): string {
    if n < 10 then [Digit(n)] else Digits(n / 10) + [Digit(n % 10)]
  }

  /** sprintf with "%d". */
  function Decimal(n: int): string {
    if n < 0 then "-" + Digits(-n) else Digits(n)
  }

  predicate Special(c: char) {
    c == '\"' || c == '\\' || c == BACKSPACE || c == FORM_FEED || c == '\n' || c == '\r' || c == '\t'
  }

  /** The letter after the backslash for one of the characters with a short escape. */
  function EscapeLetter(c: char): char
    requires Special(c)
  {
    if c == BACKSPACE then 'b' else if c == FORM_FEED then 'f' else if c == '\n' then 'n'
    else if c == '\r' then 'r' else if c == '\t' then 't' else c
  }

  function EscapedChar(c: char): string {
    if Special(c) then ['\\', EscapeLetter(c)]
    else if c as int > 31 then [c]
    else ['\\', 'u', '0', '0', Digit(c as int / 16), Digit(c as int % 16)]
  }

  function Escaped(s: string): string {
    if s == [] then [] else EscapedChar(s[0]) + Escaped(s[1..])
  }

  function Quoted(s: string): string {
    "\"" + Escaped(s) + "\""
  }

  function Tabs(n: int): (t: string)
    ensures |t| == if n < 0 then 0 else n
    ensures forall k :: 0 <= k < |t| ==> t[k] == '\t'
  {
    if n <= 0 then [] else "\t" + Tabs(n - 1)
  }

  /** Between the entries of an array. */
  function Gap(last: bool, fmt: bool): string {
    if last then [] else if fmt then ", " else ","
  }

  function NewLine(fmt: bool): string {
    if fmt then "\n" else []
  }

  function Indent(n: int, fmt: bool): string {
    if fmt then Tabs(n) else []
  }

  function Colon(fmt: bool): string {
    if fmt then ":\t" else ":"
  }

  /** After an entry of an object. */
  function LineEnd(last: bool, fmt: bool): string {
    if last then NewLine(fmt) else "," + NewLine(fmt)
  }

  /** print_value: the text of a node at nesting depth `depth`, formatted or not. */
  function Print(j: Json, depth: nat, fmt: bool): string
    decreases j
  {
    match j
    case Null => "null"
    case False => "false"
    case True => "true"
    case Number(n) => Decimal(n)
    case String(s) => Quoted(s)
    case Array(items) => "[" + PrintItems(items, depth, fmt) + "]"
    case Object(members) =>
      "{" + NewLine(fmt) + PrintMembers(members, depth, fmt)
          + Indent(if members == [] then depth - 1 else depth, fmt) + "}"
  }

  function PrintItems(items: seq<Json>, depth: nat, fmt: bool): string
    decreases items
  {
    if items == [] then []
    else Print(items[0], depth + 1, fmt) + Gap(|items| == 1, fmt) + PrintItems(items[1..], depth, fmt)
  }

  function PrintMembers(members: seq<Member>, depth: nat, fmt: bool): string
    decreases members
  {
    if members == [] then []
    else Indent(depth + 1, fmt) + Quoted(members[0].name) + Colon(fmt) + Print(members[0].value, depth + 1, fmt)
         + LineEnd(|members| == 1, fmt) + PrintMembers(members[1..], depth, fmt)
  }

  /** Texts put together from three parts. */
  lemma Nest2(a: string, b: string, c: string)
    ensures a + b + c == a + (b + c)
  {
  }

  // ---------- Parsing ----------

  /**
   The outcome of a parsing function: a value and the text after it; the text at which `ep`
   is left; or a text outside the model, being a number with a fraction or an exponent or
   beyond an int, or a string with an escape that is cut short or a \u without four
   hexadecimal digits.
   */
  datatype Result<T> = Ok(value: T, rest: string) | Malformed(ep: string) | Unmodelled {
    function Map<U>(f: T -> U): Result<U> {
      match this
      case Ok(v, rest) => Ok(f(v), rest)
      case Malformed(at) => Malformed(at)
      case Unmodelled => Unmodelled
    }
  }

  /** More of a sequence found before what `r` found. */
  function Prefixed<T>(front: seq<T>, r: Result<seq<T>>): Result<seq<T>> {
    match r
    case Ok(back, rest) => Ok(front + back, rest)
    case Malformed(at) => Malformed(at)
    case Unmodelled => Unmodelled
  }

  /** skip: control characters and blanks. */
  function Skip(s: string): (t: string)
    ensures |t| <= |s|
  {
    if s != [] && s[0] as int <= 32 then Skip(s[1..]) else s
  }

  predicate IsDigit(c: char) {
    '0' <= c <= '9'
  }

  function DigitRun(s: string): (n: nat)
    ensures n <= |s|
  {
    if s != [] && IsDigit(s[0]) then 1 + DigitRun(s[1..]) else 0
  }

  function DigitsValue(s: string): int {
    if s == [] then 0 else 10 * DigitsValue(s[..|s| - 1]) + (s[|s| - 1] as int - '0' as int)
  }

  /** A text that would go on as part of a number before it. */
  predicate Continues(s: string) {
    s != [] && (s[0] in "eE" || (s[0] == '.' && |s| >= 2 && IsDigit(s[1])))
  }

  /** The part of parse_number after the sign, for integers; the double it sums up is exact in the range of an int. */
  function ParseMagnitude(s: string, minus: bool): (r: Result<Json>)
    ensures r.Ok? ==> |r.rest| <= |s|
  {
    var t := if s != [] && s[0] == '0' then s[1..] else s;
    var run := if t != [] && '1' <= t[0] <= '9' then DigitRun(t) else 0;
    var n := if minus then -DigitsValue(t[..run]) else DigitsValue(t[..run]);
    if Continues(t[run..]) || !IsInt32(n) then Unmodelled else Ok(Number(n), t[run..])
  }

  /** parse_number, of a text that begins like a number. */
  function ParseNumber(s: string): (r: Result<Json>)
    requires s != [] && (s[0] == '-' || IsDigit(s[0]))
    ensures r.Ok? ==> |r.rest| < |s|
  {
    if s[0] == '-' then ParseMagnitude(s[1..], true) else ParseMagnitude(s, false)
  }

  predicate IsHex(c: char) {
    IsDigit(c) || 'A' <= c <= 'F' || 'a' <= c <= 'f'
  }

  function HexValue(c: char): (v: nat)
    requires IsHex(c)
    ensures v < 16
  {
    if IsDigit(c) then c as int - '0' as int
    else if 'A' <= c <= 'F' then 10 + c as int - 'A' as int
    else 10 + c as int - 'a' as int
  }

  predicate HasHex4(s: string) {
    |s| >= 4 && IsHex(s[0]) && IsHex(s[1]) && IsHex(s[2]) && IsHex(s[3])
  }

  /** parse_hex4. */
  function Hex4(s: string): (v: nat)
    requires HasHex4(s)
    ensures v < 0x1_0000
  {
    ((HexValue(s[0]) * 16 + HexValue(s[1])) * 16 + HexValue(s[2])) * 16 + HexValue(s[3])
  }

  /** A continuation byte of UTF-8, for the last six bits. */
  function Continuation(uc: nat): char {
    (0x80 + uc % 64) as char
  }

  /** The UTF-8 bytes of a code point. */
  function Utf8(uc: nat): (t: string)
    requires uc < 0x11_0000
    ensures 1 <= |t| <= 4
  {
    if uc < 0x80 then [uc as char]
    else if uc < 0x800 then [(0xC0 + uc / 64) as char, Continuation(uc)]
    else if uc < 0x1_0000 then [(0xE0 + uc / 64 / 64) as char, Continuation(uc / 64), Continuation(uc)]
    else [(0xF0 + uc / 64 / 64 / 64) as char, Continuation(uc / 64 / 64), Continuation(uc / 64), Continuation(uc)]
  }

  predicate HighSurrogate(uc: nat) {
    0xD800 <= uc <= 0xDBFF
  }

  predicate LowSurrogate(uc: nat) {
    0xDC00 <= uc <= 0xDFFF
  }

  /** What a \u escape, whose text after the backslash and the letter is `s`, stands for, and what follows it. */
  function UnicodeEscape(s: string): (r: Result<string>)
    ensures r.Ok? ==> |r.rest| < |s| && |r.value| <= 4
  {
    if !HasHex4(s) then Unmodelled
    else
      var uc := Hex4(s);
      if uc == 0 || LowSurrogate(uc) then Ok([], s[4..])
      else if !HighSurrogate(uc) then Ok(Utf8(uc), s[4..])
      else if !(|s| >= 6 && s[4] == '\\' && s[5] == 'u') then Ok([], s[4..])
      else if !HasHex4(s[6..]) then Unmodelled
      else
        var uc2 := Hex4(s[6..]);
        Ok(if LowSurrogate(uc2) then Utf8(0x1_0000 + (uc - 0xD800) * 0x400 + (uc2 - 0xDC00)) else [], s[10..])
  }

  /** What a backslash followed by `s` stands for. */
  function EscapeMeaning(s: string): (r: Result<string>)
    ensures r.Ok? ==> |r.rest| < |s| && |r.value| <= 4
  {
    if s == [] then Unmodelled
    else if s[0] == 'u' then UnicodeEscape(s[1..])
    else
      var c := if s[0] == 'b' then BACKSPACE else if s[0] == 'f' then FORM_FEED else if s[0] == 'n' then '\n'
               else if s[0] == 'r' then '\r' else if s[0] == 't' then '\t' else s[0];
      Ok([c], s[1..])
  }

  /** The body of a string literal; the end of the text ends it too. */
  function Unescape(s: string): (r: Result<string>)
    ensures r.Ok? ==> |r.rest| <= |s|
    decreases |s|
  {
    if s == [] then Ok([], [])
    else if s[0] == '\"' then Ok([], s[1..])
    else if s[0] != '\\' then Prefixed([s[0]], Unescape(s[1..]))
    else
      var e := EscapeMeaning(s[1..]);
      if e.Ok? then Prefixed(e.value, Unescape(e.rest)) else Unmodelled
  }

  /** parse_string. */
  function ParseString(s: string): (r: Result<string>)
    ensures r.Ok? ==> |r.rest| < |s|
  {
    if s == [] || s[0] != '\"' then Malformed(s) else Unescape(s[1..])
  }

  /** parse_value. */
  function ParseValue(s: string): (r: Result<Json>)
    ensures r.Ok? ==> |r.rest| < |s|
    decreases |s|, 0
  {
    if "null" <= s then Ok(Null, s[4..])
    else if "false" <= s then Ok(False, s[5..])
    else if "true" <= s then Ok(True, s[4..])
    else if s == [] then Malformed(s)
    else if s[0] == '\"' then ParseString(s).Map(t => String(t))
    else if s[0] == '-' || IsDigit(s[0]) then ParseNumber(s)
    else if s[0] == '[' then
      var t := Skip(s[1..]);
      if t != [] && t[0] == ']' then Ok(Array([]), t[1..]) else ParseItems(t).Map(items => Array(items))
    else if s[0] == '{' then
      var t := Skip(s[1..]);
      if t != [] && t[0] == '}' then Ok(Object([]), t[1..]) else ParseMembers(t).Map(members => Object(members))
    else Malformed(s)
  }

  /** The loop of parse_array, from before a child on. */
  function ParseItems(s: string): (r: Result<seq<Json>>)
    ensures r.Ok? ==> |r.rest| < |s|
    decreases |s|, 1
  {
    var v := ParseValue(Skip(s));
    if !v.Ok? then v.Map(_ => [])
    else
      var t := Skip(v.rest);
      if t != [] && t[0] == ',' then Prefixed([v.value], ParseItems(t[1..]))
      else if t != [] && t[0] == ']' then Ok([v.value], t[1..])
      else Malformed(t)
  }

  /** The loop of parse_object, from before a child on. */
  function ParseMembers(s: string): (r: Result<seq<Member>>)
    ensures r.Ok? ==> |r.rest| < |s|
    decreases |s|, 1
  {
    var name := ParseString(Skip(s));
    if !name.Ok? then name.Map(_ => [])
    else
      var t := Skip(name.rest);
      if t == [] || t[0] != ':' then Malformed(t)
      else
        var v := ParseValue(Skip(t[1..]));
        if !v.Ok? then v.Map(_ => [])
        else
          var u := Skip(v.rest);
          if u != [] && u[0] == ',' then Prefixed([Member(name.value, v.value)], ParseMembers(u[1..]))
          else if u != [] && u[0] == '}' then Ok([Member(name.value, v.value)], u[1..])
          else Malformed(u)
  }

  /** cJSON_Parse, with the default options. */
  function Parse(s: string): Result<Json> {
    ParseValue(Skip(s))
  }
}
