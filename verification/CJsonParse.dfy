/**
 The parser of cJSON.c as it runs: a pointer moving through the text, strings decoded into
 a buffer measured beforehand, children gathered in loops.  It reads what the functions of
 CJson say.
 */
module CJsonParse {
  import opened CJson

  /** A result with its place in the text: a value and the end of what was read, or where `ep` points. */
  datatype Scan<T> = Found(value: T, pos: nat) | Error(ep: nat) | Outside

  ghost predicate Agrees<T>(r: Scan<T>, text: string, spec: Result<T>) {
    match r
    case Found(v, pos) => pos <= |text| && spec == Ok(v, text[pos..])
    case Error(ep) => ep <= |text| && spec == Malformed(text[ep..])
    case Outside => spec == Unmodelled
  }

  lemma Suffix(text: string, pos: nat, n: nat)
    requires pos + n <= |text|
    ensures text[pos..][n..] == text[pos + n..]
  {
  }

  lemma PrefixedTwice<T>(a: seq<T>, b: seq<T>, r: Result<seq<T>>)
    ensures Prefixed(a, Prefixed(b, r)) == Prefixed(a + b, r)
  {
    if r.Ok? {
      assert a + (b + r.value) == (a + b) + r.value;
    }
  }

  lemma PrefixedNothing<T>(r: Result<seq<T>>)
    ensures Prefixed([], r) == r
  {
    if r.Ok? {
      assert [] + r.value == r.value;
    }
  }

  // ---------- Blanks and numbers ----------

  /** skip. */
  method SkipTo(text: string, start: nat) returns (pos: nat)
    requires start <= |text|
    ensures start <= pos <= |text| && Skip(text[start..]) == text[pos..]
  {
    pos := start;
    while pos < |text| && text[pos] as int <= 32
      invariant start <= pos <= |text| && Skip(text[start..]) == Skip(text[pos..])
    {
      Suffix(text, pos, 1);
      pos := pos + 1;
    }
  }

  lemma DigitsValueOn(s: string, k: nat)
    requires k < |s|
    ensures DigitsValue(s[..k + 1]) == 10 * DigitsValue(s[..k]) + (s[k] as int - '0' as int)
  {
    assert s[..k + 1][..k] == s[..k];
  }

  lemma NoDigits()
    ensures DigitsValue([]) == 0
  {
  }

  /** The loop over the digits of a number. */
  method ReadDigits(text: string, start: nat) returns (n: int, num: nat)
    requires start <= |text|
    ensures start <= num <= |text| && num - start == DigitRun(text[start..])
    ensures n == DigitsValue(text[start..][..num - start])
  {
    hide DigitsValue;
    ghost var t := text[start..];
    n, num := 0, start;
    NoDigits();
    while num < |text| && IsDigit(text[num])
      invariant start <= num <= |text| && n == DigitsValue(t[..num - start])
      invariant DigitRun(t) == num - start + DigitRun(text[num..])
    {
      Suffix(text, num, 1);
      DigitsValueOn(t, num - start);
      n := n * 10 + (text[num] as int - '0' as int);
      num := num + 1;
    }
  }

  lemma ContinuesAt(text: string, num: nat)
    requires num <= |text|
    ensures Continues(text[num..]) <==>
              num < |text| && (text[num] == 'e' || text[num] == 'E'
                  || (text[num] == '.' && num + 1 < |text| && IsDigit(text[num + 1])))
  {
  }

  lemma MagnitudeText(s: string, t: string, run: nat, minus: bool)
    requires t == if s != [] && s[0] == '0' then s[1..] else s
    requires run == if t != [] && '1' <= t[0] <= '9' then DigitRun(t) else 0
    ensures run <= |t|
    ensures var n := if minus then -DigitsValue(t[..run]) else DigitsValue(t[..run]);
            ParseMagnitude(s, minus)
              == if Continues(t[run..]) || !IsInt32(n) then Unmodelled else Ok(Number(n), t[run..])
  {
  }

  /** Whether a number goes on as a fraction or an exponent. */
  method GoesOn(text: string, num: nat) returns (more: bool)
    requires num <= |text|
    ensures more == Continues(text[num..])
  {
    ContinuesAt(text, num);
    more := num < |text| && (text[num] == 'e' || text[num] == 'E'
                             || (text[num] == '.' && num + 1 < |text| && IsDigit(text[num + 1])));
  }

  /** The digits of a number, the first of which is not a zero. */
  method ReadNatural(text: string, first: nat) returns (n: int, num: nat)
    requires first <= |text|
    ensures var t := text[first..];
            && first <= num <= |text| && num - first == (if t != [] && '1' <= t[0] <= '9' then DigitRun(t) else 0)
            && num - first <= |t| && n == DigitsValue(t[..num - first]) && t[num - first..] == text[num..]
  {
    hide DigitsValue, DigitRun;
    n, num := 0, first;
    NoDigits();
    assert text[first..][..0] == [];
    if num < |text| && '1' <= text[num] <= '9' {
      n, num := ReadDigits(text, num);
    }
    Suffix(text, first, num - first);
  }

  /** The part of parse_number after the sign. */
  method ParseMagnitudeAt(text: string, start: nat, minus: bool) returns (r: Scan<Json>)
    requires start <= |text|
    ensures Agrees(r, text, ParseMagnitude(text[start..], minus))
  {
    hide DigitsValue, DigitRun, Continues, ParseMagnitude, IsInt32;
    var first := start;
    if first < |text| && text[first] == '0' {
      Suffix(text, first, 1);
      first := first + 1;
    }
    var n, num := ReadNatural(text, first);
    var more := GoesOn(text, num);
    MagnitudeText(text[start..], text[first..], num - first, minus);
    n := if minus then -n else n;
    r := if more || !IsInt32(n) then Outside else Found(Number(n), num);
  }

  /** parse_number, for integers. */
  method ParseNumberAt(text: string, start: nat) returns (r: Scan<Json>)
    requires start < |text| && (text[start] == '-' || IsDigit(text[start]))
    ensures Agrees(r, text, ParseNumber(text[start..]))
  {
    hide ParseMagnitude;
    if text[start] == '-' {
      Suffix(text, start, 1);
      r := ParseMagnitudeAt(text, start + 1, true);
    } else {
      r := ParseMagnitudeAt(text, start, false);
    }
  }

  // ---------- Strings ----------

  /** What the first pass of parse_string counts: a backslash goes uncounted with the character after it. */
  function Count(s: string): nat {
    if s == [] || s[0] == '\"' then 0
    else if s[0] == '\\' && |s| >= 2 then 1 + Count(s[2..])
    else 1 + Count(s[1..])
  }

  /** The count leaves room for what an escape stands for. */
  lemma EscapeRoom(s: string)
    requires s != [] && s[0] == '\\' && EscapeMeaning(s[1..]).Ok?
    ensures var e := EscapeMeaning(s[1..]); Count(s) >= |e.value| + Count(e.rest)
  {
    var t := s[1..];
    if t[0] == 'u' {
      var h := t[1..];
      assert s[2..] == h;
      CountHex(h);
      if HighSurrogate(Hex4(h)) && |h| >= 6 && h[4] == '\\' && h[5] == 'u' {
        assert h[4..][2..] == h[6..];
        CountHex(h[6..]);
        assert h[6..][4..] == h[10..];
      }
    } else {
      assert s[2..] == t[1..];
    }
  }

  lemma CountHex(s: string)
    requires HasHex4(s)
    ensures Count(s) == 4 + Count(s[4..])
  {
    assert s[1..][1..] == s[2..] && s[2..][1..] == s[3..] && s[3..][1..] == s[4..];
    assert Count(s) == 1 + Count(s[1..]) && Count(s[1..]) == 1 + Count(s[2..]);
    assert Count(s[2..]) == 1 + Count(s[3..]) && Count(s[3..]) == 1 + Count(s[4..]);
  }

  /** The switch over the length of a UTF-8 sequence, which writes it from its end. */
  method WriteUtf8(out: array<char>, at: nat, code: nat) returns (ptr2: nat)
    requires code < 0x11_0000 && at + |Utf8(code)| <= out.Length
    modifies out
    ensures ptr2 == at + |Utf8(code)| && out[..ptr2] == old(out[..at]) + Utf8(code)
  {
    hide Continuation;
    var uc, len := code, 4;
    if uc < 0x80 {
      len := 1;
    } else if uc < 0x800 {
      len := 2;
    } else if uc < 0x1_0000 {
      len := 3;
    }
    ptr2 := at + len;
    if len == 4 {
      ptr2, uc := WriteContinuation(out, ptr2, uc);
    }
    if len >= 3 {
      ptr2, uc := WriteContinuation(out, ptr2, uc);
    }
    if len >= 2 {
      ptr2, uc := WriteContinuation(out, ptr2, uc);
    }
    ptr2 := ptr2 - 1;
    out[ptr2] := ((if len == 1 then 0 else if len == 2 then 0xC0 else if len == 3 then 0xE0 else 0xF0) + uc) as char;
    ptr2 := ptr2 + len;
  }

  /** One case of the switch. */
  method WriteContinuation(out: array<char>, at: nat, uc: nat) returns (ptr2: nat, uc': nat)
    requires 0 < at <= out.Length
    modifies out
    ensures ptr2 == at - 1 && uc' == uc / 64 && out[..] == old(out[..])[ptr2 := Continuation(uc)]
  {
    ptr2, uc' := at - 1, uc / 64;
    out[ptr2] := Continuation(uc);
  }

  /** The case of a \u escape; `ptr` is at the letter. */
  method ReadUnicode(text: string, start: nat, out: array<char>, at: nat) returns (ok: bool, ptr: nat, ptr2: nat)
    requires start < |text| && at <= out.Length
    requires var e := UnicodeEscape(text[start + 1..]); e.Ok? ==> at + |e.value| <= out.Length
    modifies out
    ensures var e := UnicodeEscape(text[start + 1..]);
            && (ok <==> e.Ok?)
            && (ok ==>
                  && start < ptr <= |text| && e.rest == text[ptr..] && ptr2 == at + |e.value|
                  && out[..ptr2] == old(out[..at]) + e.value)
  {
    hide Utf8, Hex4, HasHex4;
    ghost var s := text[start + 1..];
    ok, ptr, ptr2 := false, start, at;
    if !HasHex4(text[start + 1..]) {
      return;
    }
    EnoughHex(s);
    assert out[..at] + [] == out[..at];
    var uc := Hex4(text[ptr + 1..]);
    ptr := ptr + 4;
    Suffix(text, start + 1, 4);
    if LowSurrogate(uc) || uc == 0 {
      return true, ptr + 1, ptr2;
    }
    if HighSurrogate(uc) {
      if !(ptr + 2 < |text| && text[ptr + 1] == '\\' && text[ptr + 2] == 'u') {
        return true, ptr + 1, ptr2;
      }
      Suffix(text, start + 1, 6);
      if !HasHex4(text[ptr + 3..]) {
        return;
      }
      EnoughHex(s[6..]);
      Suffix(text, start + 1, 10);
      var uc2 := Hex4(text[ptr + 3..]);
      ptr := ptr + 6;
      if !LowSurrogate(uc2) {
        return true, ptr + 1, ptr2;
      }
      uc := 0x1_0000 + (uc - 0xD800) * 0x400 + (uc2 - 0xDC00);
    }
    ptr2 := WriteUtf8(out, ptr2, uc);
    ok, ptr := true, ptr + 1;
  }

  lemma EnoughHex(s: string)
    requires HasHex4(s)
    ensures |s| >= 4
  {
  }

  /** An escape; `start` is at the backslash. */
  method ReadEscape(text: string, start: nat, out: array<char>, at: nat) returns (ok: bool, ptr: nat, ptr2: nat)
    requires start < |text| && at <= out.Length
    requires var e := EscapeMeaning(text[start + 1..]); e.Ok? ==> at + |e.value| <= out.Length
    modifies out
    ensures var e := EscapeMeaning(text[start + 1..]);
            && (ok <==> e.Ok?)
            && (ok ==>
                  && start < ptr <= |text| && e.rest == text[ptr..] && ptr2 == at + |e.value|
                  && out[..ptr2] == old(out[..at]) + e.value)
  {
    hide UnicodeEscape;
    ok, ptr, ptr2 := false, start + 1, at;
    if ptr == |text| {
      return;
    }
    Suffix(text, ptr, 1);
    assert text[ptr..][0] == text[ptr];
    if text[ptr] == 'u' {
      ok, ptr, ptr2 := ReadUnicode(text, ptr, out, ptr2);
      return;
    }
    match text[ptr] {
      case 'b' => out[ptr2] := BACKSPACE;
      case 'f' => out[ptr2] := FORM_FEED;
      case 'n' => out[ptr2] := '\n';
      case 'r' => out[ptr2] := '\r';
      case 't' => out[ptr2] := '\t';
      case _ => out[ptr2] := text[ptr];
    }
    ok, ptr, ptr2 := true, ptr + 1, ptr2 + 1;
  }

  /** The first pass of parse_string. */
  method CountString(text: string, start: nat) returns (len: nat)
    requires start <= |text|
    ensures len == Count(text[start..])
  {
    len := 0;
    var ptr := start;
    while ptr < |text| && text[ptr] != '\"'
      invariant start <= ptr <= |text| && len + Count(text[ptr..]) == Count(text[start..])
    {
      ghost var rest := text[ptr..];
      len := len + 1;
      if text[ptr] == '\\' && ptr + 1 < |text| {
        Suffix(text, ptr, 2);
        ptr := ptr + 1;
      } else {
        Suffix(text, ptr, 1);
      }
      ptr := ptr + 1;
    }
  }

  /** parse_string: the measured buffer has room for the decoded string. */
  method ParseStringAt(text: string, str: nat) returns (r: Scan<string>)
    requires str <= |text|
    ensures Agrees(r, text, ParseString(text[str..]))
  {
    hide Count, Unescape, EscapeMeaning;
    if str == |text| || text[str] != '\"' {
      return Error(str);
    }
    Suffix(text, str, 1);
    var len := CountString(text, str + 1);
    var out := new char[len + 1];
    var ptr, ptr2 := str + 1, 0;
    PrefixedNothing(Unescape(text[ptr..]));
    while ptr < |text| && text[ptr] != '\"'
      invariant str < ptr <= |text| && 0 <= ptr2 && ptr2 + Count(text[ptr..]) <= len
      invariant Unescape(text[str + 1..]) == Prefixed(out[..ptr2], Unescape(text[ptr..]))
    {
      ghost var s, sofar := text[ptr..], out[..ptr2];
      UnescapeStep(s);
      Suffix(text, ptr, 1);
      if text[ptr] != '\\' {
        PrefixedTwice(sofar, [text[ptr]], Unescape(text[ptr + 1..]));
        out[ptr2] := text[ptr];
        assert out[..ptr2 + 1] == sofar + [text[ptr]];
        ptr, ptr2 := ptr + 1, ptr2 + 1;
      } else {
        var ok, next, end := ReadEscape(text, ptr, out, ptr2);
        if !ok {
          return Outside;
        }
        PrefixedTwice(sofar, EscapeMeaning(s[1..]).value, Unescape(text[next..]));
        ptr, ptr2 := next, end;
      }
    }
    UnescapeEnd(text[ptr..]);
    ghost var decoded := out[..ptr2];
    out[ptr2] := '\0';
    assert out[..ptr2] == decoded == decoded + [];
    if ptr < |text| {
      Suffix(text, ptr, 1);
      ptr := ptr + 1;
    }
    r := Found(out[..ptr2], ptr);
  }

  lemma UnescapeStep(s: string)
    requires s != [] && s[0] != '\"'
    ensures if s[0] != '\\' then Unescape(s) == Prefixed([s[0]], Unescape(s[1..])) && Count(s) == 1 + Count(s[1..])
            else var e := EscapeMeaning(s[1..]);
                 if e.Ok? then Unescape(s) == Prefixed(e.value, Unescape(e.rest))
                     && Count(s) >= |e.value| + Count(e.rest)
                 else Unescape(s) == Unmodelled
  {
    hide EscapeMeaning;
    if s[0] == '\\' && EscapeMeaning(s[1..]).Ok? {
      EscapeRoom(s);
    }
  }

  lemma UnescapeEnd(s: string)
    requires s == [] || s[0] == '\"'
    ensures Unescape(s) == Ok([], if s == [] then [] else s[1..])
  {
  }

  // ---------- Nodes ----------

  /** Where parse_array stands after a child and the blanks behind it. */
  function AfterItem(s: string): Result<seq<Json>> {
    if s != [] && s[0] == ',' then ParseItems(s[1..])
    else if s != [] && s[0] == ']' then Ok([], s[1..])
    else Malformed(s)
  }

  /** Where parse_object stands after a child and the blanks behind it. */
  function AfterMember(s: string): Result<seq<Member>> {
    if s != [] && s[0] == ',' then ParseMembers(s[1..])
    else if s != [] && s[0] == '}' then Ok([], s[1..])
    else Malformed(s)
  }

  lemma ItemsStep(s: string)
    ensures var v := ParseValue(Skip(s));
            match v
            case Ok(j, rest) => ParseItems(s) == Prefixed([j], AfterItem(Skip(rest)))
            case Malformed(at) => ParseItems(s) == Malformed(at)
            case Unmodelled => ParseItems(s) == Unmodelled
  {
    hide ParseValue, Skip;
    var v := ParseValue(Skip(s));
    if v.Ok? {
      assert [v.value] + [] == [v.value];
    }
  }

  /** The loop of parse_array stops at anything but a comma; `found` is what it has gathered. */
  lemma ItemsEnd(found: seq<Json>, s: string)
    ensures Prefixed(found, AfterItem(s)) ==
              if s != [] && s[0] == ',' then Prefixed(found, ParseItems(s[1..]))
              else if s != [] && s[0] == ']' then Ok(found, s[1..])
              else Malformed(s)
    ensures Prefixed(found, Malformed(s)) == Malformed(s) && Prefixed(found, Unmodelled) == Unmodelled
  {
    hide ParseItems;
    assert found + [] == found;
  }

  /** Parsing a child: the value and the blanks around it. */
  method ParseChild(text: string, start: nat) returns (r: Scan<Json>)
    requires start <= |text|
    ensures var v := ParseValue(Skip(text[start..]));
            match r
            case Found(j, pos) => v.Ok? && v.value == j && start < pos <= |text| && Skip(v.rest) == text[pos..]
            case _ => Agrees(r, text, v)
    decreases |text| - start, 2
  {
    hide ParseValue, Skip;
    var value := SkipTo(text, start);
    r := ParseValueAt(text, value);
    if r.Found? {
      var next := SkipTo(text, r.pos);
      r := Found(r.value, next);
    }
  }

  /** The children of parse_array. */
  method ParseItemsAt(text: string, start: nat) returns (r: Scan<seq<Json>>)
    requires start <= |text|
    ensures Agrees(r, text, ParseItems(text[start..])) && (r.Found? ==> start < r.pos)
    decreases |text| - start, 3
  {
    hide ParseValue, ParseItems, AfterItem, Skip, Prefixed;
    ItemsStep(text[start..]);
    var child := ParseChild(text, start);
    if !child.Found? {
      r := if child.Error? then Error(child.ep) else Outside;
      return;
    }
    var items, value := [child.value], child.pos;
    ItemsEnd(items, text[value..]);
    while value < |text| && text[value] == ','
      invariant start < value <= |text| && ParseItems(text[start..]) == Prefixed(items, AfterItem(text[value..]))
      decreases |text| - value
    {
      ItemsEnd(items, text[value..]);
      Suffix(text, value, 1);
      ItemsStep(text[value + 1..]);
      child := ParseChild(text, value + 1);
      if !child.Found? {
        ItemsEnd(items, if child.Error? then text[child.ep..] else []);
        r := if child.Error? then Error(child.ep) else Outside;
        return;
      }
      PrefixedTwice(items, [child.value], AfterItem(text[child.pos..]));
      items, value := items + [child.value], child.pos;
    }
    ItemsEnd(items, text[value..]);
    if value < |text| && text[value] == ']' {
      Suffix(text, value, 1);
      return Found(items, value + 1);
    }
    r := Error(value);
  }

  /** parse_array. */
  method ParseArrayAt(text: string, start: nat) returns (r: Scan<Json>)
    requires start < |text| && text[start] == '['
    ensures Agrees(r, text, ParseValue(text[start..])) && (r.Found? ==> start < r.pos)
    decreases |text| - start, 0
  {
    hide ParseValue, ParseItems, Skip;
    Suffix(text, start, 1);
    ArrayStep(text[start..]);
    var value := SkipTo(text, start + 1);
    if value < |text| && text[value] == ']' {
      Suffix(text, value, 1);
      return Found(Array([]), value + 1);
    }
    var items := ParseItemsAt(text, value);
    match items {
      case Found(children, pos) => r := Found(Array(children), pos);
      case Error(ep) => r := Error(ep);
      case Outside => r := Outside;
    }
  }

  lemma ArrayStep(s: string)
    requires s != [] && s[0] == '['
    ensures var t := Skip(s[1..]);
            ParseValue(s) == if t != [] && t[0] == ']' then Ok(Array([]), t[1..])
                else ParseItems(t).Map(items => Array(items))
  {
    assert !("null" <= s) && !("false" <= s) && !("true" <= s);
  }

  lemma MembersStep(s: string)
    ensures var name := ParseString(Skip(s));
            match name
            case Malformed(at) => ParseMembers(s) == Malformed(at)
            case Unmodelled => ParseMembers(s) == Unmodelled
            case Ok(n, afterName) =>
              var t := Skip(afterName);
              if t == [] || t[0] != ':' then ParseMembers(s) == Malformed(t)
              else
                match ParseValue(Skip(t[1..]))
                case Ok(j, rest) => ParseMembers(s) == Prefixed([Member(n, j)], AfterMember(Skip(rest)))
                case Malformed(at) => ParseMembers(s) == Malformed(at)
                case Unmodelled => ParseMembers(s) == Unmodelled
  {
    hide ParseValue, Skip, ParseString;
    var name := ParseString(Skip(s));
    if name.Ok? {
      var t := Skip(name.rest);
      if t != [] && t[0] == ':' && ParseValue(Skip(t[1..])).Ok? {
        var m := Member(name.value, ParseValue(Skip(t[1..])).value);
        assert [m] + [] == [m];
      }
    }
  }

  lemma MembersEnd(found: seq<Member>, s: string)
    ensures Prefixed(found, AfterMember(s)) ==
              if s != [] && s[0] == ',' then Prefixed(found, ParseMembers(s[1..]))
              else if s != [] && s[0] == '}' then Ok(found, s[1..])
              else Malformed(s)
    ensures Prefixed(found, Malformed(s)) == Malformed(s) && Prefixed(found, Unmodelled) == Unmodelled
  {
    hide ParseMembers;
    assert found + [] == found;
  }

  /** Parsing a name, the colon and a value, and the blanks around them. */
  method ParseNamed(text: string, start: nat) returns (r: Scan<Member>)
    requires start <= |text|
    ensures var s := text[start..];
            match r
            case Found(m, pos) => start < pos <= |text| && ParseMembers(s) == Prefixed([m], AfterMember(text[pos..]))
            case Error(ep) => ep <= |text| && ParseMembers(s) == Malformed(text[ep..])
            case Outside => ParseMembers(s) == Unmodelled
    decreases |text| - start, 2
  {
    hide ParseValue, ParseMembers, AfterMember, Skip, Prefixed, ParseString;
    MembersStep(text[start..]);
    var value := SkipTo(text, start);
    var name := ParseStringAt(text, value);
    match name {
      case Error(ep) => r := Error(ep);
      case Outside => r := Outside;
      case Found(n, afterName) =>
        NameEnds(text[value..]);
        value := SkipTo(text, afterName);
        if value == |text| || text[value] != ':' {
          return Error(value);
        }
        Suffix(text, value, 1);
        var child := ParseChild(text, value + 1);
        match child {
          case Error(ep) => r := Error(ep);
          case Outside => r := Outside;
          case Found(j, pos) => r := Found(Member(n, j), pos);
        }
    }
  }

  lemma NameEnds(s: string)
    ensures var r := ParseString(s); r.Ok? ==> |r.rest| < |s|
  {
  }

  /** The children of parse_object. */
  method ParseMembersAt(text: string, start: nat) returns (r: Scan<seq<Member>>)
    requires start <= |text|
    ensures Agrees(r, text, ParseMembers(text[start..])) && (r.Found? ==> start < r.pos)
    decreases |text| - start, 3
  {
    hide ParseMembers, AfterMember, Prefixed;
    var child := ParseNamed(text, start);
    if !child.Found? {
      r := if child.Error? then Error(child.ep) else Outside;
      return;
    }
    var members, value := [child.value], child.pos;
    while value < |text| && text[value] == ','
      invariant start < value <= |text| && ParseMembers(text[start..]) == Prefixed(members, AfterMember(text[value..]))
      decreases |text| - value
    {
      MembersEnd(members, text[value..]);
      Suffix(text, value, 1);
      child := ParseNamed(text, value + 1);
      if !child.Found? {
        MembersEnd(members, if child.Error? then text[child.ep..] else []);
        r := if child.Error? then Error(child.ep) else Outside;
        return;
      }
      PrefixedTwice(members, [child.value], AfterMember(text[child.pos..]));
      members, value := members + [child.value], child.pos;
    }
    MembersEnd(members, text[value..]);
    if value < |text| && text[value] == '}' {
      Suffix(text, value, 1);
      return Found(members, value + 1);
    }
    r := Error(value);
  }

  /** parse_object. */
  method ParseObjectAt(text: string, start: nat) returns (r: Scan<Json>)
    requires start < |text| && text[start] == '{'
    ensures Agrees(r, text, ParseValue(text[start..])) && (r.Found? ==> start < r.pos)
    decreases |text| - start, 0
  {
    hide ParseValue, ParseMembers, Skip;
    Suffix(text, start, 1);
    ObjectStep(text[start..]);
    var value := SkipTo(text, start + 1);
    if value < |text| && text[value] == '}' {
      Suffix(text, value, 1);
      return Found(Object([]), value + 1);
    }
    var members := ParseMembersAt(text, value);
    match members {
      case Found(children, pos) => r := Found(Object(children), pos);
      case Error(ep) => r := Error(ep);
      case Outside => r := Outside;
    }
  }

  lemma ObjectStep(s: string)
    requires s != [] && s[0] == '{'
    ensures var t := Skip(s[1..]);
            ParseValue(s) == if t != [] && t[0] == '}' then Ok(Object([]), t[1..])
                else ParseMembers(t).Map(members => Object(members))
  {
    assert !("null" <= s) && !("false" <= s) && !("true" <= s);
  }

  /** strncmp(value, word, strlen(word)) == 0. */
  predicate HasWord(text: string, start: nat, word: string)
    requires start <= |text|
  {
    start + |word| <= |text| && text[start..start + |word|] == word
  }

  lemma WordStep(text: string, start: nat, word: string)
    requires start <= |text|
    ensures HasWord(text, start, word) <==> word <= text[start..]
    ensures HasWord(text, start, word) ==> text[start..][|word|..] == text[start + |word|..]
  {
    if start + |word| <= |text| {
      assert text[start..][..|word|] == text[start..start + |word|];
    }
  }

  /** parse_value. */
  method ParseValueAt(text: string, start: nat) returns (r: Scan<Json>)
    requires start <= |text|
    ensures Agrees(r, text, ParseValue(text[start..])) && (r.Found? ==> start < r.pos)
    decreases |text| - start, 1
  {
    hide Skip, ParseItems, ParseMembers, ParseNumber, ParseString, HasWord;
    WordStep(text, start, "null");
    WordStep(text, start, "false");
    WordStep(text, start, "true");
    if HasWord(text, start, "null") {
      return Found(Null, start + 4);
    }
    if HasWord(text, start, "false") {
      return Found(False, start + 5);
    }
    if HasWord(text, start, "true") {
      return Found(True, start + 4);
    }
    if start < |text| {
      if text[start] == '\"' {
        NameEnds(text[start..]);
        var s := ParseStringAt(text, start);
        match s {
          case Found(t, pos) => r := Found(String(t), pos);
          case Error(ep) => r := Error(ep);
          case Outside => r := Outside;
        }
        return;
      }
      if text[start] == '-' || IsDigit(text[start]) {
        r := ParseNumberAt(text, start);
        return;
      }
      if text[start] == '[' {
        r := ParseArrayAt(text, start);
        return;
      }
      if text[start] == '{' {
        r := ParseObjectAt(text, start);
        return;
      }
    }
    r := Error(start);
  }

  /** cJSON_ParseWithOpts: with `whole`, nothing but blanks may follow the value. */
  method ParseWithOpts(text: string, whole: bool) returns (r: Scan<Json>)
    ensures var p := Parse(text);
            match p
            case Ok(j, rest) =>
              if whole && Skip(rest) != [] then r.Error? && r.ep <= |text| && text[r.ep..] == Skip(rest)
              else r.Found? && r.value == j && r.pos <= |text| && text[r.pos..] == if whole then [] else rest
            case _ => Agrees(r, text, p)
  {
    hide ParseValue, Skip;
    assert text[0..] == text;
    var start := SkipTo(text, 0);
    r := ParseValueAt(text, start);
    if whole && r.Found? {
      var end := SkipTo(text, r.pos);
      r := if end < |text| then Error(end) else Found(r.value, end);
    }
  }
}
