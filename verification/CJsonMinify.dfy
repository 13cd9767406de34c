/** cJSON_Minify (cJSON.c): in place, and from the formatted print to the unformatted one. */
module CJsonMinify {
  import opened CJson
  import opened CJsonRoundTrip

  predicate IsBlank(c: char) {
    c == ' ' || c == '\t' || c == '\r' || c == '\n'
  }

  /** From the start of a comment to the end of its line. */
  function LineLength(s: string): (n: nat)
    ensures n <= |s|
  {
    if s == [] || s[0] == '\n' then 0 else 1 + LineLength(s[1..])
  }

  /** From the start of a comment to the characters that close it, or to the end of the text. */
  function CommentLength(s: string): (n: nat)
    ensures n <= |s| && (n < |s| ==> n + 2 <= |s|)
  {
    if s == [] then 0
    else if |s| >= 2 && s[0] == '*' && s[1] == '/' then 0
    else 1 + CommentLength(s[1..])
  }

  /** From after an opening quote to the closing one, or to the end of the text. */
  function BodyLength(s: string): (n: nat)
    ensures n <= |s|
    ensures n < |s| ==> s[n] == '\"'
  {
    if s == [] || s[0] == '\"' then 0
    else if s[0] == '\\' && |s| >= 2 then 2 + BodyLength(s[2..])
    else 1 + BodyLength(s[1..])
  }

  predicate OpensLine(s: string) {
    |s| >= 2 && s[0] == '/' && s[1] == '/'
  }

  predicate OpensComment(s: string) {
    |s| >= 2 && s[0] == '/' && s[1] == '*'
  }

  /** The text without blanks and comments, string literals apart. */
  function Minified(s: string): (m: string)
    ensures |m| <= |s|
    decreases |s|
  {
    if s == [] then []
    else if IsBlank(s[0]) then Minified(s[1..])
    else if OpensLine(s) then Minified(s[LineLength(s)..])
    else if OpensComment(s) then
      var n := CommentLength(s);
      if n == |s| then [] else Minified(s[n + 2..])
    else if s[0] == '\"' then
      var n := BodyLength(s[1..]);
      if n == |s[1..]| then s else s[..n + 2] + Minified(s[n + 2..])
    else [s[0]] + Minified(s[1..])
  }

  /** Every string literal and every comment of the text is closed. */
  predicate Terminated(s: string)
    decreases |s|
  {
    if s == [] then true
    else if IsBlank(s[0]) then Terminated(s[1..])
    else if OpensLine(s) then Terminated(s[LineLength(s)..])
    else if OpensComment(s) then
      var n := CommentLength(s);
      n < |s| && Terminated(s[n + 2..])
    else if s[0] == '\"' then
      var n := BodyLength(s[1..]);
      n < |s[1..]| && Terminated(s[n + 2..])
    else Terminated(s[1..])
  }

  // ---------- From the formatted print to the unformatted one ----------

  /** Wherever `a` begins the text, it minifies to `b`. */
  ghost predicate Minifies(a: string, b: string) {
    forall rest :: Minified(a + rest) == b + Minified(rest) && (Terminated(a + rest) <==> Terminated(rest))
  }

  lemma MinifiesBoth(a: string, b: string, c: string, d: string)
    requires Minifies(a, b) && Minifies(c, d)
    ensures Minifies(a + c, b + d)
  {
    hide Minified, Terminated;
    forall rest ensures Minified((a + c) + rest) == (b + d) + Minified(rest)
        && (Terminated((a + c) + rest) <==> Terminated(rest)) {
      assert (a + c) + rest == a + (c + rest);
      assert (b + d) + Minified(rest) == b + (d + Minified(rest));
    }
  }

  lemma MinifiesNothing()
    ensures Minifies([], [])
  {
    forall rest: string ensures [] + rest == rest {
    }
  }

  lemma MinifiesBlank(c: char)
    requires IsBlank(c)
    ensures Minifies([c], [])
  {
    forall rest ensures Minified([c] + rest) == [] + Minified(rest) && (Terminated([c] + rest) <==> Terminated(rest)) {
      assert ([c] + rest)[1..] == rest;
    }
  }

  lemma MinifiesPlain(c: char)
    requires !IsBlank(c) && c != '/' && c != '\"'
    ensures Minifies([c], [c])
  {
    forall rest ensures Minified([c] + rest) == [c] + Minified(rest) && (Terminated([c] + rest) <==> Terminated(rest)) {
      PlainFirst([c] + rest);
      assert ([c] + rest)[1..] == rest;
    }
  }

  lemma PlainFirst(s: string)
    requires s != [] && !IsBlank(s[0]) && s[0] != '/' && s[0] != '\"'
    ensures Minified(s) == [s[0]] + Minified(s[1..]) && (Terminated(s) <==> Terminated(s[1..]))
  {
  }

  lemma {:induction false} MinifiesBlanks(s: string)
    requires forall c :: c in s ==> IsBlank(c)
    ensures Minifies(s, [])
  {
    hide Minifies;
    if s == [] {
      MinifiesNothing();
    } else {
      MinifiesBlank(s[0]);
      MinifiesBlanks(s[1..]);
      MinifiesBoth([s[0]], [], s[1..], []);
      assert [s[0]] + s[1..] == s && "" + "" == "";
    }
  }

  lemma {:induction false} MinifiesPlains(s: string)
    requires forall c :: c in s ==> !IsBlank(c) && c != '/' && c != '\"'
    ensures Minifies(s, s)
  {
    hide Minifies;
    if s == [] {
      MinifiesNothing();
    } else {
      MinifiesPlain(s[0]);
      MinifiesPlains(s[1..]);
      MinifiesBoth([s[0]], [s[0]], s[1..], s[1..]);
      assert [s[0]] + s[1..] == s;
    }
  }

  /** Escaping leaves no bare quote, so a literal ends where it should. */
  lemma {:induction false} EscapedBody(s: string, rest: string)
    ensures BodyLength(Escaped(s) + "\"" + rest) == |Escaped(s)|
  {
    hide Digit;
    if s == [] {
      assert Escaped(s) + "\"" + rest == "\"" + rest;
    } else {
      var more := Escaped(s[1..]) + "\"" + rest;
      assert Escaped(s) + "\"" + rest == EscapedChar(s[0]) + more;
      EscapedBody(s[1..], rest);
      CharBody(s[0], more);
    }
  }

  lemma PlainBody(c: char, more: string)
    requires c != '\"' && c != '\\'
    ensures BodyLength([c] + more) == 1 + BodyLength(more)
  {
    assert ([c] + more)[1..] == more;
  }

  lemma PairBody(c: char, more: string)
    ensures BodyLength(['\\', c] + more) == 2 + BodyLength(more)
  {
    assert (['\\', c] + more)[2..] == more;
  }

  lemma CharBody(c: char, more: string)
    ensures BodyLength(EscapedChar(c) + more) == |EscapedChar(c)| + BodyLength(more)
  {
    hide BodyLength;
    if Special(c) {
      PairBody(EscapeLetter(c), more);
    } else if c as int > 31 {
      PlainBody(c, more);
    } else {
      var d, e := Digit(c as int / 16), Digit(c as int % 16);
      PlainBody(e, more);
      PlainBody(d, [e] + more);
      PlainBody('0', [d] + ([e] + more));
      PlainBody('0', ['0'] + ([d] + ([e] + more)));
      PairBody('u', ['0'] + (['0'] + ([d] + ([e] + more))));
      assert EscapedChar(c) + more == ['\\', 'u'] + (['0'] + (['0'] + ([d] + ([e] + more))));
    }
  }

  lemma MinifiesQuoted(s: string)
    ensures Minifies(Quoted(s), Quoted(s))
  {
    hide Escaped;
    forall rest ensures Minified(Quoted(s) + rest) == Quoted(s) + Minified(rest)
        && (Terminated(Quoted(s) + rest) <==> Terminated(rest)) {
      var text, n := Quoted(s) + rest, |Escaped(s)|;
      EscapedBody(s, rest);
      assert text[1..] == Escaped(s) + "\"" + rest;
      assert text[..n + 2] == Quoted(s) && text[n + 2..] == rest;
    }
  }

  lemma MinifiesWord(j: Json, depth: nat, fmt: bool, to: nat)
    requires j.Null? || j.True? || j.False? || j.Number?
    ensures Minifies(Print(j, depth, fmt), Print(j, to, false))
  {
    hide Minifies, Decimal;
    match j
    case Null => MinifiesPlains("null");
    case False => MinifiesPlains("false");
    case True => MinifiesPlains("true");
    case Number(n) =>
      PlainDecimal(n);
      MinifiesPlains(Decimal(n));
  }

  lemma PlainDecimal(n: int)
    ensures forall c :: c in Decimal(n) ==> !IsBlank(c) && c != '/' && c != '\"'
  {
    hide Digits;
    DigitsRoundTrip(if n < 0 then -n else n);
  }

  /** The punctuation between entries loses its blanks. */
  lemma MinifiesPunctuation(last: bool, fmt: bool, n: int)
    ensures Minifies(Gap(last, fmt), Gap(last, false)) && Minifies(LineEnd(last, fmt), LineEnd(last, false))
    ensures Minifies(Colon(fmt), Colon(false)) && Minifies(NewLine(fmt), NewLine(false))
    ensures forall n' :: Minifies(Indent(n, fmt), Indent(n', false))
  {
    hide Minifies;
    MinifiesNothing();
    MinifiesBlanks(" ");
    MinifiesBlanks("\t");
    MinifiesBlanks("\n");
    MinifiesPlain(',');
    MinifiesPlain(':');
    MinifiesBoth(",", ",", " ", "");
    MinifiesBoth(",", ",", "\n", "");
    MinifiesBoth(":", ":", "\t", "");
    assert "," + "" == "," && ":" + "" == ":" && "," + " " == ", " && ":" + "\t" == ":\t";
    MinifiesBlanks(Tabs(n));
  }

  lemma MinifiesThree(a: string, a': string, b: string, b': string, c: string, c': string)
    requires Minifies(a, a') && Minifies(b, b') && Minifies(c, c')
    ensures Minifies(a + b + c, a' + b' + c')
  {
    MinifiesBoth(a, a', b, b');
    MinifiesBoth(a + b, a' + b', c, c');
  }

  /** Minifying a print leaves the unformatted print, at whatever depths. */
  lemma {:induction false} MinifiesPrint(j: Json, depth: nat, fmt: bool, to: nat)
    ensures Minifies(Print(j, depth, fmt), Print(j, to, false))
    decreases j, 1
  {
    hide Minifies, Quoted, PrintItems, PrintMembers, NewLine, Indent;
    match j {
      case Null | True | False | Number(_) =>
        MinifiesWord(j, depth, fmt, to);
      case String(s) =>
        MinifiesQuoted(s);
      case Array(items) =>
        MinifiesPlain('[');
        MinifiesPlain(']');
        MinifiesItems(items, depth, fmt, to);
        MinifiesThree("[", "[", PrintItems(items, depth, fmt), PrintItems(items, to, false), "]", "]");
      case Object(members) =>
        MinifiesPlain('{');
        MinifiesPlain('}');
        MinifiesMembers(members, depth, fmt, to);
        var n, n' := if members == [] then depth - 1 else depth, if members == [] then to - 1 else to;
        MinifiesPunctuation(true, fmt, n);
        MinifiesThree("{", "{", NewLine(fmt), NewLine(false), PrintMembers(members, depth, fmt),
            PrintMembers(members, to, false));
        MinifiesThree("{" + NewLine(fmt) + PrintMembers(members, depth, fmt),
            "{" + NewLine(false) + PrintMembers(members, to, false),
                      Indent(n, fmt), Indent(n', false), "}", "}");
    }
  }

  lemma {:induction false} MinifiesItems(items: seq<Json>, depth: nat, fmt: bool, to: nat)
    ensures Minifies(PrintItems(items, depth, fmt), PrintItems(items, to, false))
    decreases items, 0
  {
    hide Minifies, Print, Gap;
    if items == [] {
      MinifiesNothing();
    } else {
      var last, more := |items| == 1, items[1..];
      MinifiesPrint(items[0], depth + 1, fmt, to + 1);
      MinifiesPunctuation(last, fmt, 0);
      MinifiesItems(more, depth, fmt, to);
      MinifiesThree(Print(items[0], depth + 1, fmt), Print(items[0], to + 1, false), Gap(last, fmt), Gap(last, false),
                    PrintItems(more, depth, fmt), PrintItems(more, to, false));
    }
  }

  lemma {:induction false} MinifiesMembers(members: seq<Member>, depth: nat, fmt: bool, to: nat)
    ensures Minifies(PrintMembers(members, depth, fmt), PrintMembers(members, to, false))
    decreases members, 0
  {
    hide Minifies, Print, Quoted, Indent, Colon, LineEnd;
    if members == [] {
      MinifiesNothing();
    } else {
      var name, value, last, more := members[0].name, members[0].value, |members| == 1, members[1..];
      MinifiesPunctuation(last, fmt, depth + 1);
      MinifiesQuoted(name);
      MinifiesPrint(value, depth + 1, fmt, to + 1);
      MinifiesMembers(more, depth, fmt, to);
      var a, a' := Indent(depth + 1, fmt) + Quoted(name) + Colon(fmt),
          Indent(to + 1, false) + Quoted(name) + Colon(false);
      MinifiesThree(Indent(depth + 1, fmt), Indent(to + 1, false), Quoted(name), Quoted(name), Colon(fmt),
          Colon(false));
      MinifiesThree(a, a', Print(value, depth + 1, fmt), Print(value, to + 1, false), LineEnd(last, fmt),
          LineEnd(last, false));
      MinifiesBoth(a + Print(value, depth + 1, fmt) + LineEnd(last, fmt),
          a' + Print(value, to + 1, false) + LineEnd(last, false),
                   PrintMembers(more, depth, fmt), PrintMembers(more, to, false));
    }
  }

  /**
   What the HTTP server does after cJSON_Print: the text may be minified, and becomes what
   cJSON_PrintUnformatted prints.
   */
  lemma MinifyPrint(j: Json, fmt: bool)
    ensures Terminated(Print(j, 0, fmt)) && Minified(Print(j, 0, fmt)) == Print(j, 0, false)
  {
    hide Print;
    MinifiesPrint(j, 0, fmt, 0);
    assert Print(j, 0, fmt) + [] == Print(j, 0, fmt);
    assert Minified(Print(j, 0, fmt) + []) == Print(j, 0, false) + Minified([]);
  }

  /** The minified text of a tree is parsed to the same tree. */
  lemma MinifyParse(j: Json, fmt: bool)
    requires Representable(j)
    ensures Parse(Minified(Print(j, 0, fmt))) == Ok(j, [])
  {
    MinifyPrint(j, fmt);
    PrintParse(j, false);
  }

  // ---------- In place ----------

  /** From the reading pointer on, the buffer still holds the rest of the text, its NUL and what lies behind. */
  ghost predicate Holds(json: array<char>, text: string, tail: string, read: nat)
    reads json
  {
    && NulFree(text) && tail != [] && tail[0] == '\0' && json.Length == |text + tail|
    && read <= |text| && json[read..] == text[read..] + tail
  }

  /** What the pointer finds. */
  ghost predicate At(json: array<char>, text: string, read: nat)
    reads json
  {
    && read <= |text| < json.Length && (json[read] == '\0' <==> read == |text|)
    && (read < |text| ==>
          && json[read] == text[read]
          && json[read + 1] == if read + 1 < |text| then text[read + 1] else '\0')
  }

  lemma MovePointer(json: array<char>, text: string, tail: string, read: nat, next: nat)
    requires Holds(json, text, tail, read) && read <= next <= |text|
    ensures Holds(json, text, tail, next)
  {
    assert json[next..] == json[read..][next - read..];
    assert text[next..] + tail == (text[read..] + tail)[next - read..];
  }

  lemma Pointed(json: array<char>, text: string, tail: string, from: nat, read: nat)
    requires Holds(json, text, tail, from) && from <= read <= |text|
    ensures Holds(json, text, tail, read) && At(json, text, read)
  {
    MovePointer(json, text, tail, from, read);
    var rest := text[read..] + tail;
    assert json[read..][0] == rest[0];
    if read < |text| {
      assert json[read..][1] == rest[1];
    }
  }

  lemma RestOfText(text: string, read: nat)
    requires read < |text|
    ensures text[read..][0] == text[read] && text[read..][1..] == text[read + 1..]
    ensures |text[read..]| >= 2 <==> read + 1 < |text|
    ensures read + 1 < |text| ==> text[read..][1] == text[read + 1] && text[read..][2..] == text[read + 2..]
  {
  }

  /** A comment to the end of the line: the pointer moves to the line's end. */
  method SkipLine(json: array<char>, ghost text: string, ghost tail: string, start: nat) returns (read: nat)
    requires Holds(json, text, tail, start)
    ensures start <= read <= |text| && read == start + LineLength(text[start..])
  {
    hide Holds;
    read := start;
    HoldsWithin(json, text, tail, start);
    Pointed(json, text, tail, start, read);
    while json[read] != '\0' && json[read] != '\n'
      invariant start <= read <= |text| && At(json, text, read)
      invariant LineLength(text[start..]) == read - start + LineLength(text[read..])
      decreases |text| - read
    {
      RestOfText(text, read);
      read := read + 1;
      Pointed(json, text, tail, start, read);
    }
  }

  /** A closed comment: the pointer moves past it. */
  method SkipComment(json: array<char>, ghost text: string, ghost tail: string, start: nat) returns (read: nat)
    requires Holds(json, text, tail, start) && start <= |text| && CommentLength(text[start..]) < |text[start..]|
    ensures start <= read <= |text| && read == start + CommentLength(text[start..]) + 2
  {
    hide Holds;
    read := start;
    Pointed(json, text, tail, start, read);
    while json[read] != '\0' && !(json[read] == '*' && json[read + 1] == '/')
      invariant start <= read <= |text| && At(json, text, read)
      invariant CommentLength(text[start..]) == read - start + CommentLength(text[read..])
      decreases |text| - read
    {
      RestOfText(text, read);
      read := read + 1;
      Pointed(json, text, tail, start, read);
    }
    if read < |text| {
      RestOfText(text, read);
    }
    read := read + 2;
  }

  lemma HoldsWithin(json: array<char>, text: string, tail: string, read: nat)
    requires Holds(json, text, tail, read)
    ensures read <= |text|
  {
  }

  /** One character moves down. */
  method CopyChar(json: array<char>, ghost text: string, ghost tail: string, into: nat, read: nat)
    requires Holds(json, text, tail, read) && into <= read < |text|
    modifies json
    ensures Holds(json, text, tail, read + 1) && At(json, text, read + 1)
    ensures json[..into + 1] == old(json[..into]) + [text[read]]
  {
    Pointed(json, text, tail, read, read);
    Pointed(json, text, tail, read, read + 1);
    ghost var rest := json[read + 1..];
    json[into] := json[read];
    assert json[read + 1..] == rest;
    Pointed(json, text, tail, read + 1, read + 1);
  }

  /** A character of a literal, with the one after it if it is a backslash. */
  method CopyUnit(json: array<char>, ghost text: string, ghost tail: string, from: nat, to: nat)
      returns (read: nat, into: nat)
    requires Holds(json, text, tail, from) && to <= from < |text| && text[from] != '\"'
    requires BodyLength(text[from..]) < |text[from..]|
    modifies json
    ensures from < read < |text| && into - to == read - from && Holds(json, text, tail, read) && At(json, text, read)
    ensures BodyLength(text[from..]) == read - from + BodyLength(text[read..])
    ensures json[..into] == old(json[..to]) + text[from..read]
  {
    hide Holds;
    RestOfText(text, from);
    Pointed(json, text, tail, from, from);
    read, into := from, to;
    if json[read] == '\\' {
      CopyChar(json, text, tail, into, read);
      read, into := read + 1, into + 1;
    }
    CopyChar(json, text, tail, into, read);
    read, into := read + 1, into + 1;
  }

  lemma JoinSlices(text: string, a: nat, b: nat, c: nat)
    requires a <= b <= c <= |text|
    ensures text[a..b] + text[b..c] == text[a..c]
    ensures b < |text| ==> text[b..b + 1] == [text[b]]
  {
  }

  /** The characters of a literal, up to the quote that closes it. */
  method CopyBody(json: array<char>, ghost text: string, ghost tail: string, start: nat, to: nat)
      returns (read: nat, into: nat)
    requires Holds(json, text, tail, start) && to <= start <= |text| && BodyLength(text[start..]) < |text[start..]|
    modifies json
    ensures read == start + BodyLength(text[start..]) < |text| && into - to == read - start && text[read] == '\"'
    ensures Holds(json, text, tail, read) && At(json, text, read)
    ensures json[..into] == old(json[..to]) + text[start..read]
  {
    hide BodyLength, Holds;
    Pointed(json, text, tail, start, start);
    assert text[start..start] == [];
    read, into := start, to;
    while json[read] != '\0' && json[read] != '\"'
      invariant start <= read < |text| && into - to == read - start && Holds(json, text, tail, read)
                && At(json, text, read)
      invariant BodyLength(text[start..]) == read - start + BodyLength(text[read..])
      invariant json[..into] == old(json[..to]) + text[start..read]
      decreases |text| - read
    {
      ghost var from := read;
      read, into := CopyUnit(json, text, tail, read, into);
      JoinSlices(text, start, from, read);
    }
    EndOfBody(text[read..]);
  }

  /** A closed string literal is copied as it is; its escapes keep it from ending early. */
  method CopyLiteral(json: array<char>, ghost text: string, ghost tail: string, start: nat, to: nat)
      returns (read: nat, into: nat)
    requires Holds(json, text, tail, start) && to <= start < |text| && text[start] == '\"'
    requires BodyLength(text[start + 1..]) < |text[start + 1..]|
    modifies json
    ensures read == start + BodyLength(text[start + 1..]) + 2 && into <= read <= |text|
    ensures Holds(json, text, tail, read) && At(json, text, read)
    ensures json[..into] == old(json[..to]) + text[start..read]
  {
    hide BodyLength, Holds;
    CopyChar(json, text, tail, to, start);
    read, into := CopyBody(json, text, tail, start + 1, to + 1);
    CopyChar(json, text, tail, into, read);
    LiteralSlice(text, start, read);
    read, into := read + 1, into + 1;
  }

  lemma LiteralSlice(text: string, start: nat, last: nat)
    requires start < last < |text|
    ensures [text[start]] + text[start + 1..last] + [text[last]] == text[start..last + 1]
  {
  }

  lemma EndOfBody(s: string)
    requires s != [] && s[0] == '\"'
    ensures BodyLength(s) == 0
  {
  }

  lemma DropTwice(text: string, read: nat, n: nat)
    requires read + n <= |text|
    ensures text[read..][n..] == text[read + n..] && text[read..][..n] == text[read..read + n]
  {
  }

  /** What each turn of the loop leaves to do: `next` is where reading goes on, `copied` what is written. */
  ghost predicate LeavesToDo(text: string, read: nat, next: nat, copied: string) {
    && read < next <= |text| && Terminated(text[next..])
    && Minified(text[read..]) == copied + Minified(text[next..])
  }

  lemma BlankStep(text: string, read: nat)
    requires read < |text| && Terminated(text[read..]) && IsBlank(text[read])
    ensures LeavesToDo(text, read, read + 1, [])
  {
    RestOfText(text, read);
  }

  lemma LineStep(text: string, read: nat)
    requires read < |text| && Terminated(text[read..]) && OpensLine(text[read..])
    ensures LeavesToDo(text, read, read + LineLength(text[read..]), [])
  {
    DropTwice(text, read, LineLength(text[read..]));
    assert !IsBlank(text[read..][0]);
  }

  lemma CommentStep(text: string, read: nat)
    requires read < |text| && Terminated(text[read..]) && OpensComment(text[read..])
    ensures CommentLength(text[read..]) < |text[read..]|
    ensures LeavesToDo(text, read, read + CommentLength(text[read..]) + 2, [])
  {
    hide CommentLength;
    var s := text[read..];
    assert s[0] == '/' && !IsBlank(s[0]) && !OpensLine(s);
    DropTwice(text, read, CommentLength(s) + 2);
  }

  lemma LiteralStep(text: string, read: nat)
    requires read < |text| && Terminated(text[read..]) && text[read] == '\"'
    ensures var n := BodyLength(text[read + 1..]);
            n < |text[read + 1..]| && LeavesToDo(text, read, read + n + 2, text[read..read + n + 2])
  {
    hide BodyLength;
    RestOfText(text, read);
    DropTwice(text, read, BodyLength(text[read + 1..]) + 2);
  }

  lemma CharStep(text: string, read: nat)
    requires read < |text| && Terminated(text[read..]) && !IsBlank(text[read]) && text[read] != '\"'
    requires !OpensLine(text[read..]) && !OpensComment(text[read..])
    ensures LeavesToDo(text, read, read + 1, [text[read]])
  {
    RestOfText(text, read);
  }

  lemma Advance(text: string, written: string, read: nat, next: nat, copied: string)
    requires read <= |text| && Minified(text) == written + Minified(text[read..])
             && LeavesToDo(text, read, next, copied)
    ensures next <= |text| && Minified(text) == written + copied + Minified(text[next..]) && Terminated(text[next..])
    ensures written + [] == written
  {
  }

  /** One turn of the loop: a blank, a comment, a literal or any other character. */
  method Turn(json: array<char>, ghost text: string, ghost tail: string, read: nat, into: nat)
    returns (next: nat, into': nat, ghost copied: string)
    requires into <= read < |text| && Holds(json, text, tail, read) && At(json, text, read) && Terminated(text[read..])
    modifies json
    ensures read < next <= |text| && Holds(json, text, tail, next) && At(json, text, next)
    ensures into' <= next && json[..into'] == old(json[..into]) + copied && LeavesToDo(text, read, next, copied)
  {
    hide Minified, Terminated, BodyLength, CommentLength, LineLength, Holds;
    RestOfText(text, read);
    next, into', copied := read + 1, into, [];
    if json[read] == ' ' || json[read] == '\t' || json[read] == '\r' || json[read] == '\n' {
      BlankStep(text, read);
      Pointed(json, text, tail, read, next);
    } else if json[read] == '/' && json[read + 1] == '/' {
      LineStep(text, read);
      next := SkipLine(json, text, tail, read);
      Pointed(json, text, tail, read, next);
    } else if json[read] == '/' && json[read + 1] == '*' {
      CommentStep(text, read);
      next := SkipComment(json, text, tail, read);
      Pointed(json, text, tail, read, next);
    } else if json[read] == '\"' {
      LiteralStep(text, read);
      next, into' := CopyLiteral(json, text, tail, read, into);
      copied := text[read..next];
    } else {
      CharStep(text, read);
      CopyChar(json, text, tail, into, read);
      into', copied := into + 1, [text[read]];
    }
  }

  /**
   cJSON_Minify of a text whose literals and comments are closed.  Writing stays behind
   reading, so nothing is overwritten before it is read.
   */
  method Minify(json: array<char>, ghost text: string, ghost tail: string)
    requires Holds(json, text, tail, 0) && Terminated(text)
    modifies json
    ensures |Minified(text)| <= |text| && json[..|Minified(text)|] == Minified(text) && json[|Minified(text)|] == '\0'
    ensures json[|text| + 1..] == tail[1..]
  {
    hide Minified, Terminated, LeavesToDo, Holds;
    Pointed(json, text, tail, 0, 0);
    var into, read := 0, 0;
    assert text[0..] == text && json[..0] == [];
    while json[read] != '\0'
      invariant 0 <= into <= read <= |text| && Holds(json, text, tail, read) && At(json, text, read)
      invariant Minified(text) == json[..into] + Minified(text[read..]) && Terminated(text[read..])
      decreases |text| - read
    {
      ghost var from, written := read, json[..into];
      ghost var copied;
      read, into, copied := Turn(json, text, tail, read, into);
      Advance(text, written, from, read, copied);
    }
    MinifiedNothing(text[read..]);
    EndOfBuffer(json, text, tail);
    json[into] := '\0';
  }

  lemma EndOfBuffer(json: array<char>, text: string, tail: string)
    requires Holds(json, text, tail, |text|)
    ensures |text| < json.Length && tail != [] && json[|text| + 1..] == tail[1..]
  {
    assert json[|text|..] == tail;
    assert json[|text| + 1..] == json[|text|..][1..];
  }

  lemma MinifiedNothing(s: string)
    requires s == []
    ensures Minified(s) == []
  {
  }

  // ---------- Comments ----------

  lemma {:induction false} LineEndsAt(c: string, rest: string)
    requires '\n' !in c
    ensures LineLength(c + "\n" + rest) == |c|
  {
    if c == [] {
      assert c + "\n" + rest == "\n" + rest;
    } else {
      LineEndsAt(c[1..], rest);
      assert (c + "\n" + rest)[1..] == c[1..] + "\n" + rest;
    }
  }

  /** A comment to the end of a line goes with its line end. */
  lemma LineCommentGone(c: string, rest: string)
    requires '\n' !in c
    ensures Minified("//" + c + "\n" + rest) == Minified(rest)
  {
    var text := "//" + c;
    var s := text + "\n" + rest;
    LineEndsAt(text, rest);
    assert s[|text|..] == "\n" + rest && ("\n" + rest)[1..] == rest;
  }

  /** No end of a comment in `t`, and none begun by its last character. */
  predicate NoCommentEnd(t: string) {
    forall i :: 0 <= i < |t| - 1 ==> !(t[i] == '*' && t[i + 1] == '/')
  }

  lemma {:induction false} CommentEndsAt(t: string, rest: string)
    requires t != [] && t[|t| - 1] == '*' && NoCommentEnd(t)
    ensures CommentLength(t + "/" + rest) == |t| - 1
  {
    var s := t + "/" + rest;
    if |t| > 1 {
      assert t[1..][|t| - 2] == '*';
      assert NoCommentEnd(t[1..]) by {
        forall i | 0 <= i < |t| - 2 ensures !(t[1..][i] == '*' && t[1..][i + 1] == '/') {
          assert t[1..][i] == t[i + 1] && t[1..][i + 1] == t[i + 2];
        }
      }
      CommentEndsAt(t[1..], rest);
      assert s[1..] == t[1..] + "/" + rest && s[0] == t[0] && s[1] == t[1];
    }
  }

  /** A comment between its marks goes; the mark that opens it may share its star with the one that closes it. */
  lemma CommentGone(c: string, rest: string)
    requires NoCommentEnd("*" + c + "*")
    ensures Minified("/*" + c + "*/" + rest) == Minified(rest)
  {
    var t := "/*" + c + "*";
    var s := t + "/" + rest;
    assert "/*" + c + "*/" + rest == s;
    assert NoCommentEnd(t) by {
      forall i | 0 <= i < |t| - 1 ensures !(t[i] == '*' && t[i + 1] == '/') {
        if i > 0 {
          assert t[i] == ("*" + c + "*")[i - 1] && t[i + 1] == ("*" + c + "*")[i];
        }
      }
    }
    CommentEndsAt(t, rest);
    assert s[|t| + 1..] == rest && s[0] == '/' && s[1] == '*';
  }
}
