/**
 The printer of cJSON.c: every node is rendered into a buffer whose size is worked out
 before anything is written.  `size` is what was asked of the allocator; a text and its
 NUL fit.
 */
module CJsonPrint {
  import opened CJson

  // ---------- Buffers ----------

  /** strcpy to out + ptr; the terminating NUL is overwritten or rewritten by the caller. */
  method StrCpy(out: array<char>, ptr: nat, text: string) returns (end: nat)
    requires ptr + |text| <= out.Length
    modifies out
    ensures end == ptr + |text| && out[..end] == old(out[..ptr]) + text
  {
    for i := 0 to |text|
      invariant out[..ptr + i] == old(out[..ptr]) + text[..i]
    {
      out[ptr + i] := text[i];
    }
    end := ptr + |text|;
  }

  /** The loops that indent. */
  method WriteTabs(out: array<char>, ptr: nat, n: int) returns (end: nat)
    requires ptr + (if n < 0 then 0 else n) <= out.Length
    modifies out
    ensures end == ptr + |Tabs(n)| && out[..end] == old(out[..ptr]) + Tabs(n)
  {
    end := ptr;
    while end - ptr < n
      invariant ptr <= end <= ptr + |Tabs(n)|
      invariant out[..end] == old(out[..ptr]) + Tabs(n)[..end - ptr]
    {
      out[end] := '\t';
      end := end + 1;
    }
  }

  /** `if (c) *ptr++ = ch`. */
  method PutIf(out: array<char>, ptr: nat, ch: char, c: bool) returns (end: nat)
    requires c ==> ptr < out.Length
    requires ptr <= out.Length
    modifies out
    ensures end == ptr + (if c then 1 else 0) && out[..end] == old(out[..ptr]) + (if c then [ch] else [])
  {
    end := ptr;
    if c {
      out[end] := ch;
      end := end + 1;
    }
  }

  // ---------- Strings ----------

  /** The two passes of print_string_ptr: the size is exact. */
  method PrintStringPtr(str: string) returns (text: string, size: nat)
    requires NulFree(str)
    ensures text == Quoted(str) && size == |text| + 1
  {
    hide EscapedChar;
    var len, ptr := 0, 0;
    while ptr < |str|
      invariant ptr <= |str| && len + |Escaped(str[ptr..])| == |Escaped(str)|
    {
      EscapedHead(str, ptr);
      len := len + 1;
      if Special(str[ptr]) {
        len := len + 1;
      } else if (str[ptr] as int) < 32 {
        len := len + 5;
      }
      ptr := ptr + 1;
    }
    size := len + 3;
    var out := new char[size];
    out[0] := '\"';
    var ptr2 := 1;
    ptr := 0;
    while ptr < |str|
      invariant ptr <= |str| && 1 <= ptr2 && ptr2 + |Escaped(str[ptr..])| == 1 + |Escaped(str)|
      invariant out[..ptr2] + Escaped(str[ptr..]) == "\"" + Escaped(str)
    {
      EscapedHead(str, ptr);
      ptr2 := WriteEscaped(out, ptr2, str[ptr]);
      ptr := ptr + 1;
    }
    out[ptr2], out[ptr2 + 1] := '\"', '\0';
    text := out[..ptr2 + 1];
  }

  lemma EscapedHead(str: string, k: nat)
    requires k < |str|
    ensures Escaped(str[k..]) == EscapedChar(str[k]) + Escaped(str[k + 1..])
    ensures |EscapedChar(str[k])| == if Special(str[k]) then 2 else if str[k] as int < 32 then 6 else 1
  {
    assert str[k..][1..] == str[k + 1..];
  }

  /** One character of the second pass. */
  method WriteEscaped(out: array<char>, ptr: nat, c: char) returns (end: nat)
    requires ptr + |EscapedChar(c)| <= out.Length
    modifies out
    ensures end == ptr + |EscapedChar(c)| && out[..end] == old(out[..ptr]) + EscapedChar(c)
  {
    if c as int > 31 && c != '\"' && c != '\\' {
      out[ptr] := c;
      return ptr + 1;
    }
    out[ptr] := '\\';
    end := ptr + 1;
    if c == '\\' || c == '\"' {
      out[end] := c;
    } else if c == BACKSPACE {
      out[end] := 'b';
    } else if c == FORM_FEED {
      out[end] := 'f';
    } else if c == '\n' {
      out[end] := 'n';
    } else if c == '\r' {
      out[end] := 'r';
    } else if c == '\t' {
      out[end] := 't';
    } else {
      var hex := ['u', '0', '0', Digit(c as int / 16), Digit(c as int % 16)];
      end := StrCpy(out, end, hex);
      return;
    }
    end := end + 1;
  }

  // ---------- Numbers ----------

  function Pow10(k: nat): nat {
    if k == 0 then 1 else 10 * Pow10(k - 1)
  }

  lemma {:induction false} DigitsShort(n: nat, k: nat)
    requires 0 < k && n < Pow10(k)
    ensures |Digits(n)| <= k
  {
    if n >= 10 {
      DigitsShort(n / 10, k - 1);
    }
  }

  /** print_number, for integers: 21 characters are enough. */
  method PrintNumber(n: int) returns (text: string, size: nat)
    requires IsInt32(n)
    ensures text == Decimal(n) && |text| < size == 21
  {
    assert Pow10(10) == 10_000_000_000;
    DigitsShort(if n < 0 then -n else n, 10);
    text, size := Decimal(n), 21;
  }

  // ---------- Arrays ----------

  /** What the entries of an array add to its size. */
  function ItemsRoom(items: seq<Json>, depth: nat, fmt: bool): nat {
    if items == [] then 0
    else |Print(items[0], depth + 1, fmt)| + 2 + (if fmt then 1 else 0) + ItemsRoom(items[1..], depth, fmt)
  }

  lemma {:induction false} ItemsFit(items: seq<Json>, depth: nat, fmt: bool)
    ensures |PrintItems(items, depth, fmt)| <= ItemsRoom(items, depth, fmt)
  {
    hide Print;
    if items != [] {
      ItemsFit(items[1..], depth, fmt);
    }
  }

  /** print_value. */
  method PrintValue(j: Json, depth: nat, fmt: bool) returns (text: string, size: nat)
    requires Representable(j)
    ensures text == Print(j, depth, fmt) && |text| < size
    decreases j, 1
  {
    hide Quoted, Decimal, PrintItems, PrintMembers;
    match j {
      case Null => text, size := "null", 5;
      case False => text, size := "false", 6;
      case True => text, size := "true", 5;
      case Number(n) => text, size := PrintNumber(n);
      case String(s) => text, size := PrintStringPtr(s);
      case Array(items) => text, size := PrintArray(items, depth, fmt);
      case Object(members) => text, size := PrintObject(members, depth, fmt);
    }
  }

  lemma ItemsHead(items: seq<Json>, k: nat, depth: nat, fmt: bool)
    requires k < |items|
    ensures ItemsRoom(items[k..], depth, fmt)
         == |Print(items[k], depth + 1, fmt)| + 2 + (if fmt then 1 else 0) + ItemsRoom(items[k + 1..], depth, fmt)
    ensures PrintItems(items[k..], depth, fmt)
         == Print(items[k], depth + 1, fmt) + (Gap(k == |items| - 1, fmt) + PrintItems(items[k + 1..], depth, fmt))
  {
    assert items[k..][1..] == items[k + 1..];
  }

  /** print_array. */
  method PrintArray(items: seq<Json>, depth: nat, fmt: bool) returns (text: string, size: nat)
    requires Representable(Array(items))
    ensures text == Print(Array(items), depth, fmt) && |text| < size
    decreases items, 0
  {
    hide Print, PrintItems, ItemsRoom;
    ArrayText(items, depth, fmt);
    var numentries := |items|;
    if numentries == 0 {
      return "[]", 3;
    }
    var entries, len := [], 5;
    assert items[0..] == items;
    for i := 0 to numentries
      invariant |entries| == i && forall k :: 0 <= k < i ==> entries[k] == Print(items[k], depth + 1, fmt)
      invariant 0 <= len && len + ItemsRoom(items[i..], depth, fmt) == 5 + ItemsRoom(items, depth, fmt)
    {
      var ret, _ := PrintValue(items[i], depth + 1, fmt);
      ItemsHead(items, i, depth, fmt);
      entries := entries + [ret];
      len := len + |ret| + 2 + (if fmt then 1 else 0);
    }
    size := len;
    text := ComposeArray(items, entries, depth, fmt, len);
  }

  lemma ArrayText(items: seq<Json>, depth: nat, fmt: bool)
    ensures Print(Array(items), depth, fmt) == "[" + PrintItems(items, depth, fmt) + "]"
    ensures items == [] ==> Print(Array(items), depth, fmt) == "[]"
  {
  }

  /** The second half of print_array, into a buffer of the size worked out in the first. */
  method ComposeArray(ghost items: seq<Json>, entries: seq<string>, ghost depth: nat, fmt: bool, len: nat)
      returns (text: string)
    requires |entries| == |items| > 0 && forall k :: 0 <= k < |items| ==> entries[k] == Print(items[k], depth + 1, fmt)
    requires len + ItemsRoom(items[|items|..], depth, fmt) == 5 + ItemsRoom(items, depth, fmt)
    ensures text == Print(Array(items), depth, fmt) && |text| < len
  {
    hide Print, PrintItems, ItemsRoom, Gap;
    ArrayText(items, depth, fmt);
    ItemsFit(items, depth, fmt);
    NoItemsRoom(items[|items|..], depth, fmt);
    var out, numentries := new char[len], |entries|;
    out[0] := '[';
    var ptr := 1;
    assert items[0..] == items;
    for i := 0 to numentries
      invariant 1 <= ptr && ptr + |PrintItems(items[i..], depth, fmt)| == 1 + |PrintItems(items, depth, fmt)|
      invariant out[..ptr] + PrintItems(items[i..], depth, fmt) == "[" + PrintItems(items, depth, fmt)
    {
      ItemsHead(items, i, depth, fmt);
      ptr := ComposeItem(out, ptr, entries[i], fmt, i == numentries - 1);
    }
    out[ptr], out[ptr + 1] := ']', '\0';
    text := out[..ptr + 1];
  }

  /** One turn of the loop that composes an array. */
  method ComposeItem(out: array<char>, ptr: nat, entry: string, fmt: bool, last: bool) returns (end: nat)
    requires ptr + |entry + Gap(last, fmt)| <= out.Length
    modifies out
    ensures end == ptr + |entry + Gap(last, fmt)| && out[..end] == old(out[..ptr]) + (entry + Gap(last, fmt))
  {
    end := StrCpy(out, ptr, entry);
    if !last {
      out[end] := ',';
      end := PutIf(out, end + 1, ' ', fmt);
    }
  }

  lemma NoItemsRoom(items: seq<Json>, depth: nat, fmt: bool)
    requires items == []
    ensures ItemsRoom(items, depth, fmt) == 0 && PrintItems(items, depth, fmt) == []
  {
  }

  // ---------- Objects ----------

  /** What the entries of an object add to its size. */
  function MembersRoom(members: seq<Member>, depth: nat, fmt: bool): nat {
    if members == [] then 0
    else
      |Print(members[0].value, depth + 1, fmt)| + |Quoted(members[0].name)| + 2
      + (if fmt then 2 + (depth + 1) else 0) + MembersRoom(members[1..], depth, fmt)
  }

  lemma {:induction false} MembersFit(members: seq<Member>, depth: nat, fmt: bool)
    ensures |PrintMembers(members, depth, fmt)| <= MembersRoom(members, depth, fmt)
  {
    hide Print, Quoted;
    if members != [] {
      MembersFit(members[1..], depth, fmt);
    }
  }

  lemma MembersHead(members: seq<Member>, k: nat, depth: nat, fmt: bool)
    requires k < |members|
    ensures MembersRoom(members[k..], depth, fmt)
         == |Print(members[k].value, depth + 1, fmt)| + |Quoted(members[k].name)| + 2
             + (if fmt then 2 + (depth + 1) else 0)
            + MembersRoom(members[k + 1..], depth, fmt)
    ensures PrintMembers(members[k..], depth, fmt)
         == Indent(depth + 1, fmt) + Quoted(members[k].name) + Colon(fmt) + Print(members[k].value, depth + 1, fmt)
            + LineEnd(k == |members| - 1, fmt) + PrintMembers(members[k + 1..], depth, fmt)
  {
    hide Print, Quoted, Indent, Colon, LineEnd;
    assert members[k..][1..] == members[k + 1..];
  }

  /** print_object. */
  method PrintObject(members: seq<Member>, depth: nat, fmt: bool) returns (text: string, size: nat)
    requires Representable(Object(members))
    ensures text == Print(Object(members), depth, fmt) && |text| < size
    decreases members, 0
  {
    hide Print, PrintMembers, MembersRoom, Quoted;
    var numentries := |members|;
    if numentries == 0 {
      text, size := EmptyObject(depth, fmt);
      return;
    }
    var names, entries, len, depth' := [], [], 7, depth + 1;
    if fmt {
      len := len + depth';
    }
    assert members[0..] == members;
    for i := 0 to numentries
      invariant |names| == |entries| == i
      invariant forall k :: 0 <= k < i ==>
                  names[k] == Quoted(members[k].name) && entries[k] == Print(members[k].value, depth + 1, fmt)
      invariant 0 <= len && len + MembersRoom(members[i..], depth, fmt)
                == 7 + (if fmt then depth' else 0) + MembersRoom(members, depth, fmt)
    {
      var str, _ := PrintStringPtr(members[i].name);
      var ret, _ := PrintValue(members[i].value, depth', fmt);
      MembersHead(members, i, depth, fmt);
      names, entries := names + [str], entries + [ret];
      len := len + |ret| + |str| + 2 + (if fmt then 2 + depth' else 0);
    }
    size := len;
    text := ComposeObject(members, names, entries, depth', fmt, len);
  }

  /** The empty case of print_object. */
  method EmptyObject(depth: nat, fmt: bool) returns (text: string, size: nat)
    ensures text == Print(Object([]), depth, fmt) && |text| < size
  {
    size := if fmt then depth + 4 else 3;
    var out := new char[size];
    out[0] := '{';
    var ptr := 1;
    if fmt {
      out[ptr] := '\n';
      ptr := WriteTabs(out, ptr + 1, depth - 1);
    }
    out[ptr], out[ptr + 1] := '}', '\0';
    text := out[..ptr + 1];
  }

  lemma ObjectText(members: seq<Member>, depth: nat, fmt: bool)
    requires members != []
    ensures Print(Object(members), depth, fmt)
            == "{" + NewLine(fmt) + PrintMembers(members, depth, fmt) + Indent(depth, fmt) + "}"
  {
  }

  /** The second half of print_object. */
  method ComposeObject(ghost members: seq<Member>, names: seq<string>, entries: seq<string>, depth: nat, fmt: bool,
      len: nat)
    returns (text: string)
    requires |names| == |entries| == |members| > 0 && depth > 0
    requires forall k :: 0 <= k < |members| ==>
               names[k] == Quoted(members[k].name) && entries[k] == Print(members[k].value, depth, fmt)
    requires len + MembersRoom(members[|members|..], depth - 1, fmt)
             == 7 + (if fmt then depth else 0) + MembersRoom(members, depth - 1, fmt)
    ensures text == Print(Object(members), depth - 1, fmt) && |text| < len
  {
    hide Print, PrintMembers, MembersRoom, Quoted, Indent, Colon, LineEnd;
    ghost var d := depth - 1;
    ObjectText(members, d, fmt);
    MembersFit(members, d, fmt);
    NoMembersRoom(members[|members|..], d, fmt);
    var out, numentries := new char[len], |entries|;
    out[0] := '{';
    var ptr := 1;
    if fmt {
      out[ptr] := '\n';
      ptr := ptr + 1;
    }
    assert members[0..] == members;
    for i := 0 to numentries
      invariant 1 <= ptr && ptr + |PrintMembers(members[i..], d, fmt)|
                == 1 + |NewLine(fmt)| + |PrintMembers(members, d, fmt)|
      invariant out[..ptr] + PrintMembers(members[i..], d, fmt) == "{" + NewLine(fmt) + PrintMembers(members, d, fmt)
    {
      MembersHead(members, i, d, fmt);
      ptr := ComposeMember(out, ptr, names[i], entries[i], depth, fmt, i == numentries - 1);
    }
    IndentText(d, fmt);
    if fmt {
      ptr := WriteTabs(out, ptr, depth - 1);
    }
    out[ptr], out[ptr + 1] := '}', '\0';
    text := out[..ptr + 1];
  }

  lemma NoMembersRoom(members: seq<Member>, depth: nat, fmt: bool)
    requires members == []
    ensures MembersRoom(members, depth, fmt) == 0 && PrintMembers(members, depth, fmt) == []
  {
  }

  lemma IndentText(n: int, fmt: bool)
    ensures Indent(n, fmt) == if fmt then Tabs(n) else []
  {
  }

  lemma PunctuationText(last: bool, fmt: bool)
    ensures Colon(fmt) == [':'] + (if fmt then ['\t'] else [])
    ensures LineEnd(last, fmt) == (if !last then [','] else []) + (if fmt then ['\n'] else [])
  {
  }

  lemma Nest7(s: string, a: string, b: string, c: string, c': string, d: string, e: string, e': string)
    ensures s + a + b + c + c' + d + e + e' == s + (a + b + (c + c') + d + (e + e'))
  {
    Nest2(s + a + b, c, c');
    Nest2(s + a + b + (c + c') + d, e, e');
    Nest2(s, a, b);
    Nest2(s, a + b, c + c');
    Nest2(s, a + b + (c + c'), d);
    Nest2(s, a + b + (c + c') + d, e + e');
  }

  /** One turn of the loop that composes an object. */
  method ComposeMember(out: array<char>, ptr: nat, name: string, entry: string, depth: nat, fmt: bool, last: bool)
      returns (end: nat)
    requires ptr + |Indent(depth, fmt) + name + Colon(fmt) + entry + LineEnd(last, fmt)| <= out.Length
    modifies out
    ensures end == ptr + |Indent(depth, fmt) + name + Colon(fmt) + entry + LineEnd(last, fmt)|
    ensures out[..end] == old(out[..ptr]) + (Indent(depth, fmt) + name + Colon(fmt) + entry + LineEnd(last, fmt))
  {
    hide Indent, Colon, LineEnd;
    IndentText(depth, fmt);
    PunctuationText(last, fmt);
    Nest7(out[..ptr], Indent(depth, fmt), name, [':'], if fmt then ['\t'] else [], entry,
          if !last then [','] else [], if fmt then ['\n'] else []);
    end := ptr;
    if fmt {
      end := WriteTabs(out, end, depth);
    }
    assert out[..end] == old(out[..ptr]) + Indent(depth, fmt);
    end := StrCpy(out, end, name);
    end := PutIf(out, end, ':', true);
    end := PutIf(out, end, '\t', fmt);
    end := StrCpy(out, end, entry);
    end := PutIf(out, end, ',', !last);
    end := PutIf(out, end, '\n', fmt);
  }
}
