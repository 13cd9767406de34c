/** The texts that the parser of cJSON.c refuses, and the place at which it does. */
module CJsonErrors {
  import opened CJson
  import opened CJsonRoundTrip

  /** No value begins like this. */
  predicate BeginsNoValue(s: string) {
    s == [] || (s[0] !in "\"-0123456789[{" && !("null" <= s) && !("false" <= s) && !("true" <= s))
  }

  predicate NoBlank(s: string) {
    s == [] || s[0] as int > 32
  }

  lemma NoValue(s: string)
    requires BeginsNoValue(s)
    ensures ParseValue(s) == Malformed(s)
  {
    assert s != [] ==> !IsDigit(s[0]);
  }

  lemma SkipTo(blank: string, s: string)
    requires Blank(blank) && NoBlank(s)
    ensures Skip(blank + s) == s
  {
    SkipBlank(blank, s);
  }

  /** A text after its opening bracket, or brace. */
  lemma Opened(open: char, s: string)
    requires open in "[{"
    ensures ([open] + s)[1..] == s && ([open] + s)[0] == open
    ensures !("null" <= [open] + s) && !("false" <= [open] + s) && !("true" <= [open] + s)
  {
    NoWord([open] + s);
  }

  // ---------- Arrays ----------

  /** parse_array from its bracket on. */
  lemma ItemsOf(blank: string, s: string)
    requires Blank(blank) && NoBlank(s) && (s == [] || s[0] != ']')
    ensures ParseValue("[" + (blank + s)) == ParseItems(s).Map(items => Array(items))
  {
    hide ParseItems;
    Opened('[', blank + s);
    SkipTo(blank, s);
  }

  /** An array that goes on with neither its end nor a value. */
  lemma NoFirstItem(blank: string, bad: string)
    requires Blank(blank) && NoBlank(bad) && BeginsNoValue(bad) && (bad == [] || bad[0] != ']')
    ensures ParseValue("[" + (blank + bad)) == Malformed(bad)
  {
    hide ParseValue, ParseItems;
    ItemsOf(blank, bad);
    NoItem("", bad);
    assert "" + bad == bad;
  }

  lemma NoItem(blank: string, bad: string)
    requires Blank(blank) && NoBlank(bad) && BeginsNoValue(bad)
    ensures ParseItems(blank + bad) == Malformed(bad)
  {
    hide ParseValue;
    SkipTo(blank, bad);
    NoValue(bad);
  }

  /** What parse_array does after a child. */
  lemma AfterChild(j: Json, depth: nat, fmt: bool, blank: string, s: string)
    requires Representable(j) && Blank(blank) && NoBlank(s) && (j.Number? ==> Stops(blank + s))
    ensures var text := Print(j, depth, fmt) + (blank + s);
            && NoBlank(text) && text != [] && text[0] != ']'
            && (s == [] || s[0] !in ",]" ==> ParseItems(text) == Malformed(s))
            && (s != [] && s[0] == ',' ==> ParseItems(text) == Prefixed([j], ParseItems(s[1..])))
  {
    hide ParseValue, Print;
    var text := Print(j, depth, fmt) + (blank + s);
    PrintStart(j, depth, fmt);
    ValueRoundTrip(j, depth, fmt, blank + s);
    ValueStart(j, depth, fmt, blank + s);
    SkipTo(blank, s);
  }

  /** After a child of an array must come a comma or the bracket, */
  lemma NoSeparator(blank: string, j: Json, depth: nat, fmt: bool, blank': string, bad: string)
    requires Representable(j) && Blank(blank) && Blank(blank') && NoBlank(bad)
    requires (j.Number? ==> Stops(blank' + bad)) && (bad == [] || bad[0] !in ",]")
    ensures ParseValue("[" + (blank + (Print(j, depth, fmt) + (blank' + bad)))) == Malformed(bad)
  {
    hide ParseValue, ParseItems, Print;
    AfterChild(j, depth, fmt, blank', bad);
    ItemsOf(blank, Print(j, depth, fmt) + (blank' + bad));
  }

  /** and after a comma another child, so none may come before the bracket. */
  lemma NoNextItem(blank: string, j: Json, depth: nat, fmt: bool, blank': string, blank'': string, bad: string)
    requires Representable(j) && Blank(blank) && Blank(blank') && Blank(blank'') && NoBlank(bad) && BeginsNoValue(bad)
    ensures ParseValue("[" + (blank + (Print(j, depth, fmt) + (blank' + ("," + (blank'' + bad)))))) == Malformed(bad)
  {
    hide ParseValue, ParseItems, Print;
    var s := "," + (blank'' + bad);
    assert s[1..] == blank'' + bad;
    AfterChild(j, depth, fmt, blank', s);
    ItemsOf(blank, Print(j, depth, fmt) + (blank' + s));
    NoItem(blank'', bad);
  }

  // ---------- Objects ----------

  /** parse_object from its brace on. */
  lemma MembersOf(blank: string, s: string)
    requires Blank(blank) && NoBlank(s) && (s == [] || s[0] != '}')
    ensures ParseValue("{" + (blank + s)) == ParseMembers(s).Map(members => Object(members))
  {
    hide ParseMembers;
    Opened('{', blank + s);
    SkipTo(blank, s);
  }

  /** A name must begin with a quote. */
  lemma NoName(blank: string, bad: string)
    requires Blank(blank) && NoBlank(bad) && (bad == [] || bad[0] !in "\"}")
    ensures ParseValue("{" + (blank + bad)) == Malformed(bad)
  {
    hide ParseValue;
    MembersOf(blank, bad);
    SkipTo("", bad);
    assert "" + bad == bad;
  }

  /** What follows the name must be a colon, */
  lemma NoColon(blank: string, name: string, blank': string, bad: string)
    requires NulFree(name) && Blank(blank) && Blank(blank') && NoBlank(bad) && (bad == [] || bad[0] != ':')
    ensures ParseValue("{" + (blank + (Quoted(name) + (blank' + bad)))) == Malformed(bad)
  {
    hide ParseValue, ParseString, Quoted;
    var s := Quoted(name) + (blank' + bad);
    QuotedStart(name, blank' + bad);
    MembersOf(blank, s);
    QuotedRoundTrip(name, blank' + bad);
    SkipTo(blank', bad);
  }

  /** and what follows the value a comma or the brace. */
  lemma NoNextMember(blank: string, m: Member, depth: nat, fmt: bool, blank': string, bad: string)
    requires Representable(Object([m])) && Blank(blank) && Blank(blank') && NoBlank(bad)
    requires (m.value.Number? ==> Stops(blank' + bad)) && (bad == [] || bad[0] !in ",}")
    ensures ParseValue("{" + (blank + (Quoted(m.name) + (":" + (Print(m.value, depth, fmt) + (blank' + bad))))))
         == Malformed(bad)
  {
    hide ParseValue, ParseString, ParseMembers, Quoted, Print;
    var text := Print(m.value, depth, fmt) + (blank' + bad);
    var s := Quoted(m.name) + (":" + text);
    assert m in [m];
    QuotedStart(m.name, ":" + text);
    QuotedRoundTrip(m.name, ":" + text);
    AfterName(false, text);
    ValueStart(m.value, depth, fmt, blank' + bad);
    ValueRoundTrip(m.value, depth, fmt, blank' + bad);
    SkipTo(blank', bad);
    FirstMember(s, m.name, ":" + text, m.value, blank' + bad);
    MembersOf(blank, s);
  }
}
