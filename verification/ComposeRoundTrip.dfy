/** The compose printer and the YAML reader invert each other. */
module ComposeRoundTrip {
  import opened Wrappers
  import opened JsonTree
  import opened Text
  import opened Yaml
  import opened DockerRenderer

  // ---- Scalars -------------------------------------------------------------

  predicate EdgeBlank(s: string) {
    s != "" && (IsBlank(s[0]) || IsBlank(s[|s| - 1]))
  }

  /** Text that stays a string when printed bare: no edge blank, no indicator in front, no word or number of YAML. */
  predicate IsPlain(s: string) {
    && !EdgeBlank(s) && !StartsWithIndicator(s) && !IsNumber(s)
    && !IsNullWord(s) && !IsTrueWord(s) && !IsFalseWord(s)
  }

  /** The scalars that survive printing. */
  predicate Survives(v: Json, inList: bool) {
    match v
    case Null => true
    case Bool(_) => true
    case Num(text) => IsNumber(text)
    case Str(s) => if NeedsYamlQuote(s, inList) then '\\' !in s else IsPlain(s)
    case _ => false
  }

  predicate NumberHead(c: char) {
    '0' <= c <= '9' || c == '.' || c == '+' || c == '-'
  }

  predicate NumberText(s: string) {
    && s != "" && NumberHead(s[0])
    && forall i | 0 <= i < |s| :: NumberHead(s[i]) || 'a' <= s[i] <= 'z' || 'A' <= s[i] <= 'Z'
  }

  lemma {:induction false} FloatShape(at: Scan, s: string)
    requires IsFloat(at, s)
    ensures at.Start? ==> s != "" && NumberHead(s[0])
    ensures forall i | 0 <= i < |s| :: NumberHead(s[i]) || s[i] == 'e' || s[i] == 'E'
    decreases |s|
  {
    if s != "" {
      FloatShape(Move(at, s[0]).value, s[1..]);
      assert forall i | 1 <= i < |s| :: s[1..][i - 1] == s[i];
    }
  }

  lemma RadixShape(s: string)
    requires IsRadix(s)
    ensures NumberText(s)
  {
    assert IsRadixDigit(s[1], s[2]);
    forall i | 2 <= i < |s| ensures NumberHead(s[i]) || 'a' <= s[i] <= 'z' || 'A' <= s[i] <= 'Z' {
      assert IsRadixDigit(s[1], s[i]);
    }
  }

  lemma SpecialShape(s: string)
    requires IsSpecial(s)
    ensures NumberText(s)
  {
    var from := if |s| == 4 then 1 else 2;
    assert forall i | from <= i < |s| :: s[from..][i - from] == s[i];
  }

  /** A number has only letters, digits, signs and dots, and starts with no letter. */
  lemma NumberShape(s: string)
    requires IsNumber(s)
    ensures NumberText(s)
  {
    if IsFloat(Start, s) {
      FloatShape(Start, s);
    } else if IsRadix(s) {
      RadixShape(s);
    } else {
      SpecialShape(s);
    }
  }

  lemma HeadIsNoNumber(s: string)
    requires s != "" && !NumberHead(s[0])
    ensures !IsNumber(s)
  {
    if IsNumber(s) { NumberShape(s); }
  }

  lemma {:induction false} UnquoteIsShorter(t: string)
    ensures Unquote(t).Some? ==> |Unquote(t).value| < |t|
  {
    if t != "" && t[0] != '"' {
      if t[0] != '\\' {
        UnquoteIsShorter(t[1..]);
      } else if |t| >= 2 {
        UnquoteIsShorter(t[2..]);
      }
    }
  }

  lemma {:induction false} EscapedReadsNoLonger(s: string)
    ensures var r := Unquote(EscapeQuotes(s) + "\""); r.Some? ==> |r.value| <= |s|
  {
    var t := EscapeQuotes(s) + "\"";
    if s != "" {
      var rest := EscapeQuotes(s[1..]) + "\"";
      if s[0] == '"' {
        assert t == "\\\"" + rest;
        assert t[2..] == rest;
        EscapedReadsNoLonger(s[1..]);
      } else {
        assert t[1..] == rest;
        if s[0] != '\\' {
          EscapedReadsNoLonger(s[1..]);
        } else {
          BackslashReadsShort(s);
        }
      }
    }
  }

  /** Text that starts with a backslash comes back shorter, or not at all. */
  lemma BackslashReadsShort(s: string)
    requires s != "" && s[0] == '\\'
    ensures var r := Unquote(EscapeQuotes(s) + "\""); r.Some? ==> |r.value| < |s|
    decreases s, 0
  {
    if |s| > 1 {
      var rest := EscapeQuotes(s[2..]) + "\"";
      EscapeTwo(s);
      EscapedReadsNoLonger(s[2..]);
      if s[1] == '"' {
        assert EscapeQuotes(s) + "\"" == ['\\', '\\'] + ("\"" + rest);
        BackslashPair('\\', "\"" + rest);
      } else {
        assert EscapeQuotes(s) + "\"" == ['\\', s[1]] + rest;
        BackslashPair(s[1], rest);
      }
    }
  }

  lemma BackslashPair(c: char, rest: string)
    ensures var r := Unquote(['\\', c] + rest);
            r.Some? ==> Unquote(rest).Some? && |r.value| == 1 + |Unquote(rest).value|
  {
    assert (['\\', c] + rest)[2..] == rest;
  }

  lemma EscapeHead(s: string)
    requires s != ""
    ensures EscapeQuotes(s) == (if s[0] == '"' then ['\\', '"'] else [s[0]]) + EscapeQuotes(s[1..])
  {
  }

  lemma EscapeTwo(s: string)
    requires |s| > 1 && s[0] == '\\'
    ensures EscapeQuotes(s) == (if s[1] == '"' then ['\\', '\\', '"'] else ['\\', s[1]]) + EscapeQuotes(s[2..])
  {
    EscapeHead(s);
    EscapeHead(s[1..]);
    var second := if s[1] == '"' then ['\\', '"'] else [s[1]];
    assert s[1..][1..] == s[2..];
    Assoc(['\\'], second, EscapeQuotes(s[2..]));
  }

  /** Quoting is undone by reading exactly when there is no backslash. */
  lemma {:induction false} QuotedRoundTrip(s: string)
    ensures Unquote(EscapeQuotes(s) + "\"") == Some(s) <==> '\\' !in s
  {
    var t := EscapeQuotes(s) + "\"";
    if s != "" {
      var rest := EscapeQuotes(s[1..]) + "\"";
      if s[0] == '\\' {
        BackslashReadsShort(s);
      } else {
        QuotedRoundTrip(s[1..]);
        if s[0] == '"' {
          assert t == "\\\"" + rest;
          assert t[2..] == rest;
        } else {
          assert t[1..] == rest;
        }
        assert s == [s[0]] + s[1..];
        assert '\\' in s <==> '\\' in s[1..];
      }
    }
  }

  lemma ReadQuoted(t: string)
    requires |t| >= 2 && t[0] == '"' && t[|t| - 1] == '"'
    ensures ReadScalar(t) == var s := Unquote(t[1..]); if s.None? then None else Some(Str(s.value))
  {
    assert TrimBlanks(t) == t;
    HeadIsNoNumber(t);
  }

  lemma QuotedStringRead(s: string)
    ensures ReadScalar("\"" + EscapeQuotes(s) + "\"") == Some(Str(s)) <==> '\\' !in s
  {
    var u := EscapeQuotes(s) + "\"";
    var t := "\"" + EscapeQuotes(s) + "\"";
    assert t[1..] == u;
    ReadQuoted(t);
    QuotedRoundTrip(s);
  }

  lemma ReadNumber(text: string)
    ensures ReadScalar(text).Some? && ReadScalar(text).value.Num? ==> ReadScalar(text).value.text == TrimBlanks(text)
    ensures ReadScalar(text).Some? && ReadScalar(text).value.Num? ==> IsNumber(TrimBlanks(text))
  {
  }

  lemma NumberRead(text: string)
    ensures ReadScalar(text) == Some(Num(text)) <==> IsNumber(text)
  {
    ReadNumber(text);
    if IsNumber(text) {
      NumberShape(text);
      NumberIsNoWord(text);
    }
  }

  lemma NumberIsNoWord(s: string)
    requires NumberText(s)
    ensures !IsNullWord(s) && !IsTrueWord(s) && !IsFalseWord(s) && TrimBlanks(s) == s
  {
  }

  lemma PlainStringRead(s: string)
    requires s != "" && s[0] != '"' && ':' !in s && '#' !in s
    ensures ReadScalar(s) == Some(Str(s)) <==> IsPlain(s)
  {
    var t := TrimBlanks(s);
    if EdgeBlank(s) {
      assert |t| < |s|;
      if t != "" {
        UnquoteIsShorter(t[1..]);
      }
    } else {
      assert t == s;
    }
  }

  lemma WordRead(b: bool)
    ensures ReadScalar("") == Some(Null)
    ensures ReadScalar(if b then "true" else "false") == Some(Bool(b))
  {
    var t := if b then "true" else "false";
    assert TrimBlanks(t) == t;
  }

  lemma OnlyScalarsRead(text: string)
    ensures ReadScalar(text).Some? ==> !ReadScalar(text).value.Arr? && !ReadScalar(text).value.Obj?
  {
  }

  /** A printed scalar reads back as itself, type included, exactly when it is one that survives. */
  lemma ScalarRoundTrip(v: Json, inList: bool)
    ensures ReadScalar(QuoteIfNeeded(v, inList)) == Some(v) <==> Survives(v, inList)
  {
    match v {
      case Null => WordRead(true);
      case Bool(b) => WordRead(b);
      case Num(text) => NumberRead(text);
      case Str(s) => StringRoundTrip(s, inList);
      case _ => OnlyScalarsRead(QuoteIfNeeded(v, inList));
    }
  }

  lemma StringRoundTrip(s: string, inList: bool)
    ensures ReadScalar(QuoteString(s, inList)) == Some(Str(s)) <==> Survives(Str(s), inList)
  {
    if NeedsYamlQuote(s, inList) {
      QuotedStringRead(s);
    } else {
      assert s[0] == '"' || ':' in s || '#' in s ==> HasQuoteChar(s);
      PlainStringRead(s);
    }
  }

  /** A text the printer leaves bare although YAML reads a word in it: it comes back as a boolean. */
  lemma WordIsNotQuoted()
    ensures QuoteString("True", false) == "True" && ReadScalar("True") == Some(Bool(true)) && !Survives(Str("True"), false)
  {
    var s := "True";
    assert s[0] == 'T' && s[1] == 'r' && s[2] == 'u' && s[3] == 'e';
    assert !HasQuoteChar(s);
    NotDecimal(s);
    assert TrimBlanks(s) == s;
  }

  lemma NotDecimal(s: string)
    requires s != "" && !NumberHead(s[0])
    ensures !IsDecimal(s)
  {
    var dot := IndexOf(s, '.');
    assert dot < |s| && dot > 0 ==> s[..dot][0] == s[0];
  }

  // ---- Lines ---------------------------------------------------------------

  predicate AllSpaces(s: string) {
    forall i | 0 <= i < |s| :: s[i] == ' '
  }

  /** Keys that end at their colon and are no list item. */
  predicate LineKey(k: string) {
    ':' !in k && '\n' !in k && !StartsWith(k, " ") && !StartsWith(k, "- ")
  }

  lemma {:induction false} IndentOf(prefix: string, body: string)
    requires AllSpaces(prefix) && body != "" && body[0] != ' '
    ensures Indent(prefix + body) == |prefix|
  {
    if prefix == "" {
      assert prefix + body == body;
    } else {
      assert (prefix + body)[1..] == prefix[1..] + body;
      IndentOf(prefix[1..], body);
    }
  }

  lemma ParseItem(prefix: string, text: string)
    requires AllSpaces(prefix)
    ensures ParseLine(prefix + ("- " + text)) == ItemLine(|prefix|, text)
  {
    var body := "- " + text;
    IndentOf(prefix, body);
    assert (prefix + body)[|prefix|..] == body;
    assert body[2..] == text;
  }

  lemma KeyIsFound(prefix: string, k: string, text: string)
    requires AllSpaces(prefix) && LineKey(k)
    ensures var line := prefix + k + ":" + text;
            && Indent(line) == |prefix|
            && line[|prefix|..] == k + ":" + text
            && !StartsWith(k + ":" + text, "- ")
            && IndexOf(k + ":" + text, ':') == |k|
  {
    var body := k + ":" + text;
    assert prefix + k + ":" + text == prefix + body;
    assert body[0] == if k == "" then ':' else k[0];
    assert k != "" ==> (StartsWith(k, " ") <==> k[0] == ' ');
    IndentOf(prefix, body);
    assert body[..|k|] == k;
    IndexOfIs(body, ':', |k|);
    KeyIsNoItem(k, text);
  }

  lemma KeyIsNoItem(k: string, text: string)
    ensures StartsWith(k + ":" + text, "- ") ==> StartsWith(k, "- ")
  {
    var body := k + ":" + text;
    if |k| < 2 {
      assert body[|k|] == ':';
    } else {
      assert body[0] == k[0] && body[1] == k[1];
    }
  }

  lemma ParseHeader(prefix: string, k: string)
    requires AllSpaces(prefix) && LineKey(k)
    ensures ParseLine(prefix + k + ":") == Header(|prefix|, k)
  {
    KeyIsFound(prefix, k, "");
    assert prefix + k + ":" + "" == prefix + k + ":";
    assert (k + ":" + "")[..|k|] == k;
  }

  lemma ParseEntry(prefix: string, k: string, text: string)
    requires AllSpaces(prefix) && LineKey(k)
    ensures ParseLine(prefix + k + ": " + text) == EntryLine(|prefix|, k, text)
  {
    var rest := " " + text;
    KeyIsFound(prefix, k, rest);
    assert prefix + k + ": " + text == prefix + k + ":" + rest;
    var body := k + ":" + rest;
    assert body[..|k|] == k && body[|k| + 1] == ' ' && body[|k| + 2..] == text;
  }

  lemma {:induction false} NotBlank(line: string, i: nat)
    requires i < |line| && !IsBlank(line[i])
    ensures TrimBlanks(line) != ""
    decreases |line|
  {
    if IsBlank(line[0]) {
      NotBlank(line[1..], i - 1);
    } else if IsBlank(line[|line| - 1]) {
      NotBlank(line[..|line| - 1], i);
    }
  }

  lemma {:induction false} ParseLinesAppend(a: seq<string>, b: seq<string>)
    ensures ParseLines(a + b) == ParseLines(a) + ParseLines(b)
  {
    if a == [] { assert a + b == b; } else {
      assert (a + b)[1..] == a[1..] + b;
      ParseLinesAppend(a[1..], b);
    }
  }

  lemma ParseCons(line: string, parsed: Line, i: nat, rest: seq<string>)
    requires ParseLine(line) == parsed && i < |line| && !IsBlank(line[i])
    ensures ParseLines([line] + rest) == [parsed] + ParseLines(rest)
  {
    NotBlank(line, i);
    assert ([line] + rest)[1..] == rest;
  }

  lemma ItemCons(prefix: string, v: Json, rest: seq<string>)
    requires AllSpaces(prefix) && Survives(v, true)
    ensures ParseLines([prefix + RenderListValue(v)] + rest) == [Item(|prefix|, v)] + ParseLines(rest)
  {
    var text := QuoteIfNeeded(v, true);
    ScalarRoundTrip(v, true);
    ParseItem(prefix, text);
    ParseCons(prefix + ("- " + text), Item(|prefix|, v), |prefix|, rest);
  }

  lemma HeaderCons(prefix: string, k: string, rest: seq<string>)
    requires AllSpaces(prefix) && LineKey(k)
    ensures ParseLines([prefix + k + ":"] + rest) == [Header(|prefix|, k)] + ParseLines(rest)
  {
    ParseHeader(prefix, k);
    ParseCons(prefix + k + ":", Header(|prefix|, k), |prefix| + |k|, rest);
  }

  lemma EntryCons(prefix: string, k: string, v: Json, rest: seq<string>)
    requires AllSpaces(prefix) && LineKey(k) && Survives(v, false)
    ensures ParseLines([prefix + k + ": " + QuoteIfNeeded(v, false)] + rest) == [Entry(|prefix|, k, v)] + ParseLines(rest)
  {
    var text := QuoteIfNeeded(v, false);
    ScalarRoundTrip(v, false);
    ParseEntry(prefix, k, text);
    ParseCons(prefix + k + ": " + text, Entry(|prefix|, k, v), |prefix| + |k|, rest);
  }

  // ---- The normalised compose tree -----------------------------------------

  /** An empty map is printed as a bare header, which reads as null. */
  function NormMap(fields: seq<Member>): Json {
    if fields == [] then Null else Obj(fields)
  }

  /** Empty lists are dropped. */
  function NormEntry(m: Member): seq<Member> {
    match m.value
    case Arr(items) => if items == [] then [] else [m]
    case Obj(fields) => [Member(m.name, NormMap(fields))]
    case _ => [m]
  }

  function NormService(fields: seq<Member>, overrides: Overrides): seq<Member> {
    if fields == [] then [] else NormEntry(ExpandEntry(fields[0], overrides)) + NormService(fields[1..], overrides)
  }

  function NormServices(services: seq<Member>, overrides: Overrides): seq<Member> {
    if services == [] then [] else
      [Member(services[0].name, NormMap(NormService(Entries(services[0].value), overrides)))]
      + NormServices(services[1..], overrides)
  }

  function NormTopEntry(m: Member): seq<Member> {
    if m.name == "services" then [] else if m.value == Arr([]) then [] else [m]
  }

  function NormTop(fields: seq<Member>): seq<Member> {
    if fields == [] then [] else NormTopEntry(fields[0]) + NormTop(fields[1..])
  }

  /** What a compose tree says once printed: services first, placeholders expanded, empty lists dropped. */
  function Normalise(compose: seq<Member>, overrides: Overrides): seq<Member> {
    (if HasServices(compose)
     then [Member("services", NormMap(NormServices(Entries(Field(compose, "services").value), overrides)))]
     else [])
    + NormTop(compose)
  }

  // ---- The printable fragment ----------------------------------------------

  /** A surviving scalar on one line. */
  predicate Printable(v: Json, inList: bool) {
    Survives(v, inList) && (v.Str? ==> '\n' !in v.s)
  }

  predicate ListOk(items: seq<Json>) {
    forall i | 0 <= i < |items| :: Printable(items[i], true)
  }

  predicate FlatMapOk(fields: seq<Member>) {
    forall i | 0 <= i < |fields| :: LineKey(fields[i].name) && Printable(fields[i].value, false)
  }

  /** A scalar, a list of scalars, or a flat map of scalars. */
  predicate EntryOk(m: Member) {
    LineKey(m.name) &&
    match m.value
    case Arr(items) => ListOk(items)
    case Obj(fields) => FlatMapOk(fields)
    case _ => Printable(m.value, false)
  }

  predicate ServiceOk(fields: seq<Member>, overrides: Overrides) {
    forall i | 0 <= i < |fields| :: EntryOk(ExpandEntry(fields[i], overrides))
  }

  predicate ServicesOk(services: seq<Member>, overrides: Overrides) {
    forall i | 0 <= i < |services| ::
      LineKey(services[i].name) && services[i].value.Obj? && ServiceOk(services[i].value.fields, overrides)
  }

  predicate TopOk(m: Member) {
    m.name != "services" ==> EntryOk(m) && !m.value.Obj?
  }

  /** Services are maps; other values are scalars or lists; all of it survives printing. */
  predicate ComposeOk(compose: seq<Member>, overrides: Overrides) {
    && (forall i | 0 <= i < |compose| :: TopOk(compose[i]))
    && (HasServices(compose) ==>
          && Field(compose, "services").value.Obj?
          && ServicesOk(Field(compose, "services").value.fields, overrides))
  }

  /** A key that reads as a string: no indicator, word or number, no comment sign, no edge blank. */
  predicate PlainKey(k: string) {
    IsPlain(k) && ':' !in k && '#' !in k
  }

  predicate KeysPlain(t: Json) {
    t.Obj? ==> forall i | 0 <= i < |t.fields| :: PlainKey(t.fields[i].name) && KeysPlain(t.fields[i].value)
  }

  // ---- The lines of a compose tree -----------------------------------------

  function ItemLines(arr: seq<Json>, n: nat): seq<Line> {
    if arr == [] then [] else [Item(n, arr[0])] + ItemLines(arr[1..], n)
  }

  function EntryLines(fields: seq<Member>, n: nat): seq<Line> {
    if fields == [] then [] else [Entry(n, fields[0].name, fields[0].value)] + EntryLines(fields[1..], n)
  }

  /** A key at indentation `n` with what stands under it at `under`. */
  function KeyLines(m: Member, n: nat, under: nat): seq<Line> {
    match m.value
    case Arr(items) => if items == [] then [] else [Header(n, m.name)] + ItemLines(items, under)
    case Obj(fields) => [Header(n, m.name)] + EntryLines(fields, under)
    case _ => [Entry(n, m.name, m.value)]
  }

  function ServiceLines(fields: seq<Member>, overrides: Overrides): seq<Line> {
    if fields == [] then [] else
      KeyLines(ExpandEntry(fields[0], overrides), 4, 6) + ServiceLines(fields[1..], overrides)
  }

  function ServicesLines(services: seq<Member>, overrides: Overrides): seq<Line> {
    if services == [] then [] else
      [Header(2, services[0].name)] + ServiceLines(Entries(services[0].value), overrides)
      + ServicesLines(services[1..], overrides)
  }

  function TopLines(fields: seq<Member>): seq<Line> {
    if fields == [] then [] else
      (if fields[0].name == "services" then [] else KeyLines(fields[0], 0, 2)) + TopLines(fields[1..])
  }

  lemma {:induction false} ListParses(arr: seq<Json>, indent: string)
    requires AllSpaces(indent) && ListOk(arr)
    ensures ParseLines(RenderList(arr, indent)) == ItemLines(arr, |indent|)
  {
    if arr != [] {
      assert Printable(arr[0], true);
      ItemCons(indent, arr[0], RenderList(arr[1..], indent));
      ListParses(arr[1..], indent);
    }
  }

  lemma {:induction false} EntriesParse(fields: seq<Member>)
    requires FlatMapOk(fields)
    ensures ParseLines(RenderEntries(fields)) == EntryLines(fields, 6)
  {
    if fields != [] {
      assert Printable(fields[0].value, false);
      EntryCons("      ", fields[0].name, fields[0].value, RenderEntries(fields[1..]));
      EntriesParse(fields[1..]);
    }
  }

  lemma ScalarKeyParses(prefix: string, k: string, v: Json)
    requires AllSpaces(prefix) && LineKey(k) && Survives(v, false)
    ensures ParseLines([prefix + k + ": " + QuoteIfNeeded(v, false)]) == [Entry(|prefix|, k, v)]
  {
    EntryCons(prefix, k, v, []);
    assert [prefix + k + ": " + QuoteIfNeeded(v, false)] + [] == [prefix + k + ": " + QuoteIfNeeded(v, false)];
  }

  lemma ListKeyParses(prefix: string, under: string, k: string, items: seq<Json>)
    requires AllSpaces(prefix) && AllSpaces(under) && LineKey(k) && ListOk(items)
    ensures ParseLines([prefix + k + ":"] + RenderList(items, under))
         == [Header(|prefix|, k)] + ItemLines(items, |under|)
  {
    HeaderCons(prefix, k, RenderList(items, under));
    ListParses(items, under);
  }

  lemma ListEntryParses(m: Member)
    requires EntryOk(m) && m.value.Arr?
    ensures ParseLines(RenderServiceEntry(m)) == KeyLines(m, 4, 6)
  {
    if m.value.items != [] { ListKeyParses("    ", "      ", m.name, m.value.items); }
  }

  lemma MapEntryParses(m: Member)
    requires EntryOk(m) && m.value.Obj?
    ensures ParseLines(RenderServiceEntry(m)) == KeyLines(m, 4, 6)
  {
    HeaderCons("    ", m.name, RenderEntries(m.value.fields));
    EntriesParse(m.value.fields);
  }

  lemma ServiceEntryParses(m: Member)
    requires EntryOk(m)
    ensures ParseLines(RenderServiceEntry(m)) == KeyLines(m, 4, 6)
  {
    match m.value {
      case Arr(_) => ListEntryParses(m);
      case Obj(_) => MapEntryParses(m);
      case _ => ScalarKeyParses("    ", m.name, m.value);
    }
  }

  lemma {:induction false} ServiceParses(fields: seq<Member>, overrides: Overrides)
    requires ServiceOk(fields, overrides)
    ensures ParseLines(RenderService(fields, overrides)) == ServiceLines(fields, overrides)
  {
    if fields != [] {
      var m := ExpandEntry(fields[0], overrides);
      ServiceRestOk(fields, overrides);
      ServiceEntryParses(m);
      ServiceParses(fields[1..], overrides);
      ParseLinesAppend(RenderServiceEntry(m), RenderService(fields[1..], overrides));
    }
  }

  lemma ServiceRestOk(fields: seq<Member>, overrides: Overrides)
    requires ServiceOk(fields, overrides) && fields != []
    ensures EntryOk(ExpandEntry(fields[0], overrides)) && ServiceOk(fields[1..], overrides)
  {
  }

  lemma {:induction false} ServicesParse(services: seq<Member>, overrides: Overrides)
    requires ServicesOk(services, overrides)
    ensures ParseLines(RenderServiceList(services, overrides)) == ServicesLines(services, overrides)
  {
    if services != [] {
      var fields := Entries(services[0].value);
      ServicesRestOk(services, overrides);
      HeaderCons("  ", services[0].name, RenderService(fields, overrides));
      ServiceParses(fields, overrides);
      ServicesParse(services[1..], overrides);
      ParseLinesAppend(["  " + services[0].name + ":"] + RenderService(fields, overrides),
        RenderServiceList(services[1..], overrides));
    }
  }

  lemma ServicesRestOk(services: seq<Member>, overrides: Overrides)
    requires ServicesOk(services, overrides) && services != []
    ensures LineKey(services[0].name) && ServiceOk(Entries(services[0].value), overrides)
    ensures ServicesOk(services[1..], overrides)
  {
  }

  lemma TopEntryParses(m: Member)
    requires TopOk(m)
    ensures ParseLines(RenderTopEntry(m)) == if m.name == "services" then [] else KeyLines(m, 0, 2)
  {
    if m.name != "services" {
      assert "" + m.name == m.name;
      if m.value.Arr? {
        if m.value.items != [] { ListKeyParses("", "  ", m.name, m.value.items); }
      } else {
        ScalarKeyParses("", m.name, m.value);
      }
    }
  }

  lemma {:induction false} TopParses(fields: seq<Member>)
    requires forall i | 0 <= i < |fields| :: TopOk(fields[i])
    ensures ParseLines(RenderTop(fields)) == TopLines(fields)
  {
    if fields != [] {
      TopEntryParses(fields[0]);
      TopParses(fields[1..]);
      ParseLinesAppend(RenderTopEntry(fields[0]), RenderTop(fields[1..]));
    }
  }

  lemma ServicesHeader(rest: seq<string>)
    ensures ParseLines(["services:"] + rest) == [Header(0, "services")] + ParseLines(rest)
  {
    var k := "services";
    assert k[0] == 's' && " "[0] == ' ' && "- "[0] == '-';
    HeaderCons("", k, rest);
    assert "" + k + ":" == "services:";
  }

  // ---- Reading the lines back ----------------------------------------------

  predicate Ends(tail: seq<Line>, indent: nat) {
    tail == [] || tail[0].indent < indent
  }

  /** The block is at indentation `n` and is no list. */
  predicate MapBlock(block: seq<Line>, n: nat) {
    block != [] ==> block[0].indent == n && !block[0].Item?
  }

  lemma ItemStep(n: nat, v: Json, more: seq<Line>, items: seq<Json>, tail: seq<Line>)
    requires ReadList(more, n) == Some(Block(items, tail))
    ensures ReadList([Item(n, v)] + more, n) == Some(Block([v] + items, tail))
  {
    assert ([Item(n, v)] + more)[1..] == more;
  }

  lemma {:induction false} ListReadsBack(arr: seq<Json>, n: nat, tail: seq<Line>)
    requires Ends(tail, n)
    ensures ReadList(ItemLines(arr, n) + tail, n) == Some(Block(arr, tail))
  {
    if arr == [] {
      assert ItemLines(arr, n) + tail == tail;
    } else {
      var rest := arr[1..];
      ListReadsBack(rest, n, tail);
      Assoc([Item(n, arr[0])], ItemLines(rest, n), tail);
      ItemStep(n, arr[0], ItemLines(rest, n) + tail, rest, tail);
      assert [arr[0]] + rest == arr;
    }
  }

  lemma EntryStep(n: nat, k: string, v: Json, more: seq<Line>, fields: seq<Member>, tail: seq<Line>)
    requires ReadMap(more, n) == Some(Block(fields, tail))
    ensures ReadMap([Entry(n, k, v)] + more, n) == Some(Block([Member(k, v)] + fields, tail))
  {
    assert ([Entry(n, k, v)] + more)[1..] == more;
  }

  lemma {:induction false} EntriesReadBack(fields: seq<Member>, n: nat, tail: seq<Line>)
    requires Ends(tail, n)
    ensures ReadMap(EntryLines(fields, n) + tail, n) == Some(Block(fields, tail))
  {
    if fields == [] {
      assert EntryLines(fields, n) + tail == tail;
    } else {
      var head, rest := fields[0], fields[1..];
      EntriesReadBack(rest, n, tail);
      Assoc([Entry(n, head.name, head.value)], EntryLines(rest, n), tail);
      EntryStep(n, head.name, head.value, EntryLines(rest, n) + tail, rest, tail);
      assert [Member(head.name, head.value)] + rest == fields;
    }
  }

  /** A header, its block, then what follows the block. */
  lemma HeaderStep(n: nat, k: string, block: seq<Line>, after: seq<Line>, v: Json, fields: seq<Member>, tail: seq<Line>)
    requires ReadChild(block + after, n) == Some(Block(v, after))
    requires ReadMap(after, n) == Some(Block(fields, tail))
    ensures ReadMap([Header(n, k)] + block + after, n) == Some(Block([Member(k, v)] + fields, tail))
  {
    var lines := [Header(n, k)] + block + after;
    assert lines[1..] == block + after;
  }

  lemma ListUnderHeader(n: nat, under: nat, k: string, items: seq<Json>, after: seq<Line>,
                        fields: seq<Member>, tail: seq<Line>)
    requires under > n && Ends(after, n + 1) && items != []
    requires ReadMap(after, n) == Some(Block(fields, tail))
    ensures ReadMap([Header(n, k)] + ItemLines(items, under) + after, n)
         == Some(Block([Member(k, Arr(items))] + fields, tail))
  {
    var block := ItemLines(items, under);
    ListReadsBack(items, under, after);
    assert (block + after)[0] == Item(under, items[0]);
    HeaderStep(n, k, block, after, Arr(items), fields, tail);
  }

  lemma MapUnderHeader(n: nat, under: nat, k: string, block: seq<Line>, after: seq<Line>, inner: seq<Member>,
                       fields: seq<Member>, tail: seq<Line>)
    requires under > n && Ends(after, n + 1) && MapBlock(block, under)
    requires block == [] <==> inner == []
    requires ReadMap(block + after, under) == Some(Block(inner, after))
    requires ReadMap(after, n) == Some(Block(fields, tail))
    ensures ReadMap([Header(n, k)] + block + after, n) == Some(Block([Member(k, NormMap(inner))] + fields, tail))
  {
    if block == [] {
      assert block + after == after;
    } else {
      assert (block + after)[0] == block[0];
    }
    HeaderStep(n, k, block, after, NormMap(inner), fields, tail);
  }

  lemma KeyReadsBack(m: Member, n: nat, under: nat, after: seq<Line>, fields: seq<Member>, tail: seq<Line>)
    requires under > n && Ends(after, n + 1)
    requires ReadMap(after, n) == Some(Block(fields, tail))
    ensures ReadMap(KeyLines(m, n, under) + after, n) == Some(Block(NormEntry(m) + fields, tail))
    ensures MapBlock(KeyLines(m, n, under), n)
    ensures KeyLines(m, n, under) == [] <==> NormEntry(m) == []
  {
    match m.value {
      case Arr(items) =>
        if items == [] {
          assert [] + after == after;
          assert NormEntry(m) + fields == fields;
        } else {
          ListUnderHeader(n, under, m.name, items, after, fields, tail);
          assert m == Member(m.name, Arr(items));
        }
      case Obj(flat) =>
        EntriesReadBack(flat, under, after);
        MapUnderHeader(n, under, m.name, EntryLines(flat, under), after, flat, fields, tail);
      case _ =>
        EntryStep(n, m.name, m.value, after, fields, tail);
        assert m == Member(m.name, m.value);
    }
  }

  lemma HeadOf(a: seq<Line>, b: seq<Line>)
    ensures a + b != [] ==> (a + b)[0] == if a != [] then a[0] else b[0]
  {
  }

  lemma {:induction false} ServiceReadsBack(fields: seq<Member>, overrides: Overrides, tail: seq<Line>)
    requires Ends(tail, 4)
    ensures ReadMap(ServiceLines(fields, overrides) + tail, 4) == Some(Block(NormService(fields, overrides), tail))
    ensures MapBlock(ServiceLines(fields, overrides), 4)
    ensures ServiceLines(fields, overrides) == [] <==> NormService(fields, overrides) == []
  {
    if fields == [] {
      assert ServiceLines(fields, overrides) + tail == tail;
    } else {
      var m := ExpandEntry(fields[0], overrides);
      var rest, norm := ServiceLines(fields[1..], overrides), NormService(fields[1..], overrides);
      ServiceReadsBack(fields[1..], overrides, tail);
      HeadOf(rest, tail);
      KeyReadsBack(m, 4, 6, rest + tail, norm, tail);
      Assoc(KeyLines(m, 4, 6), rest, tail);
      HeadOf(KeyLines(m, 4, 6), rest);
    }
  }

  lemma {:induction false} ServicesReadBack(services: seq<Member>, overrides: Overrides, tail: seq<Line>)
    requires Ends(tail, 2)
    ensures ReadMap(ServicesLines(services, overrides) + tail, 2) == Some(Block(NormServices(services, overrides), tail))
    ensures MapBlock(ServicesLines(services, overrides), 2)
    ensures ServicesLines(services, overrides) == [] <==> services == []
  {
    if services == [] {
      assert ServicesLines(services, overrides) + tail == tail;
    } else {
      var k, fields := services[0].name, Entries(services[0].value);
      var rest, norm := ServicesLines(services[1..], overrides), NormServices(services[1..], overrides);
      var block, after := ServiceLines(fields, overrides), rest + tail;
      ServicesReadBack(services[1..], overrides, tail);
      HeadOf(rest, tail);
      ServiceReadsBack(fields, overrides, after);
      MapUnderHeader(2, 4, k, block, after, NormService(fields, overrides), norm, tail);
      Assoc([Header(2, k)] + block, rest, tail);
    }
  }

  lemma {:induction false} TopReadsBack(fields: seq<Member>)
    requires forall i | 0 <= i < |fields| :: fields[i].name != "services" ==> !fields[i].value.Obj?
    ensures ReadMap(TopLines(fields), 0) == Some(Block(NormTop(fields), []))
    ensures Ends(TopLines(fields), 1)
  {
    if fields != [] {
      TopReadsBack(fields[1..]);
      TopStep(fields[0], TopLines(fields[1..]), NormTop(fields[1..]));
    }
  }

  lemma TopStep(m: Member, rest: seq<Line>, norm: seq<Member>)
    requires m.name != "services" ==> !m.value.Obj?
    requires Ends(rest, 1) && ReadMap(rest, 0) == Some(Block(norm, []))
    ensures var lines := if m.name == "services" then [] else KeyLines(m, 0, 2);
            ReadMap(lines + rest, 0) == Some(Block(NormTopEntry(m) + norm, [])) && Ends(lines + rest, 1)
  {
    if m.name == "services" {
      assert [] + rest == rest && [] + norm == norm;
    } else {
      KeyReadsBack(m, 0, 2, rest, norm, []);
      HeadOf(KeyLines(m, 0, 2), rest);
      assert NormEntry(m) == NormTopEntry(m);
    }
  }

  lemma ServicesDocument(services: seq<Member>, overrides: Overrides, after: seq<Line>, norm: seq<Member>)
    requires Ends(after, 1) && ReadMap(after, 0) == Some(Block(norm, []))
    ensures ReadMap([Header(0, "services")] + ServicesLines(services, overrides) + after, 0)
         == Some(Block([Member("services", NormMap(NormServices(services, overrides)))] + norm, []))
  {
    ServicesReadBack(services, overrides, after);
    MapUnderHeader(0, 2, "services", ServicesLines(services, overrides), after, NormServices(services, overrides), norm, []);
  }

  /** The parsed lines of the whole file. */
  function DocumentLines(compose: seq<Member>, overrides: Overrides): seq<Line> {
    (if HasServices(compose)
     then [Header(0, "services")] + ServicesLines(Entries(Field(compose, "services").value), overrides)
     else [])
    + TopLines(compose)
  }

  lemma ComposeParses(compose: seq<Member>, overrides: Overrides)
    requires ComposeOk(compose, overrides)
    ensures ParseLines(ComposeLines(compose, overrides)) == DocumentLines(compose, overrides)
  {
    var top := RenderTop(compose);
    TopParses(compose);
    if HasServices(compose) {
      var services := Entries(Field(compose, "services").value);
      var body := RenderServiceList(services, overrides);
      ServicesParse(services, overrides);
      ServicesHeader(body);
      ParseLinesAppend(["services:"] + body, top);
    } else {
      assert [] + top == top;
      assert [] + TopLines(compose) == TopLines(compose);
    }
  }

  lemma LinesReadBack(compose: seq<Member>, overrides: Overrides)
    requires ComposeOk(compose, overrides)
    ensures ReadMap(DocumentLines(compose, overrides), 0) == Some(Block(Normalise(compose, overrides), []))
  {
    TopReadsBack(compose);
    if HasServices(compose) {
      ServicesDocument(Entries(Field(compose, "services").value), overrides, TopLines(compose), NormTop(compose));
    } else {
      assert [] + TopLines(compose) == TopLines(compose);
      assert [] + NormTop(compose) == NormTop(compose);
    }
  }

  // ---- The keys of the lines -----------------------------------------------

  lemma PlainKeyReads(line: Line)
    requires line.Header? || line.Entry? ==> PlainKey(line.key)
    ensures KeyReads(line)
  {
    if line.Header? || line.Entry? {
      PlainStringRead(line.key);
    }
  }

  lemma KeysReadAppend(a: seq<Line>, b: seq<Line>)
    requires KeysRead(a) && KeysRead(b)
    ensures KeysRead(a + b)
  {
  }

  lemma KeysReadOne(line: Line)
    requires line.Header? || line.Entry? ==> PlainKey(line.key)
    ensures KeysRead([line])
  {
    PlainKeyReads(line);
  }

  lemma {:induction false} ItemKeysRead(arr: seq<Json>, n: nat)
    ensures KeysRead(ItemLines(arr, n))
  {
    if arr != [] { ItemKeysRead(arr[1..], n); }
  }

  lemma {:induction false} EntryKeysRead(fields: seq<Member>, n: nat)
    requires KeysPlain(Obj(fields))
    ensures KeysRead(EntryLines(fields, n))
  {
    if fields != [] {
      KeysPlainRest(fields);
      KeysReadOne(Entry(n, fields[0].name, fields[0].value));
      EntryKeysRead(fields[1..], n);
      KeysReadAppend([Entry(n, fields[0].name, fields[0].value)], EntryLines(fields[1..], n));
    }
  }

  lemma KeysPlainRest(fields: seq<Member>)
    requires KeysPlain(Obj(fields)) && fields != []
    ensures PlainKey(fields[0].name) && KeysPlain(fields[0].value) && KeysPlain(Obj(fields[1..]))
  {
    assert forall i | 0 <= i < |fields[1..]| :: fields[1..][i] == fields[i + 1];
  }

  lemma KeyLinesRead(m: Member, n: nat, under: nat)
    requires PlainKey(m.name) && KeysPlain(m.value)
    ensures KeysRead(KeyLines(m, n, under))
  {
    KeysReadOne(Header(n, m.name));
    match m.value {
      case Arr(items) =>
        ItemKeysRead(items, under);
        KeysReadAppend([Header(n, m.name)], ItemLines(items, under));
      case Obj(fields) =>
        EntryKeysRead(fields, under);
        KeysReadAppend([Header(n, m.name)], EntryLines(fields, under));
      case _ => KeysReadOne(Entry(n, m.name, m.value));
    }
  }

  lemma {:induction false} ServiceKeysRead(fields: seq<Member>, overrides: Overrides)
    requires KeysPlain(Obj(fields))
    ensures KeysRead(ServiceLines(fields, overrides))
  {
    if fields != [] {
      KeysPlainRest(fields);
      KeyLinesRead(ExpandEntry(fields[0], overrides), 4, 6);
      ServiceKeysRead(fields[1..], overrides);
      KeysReadAppend(KeyLines(ExpandEntry(fields[0], overrides), 4, 6), ServiceLines(fields[1..], overrides));
    }
  }

  lemma {:induction false} ServicesKeysRead(services: seq<Member>, overrides: Overrides)
    requires KeysPlain(Obj(services)) && forall i | 0 <= i < |services| :: services[i].value.Obj?
    ensures KeysRead(ServicesLines(services, overrides))
  {
    if services != [] {
      var head, body := [Header(2, services[0].name)], ServiceLines(Entries(services[0].value), overrides);
      KeysPlainRest(services);
      KeysReadOne(head[0]);
      ServiceKeysRead(services[0].value.fields, overrides);
      ServicesKeysRead(services[1..], overrides);
      KeysReadAppend(head, body);
      KeysReadAppend(head + body, ServicesLines(services[1..], overrides));
    }
  }

  lemma {:induction false} TopKeysRead(fields: seq<Member>)
    requires KeysPlain(Obj(fields))
    ensures KeysRead(TopLines(fields))
  {
    if fields != [] {
      KeysPlainRest(fields);
      KeyLinesRead(fields[0], 0, 2);
      TopKeysRead(fields[1..]);
      KeysReadAppend(if fields[0].name == "services" then [] else KeyLines(fields[0], 0, 2), TopLines(fields[1..]));
    }
  }

  lemma {:induction false} FieldIsPlain(fields: seq<Member>, name: string)
    requires KeysPlain(Obj(fields)) && Field(fields, name).Some?
    ensures PlainKey(name) && KeysPlain(Field(fields, name).value)
  {
    KeysPlainRest(fields);
    if fields[0].name != name { FieldIsPlain(fields[1..], name); }
  }

  lemma DocumentKeysRead(compose: seq<Member>, overrides: Overrides)
    requires ComposeOk(compose, overrides) && KeysPlain(Obj(compose))
    ensures KeysRead(DocumentLines(compose, overrides))
  {
    TopKeysRead(compose);
    if HasServices(compose) {
      var services := Field(compose, "services").value.fields;
      FieldIsPlain(compose, "services");
      ServicesKeysRead(services, overrides);
      KeysReadOne(Header(0, "services"));
      KeysReadAppend([Header(0, "services")], ServicesLines(services, overrides));
      KeysReadAppend([Header(0, "services")] + ServicesLines(services, overrides), TopLines(compose));
    } else {
      KeysReadAppend([], TopLines(compose));
    }
  }

  // ---- From lines to text --------------------------------------------------

  lemma NumberOneLine(s: string)
    requires IsNumber(s)
    ensures '\n' !in s
  {
    NumberShape(s);
  }

  lemma {:induction false} EscapeOneLine(s: string)
    requires '\n' !in s
    ensures '\n' !in EscapeQuotes(s)
  {
    if s != "" {
      EscapeOneLine(s[1..]);
    }
  }

  lemma ScalarOneLine(v: Json, inList: bool)
    requires Printable(v, inList)
    ensures '\n' !in QuoteIfNeeded(v, inList)
  {
    match v
    case Num(text) => NumberOneLine(text);
    case Str(s) => EscapeOneLine(s);
    case _ =>
  }

  predicate OneLineEach(lines: seq<string>) {
    forall i | 0 <= i < |lines| :: '\n' !in lines[i]
  }

  lemma {:induction false} ListOneLine(arr: seq<Json>, indent: string)
    requires AllSpaces(indent) && ListOk(arr)
    ensures OneLineEach(RenderList(arr, indent))
  {
    if arr != [] {
      ScalarOneLine(arr[0], true);
      ListOneLine(arr[1..], indent);
    }
  }

  lemma {:induction false} EntriesOneLine(fields: seq<Member>)
    requires FlatMapOk(fields)
    ensures OneLineEach(RenderEntries(fields))
  {
    if fields != [] {
      ScalarOneLine(fields[0].value, false);
      EntriesOneLine(fields[1..]);
    }
  }

  lemma ServiceEntryOneLine(m: Member)
    requires EntryOk(m)
    ensures OneLineEach(RenderServiceEntry(m))
  {
    match m.value
    case Arr(items) => ListOneLine(items, "      ");
    case Obj(fields) => EntriesOneLine(fields);
    case _ => ScalarOneLine(m.value, false);
  }

  lemma {:induction false} ServiceOneLine(fields: seq<Member>, overrides: Overrides)
    requires ServiceOk(fields, overrides)
    ensures OneLineEach(RenderService(fields, overrides))
  {
    if fields != [] {
      ServiceRestOk(fields, overrides);
      ServiceEntryOneLine(ExpandEntry(fields[0], overrides));
      ServiceOneLine(fields[1..], overrides);
    }
  }

  lemma {:induction false} ServicesOneLine(services: seq<Member>, overrides: Overrides)
    requires ServicesOk(services, overrides)
    ensures OneLineEach(RenderServiceList(services, overrides))
  {
    if services != [] {
      ServiceOneLine(services[0].value.fields, overrides);
      ServicesOneLine(services[1..], overrides);
    }
  }

  lemma {:induction false} TopOneLine(fields: seq<Member>)
    requires forall i | 0 <= i < |fields| :: TopOk(fields[i])
    ensures OneLineEach(RenderTop(fields))
  {
    if fields != [] {
      var m := fields[0];
      if m.name != "services" {
        if m.value.Arr? { ListOneLine(m.value.items, "  "); } else { ScalarOneLine(m.value, false); }
      }
      TopOneLine(fields[1..]);
    }
  }

  lemma JoinFirst(lines: seq<string>)
    requires |lines| > 1
    ensures JoinLines(lines) + "\n" == lines[0] + ['\n'] + (JoinLines(lines[1..]) + "\n")
  {
  }

  lemma {:induction false} SplitLines(lines: seq<string>)
    requires lines != [] && OneLineEach(lines)
    ensures Split(JoinLines(lines) + "\n", '\n') == lines + [""]
  {
    var head := lines[0];
    if |lines| == 1 {
      SplitCons(head, "", '\n');
      SplitOne("", '\n');
      assert head + ['\n'] + "" == JoinLines(lines) + "\n";
      assert [head] + [""] == lines + [""];
    } else {
      JoinFirst(lines);
      SplitLines(lines[1..]);
      SplitCons(head, JoinLines(lines[1..]) + "\n", '\n');
      assert [head] + (lines[1..] + [""]) == lines + [""];
    }
  }

  lemma TextLines(lines: seq<string>)
    requires OneLineEach(lines)
    ensures ParseLines(Split(JoinLines(lines) + "\n", '\n')) == ParseLines(lines)
  {
    if lines == [] {
      SplitCons("", "", '\n');
      assert "" + "\n" + "" == JoinLines(lines) + "\n";
      assert ["", ""][1..] == [""] && [""][1..] == [];
    } else {
      SplitLines(lines);
      ParseLinesAppend(lines, [""]);
      assert [""][1..] == [];
      assert ParseLines(lines) + [] == ParseLines(lines);
    }
  }

  lemma ComposeOneLine(compose: seq<Member>, overrides: Overrides)
    requires ComposeOk(compose, overrides)
    ensures OneLineEach(ComposeLines(compose, overrides))
  {
    TopOneLine(compose);
    if HasServices(compose) {
      ServicesOneLine(Field(compose, "services").value.fields, overrides);
    }
  }

  /** Reading a printed compose file recovers the normalised tree. */
  lemma ComposeReadsBack(compose: seq<Member>, overrides: Option<Overrides>)
    requires ComposeOk(compose, SafeOverrides(overrides)) && KeysPlain(Obj(compose))
    ensures ReadDocument(ComposeText(compose, overrides)) == Some(Obj(Normalise(compose, SafeOverrides(overrides))))
  {
    var lines := ComposeLines(compose, SafeOverrides(overrides));
    ComposeOneLine(compose, SafeOverrides(overrides));
    ComposeParses(compose, SafeOverrides(overrides));
    LinesReadBack(compose, SafeOverrides(overrides));
    DocumentKeysRead(compose, SafeOverrides(overrides));
    TextReadsBack(lines, Normalise(compose, SafeOverrides(overrides)));
  }

  lemma TextReadsBack(lines: seq<string>, fields: seq<Member>)
    requires OneLineEach(lines) && ReadMap(ParseLines(lines), 0) == Some(Block(fields, [])) && KeysRead(ParseLines(lines))
    ensures ReadDocument(JoinLines(lines) + "\n") == Some(Obj(fields))
  {
    TextLines(lines);
  }
}
