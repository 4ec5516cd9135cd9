/** Compose file printing (src/engine/docker_renderer.ts). */
module DockerRenderer {
  import opened Wrappers
  import opened JsonTree
  import opened Text
  import opened Yaml

  datatype Overrides = Overrides(env: Option<seq<string>>, volumes: Option<seq<string>>)

  const GEN_ENV := "<GENERATED_ENV>"
  const GEN_VOLUMES := "<GENERATED_VOLUMES>"

  // ---- Scalars -------------------------------------------------------------

  predicate HasQuoteChar(s: string) {
    exists i | 0 <= i < |s| :: s[i] in ":#@&*!|>'\"%`"
  }

  /** `^-?\d+(\.\d+)?$` */
  predicate IsDecimal(s: string) {
    var t := if StartsWith(s, "-") then s[1..] else s;
    var dot := IndexOf(t, '.');
    if dot == |t| then AllDigits(t) else AllDigits(t[..dot]) && AllDigits(t[dot + 1..])
  }

  predicate NeedsYamlQuote(s: string, inList: bool) {
    || (inList && (':' in s || (s != "" && (IsSpace(s[0]) || IsSpace(s[|s| - 1])))))
    || s == "" || s == "true" || s == "false" || s == "null"
    || IsDecimal(s)
    || HasQuoteChar(s)
  }

  function EscapeQuotes(s: string): string {
    if s == "" then ""
    else (if s[0] == '"' then "\\\"" else [s[0]]) + EscapeQuotes(s[1..])
  }

  /** `String(v)` */
  function StringOf(v: Json): string {
    match v
    case Null => "null"
    case Bool(b) => if b then "true" else "false"
    case Num(text) => text
    case Str(s) => s
    case Arr(items) => JoinItems(items)
    case Obj(_) => "[object Object]"
  }

  function JoinItems(items: seq<Json>): string {
    if items == [] then "" else
      (if items[0].Null? then "" else StringOf(items[0]))
      + (if |items| == 1 then "" else "," + JoinItems(items[1..]))
  }

  function QuoteString(s: string, inList: bool): string {
    if NeedsYamlQuote(s, inList) then "\"" + EscapeQuotes(s) + "\"" else s
  }

  function QuoteIfNeeded(v: Json, inList: bool): string {
    match v
    case Num(_) => StringOf(v)
    case Bool(_) => StringOf(v)
    case Null => ""
    case _ => QuoteString(StringOf(v), inList)
  }

  // ---- Lines ---------------------------------------------------------------

  function RenderListValue(v: Json): string {
    "- " + QuoteIfNeeded(v, true)
  }

  function RenderList(arr: seq<Json>, indent: string): seq<string> {
    if arr == [] then [] else [indent + RenderListValue(arr[0])] + RenderList(arr[1..], indent)
  }

  function ToStrings(values: seq<string>): seq<Json> {
    seq(|values|, i requires 0 <= i < |values| => Str(values[i]))
  }

  function ExpandItem(item: Json, overrides: Overrides): seq<Json> {
    if item == Str(GEN_ENV) then (if overrides.env.Some? then ToStrings(overrides.env.value) else [])
    else if item == Str(GEN_VOLUMES) then (if overrides.volumes.Some? then ToStrings(overrides.volumes.value) else [])
    else [item]
  }

  function Expand(arr: seq<Json>, overrides: Overrides): seq<Json> {
    if arr == [] then [] else Expand(arr[..|arr| - 1], overrides) + ExpandItem(arr[|arr| - 1], overrides)
  }

  method ExpandPlaceholders(arr: seq<Json>, overrides: Overrides) returns (out: seq<Json>)
    ensures out == Expand(arr, overrides)
  {
    out := [];
    for i := 0 to |arr|
      invariant out == Expand(arr[..i], overrides)
    {
      var item := arr[i];
      assert arr[..i + 1][..i] == arr[..i];
      if item == Str(GEN_ENV) {
        if overrides.env.Some? { out := out + ToStrings(overrides.env.value); }
      } else if item == Str(GEN_VOLUMES) {
        if overrides.volumes.Some? { out := out + ToStrings(overrides.volumes.value); }
      } else {
        out := out + [item];
      }
    }
    assert arr[..|arr|] == arr;
  }

  lemma Assoc<T>(a: seq<T>, b: seq<T>, c: seq<T>)
    ensures a + b + c == a + (b + c)
  {
  }

  lemma {:induction false} ExpandAppend(a: seq<Json>, b: seq<Json>, overrides: Overrides)
    ensures Expand(a + b, overrides) == Expand(a, overrides) + Expand(b, overrides)
  {
    if b == [] {
      assert a + b == a;
    } else {
      var init, item := b[..|b| - 1], b[|b| - 1];
      assert init + [item] == b;
      Assoc(a, init, [item]);
      ExpandAppend(a, init, overrides);
      ExpandLast(a + init, item, overrides);
      ExpandLast(init, item, overrides);
      Assoc(Expand(a, overrides), Expand(init, overrides), ExpandItem(item, overrides));
    }
  }

  lemma ExpandLast(arr: seq<Json>, item: Json, overrides: Overrides)
    ensures Expand(arr + [item], overrides) == Expand(arr, overrides) + ExpandItem(item, overrides)
  {
    assert (arr + [item])[..|arr|] == arr;
  }

  /** Each placeholder gives way to its own override list, or to nothing; every other item stays. */
  lemma ExpandAround(pre: seq<Json>, item: Json, post: seq<Json>, overrides: Overrides)
    ensures var middle :=
              if item == Str("<GENERATED_ENV>") then ToStrings(overrides.env.GetOr([]))
              else if item == Str("<GENERATED_VOLUMES>") then ToStrings(overrides.volumes.GetOr([]))
              else [item];
            Expand(pre + [item] + post, overrides) == Expand(pre, overrides) + middle + Expand(post, overrides)
  {
    ExpandAppend(pre + [item], post, overrides);
    assert (pre + [item])[..|pre|] == pre;
  }

  /** `Object.entries({ ...v })`: a list or a string spreads into its indices, other scalars into nothing. */
  function Entries(v: Json): seq<Member> {
    match v
    case Obj(fields) => fields
    case Arr(items) => seq(|items|, i requires 0 <= i < |items| => Member(Decimal(i), items[i]))
    case Str(s) => seq(|s|, i requires 0 <= i < |s| => Member(Decimal(i), Str([s[i]])))
    case _ => []
  }

  /** A service entry after `environment` and `volumes` lists were expanded. */
  function ExpandEntry(m: Member, overrides: Overrides): Member {
    if (m.name == "environment" || m.name == "volumes") && m.value.Arr?
    then Member(m.name, Arr(Expand(m.value.items, overrides)))
    else m
  }

  function RenderEntries(fields: seq<Member>): seq<string> {
    if fields == [] then [] else
      ["      " + fields[0].name + ": " + QuoteIfNeeded(fields[0].value, false)] + RenderEntries(fields[1..])
  }

  function RenderServiceEntry(m: Member): seq<string> {
    match m.value
    case Arr(items) => if items == [] then [] else ["    " + m.name + ":"] + RenderList(items, "      ")
    case Obj(fields) => ["    " + m.name + ":"] + RenderEntries(fields)
    case _ => ["    " + m.name + ": " + QuoteIfNeeded(m.value, false)]
  }

  function RenderService(fields: seq<Member>, overrides: Overrides): seq<string> {
    if fields == [] then [] else
      RenderServiceEntry(ExpandEntry(fields[0], overrides)) + RenderService(fields[1..], overrides)
  }

  function RenderServiceList(services: seq<Member>, overrides: Overrides): seq<string> {
    if services == [] then [] else
      ["  " + services[0].name + ":"] + RenderService(Entries(services[0].value), overrides)
      + RenderServiceList(services[1..], overrides)
  }

  function RenderTopEntry(m: Member): seq<string> {
    if m.name == "services" then []
    else match m.value
      case Arr(items) => if items == [] then [] else [m.name + ":"] + RenderList(items, "  ")
      case _ => [m.name + ": " + QuoteIfNeeded(m.value, false)]
  }

  function RenderTop(fields: seq<Member>): seq<string> {
    if fields == [] then [] else RenderTopEntry(fields[0]) + RenderTop(fields[1..])
  }

  function JoinLines(lines: seq<string>): string {
    if lines == [] then "" else lines[0] + (if |lines| == 1 then "" else "\n" + JoinLines(lines[1..]))
  }

  predicate HasServices(compose: seq<Member>) {
    var services := Field(compose, "services");
    services.Some? && (services.value.Obj? || services.value.Arr?)
  }

  function ComposeLines(compose: seq<Member>, overrides: Overrides): seq<string> {
    (if HasServices(compose)
     then ["services:"] + RenderServiceList(Entries(Field(compose, "services").value), overrides)
     else [])
    + RenderTop(compose)
  }

  function SafeOverrides(overrides: Option<Overrides>): Overrides {
    if overrides.Some? then overrides.value else Overrides(None, None)
  }

  function ComposeText(compose: seq<Member>, overrides: Option<Overrides>): string {
    JoinLines(ComposeLines(compose, SafeOverrides(overrides))) + "\n"
  }

  lemma {:induction false} RenderListAppend(a: seq<Json>, b: seq<Json>, indent: string)
    ensures RenderList(a + b, indent) == RenderList(a, indent) + RenderList(b, indent)
  {
    if a == [] { assert a + b == b; } else {
      assert (a + b)[1..] == a[1..] + b;
      RenderListAppend(a[1..], b, indent);
    }
  }

  lemma {:induction false} RenderEntriesAppend(a: seq<Member>, b: seq<Member>)
    ensures RenderEntries(a + b) == RenderEntries(a) + RenderEntries(b)
  {
    if a == [] { assert a + b == b; } else {
      assert (a + b)[1..] == a[1..] + b;
      RenderEntriesAppend(a[1..], b);
    }
  }

  lemma {:induction false} RenderServiceAppend(a: seq<Member>, b: seq<Member>, overrides: Overrides)
    ensures RenderService(a + b, overrides) == RenderService(a, overrides) + RenderService(b, overrides)
  {
    if a == [] { assert a + b == b; } else {
      assert (a + b)[1..] == a[1..] + b;
      RenderServiceAppend(a[1..], b, overrides);
    }
  }

  lemma {:induction false} RenderServiceListAppend(a: seq<Member>, b: seq<Member>, overrides: Overrides)
    ensures RenderServiceList(a + b, overrides) == RenderServiceList(a, overrides) + RenderServiceList(b, overrides)
  {
    if a == [] { assert a + b == b; } else {
      assert (a + b)[1..] == a[1..] + b;
      RenderServiceListAppend(a[1..], b, overrides);
    }
  }

  lemma {:induction false} RenderTopAppend(a: seq<Member>, b: seq<Member>)
    ensures RenderTop(a + b) == RenderTop(a) + RenderTop(b)
  {
    if a == [] { assert a + b == b; } else {
      assert (a + b)[1..] == a[1..] + b;
      RenderTopAppend(a[1..], b);
    }
  }

  lemma RenderServiceStep(svc: seq<Member>, i: nat, overrides: Overrides)
    requires i < |svc|
    ensures RenderService(svc[..i + 1], overrides)
         == RenderService(svc[..i], overrides) + RenderServiceEntry(ExpandEntry(svc[i], overrides))
  {
    RenderServiceAppend(svc[..i], [svc[i]], overrides);
    assert svc[..i + 1] == svc[..i] + [svc[i]];
    assert RenderService([svc[i]], overrides) == RenderServiceEntry(ExpandEntry(svc[i], overrides)) + [];
  }

  method RenderServiceFields(svc: seq<Member>, overrides: Overrides) returns (lines: seq<string>)
    ensures lines == RenderService(svc, overrides)
  {
    lines := [];
    for i := 0 to |svc|
      invariant lines == RenderService(svc[..i], overrides)
    {
      RenderServiceStep(svc, i, overrides);
      var m := svc[i];
      if (m.name == "environment" || m.name == "volumes") && m.value.Arr? {
        var expanded := ExpandPlaceholders(m.value.items, overrides);
        m := Member(m.name, Arr(expanded));
      }
      assert m == ExpandEntry(svc[i], overrides);
      var pushed := RenderServiceEntryLines(m);
      lines := lines + pushed;
    }
    assert svc[..|svc|] == svc;
  }

  method RenderServiceEntryLines(m: Member) returns (lines: seq<string>)
    ensures lines == RenderServiceEntry(m)
  {
    lines := [];
    match m.value {
      case Arr(items) =>
        if |items| == 0 { return; }
        lines := ["    " + m.name + ":"] + RenderList(items, "      ");
      case Obj(fields) =>
        lines := ["    " + m.name + ":"] + RenderEntries(fields);
      case _ =>
        lines := ["    " + m.name + ": " + QuoteIfNeeded(m.value, false)];
    }
  }

  method RenderServices(services: seq<Member>, overrides: Overrides) returns (lines: seq<string>)
    ensures lines == ["services:"] + RenderServiceList(services, overrides)
  {
    var body: seq<string> := [];
    for i := 0 to |services|
      invariant body == RenderServiceList(services[..i], overrides)
    {
      RenderServiceListAppend(services[..i], [services[i]], overrides);
      assert services[..i + 1] == services[..i] + [services[i]];
      var fields := RenderServiceFields(Entries(services[i].value), overrides);
      var pushed := ["  " + services[i].name + ":"] + fields;
      assert RenderServiceList([services[i]], overrides) == pushed + [];
      body := body + pushed;
    }
    assert services[..|services|] == services;
    lines := ["services:"] + body;
  }

  method RenderDocker(compose: seq<Member>, overrides: Option<Overrides>) returns (text: string)
    ensures text == ComposeText(compose, overrides)
  {
    var safeOverrides := SafeOverrides(overrides);
    var lines: seq<string> := [];
    if HasServices(compose) {
      lines := RenderServices(Entries(Field(compose, "services").value), safeOverrides);
    }
    var top := RenderTopFields(compose);
    text := JoinLines(lines + top) + "\n";
  }

  lemma RenderTopStep(compose: seq<Member>, i: nat)
    requires i < |compose|
    ensures RenderTop(compose[..i + 1]) == RenderTop(compose[..i]) + RenderTopEntry(compose[i])
  {
    RenderTopAppend(compose[..i], [compose[i]]);
    assert compose[..i + 1] == compose[..i] + [compose[i]];
    assert RenderTop([compose[i]]) == RenderTopEntry(compose[i]) + [];
  }

  method RenderTopFields(compose: seq<Member>) returns (lines: seq<string>)
    ensures lines == RenderTop(compose)
  {
    lines := [];
    for i := 0 to |compose|
      invariant lines == RenderTop(compose[..i])
    {
      RenderTopStep(compose, i);
      var m := compose[i];
      if m.name == "services" { continue; }
      if m.value.Arr? {
        if |m.value.items| == 0 { continue; }
        lines := lines + ([m.name + ":"] + RenderList(m.value.items, "  "));
      } else {
        lines := lines + [m.name + ": " + QuoteIfNeeded(m.value, false)];
      }
    }
    assert compose[..|compose|] == compose;
  }
}
