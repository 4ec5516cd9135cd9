/** Typed and embedded placeholder substitution (src/engine/interpolator.ts). */
module Interpolator {
  import opened Wrappers
  import opened JsonTree
  import opened Text

  /**
   * What the interpolator takes from its surroundings. A generator is an oracle:
   * its answer may depend on its arguments and on how many generator calls were
   * made before, so two calls with equal arguments need not agree.
   */
  datatype Host = Host(
    generators: map<string, (seq<string>, nat) -> Json>,
    stringify: Json -> string
  )

  /** The three PluginErrors a placeholder can raise. */
  datatype Error =
    | UnknownParam(path: string)
    | UnknownGenerator(name: string)
    | InvalidExpression(expr: string)

  /** A value together with the generator calls made so far, or the error thrown. */
  datatype Outcome<+T> = Done(value: T, calls: nat) | Failed(error: Error)

  // ---- Expressions -------------------------------------------------------

  /** `cur[name]` for own properties; None is `undefined`. */
  function Property(cur: Json, name: string): Option<Json> {
    match cur
    case Obj(fields) => Field(fields, name)
    case Arr(items) =>
      if name == "length" then Some(Num(Decimal(|items|))) else
        var at := IndexNamed(name, 0, |items|);
        if at.Some? then Some(items[at.value]) else None
    case Str(s) =>
      if name == "length" then Some(Num(Decimal(CodeUnits(s)))) else
        var at := IndexNamed(name, 0, CodeUnits(s));
        if at.Some? then Some(Str([UnitAt(s, at.value)])) else None
    case _ => None
  }

  /** The length of a JavaScript string: characters beyond U+FFFF take two code units. */
  function CodeUnits(s: string): nat {
    if s == "" then 0 else (if s[0] > '\U{FFFF}' then 2 else 1) + CodeUnits(s[1..])
  }

  /** The code unit at a position, as a character; half of a pair is none, and stands as U+FFFD. */
  function UnitAt(s: string, i: nat): char
    requires i < CodeUnits(s)
  {
    if s[0] <= '\U{FFFF}' then (if i == 0 then s[0] else UnitAt(s[1..], i - 1))
    else if i < 2 then '\U{FFFD}' else UnitAt(s[1..], i - 2)
  }

  lemma LengthIsNoIndex()
    ensures forall i: nat :: Decimal(i) != "length"
  {
    forall i: nat ensures Decimal(i) != "length" {
      DecimalDenotes(i);
      assert "length"[0] == 'l';
    }
  }

  /** An array has its items under the decimal texts of their positions, its length under `length`, and nothing else. */
  lemma ArrayProperties(items: seq<Json>, i: nat, name: string)
    ensures Property(Arr(items), "length") == Some(Num(Decimal(|items|)))
    ensures Property(Arr(items), Decimal(i)) == if i < |items| then Some(items[i]) else None
    ensures name != "length" && (forall k: nat :: Decimal(k) != name) ==> Property(Arr(items), name) == None
  {
    LengthIsNoIndex();
    IndexNamedIs(i, 0, |items|);
    if forall k: nat :: Decimal(k) != name { IndexNamedNone(name, 0, |items|); }
  }

  predicate Basic(s: string) {
    forall i | 0 <= i < |s| :: s[i] as int <= 65535
  }

  lemma {:induction false} BasicUnits(s: string, i: nat)
    requires Basic(s)
    ensures CodeUnits(s) == |s| && (i < |s| ==> UnitAt(s, i) == s[i])
  {
    if s != "" { BasicUnits(s[1..], if i == 0 then 0 else i - 1); }
  }

  lemma {:induction false} UnitsAppend(a: string, b: string)
    ensures CodeUnits(a + b) == CodeUnits(a) + CodeUnits(b)
    ensures forall c: char :: CodeUnits([c]) == if c as int > 65535 then 2 else 1
  {
    if a == "" {
      assert a + b == b;
    } else {
      assert (a + b)[1..] == a[1..] + b;
      UnitsAppend(a[1..], b);
    }
    forall c: char ensures CodeUnits([c]) == if c as int > 65535 then 2 else 1 {
      assert [c][1..] == "";
    }
  }

  /** A string has its characters and its length in the same way. */
  lemma StringProperties(s: string, i: nat, name: string)
    requires Basic(s)
    ensures Property(Str(s), "length") == Some(Num(Decimal(|s|)))
    ensures Property(Str(s), Decimal(i)) == if i < |s| then Some(Str([s[i]])) else None
    ensures name != "length" && (forall k: nat :: Decimal(k) != name) ==> Property(Str(s), name) == None
  {
    BasicUnits(s, i);
    LengthIsNoIndex();
    IndexNamedIs(i, 0, |s|);
    if forall k: nat :: Decimal(k) != name { IndexNamedNone(name, 0, |s|); }
  }

  /** Where a path of property names leads; a step out of null or undefined is undefined. */
  function Walk(cur: Json, names: seq<string>): Option<Json>
    decreases |names|
  {
    if names == [] then Some(cur)
    else if cur.Null? then None
    else
      var next := Property(cur, names[0]);
      if next.None? then None else Walk(next.value, names[1..])
  }

  /** Each value of the chain is the named property of the one before, and none but the last is null. */
  ghost predicate Chain(values: seq<Json>, names: seq<string>) {
    && |values| == |names| + 1
    && forall i | 0 <= i < |names| :: !values[i].Null? && Property(values[i], names[i]) == Some(values[i + 1])
  }

  lemma {:induction false} ChainOfWalk(cur: Json, names: seq<string>) returns (values: seq<Json>)
    requires Walk(cur, names).Some?
    ensures Chain(values, names) && values[0] == cur && values[|names|] == Walk(cur, names).value
    decreases |names|
  {
    if names == [] {
      values := [cur];
    } else {
      var rest := ChainOfWalk(Property(cur, names[0]).value, names[1..]);
      values := [cur] + rest;
      assert forall i | 1 <= i < |names| :: names[i] == names[1..][i - 1];
    }
  }

  lemma {:induction false} WalkOfChain(values: seq<Json>, names: seq<string>)
    requires Chain(values, names)
    ensures Walk(values[0], names) == Some(values[|names|])
    decreases |names|
  {
    if names != [] {
      assert Property(values[0], names[0]) == Some(values[1]);
      assert forall i | 0 <= i < |names| - 1 :: names[1..][i] == names[i + 1] && values[1..][i] == values[i + 1];
      WalkOfChain(values[1..], names[1..]);
    }
  }

  /** A path leads to a value exactly along such a chain. */
  lemma WalkIsChain(cur: Json, names: seq<string>, end: Json)
    ensures Walk(cur, names) == Some(end)
        <==> exists values :: Chain(values, names) && values[0] == cur && values[|names|] == end
  {
    if Walk(cur, names) == Some(end) { var values := ChainOfWalk(cur, names); }
    if values :| Chain(values, names) && values[0] == cur && values[|names|] == end { WalkOfChain(values, names); }
  }

  method LookupPath(obj: Json, path: string) returns (value: Option<Json>)
    ensures value == if obj.Null? then None else Walk(obj, Split(path, '.'))
  {
    if obj.Null? { return None; }
    var names := Split(path, '.');
    value := Some(obj);
    var i := 0;
    while i < |names|
      invariant 0 <= i <= |names|
      invariant Walk(obj, names) == if value.None? then None else Walk(value.value, names[i..])
    {
      if value.None? || value.value.Null? { return None; }
      value := Property(value.value, names[i]);
      assert names[i..][1..] == names[i + 1..];
      i := i + 1;
    }
  }

  function TrimAll(args: seq<string>): seq<string> {
    seq(|args|, i requires 0 <= i < |args| => Trim(args[i]))
  }

  function ResolveExpression(expr: string, host: Host, params: Json, calls: nat): Outcome<Json> {
    var trimmed := Trim(expr);
    if trimmed == "" then Failed(InvalidExpression(""))
    else if StartsWith(trimmed, "params.") then
      var path := trimmed[|"params."|..];
      var value := if params.Null? then None else Walk(params, Split(path, '.'));
      if value.None? then Failed(UnknownParam(path)) else Done(value.value, calls)
    else if StartsWith(trimmed, "gen.") then
      var spec := trimmed[|"gen."|..];
      var colon := IndexOf(spec, ':');
      var name := spec[..colon];
      var args := TrimAll(Split(if colon == |spec| then "" else spec[colon + 1..], ','));
      if name !in host.generators then Failed(UnknownGenerator(name))
      else Done(host.generators[name](args, calls), calls + 1)
    else Failed(InvalidExpression(trimmed))
  }

  /** Expressions of any other form are invalid, empty ones with an error of their own. */
  lemma OtherExpressions(expr: string, host: Host, params: Json, calls: nat)
    ensures Trim(expr) == "" ==> ResolveExpression(expr, host, params, calls) == Failed(InvalidExpression(""))
    ensures Trim(expr) != "" && !("params." <= Trim(expr)) && !("gen." <= Trim(expr))
        ==> ResolveExpression(expr, host, params, calls) == Failed(InvalidExpression(Trim(expr)))
  {
  }

  // ---- Strings -----------------------------------------------------------

  predicate IsBrace(c: char) {
    c == '{' || c == '}'
  }

  lemma BraceCodes(c: char)
    ensures IsBrace(c) <==> c as int == 123 || c as int == 125
  {
  }

  predicate BraceFree(s: string) {
    forall i | 0 <= i < |s| :: !IsBrace(s[i])
  }

  /** A string cut into plain characters and `{{ ... }}` placeholders. */
  datatype Segment = Plain(c: char) | Hole(body: string)

  function BraceFreeRun(s: string): (n: nat)
    ensures n <= |s| && BraceFree(s[..n])
    ensures n < |s| ==> IsBrace(s[n])
  {
    if s == "" || IsBrace(s[0]) then 0 else
      var n := 1 + BraceFreeRun(s[1..]);
      assert s[..n] == [s[0]] + s[1..][..n - 1];
      n
  }

  /** Length of the body of a placeholder that starts at the head of `s`. */
  function HoleAtHead(s: string): (r: Option<nat>)
    ensures r.Some? ==> 0 < r.value && r.value + 4 <= |s|
    ensures r.Some? ==> s[..2] == "{{" && BraceFree(s[2..2 + r.value]) && s[2 + r.value..4 + r.value] == "}}"
  {
    if |s| >= 2 && s[..2] == "{{" then
      var n := BraceFreeRun(s[2..]);
      assert s[2..][..n] == s[2..2 + n];
      if n > 0 && n + 4 <= |s| && s[2 + n..4 + n] == "}}" then Some(n) else None
    else None
  }

  /** What the global regular expression sees, scanning left to right without overlap. */
  function Segments(s: string): seq<Segment>
    decreases |s|
  {
    if s == "" then [] else
      var hole := HoleAtHead(s);
      if hole.Some? then [Hole(s[2..2 + hole.value])] + Segments(s[4 + hole.value..])
      else [Plain(s[0])] + Segments(s[1..])
  }

  /** The body when the whole string is one placeholder. */
  function WholeBody(s: string): Option<string> {
    if |s| >= 5 && s[..2] == "{{" && s[|s| - 2..] == "}}" && BraceFree(s[2..|s| - 2])
    then Some(s[2..|s| - 2])
    else None
  }

  function EmbeddedText(value: Json, host: Host): string {
    match value
    case Null => ""
    case Str(s) => s
    case _ => host.stringify(value)
  }

  /** An embedded placeholder that cannot be resolved becomes the empty string. */
  function ResolveEmbedded(body: string, host: Host, params: Json, calls: nat): (string, nat) {
    match ResolveExpression(body, host, params, calls)
    case Done(v, n) => (EmbeddedText(v, host), n)
    case Failed(_) => ("", calls)
  }

  function Fill(segments: seq<Segment>, host: Host, params: Json, calls: nat): (string, nat) {
    if segments == [] then ("", calls) else
      match segments[0]
      case Plain(c) =>
        var rest := Fill(segments[1..], host, params, calls);
        ([c] + rest.0, rest.1)
      case Hole(body) =>
        var here := ResolveEmbedded(body, host, params, calls);
        var rest := Fill(segments[1..], host, params, here.1);
        (here.0 + rest.0, rest.1)
  }

  function SubstituteInString(s: string, host: Host, params: Json, calls: nat): Outcome<Json> {
    var whole := WholeBody(s);
    if whole.Some? then ResolveExpression(whole.value, host, params, calls)
    else
      var filled := Fill(Segments(s), host, params, calls);
      Done(Str(filled.0), filled.1)
  }

  // ---- Trees -------------------------------------------------------------

  /** The meaning of `replacePlaceholders`: strings are substituted left to right, depth first. */
  function Interp(t: Json, host: Host, params: Json, calls: nat): Outcome<Json> {
    match t
    case Str(s) => SubstituteInString(s, host, params, calls)
    case Arr(items) =>
      (match InterpItems(items, host, params, calls)
       case Done(vs, n) => Done(Arr(vs), n)
       case Failed(e) => Failed(e))
    case Obj(fields) =>
      (match InterpFields(fields, host, params, calls)
       case Done(fs, n) => Done(Obj(fs), n)
       case Failed(e) => Failed(e))
    case _ => Done(t, calls)
  }

  function InterpItems(items: seq<Json>, host: Host, params: Json, calls: nat): Outcome<seq<Json>> {
    if items == [] then Done([], calls) else
      match Interp(items[0], host, params, calls)
      case Failed(e) => Failed(e)
      case Done(v, n) =>
        match InterpItems(items[1..], host, params, n)
        case Failed(e) => Failed(e)
        case Done(vs, m) => Done([v] + vs, m)
  }

  function InterpFields(fields: seq<Member>, host: Host, params: Json, calls: nat)
    : Outcome<seq<Member>>
  {
    if fields == [] then Done([], calls) else
      match Interp(fields[0].value, host, params, calls)
      case Failed(e) => Failed(e)
      case Done(v, n) =>
        match InterpFields(fields[1..], host, params, n)
        case Failed(e) => Failed(e)
        case Done(fs, m) => Done([Member(fields[0].name, v)] + fs, m)
  }

  /** One list after another: the second starts from the generator calls the first left behind. */
  function Then<T>(first: Outcome<seq<T>>, second: Outcome<seq<T>>): Outcome<seq<T>> {
    match first
    case Failed(e) => Failed(e)
    case Done(a, _) =>
      match second
      case Failed(e) => Failed(e)
      case Done(b, n) => Done(a + b, n)
  }

  lemma ThenCons<T>(head: seq<T>, first: Outcome<seq<T>>, second: Outcome<seq<T>>)
    ensures first.Done? && second.Done? ==>
      Then(Done(head + first.value, first.calls), second) == Done(head + Then(first, second).value, second.calls)
  {
    if first.Done? && second.Done? {
      assert head + first.value + second.value == head + (first.value + second.value);
    }
  }

  function CallsAfter<T>(o: Outcome<T>): nat {
    match o case Done(_, n) => n case Failed(_) => 0
  }

  lemma {:induction false} InterpItemsAppend(a: seq<Json>, b: seq<Json>, host: Host, params: Json, calls: nat)
    ensures InterpItems(a + b, host, params, calls)
         == var first := InterpItems(a, host, params, calls);
            Then(first, InterpItems(b, host, params, CallsAfter(first)))
  {
    if a == [] {
      assert a + b == b;
      var rest := InterpItems(b, host, params, calls);
      assert rest.Done? ==> [] + rest.value == rest.value;
    } else {
      assert (a + b)[1..] == a[1..] + b;
      var head := Interp(a[0], host, params, calls);
      if head.Done? {
        InterpItemsAppend(a[1..], b, host, params, head.calls);
        ThenCons([head.value], InterpItems(a[1..], host, params, head.calls),
          InterpItems(b, host, params, CallsAfter(InterpItems(a[1..], host, params, head.calls))));
      }
    }
  }

  lemma {:induction false} InterpFieldsAppend(a: seq<Member>, b: seq<Member>, host: Host, params: Json, calls: nat)
    ensures InterpFields(a + b, host, params, calls)
         == var first := InterpFields(a, host, params, calls);
            Then(first, InterpFields(b, host, params, CallsAfter(first)))
  {
    if a == [] {
      assert a + b == b;
      var rest := InterpFields(b, host, params, calls);
      assert rest.Done? ==> [] + rest.value == rest.value;
    } else {
      assert (a + b)[1..] == a[1..] + b;
      var head := Interp(a[0].value, host, params, calls);
      if head.Done? {
        InterpFieldsAppend(a[1..], b, host, params, head.calls);
        ThenCons([Member(a[0].name, head.value)], InterpFields(a[1..], host, params, head.calls),
          InterpFields(b, host, params, CallsAfter(InterpFields(a[1..], host, params, head.calls))));
      }
    }
  }

  /** Results and call numbers in turn: each item is interpolated after the calls of those before it. */
  ghost predicate InTurn(items: seq<Json>, out: seq<Json>, at: seq<nat>, host: Host, params: Json) {
    && |out| == |items| && |at| == |items| + 1
    && forall i | 0 <= i < |items| :: Interp(items[i], host, params, at[i]) == Done(out[i], at[i + 1])
  }

  lemma {:induction false} ItemsInTurn(items: seq<Json>, out: seq<Json>, at: seq<nat>, host: Host, params: Json)
    requires InTurn(items, out, at, host, params)
    ensures InterpItems(items, host, params, at[0]) == Done(out, at[|items|])
  {
    if items != [] {
      assert Interp(items[0], host, params, at[0]) == Done(out[0], at[1]);
      assert InTurn(items[1..], out[1..], at[1..], host, params);
      ItemsInTurn(items[1..], out[1..], at[1..], host, params);
      assert [out[0]] + out[1..] == out;
    }
  }

  function Values(fields: seq<Member>): seq<Json> {
    seq(|fields|, i requires 0 <= i < |fields| => fields[i].value)
  }

  function Named(fields: seq<Member>, values: seq<Json>): seq<Member>
    requires |fields| == |values|
  {
    seq(|fields|, i requires 0 <= i < |fields| => Member(fields[i].name, values[i]))
  }

  lemma {:induction false} FieldsInTurn(fields: seq<Member>, out: seq<Json>, at: seq<nat>, host: Host, params: Json)
    requires InTurn(Values(fields), out, at, host, params)
    ensures InterpFields(fields, host, params, at[0]) == Done(Named(fields, out), at[|fields|])
  {
    if fields != [] {
      var values := Values(fields);
      assert Interp(values[0], host, params, at[0]) == Done(out[0], at[1]);
      assert values[1..] == Values(fields[1..]);
      assert InTurn(values[1..], out[1..], at[1..], host, params);
      FieldsInTurn(fields[1..], out[1..], at[1..], host, params);
      assert [Member(fields[0].name, out[0])] + Named(fields[1..], out[1..]) == Named(fields, out);
    }
  }

  /** Arrays and objects are interpolated item by item, names, order and number unchanged; scalars stay as they are. */
  lemma TreesInTurn(fields: seq<Member>, out: seq<Json>, at: seq<nat>, t: Json, host: Host, params: Json)
    requires InTurn(Values(fields), out, at, host, params)
    ensures Interp(Arr(Values(fields)), host, params, at[0]) == Done(Arr(out), at[|fields|])
    ensures Interp(Obj(fields), host, params, at[0]) == Done(Obj(Named(fields, out)), at[|fields|])
    ensures t.Null? || t.Bool? || t.Num? ==> Interp(t, host, params, at[0]) == Done(t, at[0])
  {
    ItemsInTurn(Values(fields), out, at, host, params);
    FieldsInTurn(fields, out, at, host, params);
  }

  /** The first failure, after the items before it, is the failure of the whole. */
  lemma FirstFailure(fields: seq<Member>, out: seq<Json>, at: seq<nat>, name: string, bad: Json, more: seq<Member>,
                     host: Host, params: Json)
    requires InTurn(Values(fields), out, at, host, params) && Interp(bad, host, params, at[|fields|]).Failed?
    ensures var error := Interp(bad, host, params, at[|fields|]).error;
            && Interp(Arr(Values(fields) + ([bad] + Values(more))), host, params, at[0]) == Failed(error)
            && Interp(Obj(fields + ([Member(name, bad)] + more)), host, params, at[0]) == Failed(error)
  {
    ItemsInTurn(Values(fields), out, at, host, params);
    FieldsInTurn(fields, out, at, host, params);
    InterpItemsAppend(Values(fields), [bad] + Values(more), host, params, at[0]);
    InterpFieldsAppend(fields, [Member(name, bad)] + more, host, params, at[0]);
  }

  /** One turn of the item loop: the next value joins the list, or its failure is the list's. */
  lemma ItemsTurn(items: seq<Json>, i: nat, out: seq<Json>, n: nat, host: Host, params: Json, calls: nat)
    requires i < |items| && InterpItems(items[..i], host, params, calls) == Done(out, n)
    ensures match Interp(items[i], host, params, n)
            case Failed(e) => InterpItems(items, host, params, calls) == Failed(e)
            case Done(v, m) => InterpItems(items[..i + 1], host, params, calls) == Done(out + [v], m)
  {
    var v := Interp(items[i], host, params, n);
    if v.Failed? {
      InterpItemsAppend(items[..i], items[i..], host, params, calls);
      assert items[..i] + items[i..] == items;
    } else {
      InterpItemsAppend(items[..i], [items[i]], host, params, calls);
      assert items[..i + 1] == items[..i] + [items[i]];
      assert [items[i]][1..] == [] && [v.value] + [] == [v.value];
    }
  }

  lemma FieldsTurn(fields: seq<Member>, i: nat, out: seq<Member>, n: nat, host: Host, params: Json, calls: nat)
    requires i < |fields| && InterpFields(fields[..i], host, params, calls) == Done(out, n)
    ensures match Interp(fields[i].value, host, params, n)
            case Failed(e) => InterpFields(fields, host, params, calls) == Failed(e)
            case Done(v, m) =>
              InterpFields(fields[..i + 1], host, params, calls) == Done(out + [Member(fields[i].name, v)], m)
  {
    var v := Interp(fields[i].value, host, params, n);
    if v.Failed? {
      InterpFieldsAppend(fields[..i], fields[i..], host, params, calls);
      assert fields[..i] + fields[i..] == fields;
    } else {
      InterpFieldsAppend(fields[..i], [fields[i]], host, params, calls);
      assert fields[..i + 1] == fields[..i] + [fields[i]];
      var head := [Member(fields[i].name, v.value)];
      assert [fields[i]][1..] == [] && head + [] == head;
    }
  }

  method ReplacePlaceholders(obj: Json, host: Host, params: Json, calls: nat) returns (r: Outcome<Json>)
    ensures r == Interp(obj, host, params, calls)
    decreases obj
  {
    match obj
    case Str(s) =>
      r := SubstituteInString(s, host, params, calls);
    case Arr(items) =>
      var out: seq<Json> := [];
      var n := calls;
      for i := 0 to |items|
        invariant InterpItems(items[..i], host, params, calls) == Done(out, n)
      {
        var v := ReplacePlaceholders(items[i], host, params, n);
        ItemsTurn(items, i, out, n, host, params, calls);
        if v.Failed? { return Failed(v.error); }
        out, n := out + [v.value], v.calls;
      }
      assert items[..|items|] == items;
      r := Done(Arr(out), n);
    case Obj(fields) =>
      var out: seq<Member> := [];
      var n := calls;
      for i := 0 to |fields|
        invariant InterpFields(fields[..i], host, params, calls) == Done(out, n)
      {
        assert fields[i] in fields;
        var v := ReplacePlaceholders(fields[i].value, host, params, n);
        FieldsTurn(fields, i, out, n, host, params, calls);
        if v.Failed? { return Failed(v.error); }
        out, n := out + [Member(fields[i].name, v.value)], v.calls;
      }
      assert fields[..|fields|] == fields;
      r := Done(Obj(out), n);
    case _ =>
      r := Done(obj, calls);
  }
}
