/** Parameter resolution and validation (src/engine/validator.ts). */
module Validator {
  import opened Wrappers
  import opened JsonTree
  import opened Text
  import opened Interpolator

  datatype ParamType = StringType | NumberType | BooleanType | SelectType | ObjectType

  datatype ParamDef = ParamDef(
    name: string,
    kind: ParamType,
    required: bool,
    defaultValue: Option<Json>,
    choices: seq<string>,
    generator: Option<string>
  )

  /** JavaScript's `Number(s)` (None is NaN) and `String(v)`. */
  datatype Coercions = Coercions(toNumber: string -> Option<Json>, toText: Json -> string)

  datatype Issue =
    | NotInEnum(path: string)
    | GeneratorNotRegistered(path: string)
    | NoValue(path: string)

  datatype Validated = Resolved(params: Json, calls: nat) | Invalid(issues: seq<Issue>)

  predicate HasUserValue(v: Option<Json>) {
    v.Some? && !v.value.Null? && v.value != Str("")
  }

  predicate IsMeaningfulDefault(v: Option<Json>) {
    v.Some? && !v.value.Null?
  }

  function CoerceByType(def: ParamDef, value: Json, js: Coercions): Json {
    if def.kind.NumberType? && value.Str? && js.toNumber(value.s).Some? then js.toNumber(value.s).value else value
  }

  predicate HasGenerator(def: ParamDef) {
    def.generator.Some? && def.generator.value != ""
  }

  function GeneratorName(spec: string): string {
    Split(spec, ':')[0]
  }

  function GeneratorArgs(spec: string): seq<string> {
    var parts := Split(spec, ':');
    if |parts| > 1 then TrimAll(Split(parts[1], ',')) else []
  }

  /** What one definition contributes. */
  datatype Binding = Bound(value: Json, calls: nat) | Skipped | Rejected(issue: Issue)

  function Bind(def: ParamDef, user: Json, host: Host, js: Coercions, calls: nat): Binding {
    var raw := Property(user, def.name);
    if HasUserValue(raw) then
      var coerced := CoerceByType(def, raw.value, js);
      if def.kind.SelectType? && |def.choices| > 0 && js.toText(coerced) !in def.choices
      then Rejected(NotInEnum(def.name))
      else Bound(coerced, calls)
    else if IsMeaningfulDefault(def.defaultValue) then Bound(def.defaultValue.value, calls)
    else if HasGenerator(def) then
      var name := GeneratorName(def.generator.value);
      if name !in host.generators then Rejected(GeneratorNotRegistered(def.name))
      else Bound(host.generators[name](GeneratorArgs(def.generator.value), calls), calls + 1)
    else if def.required then Rejected(NoValue(def.name))
    else Skipped
  }

  /** Bindings and issues gathered so far, and the generator calls made. */
  datatype Progress = Progress(resolved: seq<Member>, issues: seq<Issue>, calls: nat)

  function Step(p: Progress, def: ParamDef, user: Json, host: Host, js: Coercions): Progress {
    match Bind(def, user, host, js, p.calls)
    case Bound(v, n) => Progress(SetField(p.resolved, def.name, v), p.issues, n)
    case Skipped => p
    case Rejected(issue) => p.(issues := p.issues + [issue])
  }

  function Steps(p: Progress, defs: seq<ParamDef>, user: Json, host: Host, js: Coercions): Progress {
    if defs == [] then p
    else Step(Steps(p, defs[..|defs| - 1], user, host, js), defs[|defs| - 1], user, host, js)
  }

  lemma StepsNext(p: Progress, defs: seq<ParamDef>, i: nat, user: Json, host: Host, js: Coercions)
    requires i < |defs|
    ensures Steps(p, defs[..i + 1], user, host, js) == Step(Steps(p, defs[..i], user, host, js), defs[i], user, host, js)
  {
    assert defs[..i + 1][..i] == defs[..i];
  }

  function Resolve(defs: seq<ParamDef>, user: Json, host: Host, js: Coercions, calls: nat): Validated {
    var p := Steps(Progress([], [], calls), defs, user, host, js);
    if |p.issues| > 0 then Invalid(p.issues) else Resolved(Obj(p.resolved), p.calls)
  }

  method ResolveAndValidate(defs: seq<ParamDef>, user: Json, host: Host, js: Coercions, calls: nat)
    returns (r: Validated)
    ensures r == Resolve(defs, user, host, js, calls)
  {
    var resolved: seq<Member> := [];
    var issues: seq<Issue> := [];
    var n := calls;
    for i := 0 to |defs|
      invariant Progress(resolved, issues, n) == Steps(Progress([], [], calls), defs[..i], user, host, js)
    {
      var def := defs[i];
      StepsNext(Progress([], [], calls), defs, i, user, host, js);
      var raw := Property(user, def.name);
      if HasUserValue(raw) {
        var coerced := CoerceByType(def, raw.value, js);
        if def.kind.SelectType? && |def.choices| > 0 {
          if js.toText(coerced) !in def.choices {
            issues := issues + [NotInEnum(def.name)];
            continue;
          }
        }
        resolved := SetField(resolved, def.name, coerced);
      } else if IsMeaningfulDefault(def.defaultValue) {
        resolved := SetField(resolved, def.name, def.defaultValue.value);
      } else if HasGenerator(def) {
        var name := GeneratorName(def.generator.value);
        if name !in host.generators {
          issues := issues + [GeneratorNotRegistered(def.name)];
          continue;
        }
        resolved := SetField(resolved, def.name, host.generators[name](GeneratorArgs(def.generator.value), n));
        n := n + 1;
      } else if def.required {
        issues := issues + [NoValue(def.name)];
      }
    }
    assert defs[..|defs|] == defs;
    r := if |issues| > 0 then Invalid(issues) else Resolved(Obj(resolved), n);
  }

  // ---- What validation promises --------------------------------------------

  /**
   * A user value outside the enum, an unknown generator, or no source at all for a required value. Undefined,
   * null and the empty string are no user value.
   */
  function IssueOf(def: ParamDef, user: Json, host: Host, js: Coercions): Option<Issue> {
    var raw, spec := Property(user, def.name), def.generator;
    if raw != None && raw != Some(Null) && raw != Some(Str("")) then
      var number := if def.kind == NumberType && raw.value.Str? then js.toNumber(raw.value.s) else None;
      if def.kind == SelectType && def.choices != [] && js.toText(number.GetOr(raw.value)) !in def.choices
      then Some(NotInEnum(def.name)) else None
    else if def.defaultValue != None && def.defaultValue != Some(Null) then None
    else if spec != None && spec != Some("") then
      (if Split(spec.value, ':')[0] in host.generators then None else Some(GeneratorNotRegistered(def.name)))
    else if def.required then Some(NoValue(def.name)) else None
  }

  predicate Fails(def: ParamDef, user: Json, host: Host, js: Coercions) {
    IssueOf(def, user, host, js).Some?
  }

  function FailingIssues(defs: seq<ParamDef>, user: Json, host: Host, js: Coercions): seq<Issue> {
    if defs == [] then [] else
      var issue := IssueOf(defs[0], user, host, js);
      (if issue.Some? then [issue.value] else []) + FailingIssues(defs[1..], user, host, js)
  }

  lemma {:induction false} FailingIssuesAppend(a: seq<ParamDef>, b: seq<ParamDef>, user: Json, host: Host, js: Coercions)
    ensures FailingIssues(a + b, user, host, js) == FailingIssues(a, user, host, js) + FailingIssues(b, user, host, js)
  {
    if a == [] {
      assert a + b == b;
    } else {
      assert (a + b)[1..] == a[1..] + b;
      FailingIssuesAppend(a[1..], b, user, host, js);
    }
  }

  lemma BindIssue(def: ParamDef, user: Json, host: Host, js: Coercions, calls: nat)
    ensures var b := Bind(def, user, host, js, calls);
            IssueOf(def, user, host, js) == if b.Rejected? then Some(b.issue) else None
  {
  }

  lemma {:induction false} StepsIssues(p: Progress, defs: seq<ParamDef>, user: Json, host: Host, js: Coercions)
    ensures Steps(p, defs, user, host, js).issues == p.issues + FailingIssues(defs, user, host, js)
  {
    if defs != [] {
      var init, last := defs[..|defs| - 1], defs[|defs| - 1];
      StepsIssues(p, init, user, host, js);
      BindIssue(last, user, host, js, Steps(p, init, user, host, js).calls);
      OneFailingIssue(init, last, user, host, js);
      assert init + [last] == defs;
    }
  }

  lemma OneFailingIssue(init: seq<ParamDef>, last: ParamDef, user: Json, host: Host, js: Coercions)
    ensures var issue := IssueOf(last, user, host, js);
            FailingIssues(init + [last], user, host, js)
            == FailingIssues(init, user, host, js) + if issue.Some? then [issue.value] else []
  {
    FailingIssuesAppend(init, [last], user, host, js);
    assert [last][1..] == [];
  }

  /** Exactly the issues of the failing definitions, in definition order; success exactly when none fails. */
  lemma IssuesAreTheFailingDefs(defs: seq<ParamDef>, user: Json, host: Host, js: Coercions, calls: nat)
    ensures var r := Resolve(defs, user, host, js, calls);
            && (r.Resolved? <==> forall i | 0 <= i < |defs| :: !Fails(defs[i], user, host, js))
            && (r.Invalid? ==> r.issues == FailingIssues(defs, user, host, js))
  {
    StepsIssues(Progress([], [], calls), defs, user, host, js);
    NoFailingIssues(defs, user, host, js);
    assert [] + FailingIssues(defs, user, host, js) == FailingIssues(defs, user, host, js);
  }

  lemma {:induction false} NoFailingIssues(defs: seq<ParamDef>, user: Json, host: Host, js: Coercions)
    ensures FailingIssues(defs, user, host, js) == [] <==> forall i | 0 <= i < |defs| :: !Fails(defs[i], user, host, js)
  {
    if defs != [] {
      NoFailingIssues(defs[1..], user, host, js);
      assert forall i | 1 <= i < |defs| :: defs[i] == defs[1..][i - 1];
    }
  }

  /** The schema's cross-field rule, with generator names that are not empty. */
  predicate SchemaRule(def: ParamDef) {
    && !(def.defaultValue.Some? && def.generator.Some?)
    && (def.defaultValue.Some? || def.generator.Some? || def.required)
    && def.defaultValue != Some(Null)
    && def.generator != Some("")
  }

  lemma {:induction false} StepsBind(p: Progress, defs: seq<ParamDef>, user: Json, host: Host, js: Coercions, name: string)
    requires Steps(p, defs, user, host, js).issues == []
    requires forall i | 0 <= i < |defs| :: SchemaRule(defs[i])
    ensures Field(Steps(p, defs, user, host, js).resolved, name).Some?
        <==> Field(p.resolved, name).Some? || exists i | 0 <= i < |defs| :: defs[i].name == name
  {
    if defs != [] {
      var init, last := defs[..|defs| - 1], defs[|defs| - 1];
      var q := Steps(p, init, user, host, js);
      StepsBind(p, init, user, host, js, name);
      assert forall i | 0 <= i < |init| :: init[i] == defs[i];
      var b := Bind(last, user, host, js, q.calls);
      assert b.Bound?;
      FieldAfterSet(q.resolved, last.name, b.value, name);
      assert (exists i | 0 <= i < |defs| :: defs[i].name == name)
        <==> last.name == name || exists i | 0 <= i < |init| :: init[i].name == name;
    }
  }

  /** Under the schema rule a successful validation binds the declared names and no others. */
  lemma SuccessBindsDeclared(defs: seq<ParamDef>, user: Json, host: Host, js: Coercions, calls: nat, name: string)
    requires forall i | 0 <= i < |defs| :: SchemaRule(defs[i])
    requires Resolve(defs, user, host, js, calls).Resolved?
    ensures Property(Resolve(defs, user, host, js, calls).params, name).Some?
        <==> exists i | 0 <= i < |defs| :: defs[i].name == name
  {
    StepsBind(Progress([], [], calls), defs, user, host, js, name);
  }

  /** The definition calls its generator: no user value, no default. */
  predicate Generates(def: ParamDef, user: Json, host: Host) {
    var raw := Property(user, def.name);
    && (raw == None || raw == Some(Null) || raw == Some(Str("")))
    && (def.defaultValue == None || def.defaultValue == Some(Null))
    && def.generator != None && def.generator != Some("") && Split(def.generator.value, ':')[0] in host.generators
  }

  function GeneratorCalls(defs: seq<ParamDef>, user: Json, host: Host): nat {
    if defs == [] then 0 else
      GeneratorCalls(defs[..|defs| - 1], user, host) + if Generates(defs[|defs| - 1], user, host) then 1 else 0
  }

  lemma {:induction false} StepsCalls(p: Progress, defs: seq<ParamDef>, user: Json, host: Host, js: Coercions)
    ensures Steps(p, defs, user, host, js).calls == p.calls + GeneratorCalls(defs, user, host)
  {
    if defs != [] {
      StepsCalls(p, defs[..|defs| - 1], user, host, js);
    }
  }

  /** The definition gives its parameter a value, whatever the call number. */
  predicate Binds(def: ParamDef, user: Json, host: Host, js: Coercions) {
    Bind(def, user, host, js, 0).Bound?
  }

  /** The last definition of its name to give a value. */
  predicate Decides(defs: seq<ParamDef>, user: Json, host: Host, js: Coercions, i: nat)
    requires i < |defs|
  {
    forall j | i < j < |defs| :: defs[j].name == defs[i].name ==> !Binds(defs[j], user, host, js)
  }

  lemma DecidesBefore(defs: seq<ParamDef>, user: Json, host: Host, js: Coercions, i: nat)
    requires i < |defs| - 1 && Decides(defs, user, host, js, i)
    ensures var init, last := defs[..|defs| - 1], defs[|defs| - 1];
            && Decides(init, user, host, js, i) && init[i] == defs[i] && init[..i] == defs[..i]
            && (last.name == defs[i].name ==> !Binds(last, user, host, js))
  {
    assert forall j | 0 <= j < |defs| - 1 :: defs[..|defs| - 1][j] == defs[j];
  }

  lemma LastValue(p: Progress, defs: seq<ParamDef>, user: Json, host: Host, js: Coercions)
    requires defs != [] && Binds(defs[|defs| - 1], user, host, js)
    ensures var init, last := defs[..|defs| - 1], defs[|defs| - 1];
            var b := Bind(last, user, host, js, p.calls + GeneratorCalls(init, user, host));
            b.Bound? && Field(Steps(p, defs, user, host, js).resolved, last.name) == Some(b.value)
  {
    var init, last := defs[..|defs| - 1], defs[|defs| - 1];
    StepsCalls(p, init, user, host, js);
    StepValue(Steps(p, init, user, host, js), last, user, host, js, last.name);
  }

  lemma ValueStays(p: Progress, defs: seq<ParamDef>, user: Json, host: Host, js: Coercions, name: string)
    requires defs != [] && (defs[|defs| - 1].name == name ==> !Binds(defs[|defs| - 1], user, host, js))
    ensures Field(Steps(p, defs, user, host, js).resolved, name)
         == Field(Steps(p, defs[..|defs| - 1], user, host, js).resolved, name)
  {
    StepValue(Steps(p, defs[..|defs| - 1], user, host, js), defs[|defs| - 1], user, host, js, name);
  }

  /** The value of a name is the one its last binding definition gives. */
  lemma {:induction false} StepsValue(p: Progress, defs: seq<ParamDef>, user: Json, host: Host, js: Coercions, i: nat)
    requires i < |defs| && Binds(defs[i], user, host, js) && Decides(defs, user, host, js, i)
    ensures var b := Bind(defs[i], user, host, js, p.calls + GeneratorCalls(defs[..i], user, host));
            b.Bound? && Field(Steps(p, defs, user, host, js).resolved, defs[i].name) == Some(b.value)
  {
    if i == |defs| - 1 {
      LastValue(p, defs, user, host, js);
    } else {
      DecidesBefore(defs, user, host, js, i);
      StepsValue(p, defs[..|defs| - 1], user, host, js, i);
      ValueStays(p, defs, user, host, js, defs[i].name);
    }
  }

  lemma StepValue(q: Progress, def: ParamDef, user: Json, host: Host, js: Coercions, name: string)
    ensures var b := Bind(def, user, host, js, q.calls);
            && (b.Bound? <==> Binds(def, user, host, js))
            && Field(Step(q, def, user, host, js).resolved, name)
               == if b.Bound? && def.name == name then Some(b.value) else Field(q.resolved, name)
  {
    var b := Bind(def, user, host, js, q.calls);
    if b.Bound? { FieldAfterSet(q.resolved, def.name, b.value, name); }
  }

  /** The arguments of a generator definition: what follows the first colon, up to the next, cut at commas. */
  function SpecArgs(spec: string): seq<string> {
    var parts := Split(spec, ':');
    if |parts| == 1 then [] else
      var pieces := Split(parts[1], ',');
      seq(|pieces|, i requires 0 <= i < |pieces| => Trim(pieces[i]))
  }

  lemma SpecArgsAre(spec: string)
    ensures GeneratorArgs(spec) == SpecArgs(spec) && GeneratorName(spec) == Split(spec, ':')[0]
  {
  }

  /** What a definition that does not fail contributes, after so many generator calls. */
  function ValueOf(def: ParamDef, user: Json, host: Host, js: Coercions, calls: nat): Option<Json> {
    var raw := Property(user, def.name);
    if raw != None && raw != Some(Null) && raw != Some(Str("")) then
      Some(if def.kind == NumberType && raw.value.Str? && js.toNumber(raw.value.s) != None
           then js.toNumber(raw.value.s).value else raw.value)
    else if def.defaultValue != None && def.defaultValue != Some(Null) then def.defaultValue
    else if def.generator != None && def.generator != Some("") && Split(def.generator.value, ':')[0] in host.generators
    then Some(host.generators[Split(def.generator.value, ':')[0]](SpecArgs(def.generator.value), calls))
    else None
  }

  lemma BindMeans(def: ParamDef, user: Json, host: Host, js: Coercions, calls: nat)
    ensures var b := Bind(def, user, host, js, calls);
            !Fails(def, user, host, js) ==>
              ValueOf(def, user, host, js, calls) == if b.Bound? then Some(b.value) else None
  {
    BindIssue(def, user, host, js, calls);
    if def.generator.Some? { SpecArgsAre(def.generator.value); }
  }

  /**
   * A resolved parameter is the user's value if there is one, text for a number turned into the number where it
   * denotes one; else the default; else what the generator answers after the calls of the definitions before it.
   */
  lemma ResolutionOrder(defs: seq<ParamDef>, user: Json, host: Host, js: Coercions, calls: nat, i: nat)
    requires Resolve(defs, user, host, js, calls).Resolved? && i < |defs| && Decides(defs, user, host, js, i)
    requires ValueOf(defs[i], user, host, js, 0).Some?
    ensures Property(Resolve(defs, user, host, js, calls).params, defs[i].name)
         == ValueOf(defs[i], user, host, js, calls + GeneratorCalls(defs[..i], user, host))
  {
    IssuesAreTheFailingDefs(defs, user, host, js, calls);
    assert !Fails(defs[i], user, host, js);
    BindMeans(defs[i], user, host, js, 0);
    BindMeans(defs[i], user, host, js, calls + GeneratorCalls(defs[..i], user, host));
    StepsValue(Progress([], [], calls), defs, user, host, js, i);
  }
}
