/** Rendering an overall template around protocol instances (src/engine/registry.ts). */
module Overall {
  import opened Wrappers
  import opened JsonTree
  import opened Text
  import opened Interpolator
  import opened GenFree
  import opened Registry
  import Validator

  datatype Instance = Instance(id: string, serverConfig: Json, clientConfig: Json)

  datatype Side = Server | Client

  datatype OverallTemplate = OverallTemplate(category: string, params: seq<Validator.ParamDef>, content: Json)

  datatype RenderError =
    | UnknownTemplate
    | WrongSide
    | ValidationFailed(issues: seq<Validator.Issue>)
    | BadPlaceholder(error: Error)

  datatype Rendered = Rendered(document: Json, calls: nat) | NotRendered(error: RenderError)

  const PROTOCOLS := "{{protocols}}"
  const PROXY_TAGS := "{{proxy_tags}}"

  function Configs(instances: seq<Instance>, side: Side): seq<Json> {
    seq(|instances|, i requires 0 <= i < |instances| =>
      if side.Server? then instances[i].serverConfig else instances[i].clientConfig)
  }

  /** The `tag` of every client config that has a non-empty string there, in order. */
  function ProxyTags(instances: seq<Instance>): seq<Json> {
    if instances == [] then [] else
      var tag := Property(instances[0].clientConfig, "tag");
      (if tag.Some? && tag.value.Str? && |tag.value.s| > 0 then [tag.value] else []) + ProxyTags(instances[1..])
  }

  function ReplacementsFor(instances: seq<Instance>, side: Side): Replacements {
    var repl := map[PROTOCOLS := Configs(instances, side)];
    if side.Client? then repl[PROXY_TAGS := ProxyTags(instances)] else repl
  }

  function RequiredCategory(side: Side): string {
    if side.Server? then "overall-server" else "overall-client"
  }

  method RenderOverall(template: Option<OverallTemplate>, instances: seq<Instance>, overallParams: Json, side: Side,
                       host: Host, js: Validator.Coercions, calls: nat) returns (r: Rendered)
    ensures r == RenderSpec(template, instances, overallParams, side, host, js, calls)
  {
    if template.None? { return NotRendered(UnknownTemplate); }
    var overall := template.value;
    if overall.category != RequiredCategory(side) { return NotRendered(WrongSide); }
    var replacements := ReplacementsFor(instances, side);
    var resolved := Validator.ResolveAndValidate(overall.params, overallParams, host, js, calls);
    if resolved.Invalid? { return NotRendered(ValidationFailed(resolved.issues)); }
    var spliced := SplicePlaceholders(overall.content, replacements);
    var result := ReplacePlaceholders(spliced, host, resolved.params, resolved.calls);
    assert Denotes(TokenMeaning(instances, side, host, resolved.params), replacements, host, resolved.params);
    SpliceThenInterpIsOnePass(overall.content, replacements, TokenMeaning(instances, side, host, resolved.params),
      host, resolved.params, resolved.calls);
    match result
    case Done(v, n) => r := Rendered(v, n);
    case Failed(e) => r := NotRendered(BadPlaceholder(e));
  }

  /** A splice token means the instances' configs, or their tags, interpolated where the token stands. */
  function TokenMeaning(instances: seq<Instance>, side: Side, host: Host, params: Json): Meaning {
    (token: string, calls: nat) =>
      if token == PROTOCOLS then Some(InterpItems(Configs(instances, side), host, params, calls))
      else if token == PROXY_TAGS && side.Client? then Some(InterpItems(ProxyTags(instances), host, params, calls))
      else None
  }

  /** The reference: checks in order, then a single traversal of the template. */
  function RenderSpec(template: Option<OverallTemplate>, instances: seq<Instance>, overallParams: Json, side: Side,
                      host: Host, js: Validator.Coercions, calls: nat): Rendered
  {
    if template.None? then NotRendered(UnknownTemplate)
    else if template.value.category != RequiredCategory(side) then NotRendered(WrongSide)
    else match Validator.Resolve(template.value.params, overallParams, host, js, calls)
      case Invalid(issues) => NotRendered(ValidationFailed(issues))
      case Resolved(params, n) =>
        match Render(template.value.content, TokenMeaning(instances, side, host, params), host, params, n)
        case Done(v, m) => Rendered(v, m)
        case Failed(e) => NotRendered(BadPlaceholder(e))
  }

  // ---- Replacement lists interpolated once ---------------------------------

  /** A token means the list interpolated once and for all, before the template is traversed. */
  ghost predicate MeansInterpolatedOnce(meaning: Meaning, repl: Replacements, host: Host, params: Json) {
    forall token: string, calls: nat ::
      meaning(token, calls) ==
        if token in repl then Some(At(InterpItems(repl[token], host, params, 0), calls)) else None
  }

  /** When the replacements call no generator, a token may be read as the already interpolated list. */
  lemma SpliceThenInterpWithReadyLists(
      t: Json, repl: Replacements, meaning: Meaning, host: Host, params: Json, calls: nat)
    requires MeansInterpolatedOnce(meaning, repl, host, params)
    requires forall token, i | token in repl && 0 <= i < |repl[token]| :: GenFreeTree(repl[token][i])
    ensures Interp(Splice(t, repl), host, params, calls) == Render(t, meaning, host, params, calls)
  {
    forall token: string, n: nat
      ensures meaning(token, n) == if token in repl then Some(InterpItems(repl[token], host, params, n)) else None
    {
      if token in repl {
        GenFreeItems(repl[token], host, params, n, 0);
      }
    }
    SpliceThenInterpIsOnePass(t, repl, meaning, host, params, calls);
  }

  // ---- A token inside an array ---------------------------------------------

  predicate IsToken(t: Json, repl: Replacements) {
    t.Str? && StripSpaces(t.s) in repl
  }

  /** How many items an array has after splicing: each token counts its replacements, any other item one. */
  function SplicedCount(items: seq<Json>, repl: Replacements): nat {
    if items == [] then 0 else
      (if IsToken(items[0], repl) then |repl[StripSpaces(items[0].s)]| else 1) + SplicedCount(items[1..], repl)
  }

  lemma {:induction false} SplicedItemsCount(items: seq<Json>, repl: Replacements)
    ensures |SpliceItems(items, repl)| == SplicedCount(items, repl)
  {
    if items != [] {
      SplicedItemsCount(items[1..], repl);
    }
  }

  /** Both passes over any array: its static items plus the replacements of its tokens, no item lost or added. */
  lemma SplicedLength(items: seq<Json>, repl: Replacements, host: Host, params: Json, calls: nat)
    ensures var r := Interp(Splice(Arr(items), repl), host, params, calls);
            r.Done? ==> r.value.Arr? && |r.value.items| == SplicedCount(items, repl)
  {
    SplicedItemsCount(items, repl);
    InterpItemsCount(SpliceItems(items, repl), host, params, calls);
  }

  /**
   * Around a token in an array: the interpolated items before it, then the interpolated replacements,
   * contiguous and in order, verbatim when they hold no placeholder, then the interpolated items after it.
   */
  lemma SplicedArray(pre: seq<Json>, token: string, post: seq<Json>, repl: Replacements,
                     host: Host, params: Json, calls: nat)
    returns (front: Outcome<Json>, middle: Outcome<seq<Json>>, back: Outcome<Json>)
    requires StripSpaces(token) in repl
    requires Interp(Splice(Arr(pre + [Str(token)] + post), repl), host, params, calls).Done?
    ensures front == Interp(Splice(Arr(pre), repl), host, params, calls) && front.Done? && front.value.Arr?
    ensures middle == InterpItems(repl[StripSpaces(token)], host, params, front.calls) && middle.Done?
    ensures back == Interp(Splice(Arr(post), repl), host, params, middle.calls) && back.Done? && back.value.Arr?
    ensures Interp(Splice(Arr(pre + [Str(token)] + post), repl), host, params, calls)
         == Done(Arr(front.value.items + middle.value + back.value.items), back.calls)
    ensures |front.value.items| == SplicedCount(pre, repl) && |back.value.items| == SplicedCount(post, repl)
    ensures (forall i | 0 <= i < |repl[StripSpaces(token)]| :: PlainTree(repl[StripSpaces(token)][i]))
        ==> middle.value == repl[StripSpaces(token)]
  {
    var list := repl[StripSpaces(token)];
    var items := pre + [Str(token)] + post;
    SpliceItemsAppend(pre + [Str(token)], post, repl);
    SpliceItemsAppend(pre, [Str(token)], repl);
    assert SpliceItems([Str(token)], repl) == list;
    var a, b := SpliceItems(pre, repl), SpliceItems(post, repl);
    assert SpliceItems(items, repl) == a + list + b;
    InterpItemsAppend(a + list, b, host, params, calls);
    InterpItemsAppend(a, list, host, params, calls);
    front := Interp(Arr(a), host, params, calls);
    middle := InterpItems(list, host, params, front.calls);
    back := Interp(Arr(b), host, params, middle.calls);
    if forall i | 0 <= i < |list| :: PlainTree(list[i]) {
      PlainItemsFixed(list, host, params, front.calls);
    }
    SplicedLength(pre, repl, host, params, calls);
    SplicedLength(post, repl, host, params, middle.calls);
  }

  // ---- The two tokens as they are written ----------------------------------

  /** A token with blanks inside its braces. */
  function Spelled(left: string, word: string, right: string): string {
    "{{" + left + word + right + "}}"
  }

  lemma SpelledStrips(left: string, word: string, right: string)
    requires Blank(left) && Visible(word) && Blank(right)
    ensures StripSpaces(Spelled(left, word, right)) == "{{" + word + "}}"
  {
    StripVisible("{{");
    StripVisible("}}");
    StripVisible(word);
    StripBlank(left);
    StripBlank(right);
    StripAppend("{{", left);
    StripAppend("{{" + left, word);
    StripAppend("{{" + left + word, right);
    StripAppend("{{" + left + word + right, "}}");
  }

  /** Blanks around the word do not matter. */
  lemma TokenSpellings(left: string, right: string)
    requires Blank(left) && Blank(right)
    ensures StripSpaces("{{" + left + "protocols" + right + "}}") == "{{protocols}}"
    ensures StripSpaces("{{" + left + "proxy_tags" + right + "}}") == "{{proxy_tags}}"
  {
    SpelledStrips(left, "protocols", right);
    SpelledStrips(left, "proxy_tags", right);
    assert "{{" + "protocols" + "}}" == "{{protocols}}";
    assert "{{" + "proxy_tags" + "}}" == "{{proxy_tags}}";
  }

  function SideConfig(instance: Instance, side: Side): Json {
    match side
    case Server => instance.serverConfig
    case Client => instance.clientConfig
  }

  /** What the two tokens stand for on a side, spelled out. */
  lemma ReplacementsMean(instances: seq<Instance>, side: Side)
    ensures var repl := ReplacementsFor(instances, side);
            && repl.Keys == (if side.Client? then {"{{protocols}}", "{{proxy_tags}}"} else {"{{protocols}}"})
            && |repl["{{protocols}}"]| == |instances|
            && (forall i | 0 <= i < |instances| :: repl["{{protocols}}"][i] == SideConfig(instances[i], side))
            && (side.Client? ==> repl["{{proxy_tags}}"] == ProxyTags(instances))
  {
    assert PROTOCOLS != PROXY_TAGS by { assert |PROTOCOLS| != |PROXY_TAGS|; }
  }

  lemma {:induction false} ProxyTagsAppend(a: seq<Instance>, b: seq<Instance>)
    ensures ProxyTags(a + b) == ProxyTags(a) + ProxyTags(b)
  {
    if a == [] {
      assert a + b == b;
    } else {
      assert (a + b)[1..] == a[1..] + b;
      ProxyTagsAppend(a[1..], b);
    }
  }

  /** Instance by instance: the `tag` of a client config that is an object and has a non-empty string there. */
  lemma ProxyTagsMean(before: seq<Instance>, id: string, server: Json, fields: seq<Member>)
    ensures var tag := Field(fields, "tag");
            ProxyTags(before + [Instance(id, server, Obj(fields))])
            == ProxyTags(before) + (if tag.Some? && tag.value.Str? && tag.value != Str("") then [tag.value] else [])
  {
    var last := Instance(id, server, Obj(fields));
    ProxyTagsAppend(before, [last]);
    assert [last][1..] == [];
  }

  /** `{{ protocols }}` in an array, with any blanks: the configs of that side stand in its place. */
  lemma ProtocolsInArray(pre: seq<Json>, left: string, right: string, post: seq<Json>, instances: seq<Instance>, side: Side,
                         host: Host, params: Json, calls: nat)
    returns (front: Outcome<Json>, configs: seq<Json>, middle: Outcome<seq<Json>>, back: Outcome<Json>)
    requires Blank(left) && Blank(right)
    requires Interp(Splice(Arr(pre + [Str("{{" + left + "protocols" + right + "}}")] + post), ReplacementsFor(instances, side)),
      host, params, calls).Done?
    ensures front == Interp(Splice(Arr(pre), ReplacementsFor(instances, side)), host, params, calls) && front.Done? && front.value.Arr?
    ensures |configs| == |instances| && forall i | 0 <= i < |instances| :: configs[i] == SideConfig(instances[i], side)
    ensures middle == InterpItems(configs, host, params, front.calls) && middle.Done?
    ensures back == Interp(Splice(Arr(post), ReplacementsFor(instances, side)), host, params, middle.calls)
    ensures back.Done? && back.value.Arr?
    ensures Interp(Splice(Arr(pre + [Str("{{" + left + "protocols" + right + "}}")] + post), ReplacementsFor(instances, side)),
              host, params, calls)
         == Done(Arr(front.value.items + middle.value + back.value.items), back.calls)
  {
    TokenSpellings(left, right);
    ReplacementsMean(instances, side);
    configs := ReplacementsFor(instances, side)["{{protocols}}"];
    front, middle, back := SplicedArray(pre, "{{" + left + "protocols" + right + "}}", post,
      ReplacementsFor(instances, side), host, params, calls);
  }

  /** As a whole field value the token becomes the array itself; the fields around it are spliced as they are. */
  lemma TokenInField(pre: seq<Member>, name: string, left: string, right: string, post: seq<Member>, instances: seq<Instance>)
    requires Blank(left) && Blank(right)
    ensures var repl := ReplacementsFor(instances, Client);
            && SpliceFields(pre + [Member(name, Str("{{" + left + "protocols" + right + "}}"))] + post, repl)
               == SpliceFields(pre, repl) + [Member(name, Arr(Configs(instances, Client)))] + SpliceFields(post, repl)
            && SpliceFields(pre + [Member(name, Str("{{" + left + "proxy_tags" + right + "}}"))] + post, repl)
               == SpliceFields(pre, repl) + [Member(name, Arr(ProxyTags(instances)))] + SpliceFields(post, repl)
  {
    TokenSpellings(left, right);
    ReplacementsMean(instances, Client);
    OneFieldSpliced(pre, name, "{{" + left + "protocols" + right + "}}", post, ReplacementsFor(instances, Client));
    OneFieldSpliced(pre, name, "{{" + left + "proxy_tags" + right + "}}", post, ReplacementsFor(instances, Client));
  }

  lemma OneFieldSpliced(pre: seq<Member>, name: string, token: string, post: seq<Member>, repl: Replacements)
    requires StripSpaces(token) in repl
    ensures SpliceFields(pre + [Member(name, Str(token))] + post, repl)
         == SpliceFields(pre, repl) + [Member(name, Arr(repl[StripSpaces(token)]))] + SpliceFields(post, repl)
  {
    var one := [Member(name, Str(token))];
    SpliceFieldsAppend(pre + one, post, repl);
    SpliceFieldsAppend(pre, one, repl);
    assert one[1..] == [];
  }

  /** A template that holds the token so written uses it. */
  lemma SpelledIsMentioned(pre: seq<Json>, left: string, right: string, post: seq<Json>)
    requires Blank(left) && Blank(right)
    ensures MentionsProtocols(Arr(pre + [Str("{{" + left + "protocols" + right + "}}")] + post))
  {
    var items := pre + [Str("{{" + left + "protocols" + right + "}}")] + post;
    TokenSpellings(left, right);
    assert items[|pre|] == Str("{{" + left + "protocols" + right + "}}");
  }

  /** Splicing, then interpolation with the resolved parameters. */
  function TwoPasses(content: Json, repl: Replacements, resolved: Validator.Validated, host: Host): Rendered {
    match resolved
    case Invalid(issues) => NotRendered(ValidationFailed(issues))
    case Resolved(params, n) =>
      var r := Interp(Splice(content, repl), host, params, n);
      if r.Done? then Rendered(r.value, r.calls) else NotRendered(BadPlaceholder(r.error))
  }

  /** Each outcome of rendering, with the categories, tokens and lists spelled out and the two passes in turn. */
  lemma RenderOutcomes(template: Option<OverallTemplate>, instances: seq<Instance>, overallParams: Json, side: Side,
                       host: Host, js: Validator.Coercions, calls: nat)
    ensures var r := RenderSpec(template, instances, overallParams, side, host, js, calls);
            var category := if side == Server then "overall-server" else "overall-client";
            && (r == NotRendered(UnknownTemplate) <==> template.None?)
            && (r == NotRendered(WrongSide) <==> template.Some? && template.value.category != category)
            && (template.Some? && template.value.category == category ==>
                  r == TwoPasses(template.value.content, ReplacementsFor(instances, side),
                         Validator.Resolve(template.value.params, overallParams, host, js, calls), host))
  {
    if template.Some? {
      var resolved := Validator.Resolve(template.value.params, overallParams, host, js, calls);
      if resolved.Resolved? {
        SpliceThenInterpIsOnePass(template.value.content, ReplacementsFor(instances, side),
          TokenMeaning(instances, side, host, resolved.params), host, resolved.params, resolved.calls);
      }
    }
  }

  // ---- Proxy tags ----------------------------------------------------------

  /** `{{ protocols }}` stands in the template as an array item or as a whole field value. */
  predicate MentionsProtocols(t: Json) {
    match t
    case Arr(items) => exists i | 0 <= i < |items| ::
      (items[i].Str? && StripSpaces(items[i].s) == PROTOCOLS) || MentionsProtocols(items[i])
    case Obj(fields) => exists i | 0 <= i < |fields| ::
      (fields[i].value.Str? && StripSpaces(fields[i].value.s) == PROTOCOLS) || MentionsProtocols(fields[i].value)
    case _ => false
  }

  /** `v` is an item of some array inside `t`. */
  predicate InSomeArray(v: Json, t: Json) {
    match t
    case Arr(items) => v in items || exists i | 0 <= i < |items| :: InSomeArray(v, items[i])
    case Obj(fields) => exists i | 0 <= i < |fields| :: InSomeArray(v, fields[i].value)
    case _ => false
  }

  /** The interpolated configs all appear in the document, as array items. */
  lemma {:induction false} ProtocolsAppear(t: Json, instances: seq<Instance>, host: Host, params: Json, calls: nat)
    returns (start: nat)
    requires MentionsProtocols(t)
    requires Render(t, TokenMeaning(instances, Client, host, params), host, params, calls).Done?
    ensures var out := Render(t, TokenMeaning(instances, Client, host, params), host, params, calls).value;
            var list := InterpItems(Configs(instances, Client), host, params, start);
            list.Done? && forall v | v in list.value :: InSomeArray(v, out)
    decreases t
  {
    match t
    case Arr(items) => start := ProtocolsInItems(items, instances, host, params, calls);
    case Obj(fields) => start := ProtocolsInFields(fields, instances, host, params, calls);
  }

  lemma {:induction false} ProtocolsInItems(items: seq<Json>, instances: seq<Instance>, host: Host, params: Json, calls: nat)
    returns (start: nat)
    requires MentionsProtocols(Arr(items))
    requires RenderItems(items, TokenMeaning(instances, Client, host, params), host, params, calls).Done?
    ensures var out := RenderItems(items, TokenMeaning(instances, Client, host, params), host, params, calls).value;
            var list := InterpItems(Configs(instances, Client), host, params, start);
            list.Done? && forall v | v in list.value :: InSomeArray(v, Arr(out))
    decreases items
  {
    var meaning := TokenMeaning(instances, Client, host, params);
    var first := RenderItem(items[0], meaning, host, params, calls);
    var rest := RenderItems(items[1..], meaning, host, params, first.calls);
    var out := first.value + rest.value;
    if items[0].Str? && StripSpaces(items[0].s) == PROTOCOLS {
      start := calls;
    } else if MentionsProtocols(items[0]) {
      start := ProtocolsAppear(items[0], instances, host, params, calls);
      assert out[0] == first.value[0];
    } else {
      MentionedLaterInItems(items);
      start := ProtocolsInItems(items[1..], instances, host, params, first.calls);
      LaterInArray(first.value, rest.value);
    }
  }

  lemma MentionedLaterInItems(items: seq<Json>)
    requires MentionsProtocols(Arr(items)) && items != []
    requires !(items[0].Str? && StripSpaces(items[0].s) == PROTOCOLS) && !MentionsProtocols(items[0])
    ensures MentionsProtocols(Arr(items[1..]))
  {
    var i :| 0 <= i < |items| &&
      ((items[i].Str? && StripSpaces(items[i].s) == PROTOCOLS) || MentionsProtocols(items[i]));
    assert items[1..][i - 1] == items[i];
  }

  lemma LaterInArray(front: seq<Json>, back: seq<Json>)
    ensures forall v | InSomeArray(v, Arr(back)) :: InSomeArray(v, Arr(front + back))
  {
    forall v | InSomeArray(v, Arr(back)) ensures InSomeArray(v, Arr(front + back)) {
      if v !in back {
        var i :| 0 <= i < |back| && InSomeArray(v, back[i]);
        assert (front + back)[|front| + i] == back[i];
      }
    }
  }

  lemma {:induction false} ProtocolsInFields(fields: seq<Member>, instances: seq<Instance>, host: Host, params: Json, calls: nat)
    returns (start: nat)
    requires MentionsProtocols(Obj(fields))
    requires RenderFields(fields, TokenMeaning(instances, Client, host, params), host, params, calls).Done?
    ensures var out := RenderFields(fields, TokenMeaning(instances, Client, host, params), host, params, calls).value;
            var list := InterpItems(Configs(instances, Client), host, params, start);
            list.Done? && forall v | v in list.value :: InSomeArray(v, Obj(out))
    decreases fields
  {
    var meaning := TokenMeaning(instances, Client, host, params);
    var whole := RenderFields(fields, meaning, host, params, calls);
    var out := whole.value;
    var v0 := fields[0].value;
    if v0.Str? && StripSpaces(v0.s) == PROTOCOLS {
      start := calls;
      assert out[0].value == Arr(InterpItems(Configs(instances, Client), host, params, calls).value);
    } else if MentionsProtocols(v0) {
      start := ProtocolsAppear(v0, instances, host, params, calls);
      assert out[0].value == Render(v0, meaning, host, params, calls).value;
    } else {
      MentionedLaterInFields(fields);
      var token := MeaningOf(v0, meaning, calls);
      var n := if token.Some? then token.value.calls else Render(v0, meaning, host, params, calls).calls;
      var rest := RenderFields(fields[1..], meaning, host, params, n).value;
      assert out == [out[0]] + rest;
      start := ProtocolsInFields(fields[1..], instances, host, params, n);
      LaterInObject(out[0], rest);
    }
  }

  lemma MentionedLaterInFields(fields: seq<Member>)
    requires MentionsProtocols(Obj(fields)) && fields != []
    requires !(fields[0].value.Str? && StripSpaces(fields[0].value.s) == PROTOCOLS) && !MentionsProtocols(fields[0].value)
    ensures MentionsProtocols(Obj(fields[1..]))
  {
    var i :| 0 <= i < |fields| &&
      ((fields[i].value.Str? && StripSpaces(fields[i].value.s) == PROTOCOLS) || MentionsProtocols(fields[i].value));
    assert fields[1..][i - 1] == fields[i];
  }

  lemma LaterInObject(first: Member, rest: seq<Member>)
    ensures forall v | InSomeArray(v, Obj(rest)) :: InSomeArray(v, Obj([first] + rest))
  {
    forall v | InSomeArray(v, Obj(rest)) ensures InSomeArray(v, Obj([first] + rest)) {
      var i :| 0 <= i < |rest| && InSomeArray(v, rest[i].value);
      assert ([first] + rest)[i + 1] == rest[i];
    }
  }

  /** Where the j-th proxy tag comes from. */
  lemma {:induction false} ProxyTagSource(instances: seq<Instance>, j: nat) returns (i: nat)
    requires j < |ProxyTags(instances)|
    ensures i < |instances| && ProxyTags(instances)[j].Str?
    ensures Property(instances[i].clientConfig, "tag") == Some(ProxyTags(instances)[j])
  {
    var tag := Property(instances[0].clientConfig, "tag");
    var kept := tag.Some? && tag.value.Str? && |tag.value.s| > 0;
    if kept && j == 0 {
      i := 0;
    } else {
      i := ProxyTagSource(instances[1..], if kept then j - 1 else j);
      i := i + 1;
    }
  }

  lemma {:induction false} ItemInterpolated(items: seq<Json>, host: Host, params: Json, calls: nat, i: nat) returns (at: nat)
    requires InterpItems(items, host, params, calls).Done? && i < |items|
    ensures |InterpItems(items, host, params, calls).value| == |items|
    ensures Interp(items[i], host, params, at).Done?
    ensures Interp(items[i], host, params, at).value == InterpItems(items, host, params, calls).value[i]
    decreases items
  {
    var first := Interp(items[0], host, params, calls);
    if i == 0 {
      at := calls;
      InterpItemsCount(items[1..], host, params, first.calls);
    } else {
      at := ItemInterpolated(items[1..], host, params, first.calls, i - 1);
    }
  }

  lemma {:induction false} InterpItemsCount(items: seq<Json>, host: Host, params: Json, calls: nat)
    ensures InterpItems(items, host, params, calls).Done?
        ==> |InterpItems(items, host, params, calls).value| == |items|
    decreases items
  {
    if items != [] {
      var first := Interp(items[0], host, params, calls);
      if first.Done? {
        InterpItemsCount(items[1..], host, params, first.calls);
      }
    }
  }

  lemma {:induction false} FieldInterpolated(fields: seq<Member>, host: Host, params: Json, calls: nat, name: string)
    returns (at: nat)
    requires InterpFields(fields, host, params, calls).Done? && Field(fields, name).Some?
    ensures Interp(Field(fields, name).value, host, params, at).Done?
    ensures Field(InterpFields(fields, host, params, calls).value, name)
         == Some(Interp(Field(fields, name).value, host, params, at).value)
    decreases fields
  {
    var first := Interp(fields[0].value, host, params, calls);
    if fields[0].name == name {
      at := calls;
    } else {
      at := FieldInterpolated(fields[1..], host, params, first.calls, name);
    }
  }

  /**
   * A delivered client document has no dangling proxy tag: wherever `{{ proxy_tags }}` stands, each
   * string it adds is the `tag` of an outbound that `{{ protocols }}` put into the same document: `start`
   * tells where its configs were interpolated, and `i` which of them it is.
   * The template uses `{{ protocols }}`, client configs are objects, and their tags call no generator.
   */
  lemma NoDanglingProxyTag(t: Json, instances: seq<Instance>, host: Host, params: Json, calls: nat, n: nat, j: nat)
    returns (start: nat, i: nat)
    requires MentionsProtocols(t)
    requires Interp(Splice(t, ReplacementsFor(instances, Client)), host, params, calls).Done?
    requires forall i | 0 <= i < |instances| ::
      var tag := Property(instances[i].clientConfig, "tag"); tag.Some? ==> GenFreeTree(tag.value)
    requires forall i | 0 <= i < |instances| :: instances[i].clientConfig.Obj?
    requires InterpItems(ProxyTags(instances), host, params, n).Done?
    requires j < |InterpItems(ProxyTags(instances), host, params, n).value|
    ensures var out := Interp(Splice(t, ReplacementsFor(instances, Client)), host, params, calls).value;
            var outbounds := InterpItems(Configs(instances, Client), host, params, start);
            && outbounds.Done? && (forall v | v in outbounds.value :: InSomeArray(v, out))
            && i < |outbounds.value| == |instances|
            && Property(outbounds.value[i], "tag") == Some(InterpItems(ProxyTags(instances), host, params, n).value[j])
  {
    var meaning := TokenMeaning(instances, Client, host, params);
    SpliceThenInterpIsOnePass(t, ReplacementsFor(instances, Client), meaning, host, params, calls);
    start := ProtocolsAppear(t, instances, host, params, calls);
    InterpItemsCount(ProxyTags(instances), host, params, n);
    i := ProxyTagSource(instances, j);
    var configs, tag := Configs(instances, Client), ProxyTags(instances)[j];
    var m := ItemInterpolated(ProxyTags(instances), host, params, n, j);
    var k := ItemInterpolated(configs, host, params, start, i);
    assert configs[i] == instances[i].clientConfig;
    var l := FieldInterpolated(configs[i].fields, host, params, k, "tag");
    GenFreeIndependent(tag, host, params, l, m);
  }

  // ---- Totality after validation -------------------------------------------

  /** A whole-string placeholder names one declared parameter. */
  predicate Declares(s: string, names: set<string>) {
    WholeBody(s).Some? ==>
      var trimmed := Trim(WholeBody(s).value);
      StartsWith(trimmed, "params.") && trimmed[|"params."|..] in names && '.' !in trimmed[|"params."|..]
  }

  predicate OnlyDeclared(t: Json, names: set<string>, repl: Replacements) {
    match t
    case Str(s) => Declares(s, names)
    case Arr(items) => forall i | 0 <= i < |items| :: IsToken(items[i], repl) || OnlyDeclared(items[i], names, repl)
    case Obj(fields) => forall i | 0 <= i < |fields| ::
      IsToken(fields[i].value, repl) || OnlyDeclared(fields[i].value, names, repl)
    case _ => true
  }

  ghost predicate BindsAll(params: Json, names: set<string>) {
    params.Obj? && forall name | name in names :: Field(params.fields, name).Some?
  }

  lemma {:induction false} DeclaredNeverFails(t: Json, names: set<string>, host: Host, params: Json, calls: nat)
    requires OnlyDeclared(t, names, map[]) && BindsAll(params, names)
    ensures Interp(t, host, params, calls).Done?
    decreases t
  {
    match t
    case Str(s) =>
      if WholeBody(s).Some? {
        var name := Trim(WholeBody(s).value)[|"params."|..];
        SplitOne(name, '.');
        assert [name][1..] == [];
        assert Walk(params, [name]) == Field(params.fields, name);
      }
    case Arr(items) => DeclaredItemsNeverFail(items, names, host, params, calls);
    case Obj(fields) => DeclaredFieldsNeverFail(fields, names, host, params, calls);
    case _ =>
  }

  lemma {:induction false} DeclaredItemsNeverFail(items: seq<Json>, names: set<string>, host: Host, params: Json, calls: nat)
    requires forall i | 0 <= i < |items| :: OnlyDeclared(items[i], names, map[])
    requires BindsAll(params, names)
    ensures InterpItems(items, host, params, calls).Done?
    decreases items
  {
    if items != [] {
      DeclaredNeverFails(items[0], names, host, params, calls);
      DeclaredItemsNeverFail(items[1..], names, host, params, Interp(items[0], host, params, calls).calls);
    }
  }

  lemma {:induction false} DeclaredFieldsNeverFail(fields: seq<Member>, names: set<string>, host: Host, params: Json, calls: nat)
    requires forall i | 0 <= i < |fields| :: OnlyDeclared(fields[i].value, names, map[])
    requires BindsAll(params, names)
    ensures InterpFields(fields, host, params, calls).Done?
    decreases fields
  {
    if fields != [] {
      DeclaredNeverFails(fields[0].value, names, host, params, calls);
      DeclaredFieldsNeverFail(fields[1..], names, host, params, Interp(fields[0].value, host, params, calls).calls);
    }
  }

  lemma {:induction false} SpliceKeepsDeclared(t: Json, names: set<string>, repl: Replacements)
    requires OnlyDeclared(t, names, repl)
    requires forall token, i | token in repl && 0 <= i < |repl[token]| :: OnlyDeclared(repl[token][i], names, map[])
    ensures OnlyDeclared(Splice(t, repl), names, map[])
    decreases t
  {
    match t
    case Arr(items) => SpliceItemsKeepDeclared(items, names, repl);
    case Obj(fields) => SpliceFieldsKeepDeclared(fields, names, repl);
    case _ =>
  }

  lemma {:induction false} SpliceItemsKeepDeclared(items: seq<Json>, names: set<string>, repl: Replacements)
    requires forall i | 0 <= i < |items| :: IsToken(items[i], repl) || OnlyDeclared(items[i], names, repl)
    requires forall token, i | token in repl && 0 <= i < |repl[token]| :: OnlyDeclared(repl[token][i], names, map[])
    ensures forall i | 0 <= i < |SpliceItems(items, repl)| :: OnlyDeclared(SpliceItems(items, repl)[i], names, map[])
    decreases items
  {
    if items != [] {
      if !IsToken(items[0], repl) {
        SpliceKeepsDeclared(items[0], names, repl);
      }
      SpliceItemsKeepDeclared(items[1..], names, repl);
    }
  }

  lemma {:induction false} SpliceFieldsKeepDeclared(fields: seq<Member>, names: set<string>, repl: Replacements)
    requires forall i | 0 <= i < |fields| :: IsToken(fields[i].value, repl) || OnlyDeclared(fields[i].value, names, repl)
    requires forall token, i | token in repl && 0 <= i < |repl[token]| :: OnlyDeclared(repl[token][i], names, map[])
    ensures forall i | 0 <= i < |SpliceFields(fields, repl)| :: OnlyDeclared(SpliceFields(fields, repl)[i].value, names, map[])
    decreases fields
  {
    if fields != [] {
      if !IsToken(fields[0].value, repl) {
        SpliceKeepsDeclared(fields[0].value, names, repl);
      }
      SpliceFieldsKeepDeclared(fields[1..], names, repl);
    }
  }

  /**
   * Validation makes rendering total. With definitions that obey the schema rule and a template and
   * instances whose whole-string placeholders are declared parameters, rendering fails exactly when a
   * definition fails.
   */
  lemma RenderingIsTotal(overall: OverallTemplate, instances: seq<Instance>, overallParams: Json, side: Side,
                         host: Host, js: Validator.Coercions, calls: nat)
    requires overall.category == RequiredCategory(side)
    requires forall i | 0 <= i < |overall.params| :: Validator.SchemaRule(overall.params[i])
    requires OnlyDeclared(overall.content, set def | def in overall.params :: def.name, ReplacementsFor(instances, side))
    requires forall token, i | token in ReplacementsFor(instances, side) && 0 <= i < |ReplacementsFor(instances, side)[token]| ::
      OnlyDeclared(ReplacementsFor(instances, side)[token][i], set def | def in overall.params :: def.name, map[])
    ensures RenderSpec(Some(overall), instances, overallParams, side, host, js, calls).Rendered?
        <==> forall i | 0 <= i < |overall.params| :: !Validator.Fails(overall.params[i], overallParams, host, js)
  {
    Validator.IssuesAreTheFailingDefs(overall.params, overallParams, host, js, calls);
    var resolved := Validator.Resolve(overall.params, overallParams, host, js, calls);
    if resolved.Resolved? {
      var names := set def | def in overall.params :: def.name;
      var repl := ReplacementsFor(instances, side);
      forall name | name in names ensures Field(resolved.params.fields, name).Some? {
        Validator.SuccessBindsDeclared(overall.params, overallParams, host, js, calls, name);
        var def :| def in overall.params && def.name == name;
        var i :| 0 <= i < |overall.params| && overall.params[i] == def;
      }
      SpliceKeepsDeclared(overall.content, names, repl);
      DeclaredNeverFails(Splice(overall.content, repl), names, host, resolved.params, resolved.calls);
      SpliceThenInterpIsOnePass(overall.content, repl, TokenMeaning(instances, side, host, resolved.params),
        host, resolved.params, resolved.calls);
    }
  }
}
