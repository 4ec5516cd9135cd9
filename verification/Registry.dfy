/** Splicing and overall rendering (src/engine/registry.ts). */
module Registry {
  import opened Wrappers
  import opened JsonTree
  import opened Text
  import opened Interpolator

  type Replacements = map<string, seq<Json>>

  // ---- First pass: splicing ----------------------------------------------

  function Splice(t: Json, repl: Replacements): Json
    decreases t, 0
  {
    match t
    case Arr(items) => Arr(SpliceItems(items, repl))
    case Obj(fields) => Obj(SpliceFields(fields, repl))
    case _ => t
  }

  /** Replacements take the place of a token in an array one by one. */
  function SpliceItem(item: Json, repl: Replacements): seq<Json>
    decreases item, 1
  {
    if item.Str? && StripSpaces(item.s) in repl then repl[StripSpaces(item.s)]
    else [Splice(item, repl)]
  }

  function SpliceItems(items: seq<Json>, repl: Replacements): seq<Json>
    decreases items, 0
  {
    if items == [] then [] else SpliceItem(items[0], repl) + SpliceItems(items[1..], repl)
  }

  /** A token that is a whole field value becomes the array of replacements. */
  function SpliceFields(fields: seq<Member>, repl: Replacements): seq<Member>
    decreases fields, 0
  {
    if fields == [] then [] else
      var v := fields[0].value;
      var v' := if v.Str? && StripSpaces(v.s) in repl then Arr(repl[StripSpaces(v.s)]) else Splice(v, repl);
      [Member(fields[0].name, v')] + SpliceFields(fields[1..], repl)
  }

  lemma {:induction false} SpliceItemsAppend(a: seq<Json>, b: seq<Json>, repl: Replacements)
    ensures SpliceItems(a + b, repl) == SpliceItems(a, repl) + SpliceItems(b, repl)
  {
    if a == [] {
      assert a + b == b;
    } else {
      assert (a + b)[1..] == a[1..] + b;
      SpliceItemsAppend(a[1..], b, repl);
    }
  }

  lemma {:induction false} SpliceFieldsAppend(a: seq<Member>, b: seq<Member>, repl: Replacements)
    ensures SpliceFields(a + b, repl) == SpliceFields(a, repl) + SpliceFields(b, repl)
  {
    if a == [] {
      assert a + b == b;
    } else {
      assert (a + b)[1..] == a[1..] + b;
      SpliceFieldsAppend(a[1..], b, repl);
    }
  }

  /** Anything that is no token: strings and scalars stay as they are, arrays and objects are spliced inside. */
  lemma OneItemSpliced(pre: seq<Json>, item: Json, post: seq<Json>, repl: Replacements)
    requires item.Str? ==> StripSpaces(item.s) !in repl
    ensures SpliceItems(pre + [item] + post, repl) == SpliceItems(pre, repl) + [Splice(item, repl)] + SpliceItems(post, repl)
    ensures match item
            case Arr(items) => Splice(item, repl) == Arr(SpliceItems(items, repl))
            case Obj(fields) => Splice(item, repl) == Obj(SpliceFields(fields, repl))
            case _ => Splice(item, repl) == item
  {
    SpliceItemsAppend(pre + [item], post, repl);
    SpliceItemsAppend(pre, [item], repl);
    assert SpliceItems([item], repl) == [Splice(item, repl)];
  }

  method SplicePlaceholders(node: Json, repl: Replacements) returns (r: Json)
    ensures r == Splice(node, repl)
    decreases node
  {
    match node
    case Arr(items) =>
      var result: seq<Json> := [];
      for i := 0 to |items|
        invariant result == SpliceItems(items[..i], repl)
      {
        SpliceItemsAppend(items[..i], [items[i]], repl);
        assert items[..i + 1] == items[..i] + [items[i]];
        assert SpliceItems([items[i]], repl) == SpliceItem(items[i], repl);
        if items[i].Str? && StripSpaces(items[i].s) in repl {
          result := result + repl[StripSpaces(items[i].s)];
        } else {
          var v := SplicePlaceholders(items[i], repl);
          result := result + [v];
        }
      }
      assert items[..|items|] == items;
      r := Arr(result);
    case Obj(fields) =>
      var result: seq<Member> := [];
      for i := 0 to |fields|
        invariant result == SpliceFields(fields[..i], repl)
      {
        SpliceFieldsAppend(fields[..i], [fields[i]], repl);
        assert fields[..i + 1] == fields[..i] + [fields[i]];
        var v := fields[i].value;
        if v.Str? && StripSpaces(v.s) in repl {
          result := result + [Member(fields[i].name, Arr(repl[StripSpaces(v.s)]))];
        } else {
          var v' := SplicePlaceholders(v, repl);
          result := result + [Member(fields[i].name, v')];
        }
      }
      assert fields[..|fields|] == fields;
      r := Obj(result);
    case _ =>
      r := node;
  }

  // ---- The reference meaning: one traversal --------------------------------

  /**
   * What a splice token stands for when it is met after `calls` generator calls:
   * None for a string that is no token, otherwise an interpolated list or its failure.
   */
  type Meaning = (string, nat) -> Option<Outcome<seq<Json>>>

  function MeaningOf(t: Json, meaning: Meaning, calls: nat): Option<Outcome<seq<Json>>> {
    if t.Str? then meaning(StripSpaces(t.s), calls) else None
  }

  function Render(t: Json, meaning: Meaning, host: Host, params: Json, calls: nat): Outcome<Json>
    decreases t, 0
  {
    match t
    case Str(s) => SubstituteInString(s, host, params, calls)
    case Arr(items) =>
      (match RenderItems(items, meaning, host, params, calls)
       case Done(vs, n) => Done(Arr(vs), n)
       case Failed(e) => Failed(e))
    case Obj(fields) =>
      (match RenderFields(fields, meaning, host, params, calls)
       case Done(fs, n) => Done(Obj(fs), n)
       case Failed(e) => Failed(e))
    case _ => Done(t, calls)
  }

  function RenderItem(item: Json, meaning: Meaning, host: Host, params: Json, calls: nat): Outcome<seq<Json>>
    decreases item, 1
  {
    var token := MeaningOf(item, meaning, calls);
    if token.Some? then token.value else
      match Render(item, meaning, host, params, calls)
      case Failed(e) => Failed(e)
      case Done(v, n) => Done([v], n)
  }

  function RenderItems(items: seq<Json>, meaning: Meaning, host: Host, params: Json, calls: nat): Outcome<seq<Json>>
    decreases items, 0
  {
    if items == [] then Done([], calls) else
      var first := RenderItem(items[0], meaning, host, params, calls);
      if first.Failed? then first else
        Then(first, RenderItems(items[1..], meaning, host, params, first.calls))
  }

  function RenderFields(fields: seq<Member>, meaning: Meaning, host: Host, params: Json, calls: nat)
    : Outcome<seq<Member>>
    decreases fields, 0
  {
    if fields == [] then Done([], calls) else
      var v := fields[0].value;
      var token := MeaningOf(v, meaning, calls);
      var first: Outcome<Json> :=
        if token.Some? then
          (match token.value
           case Failed(e) => Failed(e)
           case Done(vs, n) => Done(Arr(vs), n))
        else Render(v, meaning, host, params, calls);
      if first.Failed? then Failed(first.error) else
        Then(Done([Member(fields[0].name, first.value)], first.calls),
             RenderFields(fields[1..], meaning, host, params, first.calls))
  }

  /** A token means its replacement list, interpolated where the token stands. */
  ghost predicate Denotes(meaning: Meaning, repl: Replacements, host: Host, params: Json) {
    forall token: string, calls: nat ::
      meaning(token, calls) == if token in repl then Some(InterpItems(repl[token], host, params, calls)) else None
  }

  /** Splicing and then interpolating is one traversal: same value, same generator calls, same failure. */
  lemma {:induction false} SpliceThenInterpIsOnePass(
      t: Json, repl: Replacements, meaning: Meaning, host: Host, params: Json, calls: nat)
    requires Denotes(meaning, repl, host, params)
    ensures Interp(Splice(t, repl), host, params, calls) == Render(t, meaning, host, params, calls)
    decreases t
  {
    match t
    case Arr(items) => OnePassItems(items, repl, meaning, host, params, calls);
    case Obj(fields) => OnePassFields(fields, repl, meaning, host, params, calls);
    case _ =>
  }

  lemma {:induction false} OnePassItems(
      items: seq<Json>, repl: Replacements, meaning: Meaning, host: Host, params: Json, calls: nat)
    requires Denotes(meaning, repl, host, params)
    ensures InterpItems(SpliceItems(items, repl), host, params, calls)
         == RenderItems(items, meaning, host, params, calls)
    decreases items
  {
    if items != [] {
      var head := SpliceItem(items[0], repl);
      InterpItemsAppend(head, SpliceItems(items[1..], repl), host, params, calls);
      if MeaningOf(items[0], meaning, calls).None? {
        SpliceThenInterpIsOnePass(items[0], repl, meaning, host, params, calls);
        InterpOne(Splice(items[0], repl), host, params, calls);
      }
      var first := RenderItem(items[0], meaning, host, params, calls);
      if first.Done? {
        OnePassItems(items[1..], repl, meaning, host, params, first.calls);
      }
    }
  }

  lemma InterpOne(t: Json, host: Host, params: Json, calls: nat)
    ensures InterpItems([t], host, params, calls)
         == match Interp(t, host, params, calls)
            case Failed(e) => Failed(e)
            case Done(v, n) => Done([v], n)
  {
    var r := Interp(t, host, params, calls);
    if r.Done? {
      assert [t][1..] == [];
      assert [r.value] + [] == [r.value];
    }
  }

  lemma {:induction false} OnePassFields(
      fields: seq<Member>, repl: Replacements, meaning: Meaning, host: Host, params: Json, calls: nat)
    requires Denotes(meaning, repl, host, params)
    ensures InterpFields(SpliceFields(fields, repl), host, params, calls)
         == RenderFields(fields, meaning, host, params, calls)
    decreases fields
  {
    if fields != [] {
      var v := fields[0].value;
      if MeaningOf(v, meaning, calls).None? {
        SpliceThenInterpIsOnePass(v, repl, meaning, host, params, calls);
      }
      var spliced := SpliceFields(fields, repl);
      assert spliced[1..] == SpliceFields(fields[1..], repl);
      var first := Interp(spliced[0].value, host, params, calls);
      if first.Done? {
        OnePassFields(fields[1..], repl, meaning, host, params, first.calls);
      }
    }
  }
}
