/** Templates without generator calls, and strings without placeholders. */
module GenFree {
  import opened JsonTree
  import opened Text
  import opened Interpolator

  // ---- No generator call ---------------------------------------------------

  predicate CallsGenerator(body: string) {
    StartsWith(Trim(body), "gen.")
  }

  predicate GenFreeText(s: string) {
    if WholeBody(s).Some? then !CallsGenerator(WholeBody(s).value)
    else forall seg | seg in Segments(s) :: seg.Hole? ==> !CallsGenerator(seg.body)
  }

  predicate GenFreeTree(t: Json) {
    match t
    case Str(s) => GenFreeText(s)
    case Arr(items) => forall i | 0 <= i < |items| :: GenFreeTree(items[i])
    case Obj(fields) => forall i | 0 <= i < |fields| :: GenFreeTree(fields[i].value)
    case _ => true
  }

  /** The same result, had the run started after `calls` generator calls. */
  function At<T>(o: Outcome<T>, calls: nat): Outcome<T> {
    match o
    case Done(v, _) => Done(v, calls)
    case Failed(e) => Failed(e)
  }

  lemma {:induction false} FillGenFree(segs: seq<Segment>, host: Host, params: Json, n: nat, m: nat)
    requires forall seg | seg in segs :: seg.Hole? ==> !CallsGenerator(seg.body)
    ensures Fill(segs, host, params, n) == (Fill(segs, host, params, m).0, n)
  {
    if segs != [] {
      FillGenFree(segs[1..], host, params, n, m);
      FillGenFree(segs[1..], host, params, m, n);
    }
  }

  /** Without generators the result, value or failure, does not depend on earlier generator calls. */
  lemma {:induction false} GenFreeIndependent(t: Json, host: Host, params: Json, n: nat, m: nat)
    requires GenFreeTree(t)
    ensures Interp(t, host, params, n) == At(Interp(t, host, params, m), n)
    decreases t
  {
    match t
    case Str(s) => TextIndependent(s, host, params, n, m);
    case Arr(items) => GenFreeItems(items, host, params, n, m);
    case Obj(fields) => GenFreeFields(fields, host, params, n, m);
    case _ =>
  }

  lemma TextIndependent(s: string, host: Host, params: Json, n: nat, m: nat)
    requires GenFreeText(s)
    ensures SubstituteInString(s, host, params, n) == At(SubstituteInString(s, host, params, m), n)
  {
    if WholeBody(s).None? {
      FillGenFree(Segments(s), host, params, n, m);
      FillGenFree(Segments(s), host, params, m, n);
    }
  }

  lemma {:induction false} GenFreeItems(items: seq<Json>, host: Host, params: Json, n: nat, m: nat)
    requires forall i | 0 <= i < |items| :: GenFreeTree(items[i])
    ensures InterpItems(items, host, params, n) == At(InterpItems(items, host, params, m), n)
    decreases items
  {
    if items != [] {
      GenFreeIndependent(items[0], host, params, n, m);
      GenFreeIndependent(items[0], host, params, m, n);
      GenFreeItems(items[1..], host, params, n, m);
    }
  }

  lemma {:induction false} GenFreeFields(fields: seq<Member>, host: Host, params: Json, n: nat, m: nat)
    requires forall i | 0 <= i < |fields| :: GenFreeTree(fields[i].value)
    ensures InterpFields(fields, host, params, n) == At(InterpFields(fields, host, params, m), n)
    decreases fields
  {
    if fields != [] {
      GenFreeIndependent(fields[0].value, host, params, n, m);
      GenFreeIndependent(fields[0].value, host, params, m, n);
      GenFreeFields(fields[1..], host, params, n, m);
    }
  }

  // ---- No placeholder at all -----------------------------------------------

  predicate PlainText(s: string) {
    forall seg | seg in Segments(s) :: seg.Plain?
  }

  predicate PlainTree(t: Json) {
    match t
    case Str(s) => PlainText(s)
    case Arr(items) => forall i | 0 <= i < |items| :: PlainTree(items[i])
    case Obj(fields) => forall i | 0 <= i < |fields| :: PlainTree(fields[i].value)
    case _ => true
  }

  lemma {:induction false} RunIs(s: string, n: nat)
    requires n < |s| && BraceFree(s[..n]) && IsBrace(s[n])
    ensures BraceFreeRun(s) == n
  {
    if n > 0 {
      assert s[..n][0] == s[0];
      assert s[1..][..n - 1] == s[..n][1..];
      RunIs(s[1..], n - 1);
    }
  }

  /** A string that is one placeholder is read as that one placeholder. */
  lemma WholeIsHole(s: string)
    requires WholeBody(s).Some?
    ensures Segments(s) == [Hole(WholeBody(s).value)]
  {
    var n := |s| - 4;
    assert s[2..][..n] == s[2..2 + n];
    assert s[2..][n] == s[|s| - 2..][0];
    RunIs(s[2..], n);
    assert s[2 + n..4 + n] == s[|s| - 2..];
    assert s[4 + n..] == "";
  }

  lemma PlainIsNotWhole(s: string)
    ensures WholeBody(s).Some? ==> !PlainText(s)
  {
    if WholeBody(s).Some? {
      WholeIsHole(s);
      assert Segments(s)[0] in Segments(s);
    }
  }

  lemma {:induction false} FillPlain(s: string, host: Host, params: Json, n: nat)
    requires PlainText(s)
    ensures Fill(Segments(s), host, params, n) == (s, n)
    decreases |s|
  {
    if s != "" {
      var segs := Segments(s);
      assert segs[0] in segs;
      assert segs[0].Plain?;
      assert segs[1..] == Segments(s[1..]);
      forall seg | seg in Segments(s[1..]) ensures seg.Plain? {
        assert seg in segs;
      }
      FillPlain(s[1..], host, params, n);
      assert [s[0]] + s[1..] == s;
    }
  }

  /** A tree without placeholders is delivered verbatim. */
  lemma {:induction false} PlainIsFixed(t: Json, host: Host, params: Json, n: nat)
    requires PlainTree(t)
    ensures Interp(t, host, params, n) == Done(t, n)
    decreases t
  {
    match t
    case Str(s) =>
      PlainIsNotWhole(s);
      FillPlain(s, host, params, n);
    case Arr(items) => PlainItemsFixed(items, host, params, n);
    case Obj(fields) => PlainFieldsFixed(fields, host, params, n);
    case _ =>
  }

  lemma {:induction false} PlainItemsFixed(items: seq<Json>, host: Host, params: Json, n: nat)
    requires forall i | 0 <= i < |items| :: PlainTree(items[i])
    ensures InterpItems(items, host, params, n) == Done(items, n)
    decreases items
  {
    if items != [] {
      PlainIsFixed(items[0], host, params, n);
      PlainItemsFixed(items[1..], host, params, n);
      assert [items[0]] + items[1..] == items;
    }
  }

  lemma {:induction false} PlainFieldsFixed(fields: seq<Member>, host: Host, params: Json, n: nat)
    requires forall i | 0 <= i < |fields| :: PlainTree(fields[i].value)
    ensures InterpFields(fields, host, params, n) == Done(fields, n)
    decreases fields
  {
    if fields != [] {
      PlainIsFixed(fields[0].value, host, params, n);
      PlainFieldsFixed(fields[1..], host, params, n);
      assert [fields[0]] + fields[1..] == fields;
    }
  }

  predicate Opens(s: string, i: nat) {
    i + 1 < |s| && s[i] == '{' && s[i + 1] == '{'
  }

  /** Strings without an opening pair of braces hold no placeholder. */
  lemma {:induction false} NoOpeningBracesIsPlain(s: string)
    requires forall i: nat | i < |s| :: !Opens(s, i)
    ensures PlainText(s)
    decreases |s|
  {
    if s != "" {
      assert !Opens(s, 0);
      forall i: nat | i < |s[1..]| ensures !Opens(s[1..], i) {
        assert !Opens(s, i + 1);
      }
      NoOpeningBracesIsPlain(s[1..]);
    }
  }
}
