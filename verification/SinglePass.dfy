/** Embedded substitution reads the template once and never its own output. */
module SinglePass {
  import opened Wrappers
  import opened JsonTree
  import opened Text
  import opened Interpolator
  import opened GenFree

  function Unparse(segs: seq<Segment>): string {
    if segs == [] then "" else SegmentText(segs[0]) + Unparse(segs[1..])
  }

  function SegmentText(seg: Segment): string {
    match seg
    case Plain(c) => [c]
    case Hole(body) => "{{" + body + "}}"
  }

  /** Cutting a string into segments loses nothing. */
  lemma {:induction false} UnparseSegments(s: string)
    ensures Unparse(Segments(s)) == s
    decreases |s|
  {
    if s != "" {
      var hole := HoleAtHead(s);
      if hole.Some? {
        var n := hole.value;
        var body, rest := s[2..2 + n], s[4 + n..];
        UnparseSegments(rest);
        FourPieces(s, n);
        assert Segments(s)[0] == Hole(body) && Segments(s)[1..] == Segments(rest);
      } else {
        UnparseSegments(s[1..]);
        assert s == [s[0]] + s[1..];
      }
    }
  }

  lemma FourPieces(s: string, n: nat)
    requires n + 4 <= |s|
    ensures s[..2] + s[2..2 + n] + s[2 + n..4 + n] + s[4 + n..] == s
  {
  }

  /** The first segment is what a scan from the left takes: a placeholder, or a character where none starts. */
  predicate HeadStands(segs: seq<Segment>)
    requires segs != []
  {
    match segs[0]
    case Plain(_) => HoleAtHead(Unparse(segs)).None?
    case Hole(body) => body != "" && BraceFree(body)
  }

  predicate Leftmost(segs: seq<Segment>) {
    forall i | 0 <= i < |segs| :: HeadStands(segs[i..])
  }

  /** Segments are what their text is cut into exactly when they are a leftmost cut. */
  lemma SegmentsUnparse(segs: seq<Segment>)
    ensures Segments(Unparse(segs)) == segs <==> Leftmost(segs)
  {
    if Leftmost(segs) {
      LeftmostIsCut(segs);
    } else {
      CutIsLeftmost(Unparse(segs));
    }
  }

  lemma {:induction false} LeftmostIsCut(segs: seq<Segment>)
    requires Leftmost(segs)
    ensures Segments(Unparse(segs)) == segs
  {
    if segs != [] {
      LeftmostRest(segs);
      LeftmostIsCut(segs[1..]);
      SegmentIsFound(segs[0], Unparse(segs[1..]));
      assert [segs[0]] + segs[1..] == segs;
    }
  }

  lemma LeftmostRest(segs: seq<Segment>)
    requires segs != []
    ensures Leftmost(segs) <==> HeadStands(segs) && Leftmost(segs[1..])
  {
    assert segs[0..] == segs;
    assert forall i | 1 <= i < |segs| :: segs[1..][i - 1..] == segs[i..];
    if Leftmost(segs) {
      forall i | 0 <= i < |segs[1..]| ensures HeadStands(segs[1..][i..]) {
        assert HeadStands(segs[i + 1..]);
      }
    }
    if HeadStands(segs) && Leftmost(segs[1..]) {
      forall i | 0 <= i < |segs| ensures HeadStands(segs[i..]) {
        if i > 0 { assert HeadStands(segs[1..][i - 1..]); }
      }
    }
  }

  lemma {:induction false} CutIsLeftmost(s: string)
    ensures Leftmost(Segments(s))
    decreases |s|
  {
    if s != "" {
      var hole := HoleAtHead(s);
      var rest := if hole.Some? then s[4 + hole.value..] else s[1..];
      assert Segments(s)[1..] == Segments(rest);
      CutIsLeftmost(rest);
      UnparseSegments(s);
      LeftmostRest(Segments(s));
    }
  }

  lemma SegmentIsFound(seg: Segment, rest: string)
    requires seg.Plain? ==> HoleAtHead(SegmentText(seg) + rest).None?
    requires seg.Hole? ==> seg.body != "" && BraceFree(seg.body)
    ensures Segments(SegmentText(seg) + rest) == [seg] + Segments(rest)
  {
    match seg {
      case Plain(c) => PlainIsKept(c, rest);
      case Hole(body) => HoleIsFound(body, rest);
    }
  }

  lemma PlainIsKept(c: char, rest: string)
    requires HoleAtHead([c] + rest).None?
    ensures Segments([c] + rest) == [Plain(c)] + Segments(rest)
  {
    var s := [c] + rest;
    assert s[0] == c && s[1..] == rest;
  }

  lemma HoleIsFound(body: string, rest: string)
    requires body != "" && BraceFree(body)
    ensures var s := "{{" + body + "}}" + rest;
            Segments(s) == [Hole(body)] + Segments(rest)
  {
    var s := "{{" + body + "}}" + rest;
    var n := |body|;
    assert s[2..][..n] == body && s[2..][n] == '}';
    RunIs(s[2..], n);
    assert s[..2] == "{{" && s[2 + n..4 + n] == "}}";
    assert s[2..2 + n] == body && s[4 + n..] == rest;
  }

  /** Literal segments and resolved values in turn, each taken once, generator calls left to right. */
  ghost predicate Interleaves(segs: seq<Segment>, pieces: seq<string>, host: Host, params: Json, at: seq<nat>) {
    && |pieces| == |segs| && |at| == |segs| + 1
    && forall i | 0 <= i < |segs| ::
         (pieces[i], at[i + 1]) ==
           match segs[i]
           case Plain(c) => ([c], at[i])
           case Hole(body) => ResolveEmbedded(body, host, params, at[i])
  }

  function Concat(pieces: seq<string>): string {
    if pieces == [] then "" else pieces[0] + Concat(pieces[1..])
  }

  lemma {:induction false} FillInterleaves(segs: seq<Segment>, pieces: seq<string>, host: Host, params: Json, at: seq<nat>)
    requires Interleaves(segs, pieces, host, params, at)
    ensures Fill(segs, host, params, at[0]) == (Concat(pieces), at[|segs|])
  {
    if segs != [] {
      assert segs[0] == segs[0] && pieces[0] == pieces[0];
      FillInterleaves(segs[1..], pieces[1..], host, params, at[1..]);
    }
  }

  /**
   * Every text that is not one whole placeholder: the output is its literal characters with each
   * placeholder replaced by its value. A value is copied, whatever braces it or the text contains.
   */
  lemma EmbeddedIsSinglePass(s: string, pieces: seq<string>, host: Host, params: Json, at: seq<nat>)
    requires WholeBody(s).None? && Interleaves(Segments(s), pieces, host, params, at)
    ensures Unparse(Segments(s)) == s
    ensures SubstituteInString(s, host, params, at[0]) == Done(Str(Concat(pieces)), at[|Segments(s)|])
  {
    UnparseSegments(s);
    FillInterleaves(Segments(s), pieces, host, params, at);
  }

  /** Every brace of the text belongs to a placeholder. */
  predicate WellBraced(segs: seq<Segment>) {
    forall i | 0 <= i < |segs| :: segs[i].Plain? ==> !IsBrace(segs[i].c)
  }

  ghost predicate ValuesBraceFree(segs: seq<Segment>, host: Host, params: Json) {
    forall i, n: nat | 0 <= i < |segs| :: segs[i].Hole? ==> BraceFree(ResolveEmbedded(segs[i].body, host, params, n).0)
  }

  lemma {:induction false} FillBraceFree(segs: seq<Segment>, host: Host, params: Json, calls: nat)
    requires WellBraced(segs) && ValuesBraceFree(segs, host, params)
    ensures BraceFree(Fill(segs, host, params, calls).0)
  {
    if segs != [] {
      var here := if segs[0].Hole? then ResolveEmbedded(segs[0].body, host, params, calls) else ([segs[0].c], calls);
      assert BraceFree(here.0);
      assert forall i | 1 <= i < |segs| :: segs[1..][i - 1] == segs[i];
      FillBraceFree(segs[1..], host, params, here.1);
    }
  }

  /**
   * No brace is left in a substituted string when all braces of the text belong to placeholders and the
   * values bring none. What comes out is a string unless the text is one whole placeholder.
   */
  lemma NoBraceSurvives(s: string, host: Host, params: Json, calls: nat)
    requires WellBraced(Segments(s)) && ValuesBraceFree(Segments(s), host, params)
    ensures var r := SubstituteInString(s, host, params, calls);
            && (r.Done? && r.value.Str? ==> BraceFree(r.value.s))
            && (WholeBody(s).None? ==> r.Done? && r.value.Str?)
  {
    if WholeBody(s).Some? {
      WholeIsHole(s);
      assert Segments(s)[0].Hole?;
      assert BraceFree(ResolveEmbedded(WholeBody(s).value, host, params, calls).0);
    } else {
      FillBraceFree(Segments(s), host, params, calls);
    }
  }

  // ---- Expressions in a template text ---------------------------------------

  predicate Spaces(s: string) {
    forall i | 0 <= i < |s| :: IsSpace(s[i])
  }

  lemma {:induction false} TrimStartSkips(left: string, s: string)
    requires Spaces(left) && s != "" && !IsSpace(s[0])
    ensures TrimStart(left + s) == s
  {
    if left == "" {
      assert left + s == s;
    } else {
      assert (left + s)[1..] == left[1..] + s;
      TrimStartSkips(left[1..], s);
    }
  }

  lemma {:induction false} TrimEndSkips(s: string, right: string)
    requires Spaces(right) && s != "" && !IsSpace(s[|s| - 1])
    ensures TrimEnd(s + right) == s
  {
    if right == "" {
      assert s + right == s;
    } else {
      var n := |right| - 1;
      assert (s + right)[..|s| + n] == s + right[..n];
      assert (s + right)[|s| + n] == right[n];
      TrimEndSkips(s, right[..n]);
    }
  }

  lemma PaddedTrims(left: string, core: string, right: string)
    requires Spaces(left) && Spaces(right) && core != "" && !IsSpace(core[0]) && !IsSpace(core[|core| - 1])
    ensures Trim(left + core + right) == core
  {
    assert left + core + right == left + (core + right);
    assert (core + right)[0] == core[0];
    TrimStartSkips(left, core + right);
    TrimEndSkips(core, right);
  }

  function Dotted(path: seq<string>): string
    requires path != []
  {
    if |path| == 1 then path[0] else path[0] + "." + Dotted(path[1..])
  }

  /** A path as it can be written in a placeholder: names without dots and braces, the last not ending in a space. */
  predicate IsPath(path: seq<string>) {
    && path != []
    && (forall i | 0 <= i < |path| :: '.' !in path[i] && BraceFree(path[i]))
    && var last := path[|path| - 1]; last != "" ==> !IsSpace(last[|last| - 1])
  }

  lemma {:induction false} DottedSplits(path: seq<string>)
    requires path != [] && forall i | 0 <= i < |path| :: '.' !in path[i]
    ensures Split(Dotted(path), '.') == path
  {
    if |path| == 1 {
      SplitOne(path[0], '.');
      assert path == [path[0]];
    } else {
      DottedSplits(path[1..]);
      SplitCons(path[0], Dotted(path[1..]), '.');
      assert path[0] + "." + Dotted(path[1..]) == path[0] + ['.'] + Dotted(path[1..]);
      assert [path[0]] + path[1..] == path;
    }
  }

  lemma {:induction false} DottedShape(path: seq<string>)
    requires IsPath(path)
    ensures BraceFree(Dotted(path))
    ensures Dotted(path) != "" ==> !IsSpace(Dotted(path)[|Dotted(path)| - 1])
  {
    if |path| > 1 {
      PathRest(path);
      DottedShape(path[1..]);
      DotBetweenFree(path[0], Dotted(path[1..]));
    }
  }

  lemma PathRest(path: seq<string>)
    requires IsPath(path) && |path| > 1
    ensures IsPath(path[1..])
  {
    var rest := path[1..];
    assert rest[|rest| - 1] == path[|path| - 1] && forall i | 0 <= i < |rest| :: rest[i] == path[i + 1];
  }

  lemma DotBetweenFree(a: string, b: string)
    ensures BraceFree(a) && BraceFree(b) ==> BraceFree(a + "." + b)
    ensures (a + "." + b)[|a + "." + b| - 1] == if b == "" then '.' else b[|b| - 1]
  {
  }

  function ParameterBody(left: string, path: seq<string>, right: string): string
    requires path != []
  {
    left + ("params." + Dotted(path)) + right
  }

  /** `params.a.b`, however padded, is the value the path leads to, or the unknown-parameter error. */
  lemma ParameterExpression(left: string, path: seq<string>, right: string, host: Host, params: Json, calls: nat)
    requires Spaces(left) && Spaces(right) && IsPath(path)
    ensures ResolveExpression(ParameterBody(left, path, right), host, params, calls)
         == var v := Walk(params, path);
            if v.Some? then Done(v.value, calls) else Failed(UnknownParam(Dotted(path)))
  {
    var core := "params." + Dotted(path);
    DottedShape(path);
    DottedSplits(path);
    assert core[0] == 'p' && core[6] == '.';
    assert core[|core| - 1] == if Dotted(path) == "" then '.' else Dotted(path)[|Dotted(path)| - 1];
    PaddedTrims(left, core, right);
    assert core[|"params."|..] == Dotted(path) && "params." <= core;
  }

  lemma ParameterBodyFree(left: string, path: seq<string>, right: string)
    requires Spaces(left) && Spaces(right) && IsPath(path)
    ensures BraceFree(ParameterBody(left, path, right)) && ParameterBody(left, path, right) != ""
  {
    DottedShape(path);
    assert forall c: char :: IsSpace(c) ==> !IsBrace(c);
    assert BraceFree("params.");
    BraceFreeConcat("params.", Dotted(path));
    BraceFreeConcat(left, "params." + Dotted(path));
    BraceFreeConcat(left + ("params." + Dotted(path)), right);
  }

  lemma BraceFreeConcat(a: string, b: string)
    requires BraceFree(a) && BraceFree(b)
    ensures BraceFree(a + b)
  {
  }

  /** A string that is one parameter placeholder takes the parameter's value, type included, or fails if it is unknown. */
  lemma WholeParameter(left: string, path: seq<string>, right: string, host: Host, params: Json, calls: nat)
    requires Spaces(left) && Spaces(right) && IsPath(path)
    ensures SubstituteInString("{{" + ParameterBody(left, path, right) + "}}", host, params, calls)
         == var v := Walk(params, path);
            if v.Some? then Done(v.value, calls) else Failed(UnknownParam(Dotted(path)))
  {
    ParameterBodyFree(left, path, right);
    WholeText(ParameterBody(left, path, right));
    ParameterExpression(left, path, right, host, params, calls);
  }

  lemma WholeText(body: string)
    requires body != "" && BraceFree(body)
    ensures WholeBody("{{" + body + "}}") == Some(body)
  {
    var s := "{{" + body + "}}";
    assert s[2..|s| - 2] == body && s[..2] == "{{" && s[|s| - 2..] == "}}";
  }

  /** A template text written as literal characters and parameter placeholders. */
  datatype Part = Literal(c: char) | Parameter(left: string, path: seq<string>, right: string)

  predicate PartOk(part: Part) {
    part.Parameter? ==> Spaces(part.left) && Spaces(part.right) && IsPath(part.path)
  }

  function PartSegment(part: Part): Segment
    requires PartOk(part)
  {
    match part
    case Literal(c) => Plain(c)
    case Parameter(left, path, right) => Hole(ParameterBody(left, path, right))
  }

  function PartSegments(parts: seq<Part>): seq<Segment>
    requires forall i | 0 <= i < |parts| :: PartOk(parts[i])
  {
    seq(|parts|, i requires 0 <= i < |parts| => PartSegment(parts[i]))
  }

  /** A literal is copied; a parameter gives its string, nothing when null or unknown, its JSON otherwise. */
  function PartText(part: Part, host: Host, params: Json): string {
    match part
    case Literal(c) => [c]
    case Parameter(_, path, _) =>
      var v := Walk(params, path);
      if v.None? || v.value.Null? then "" else if v.value.Str? then v.value.s else host.stringify(v.value)
  }

  function PartTexts(parts: seq<Part>, host: Host, params: Json): string {
    if parts == [] then "" else PartText(parts[0], host, params) + PartTexts(parts[1..], host, params)
  }

  lemma ParameterFills(part: Part, host: Host, params: Json, calls: nat)
    requires part.Parameter? && PartOk(part)
    ensures ResolveEmbedded(PartSegment(part).body, host, params, calls) == (PartText(part, host, params), calls)
  {
    ParameterExpression(part.left, part.path, part.right, host, params, calls);
  }

  lemma {:induction false} FillParts(parts: seq<Part>, host: Host, params: Json, calls: nat)
    requires forall i | 0 <= i < |parts| :: PartOk(parts[i])
    ensures Fill(PartSegments(parts), host, params, calls) == (PartTexts(parts, host, params), calls)
  {
    if parts != [] {
      var segs := PartSegments(parts);
      assert segs[0] == PartSegment(parts[0]) && segs[1..] == PartSegments(parts[1..]);
      if parts[0].Parameter? { ParameterFills(parts[0], host, params, calls); }
      FillParts(parts[1..], host, params, calls);
      FillHead(segs, host, params, calls);
    }
  }

  lemma FillHead(segs: seq<Segment>, host: Host, params: Json, calls: nat)
    requires segs != []
    ensures var here := if segs[0].Plain? then ([segs[0].c], calls) else ResolveEmbedded(segs[0].body, host, params, calls);
            var rest := Fill(segs[1..], host, params, here.1);
            Fill(segs, host, params, calls) == (here.0 + rest.0, rest.1)
  {
  }

  /**
   * Any number of parameters inside other text, which may hold braces of its own: each becomes text in its
   * place, and no generator is called.
   */
  lemma EmbeddedParameters(parts: seq<Part>, host: Host, params: Json, calls: nat)
    requires forall i | 0 <= i < |parts| :: PartOk(parts[i])
    requires Leftmost(PartSegments(parts)) && !(|parts| == 1 && parts[0].Parameter?)
    ensures SubstituteInString(Unparse(PartSegments(parts)), host, params, calls)
         == Done(Str(PartTexts(parts, host, params)), calls)
  {
    SegmentsUnparse(PartSegments(parts));
    WholeIsOneHole(Unparse(PartSegments(parts)));
    FillParts(parts, host, params, calls);
  }

  lemma WholeIsOneHole(s: string)
    ensures WholeBody(s).Some? ==> |Segments(s)| == 1 && Segments(s)[0].Hole?
  {
    if WholeBody(s).Some? { WholeIsHole(s); }
  }

  function GeneratorText(name: string, args: Option<string>): string {
    "gen." + name + if args.None? then "" else ":" + args.value
  }

  /** `gen.NAME` or `gen.NAME:ARGS` calls the generator once, with the trimmed pieces between commas; no ARGS is one empty piece. */
  lemma GeneratorExpression(left: string, name: string, args: Option<string>, right: string,
                            host: Host, params: Json, calls: nat)
    requires Spaces(left) && Spaces(right) && ':' !in name
    requires var text := GeneratorText(name, args); !IsSpace(text[|text| - 1])
    ensures ResolveExpression(left + GeneratorText(name, args) + right, host, params, calls)
         == if name in host.generators
            then
              var pieces := Split(if args.None? then "" else args.value, ',');
              Done(host.generators[name](seq(|pieces|, i requires 0 <= i < |pieces| => Trim(pieces[i])), calls), calls + 1)
            else Failed(UnknownGenerator(name))
  {
    var pieces := Split(if args.None? then "" else args.value, ',');
    assert TrimAll(pieces) == seq(|pieces|, i requires 0 <= i < |pieces| => Trim(pieces[i]));
    GeneratorPrefix(name, args);
    PaddedTrims(left, GeneratorText(name, args), right);
    SpecParts(name, args);
  }

  lemma GeneratorPrefix(name: string, args: Option<string>)
    ensures var text := GeneratorText(name, args);
            text[0] == 'g' && !StartsWith(text, "params.") && StartsWith(text, "gen.")
            && text[|"gen."|..] == name + if args.None? then "" else ":" + args.value
  {
    assert GeneratorText(name, args)[0] == 'g' && "params."[0] == 'p';
  }

  lemma SpecParts(name: string, args: Option<string>)
    requires ':' !in name
    ensures var spec := name + if args.None? then "" else ":" + args.value;
            && IndexOf(spec, ':') == |name| && spec[..|name|] == name
            && (args.None? <==> |spec| == |name|) && (args.Some? ==> spec[|name| + 1..] == args.value)
  {
    var spec := name + if args.None? then "" else ":" + args.value;
    assert spec[..|name|] == name;
    if args.None? { IndexOfAbsent(spec, ':'); } else { IndexOfIs(spec, ':', |name|); }
  }
}
