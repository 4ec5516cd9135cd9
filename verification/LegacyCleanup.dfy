/** Re-pointing references from legacy template ids (src/db/seed.ts). */
module LegacyCleanup {
  import opened Wrappers

  /** A node's two template references. */
  datatype NodeRefs = NodeRefs(server: Option<string>, docker: Option<string>)

  datatype Tables = Tables(
    templates: set<string>,
    subscriptions: map<string, Option<string>>,
    nodes: map<string, NodeRefs>
  )

  datatype Pair = Pair(legacy: string, current: string)

  const LEGACY_TO_CURRENT: seq<Pair> := [
    Pair("server/default", "server-default"),
    Pair("client/default", "client-default"),
    Pair("docker/default", "docker-default"),
    Pair("default-server", "server-default"),
    Pair("default-client", "client-default"),
    Pair("default-docker", "docker-default")
  ]

  /** The column update `SET ref = current WHERE ref = legacy`. */
  function Repoint(ref: Option<string>, pair: Pair): Option<string> {
    if ref == Some(pair.legacy) then Some(pair.current) else ref
  }

  /** The four statements for one pair. */
  function Apply(t: Tables, pair: Pair): Tables {
    Tables(
      t.templates - {pair.legacy},
      map s | s in t.subscriptions :: Repoint(t.subscriptions[s], pair),
      map n | n in t.nodes :: NodeRefs(Repoint(t.nodes[n].server, pair), Repoint(t.nodes[n].docker, pair)))
  }

  class Database {
    var templates: set<string>
    var subscriptions: map<string, Option<string>>
    var nodes: map<string, NodeRefs>

    function Contents(): Tables
      reads this
    {
      Tables(templates, subscriptions, nodes)
    }

    /** The three updates and the delete for one pair. */
    method Statements(pair: Pair)
      modifies this
      ensures Contents() == Apply(old(Contents()), pair)
    {
      subscriptions := map s | s in subscriptions :: Repoint(subscriptions[s], pair);
      nodes := map n | n in nodes :: nodes[n].(server := Repoint(nodes[n].server, pair));
      nodes := map n | n in nodes :: nodes[n].(docker := Repoint(nodes[n].docker, pair));
      templates := templates - {pair.legacy};
    }

    method CleanupLegacyTemplates(pairs: seq<Pair>)
      requires Apart(pairs)
      modifies this
      ensures Contents() == RenameAll(old(Contents()), pairs)
    {
      ghost var start := Contents();
      RenameNothing(start);
      for i := 0 to |pairs|
        invariant Contents() == RenameAll(start, pairs[..i])
      {
        var pair := pairs[i];
        AddPair(start, pairs, i);
        if pair.current !in templates { continue; }
        Statements(pair);
      }
      assert pairs[..|pairs|] == pairs;
    }
  }

  /** Legacy ids are distinct and none of them is a current id. */
  ghost predicate Apart(pairs: seq<Pair>) {
    && (forall i, j | 0 <= i < j < |pairs| :: pairs[i].legacy != pairs[j].legacy)
    && (forall i, j | 0 <= i < |pairs| && 0 <= j < |pairs| :: pairs[i].legacy != pairs[j].current)
  }

  /** A few characters that tell the shipped ids apart, as a number. */
  function Mark(s: string): int {
    if |s| != 14 then 0
    else if s[6] == '-' then (if s[0] == 's' then 1 else if s[0] == 'c' then 2 else 3)
    else if s[6] == '/' then (if s[0] == 's' then 4 else if s[0] == 'c' then 5 else 6)
    else if s[8] == 's' then 7 else if s[8] == 'c' then 8 else 9
  }

  lemma ShippedMarks()
    ensures var p := LEGACY_TO_CURRENT;
            && |p| == 6
            && Mark(p[0].legacy) == 4 && Mark(p[1].legacy) == 5 && Mark(p[2].legacy) == 6
            && Mark(p[3].legacy) == 7 && Mark(p[4].legacy) == 8 && Mark(p[5].legacy) == 9
            && (forall i | 0 <= i < 6 :: Mark(p[i].current) == i % 3 + 1)
  {
  }

  /** For each role the path-style and the dash-style id, in that order, and the id of today. */
  lemma ShippedPairs(i: nat)
    requires i < 3
    ensures var role := ["server", "client", "docker"][i];
            && LEGACY_TO_CURRENT[i] == Pair(role + "/default", role + "-default")
            && LEGACY_TO_CURRENT[i + 3] == Pair("default-" + role, role + "-default")
            && |LEGACY_TO_CURRENT| == 6
  {
    if i == 0 {
      RoleTexts("server", LEGACY_TO_CURRENT[0], LEGACY_TO_CURRENT[3]);
    } else if i == 1 {
      RoleTexts("client", LEGACY_TO_CURRENT[1], LEGACY_TO_CURRENT[4]);
    } else {
      RoleTexts("docker", LEGACY_TO_CURRENT[2], LEGACY_TO_CURRENT[5]);
    }
  }

  lemma RoleTexts(role: string, path: Pair, dash: Pair)
    requires path.legacy[..] == role + "/default" && path.current[..] == role + "-default"
    requires dash.legacy[..] == "default-" + role && dash.current[..] == role + "-default"
    ensures path == Pair(role + "/default", role + "-default") && dash == Pair("default-" + role, role + "-default")
  {
  }

  lemma ShippedPairsAreApart()
    ensures Apart(LEGACY_TO_CURRENT)
  {
    ShippedMarks();
    MarksApart(LEGACY_TO_CURRENT);
  }

  lemma MarksApart(p: seq<Pair>)
    requires forall i | 0 <= i < |p| :: Mark(p[i].legacy) == i + 4 && Mark(p[i].current) < 4
    ensures Apart(p)
  {
    forall i, j | 0 <= i < j < |p| ensures p[i].legacy != p[j].legacy {
      assert Mark(p[i].legacy) != Mark(p[j].legacy);
    }
  }

  // ---- One simultaneous renaming -------------------------------------------

  /** Legacy ids whose replacement exists. */
  function Renamed(templates: set<string>, pairs: seq<Pair>): set<string> {
    set p | p in pairs && p.current in templates :: p.legacy
  }

  function Target(pairs: seq<Pair>, legacy: string): string {
    if pairs == [] then legacy
    else if pairs[0].legacy == legacy then pairs[0].current
    else Target(pairs[1..], legacy)
  }

  function Rename(ref: Option<string>, templates: set<string>, pairs: seq<Pair>): Option<string> {
    if ref.Some? && ref.value in Renamed(templates, pairs) then Some(Target(pairs, ref.value)) else ref
  }

  /** All references renamed at once, against the templates as they were; renamed templates deleted. */
  function RenameAll(t: Tables, pairs: seq<Pair>): Tables {
    Tables(
      t.templates - Renamed(t.templates, pairs),
      map s | s in t.subscriptions :: Rename(t.subscriptions[s], t.templates, pairs),
      map n | n in t.nodes ::
        NodeRefs(Rename(t.nodes[n].server, t.templates, pairs), Rename(t.nodes[n].docker, t.templates, pairs)))
  }

  lemma RenameNothing(t: Tables)
    ensures RenameAll(t, []) == t
  {
    assert Renamed(t.templates, []) == {};
    assert forall ref :: Rename(ref, t.templates, []) == ref;
  }

  lemma {:induction false} TargetIs(pairs: seq<Pair>, i: nat)
    requires Apart(pairs) && i < |pairs|
    ensures Target(pairs, pairs[i].legacy) == pairs[i].current
  {
    if i > 0 {
      assert Apart(pairs[1..]);
      TargetIs(pairs[1..], i - 1);
    }
  }

  lemma PrefixTarget(pairs: seq<Pair>, n: nat, j: nat)
    requires Apart(pairs) && j < n <= |pairs|
    ensures Target(pairs[..n], pairs[j].legacy) == pairs[j].current
  {
    assert Apart(pairs[..n]);
    TargetIs(pairs[..n], j);
  }

  lemma RenamedStep(templates: set<string>, pairs: seq<Pair>, i: nat)
    requires i < |pairs|
    ensures Renamed(templates, pairs[..i + 1])
         == Renamed(templates, pairs[..i]) + if pairs[i].current in templates then {pairs[i].legacy} else {}
  {
    assert pairs[..i + 1] == pairs[..i] + [pairs[i]];
  }

  /** Renaming one reference by the first i + 1 pairs is renaming by the first i, then by the last. */
  lemma RenameStep(ref: Option<string>, templates: set<string>, pairs: seq<Pair>, i: nat)
    requires Apart(pairs) && i < |pairs|
    ensures Rename(ref, templates, pairs[..i + 1])
         == var before := Rename(ref, templates, pairs[..i]);
            if pairs[i].current in templates then Repoint(before, pairs[i]) else before
  {
    RenamedStep(templates, pairs, i);
    if ref.Some? && ref.value in Renamed(templates, pairs[..i]) {
      var p :| p in pairs[..i] && p.current in templates && p.legacy == ref.value;
      var j :| 0 <= j < i && pairs[j] == p;
      PrefixTarget(pairs, i, j);
      PrefixTarget(pairs, i + 1, j);
    } else if ref.Some? && ref.value == pairs[i].legacy {
      PrefixTarget(pairs, i + 1, i);
    }
  }

  /** One more pair, applied one statement after the other, as the loop does. */
  lemma AddPair(t: Tables, pairs: seq<Pair>, i: nat)
    requires Apart(pairs) && i < |pairs|
    ensures var before, after, pair := RenameAll(t, pairs[..i]), RenameAll(t, pairs[..i + 1]), pairs[i];
            && (pair.current in before.templates <==> pair.current in t.templates)
            && after == if pair.current in before.templates then Apply(before, pair) else before
  {
    var pair := pairs[i];
    RenamedStep(t.templates, pairs, i);
    forall p | p in pairs[..i] ensures p.legacy != pair.current {
      var j :| 0 <= j < i && pairs[j] == p;
    }
    forall ref {
      RenameStep(ref, t.templates, pairs, i);
    }
  }

  // ---- What the renaming achieves ------------------------------------------

  /** The order of the pairs does not matter. */
  lemma OrderDoesNotMatter(t: Tables, a: seq<Pair>, b: seq<Pair>)
    requires Apart(a) && Apart(b) && forall p :: p in a <==> p in b
    ensures RenameAll(t, a) == RenameAll(t, b)
  {
    assert Renamed(t.templates, a) == Renamed(t.templates, b);
    forall ref ensures Rename(ref, t.templates, a) == Rename(ref, t.templates, b) {
      if ref.Some? && ref.value in Renamed(t.templates, a) {
        var p :| p in a && p.current in t.templates && p.legacy == ref.value;
        var i :| 0 <= i < |a| && a[i] == p;
        var j :| 0 <= j < |b| && b[j] == p;
        TargetIs(a, i);
        TargetIs(b, j);
      }
    }
  }

  lemma RenamedAway(ref: Option<string>, templates: set<string>, pairs: seq<Pair>)
    requires Apart(pairs)
    ensures var r := Rename(ref, templates, pairs);
            && (r.Some? ==> r.value !in Renamed(templates, pairs))
            && (ref.Some? && ref.value in templates ==> r.Some? && r.value in templates)
  {
    if ref.Some? && ref.value in Renamed(templates, pairs) {
      var p :| p in pairs && p.current in templates && p.legacy == ref.value;
      var i :| 0 <= i < |pairs| && pairs[i] == p;
      TargetIs(pairs, i);
    }
  }

  lemma RenamedAgain(templates: set<string>, pairs: seq<Pair>)
    requires Apart(pairs)
    ensures Renamed(templates - Renamed(templates, pairs), pairs) == Renamed(templates, pairs)
  {
    forall p | p in pairs ensures p.current !in Renamed(templates, pairs) {
      var i :| 0 <= i < |pairs| && pairs[i] == p;
    }
  }

  /** Running the cleanup again changes nothing. */
  lemma CleanupIsIdempotent(t: Tables, pairs: seq<Pair>)
    requires Apart(pairs)
    ensures RenameAll(RenameAll(t, pairs), pairs) == RenameAll(t, pairs)
  {
    RenamedAgain(t.templates, pairs);
    forall ref {
      RenamedAway(ref, t.templates, pairs);
    }
    assert (t.templates - Renamed(t.templates, pairs)) - Renamed(t.templates, pairs) == t.templates - Renamed(t.templates, pairs);
  }

  ghost predicate Resolves(ref: Option<string>, templates: set<string>) {
    ref.Some? && ref.value in templates
  }

  /** No reference to a legacy id whose replacement exists is left, and every reference that resolved still does. */
  lemma CleanupKeepsReferences(t: Tables, pairs: seq<Pair>)
    requires Apart(pairs)
    ensures var after := RenameAll(t, pairs);
            && (forall s | s in t.subscriptions ::
                  && !Resolves(after.subscriptions[s], Renamed(t.templates, pairs))
                  && (Resolves(t.subscriptions[s], t.templates) ==> Resolves(after.subscriptions[s], after.templates)))
            && (forall n | n in t.nodes ::
                  && !Resolves(after.nodes[n].server, Renamed(t.templates, pairs))
                  && !Resolves(after.nodes[n].docker, Renamed(t.templates, pairs))
                  && (Resolves(t.nodes[n].server, t.templates) ==> Resolves(after.nodes[n].server, after.templates))
                  && (Resolves(t.nodes[n].docker, t.templates) ==> Resolves(after.nodes[n].docker, after.templates)))
  {
    forall ref ensures var r := Rename(ref, t.templates, pairs);
      && !Resolves(r, Renamed(t.templates, pairs))
      && (Resolves(ref, t.templates) ==> Resolves(r, t.templates - Renamed(t.templates, pairs)))
    {
      RenamedAway(ref, t.templates, pairs);
    }
  }
}
