/** What a printed compose file says when it is read: entry by entry, and which strings it quotes. */
module ComposeDocument {
  import opened Wrappers
  import opened JsonTree
  import opened Text
  import opened Yaml
  import opened DockerRenderer
  import opened ComposeRoundTrip

  // ---- Entries of the document ---------------------------------------------

  predicate DistinctNames(fields: seq<Member>) {
    forall i, j | 0 <= i < j < |fields| :: fields[i].name != fields[j].name
  }

  function Lookup(t: Option<Json>, name: string): Option<Json> {
    if t.Some? && t.value.Obj? then Field(t.value.fields, name) else None
  }

  /** The override lists, none when no overrides are given. */
  function Lists(overrides: Option<Overrides>): Overrides {
    match overrides
    case None => Overrides(None, None)
    case Some(o) => o
  }

  /** An empty list is dropped, an empty map is null, everything else is kept. */
  function Kept(v: Json): Option<Json> {
    if v == Arr([]) then None else if v == Obj([]) then Some(Null) else Some(v)
  }

  /** Of a service's lists only `environment` and `volumes` are expanded. */
  lemma ExpandEntryIs(name: string, v: Json, o: Overrides)
    ensures v.Arr? ==> ExpandEntry(Member("environment", v), o) == Member("environment", Arr(Expand(v.items, o)))
    ensures v.Arr? ==> ExpandEntry(Member("volumes", v), o) == Member("volumes", Arr(Expand(v.items, o)))
    ensures !v.Arr? || (name != "environment" && name != "volumes") ==> ExpandEntry(Member(name, v), o) == Member(name, v)
  {
  }

  /** What stands at a key of a service: expanded at the two keys, and then kept. */
  function ServiceValue(key: string, v: Json, o: Overrides): Option<Json> {
    if v.Arr? && (key == "environment" || key == "volumes") then Kept(Arr(Expand(v.items, o))) else Kept(v)
  }

  lemma {:induction false} FieldAppend(a: seq<Member>, b: seq<Member>, name: string)
    ensures Field(a + b, name) == if Field(a, name).Some? then Field(a, name) else Field(b, name)
  {
    if a == [] {
      assert a + b == b;
    } else {
      assert (a + b)[1..] == a[1..] + b;
      FieldAppend(a[1..], b, name);
    }
  }

  lemma {:induction false} NoField(fields: seq<Member>, o: Overrides, key: string)
    requires forall i | 0 <= i < |fields| :: fields[i].name != key
    ensures Field(fields, key) == None && Field(NormService(fields, o), key) == None && Field(NormTop(fields), key) == None
  {
    if fields != [] {
      NoField(fields[1..], o, key);
      FieldAppend(NormEntry(ExpandEntry(fields[0], o)), NormService(fields[1..], o), key);
      FieldAppend(NormTopEntry(fields[0]), NormTop(fields[1..]), key);
    }
  }

  lemma EntryKept(m: Member, o: Overrides, key: string)
    ensures Field(NormEntry(ExpandEntry(m, o)), key) == if m.name == key then ServiceValue(key, m.value, o) else None
  {
    ExpandEntryIs(m.name, m.value, o);
  }

  lemma {:induction false} ServiceField(fields: seq<Member>, o: Overrides, key: string)
    requires DistinctNames(fields)
    ensures Field(NormService(fields, o), key)
         == if Field(fields, key).Some? then ServiceValue(key, Field(fields, key).value, o) else None
  {
    if fields != [] {
      var head, rest := NormEntry(ExpandEntry(fields[0], o)), fields[1..];
      EntryKept(fields[0], o, key);
      FieldAppend(head, NormService(rest, o), key);
      if fields[0].name == key {
        NoField(rest, o, key);
      } else {
        ServiceField(rest, o, key);
      }
    }
  }

  lemma {:induction false} ServicesField(services: seq<Member>, o: Overrides, name: string)
    ensures Field(NormServices(services, o), name)
         == if Field(services, name).Some? then Some(NormMap(NormService(Entries(Field(services, name).value), o))) else None
  {
    if services != [] {
      ServicesField(services[1..], o, name);
    }
  }

  lemma {:induction false} TopField(fields: seq<Member>, key: string)
    requires DistinctNames(fields)
    ensures Field(NormTop(fields), key)
         == if key == "services" || Field(fields, key).None? || Field(fields, key) == Some(Arr([])) then None else Field(fields, key)
  {
    if fields != [] {
      FieldAppend(NormTopEntry(fields[0]), NormTop(fields[1..]), key);
      if fields[0].name == key {
        NoField(fields[1..], Overrides(None, None), key);
      } else {
        TopField(fields[1..], key);
      }
    }
  }

  /**
   * Reading a printed file and looking up a key of a service: the list at `environment` or `volumes` has its
   * placeholders expanded, an empty list is gone, an empty map is null, everything else is as it was.
   */
  lemma ServiceReadsAs(compose: seq<Member>, overrides: Option<Overrides>, services: seq<Member>, service: string,
                       fields: seq<Member>, key: string)
    requires ComposeOk(compose, SafeOverrides(overrides)) && KeysPlain(Obj(compose))
    requires Field(compose, "services") == Some(Obj(services)) && Field(services, service) == Some(Obj(fields))
    requires DistinctNames(fields) && Field(fields, key).Some?
    ensures var doc := ReadDocument(ComposeText(compose, overrides));
            Lookup(Lookup(Lookup(doc, "services"), service), key)
            == ServiceValue(key, Field(fields, key).value, Lists(overrides))
  {
    var o := SafeOverrides(overrides);
    ComposeReadsBack(compose, overrides);
    FieldAppend([Member("services", NormMap(NormServices(services, o)))], NormTop(compose), "services");
    ServicesField(services, o, service);
    ServiceField(fields, o, key);
  }

  /** Looking up any other key of the file. Without an object under `services` there is none in the document. */
  lemma TopReadsAs(compose: seq<Member>, overrides: Option<Overrides>, key: string)
    requires ComposeOk(compose, SafeOverrides(overrides)) && KeysPlain(Obj(compose)) && DistinctNames(compose)
    ensures var doc := ReadDocument(ComposeText(compose, overrides));
            && (key != "services" ==>
                  Lookup(doc, key) == if Field(compose, key) == Some(Arr([])) then None else Field(compose, key))
            && (Lookup(doc, "services").Some? <==> Field(compose, "services").Some? && Field(compose, "services").value.Obj?)
  {
    ComposeReadsBack(compose, overrides);
    TopField(compose, key);
    TopField(compose, "services");
    if HasServices(compose) {
      var head := [Member("services", NormMap(NormServices(Entries(Field(compose, "services").value), SafeOverrides(overrides))))];
      FieldAppend(head, NormTop(compose), key);
      FieldAppend(head, NormTop(compose), "services");
    } else {
      assert [] + NormTop(compose) == NormTop(compose);
    }
  }

  /** No placeholder is left in an expanded list, unless an override brings it. */
  lemma {:induction false} NoMarkerLeft(items: seq<Json>, o: Overrides, x: Json)
    requires x in Expand(items, o)
    ensures || (x in items && x != Str("<GENERATED_ENV>") && x != Str("<GENERATED_VOLUMES>"))
            || (x.Str? && o.env.Some? && x.s in o.env.value)
            || (x.Str? && o.volumes.Some? && x.s in o.volumes.value)
  {
    var init, last := items[..|items| - 1], items[|items| - 1];
    if x in Expand(init, o) {
      NoMarkerLeft(init, o, x);
    } else {
      assert x in ExpandItem(last, o);
    }
  }

  /** A list in place of a map has its items under their positions; a string its characters; other scalars have nothing. */
  lemma EntriesMean(fields: seq<Member>, items: seq<Json>, s: string, t: Json, i: nat)
    ensures Entries(Obj(fields)) == fields
    ensures i < |items| ==> Field(Entries(Arr(items)), Decimal(i)) == Some(items[i])
    ensures |Entries(Arr(items))| == |items|
    ensures i < |s| ==> Entries(Str(s))[i] == Member(Decimal(i), Str([s[i]]))
    ensures t.Null? || t.Bool? || t.Num? ==> Entries(t) == []
  {
    if i < |items| {
      var all := Entries(Arr(items));
      forall k | 0 <= k < i ensures all[..i][k].name != Decimal(i) {
        DecimalDenotes(k);
        DecimalDenotes(i);
      }
      FieldIs(all[..i], Decimal(i), items[i], all[i + 1..]);
      assert all == all[..i] + [Member(Decimal(i), items[i])] + all[i + 1..];
    }
  }

  // ---- Which strings are quoted --------------------------------------------

  /** A sign or none, digits, and a point with digits or none. */
  ghost predicate DecimalText(s: string) {
    exists sign: string, whole: string, fraction: string ::
      && s == sign + whole + fraction && (sign == "" || sign == "-") && AllDigits(whole)
      && (fraction == "" || (fraction[0] == '.' && AllDigits(fraction[1..])))
  }

  /** The unsigned part: digits, and a fraction or none. */
  lemma UnsignedParts(t: string) returns (whole: string, fraction: string)
    requires var dot := IndexOf(t, '.'); if dot == |t| then AllDigits(t) else AllDigits(t[..dot]) && AllDigits(t[dot + 1..])
    ensures t == whole + fraction && AllDigits(whole)
    ensures fraction == "" || (fraction[0] == '.' && AllDigits(fraction[1..]))
  {
    var dot := IndexOf(t, '.');
    if dot == |t| {
      whole, fraction := t, "";
    } else {
      whole, fraction := t[..dot], t[dot..];
      assert fraction[1..] == t[dot + 1..];
    }
  }

  lemma SignedDecimalText(sign: string, whole: string, fraction: string)
    requires (sign == "" || sign == "-") && AllDigits(whole)
    requires fraction == "" || (fraction[0] == '.' && AllDigits(fraction[1..]))
    ensures DecimalText(sign + (whole + fraction))
  {
    assert sign + (whole + fraction) == sign + whole + fraction;
  }

  lemma DecimalIsText(s: string)
    requires IsDecimal(s)
    ensures DecimalText(s)
  {
    if StartsWith(s, "-") {
      var whole, fraction := UnsignedParts(s[1..]);
      SignedDecimalText("-", whole, fraction);
      assert s == "-" + s[1..];
    } else {
      var whole, fraction := UnsignedParts(s);
      SignedDecimalText("", whole, fraction);
      assert s == "" + s;
    }
  }

  lemma TextIsDecimal(sign: string, whole: string, fraction: string)
    requires (sign == "" || sign == "-") && AllDigits(whole)
    requires fraction == "" || (fraction[0] == '.' && AllDigits(fraction[1..]))
    ensures IsDecimal(sign + whole + fraction)
  {
    var s, t := sign + whole + fraction, whole + fraction;
    assert s[0] == if sign == "" then whole[0] else '-';
    assert (if StartsWith(s, "-") then s[1..] else s) == t;
    assert t[..|whole|] == whole;
    if fraction == "" {
      assert t == whole;
      IndexOfAbsent(t, '.');
    } else {
      IndexOfIs(t, '.', |whole|);
      assert t[|whole| + 1..] == fraction[1..];
    }
  }

  /** The strings that are printed in quotes, spelled out. */
  ghost predicate MustQuote(s: string, inList: bool) {
    || s == "" || s == "true" || s == "false" || s == "null" || DecimalText(s)
    || ':' in s || '#' in s || '@' in s || '&' in s || '*' in s || '!' in s || '|' in s || '>' in s
    || '\'' in s || '"' in s || '%' in s || '`' in s
    || (inList && (IsSpace(s[0]) || IsSpace(s[|s| - 1])))
  }

  lemma QuoteCharsAre(s: string)
    ensures HasQuoteChar(s) <==>
      || ':' in s || '#' in s || '@' in s || '&' in s || '*' in s || '!' in s || '|' in s || '>' in s
      || '\'' in s || '"' in s || '%' in s || '`' in s
  {
    var chars := ":#@&*!|>'\"%`";
    assert chars[0] == ':' && chars[1] == '#' && chars[2] == '@' && chars[3] == '&' && chars[4] == '*' && chars[5] == '!';
    assert chars[6] == '|' && chars[7] == '>' && chars[8] == '\'' && chars[9] == '"' && chars[10] == '%' && chars[11] == '`';
    forall c: char | c in s && c in chars ensures HasQuoteChar(s) {
      var i :| 0 <= i < |s| && s[i] == c;
    }
  }

  /** Exactly these strings are quoted, with their double quotes escaped; every other string is printed as it is. */
  lemma QuotingRule(s: string, inList: bool)
    ensures QuoteIfNeeded(Str(s), inList) == if MustQuote(s, inList) then "\"" + EscapeQuotes(s) + "\"" else s
  {
    QuoteCharsAre(s);
    if IsDecimal(s) { DecimalIsText(s); }
    if DecimalText(s) {
      var sign: string, whole: string, fraction: string :|
        && s == sign + whole + fraction && (sign == "" || sign == "-") && AllDigits(whole)
        && (fraction == "" || (fraction[0] == '.' && AllDigits(fraction[1..])));
      TextIsDecimal(sign, whole, fraction);
    }
  }

  /** The text of values that are no scalars: items joined by commas, null as nothing, and objects anonymously. */
  lemma {:induction false} NestedText(items: seq<Json>, last: Json, fields: seq<Member>)
    ensures StringOf(Obj(fields)) == "[object Object]"
    ensures StringOf(Arr([])) == ""
    ensures StringOf(Arr(items + [last]))
         == StringOf(Arr(items)) + (if items == [] then "" else ",") + (if last.Null? then "" else StringOf(last))
    decreases |items|
  {
    var all := items + [last];
    if items == [] {
      assert all[0] == last;
    } else {
      assert all[1..] == items[1..] + [last];
      NestedText(items[1..], last, fields);
    }
  }
}
