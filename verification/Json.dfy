/** JSON documents as the program handles them after `JSON.parse`. */
module JsonTree {
  import opened Wrappers

  /**
   * Objects keep their fields in insertion order; field names are distinct in
   * every document that `JSON.parse` returns. A number is represented by the
   * text that `String(n)` gives for it.
   */
  datatype Json =
    | Null
    | Bool(b: bool)
    | Num(text: string)
    | Str(s: string)
    | Arr(items: seq<Json>)
    | Obj(fields: seq<Member>)

  datatype Member = Member(name: string, value: Json)

  function Field(fields: seq<Member>, name: string): Option<Json> {
    if fields == [] then None
    else if fields[0].name == name then Some(fields[0].value)
    else Field(fields[1..], name)
  }

  /** A field is the first member of that name. */
  lemma {:induction false} FieldIs(before: seq<Member>, name: string, value: Json, after: seq<Member>)
    requires forall i | 0 <= i < |before| :: before[i].name != name
    ensures Field(before, name) == None
    ensures Field(before + [Member(name, value)] + after, name) == Some(value)
  {
    var all := before + [Member(name, value)] + after;
    if before != [] {
      assert all[1..] == before[1..] + [Member(name, value)] + after;
      FieldIs(before[1..], name, value, after);
    }
  }

  /** `o[name] = value` on an ordered object. */
  function SetField(fields: seq<Member>, name: string, value: Json): seq<Member> {
    if fields == [] then [Member(name, value)]
    else if fields[0].name == name then [Member(name, value)] + fields[1..]
    else [fields[0]] + SetField(fields[1..], name, value)
  }

  lemma {:induction false} FieldAfterSet(fields: seq<Member>, name: string, value: Json, other: string)
    ensures Field(SetField(fields, name, value), other) == if other == name then Some(value) else Field(fields, other)
  {
    if fields != [] && fields[0].name != name {
      FieldAfterSet(fields[1..], name, value, other);
    }
  }

  /** The decimal text of an array index or length. */
  function Decimal(n: nat): (s: string)
    ensures |s| > 0
  {
    if n < 10 then [Digit(n)] else Decimal(n / 10) + [Digit(n % 10)]
  }

  function Digit(d: nat): char
    requires d < 10
  {
    '0' + d as char
  }

  /** Position whose decimal text is `name`, searched from `from`. */
  function IndexNamed(name: string, from: nat, size: nat): (r: Option<nat>)
    ensures r.Some? ==> from <= r.value < size
    decreases size - from
  {
    if from >= size then None
    else if Decimal(from) == name then Some(from)
    else IndexNamed(name, from + 1, size)
  }

  /** The number that a text of digits denotes. */
  function Denoted(s: string): int {
    if s == "" then 0 else Denoted(s[..|s| - 1]) * 10 + (s[|s| - 1] as int - 48)
  }

  /** Decimal texts have digits only, no leading zero, and denote their number. */
  lemma {:induction false} DecimalDenotes(n: nat)
    ensures Denoted(Decimal(n)) == n
    ensures forall i | 0 <= i < |Decimal(n)| :: 48 <= Decimal(n)[i] as int <= 57
    ensures Decimal(n)[0] == '0' ==> n == 0
  {
    var s := Decimal(n);
    if n < 10 {
      assert s[..0] == "";
      assert Denoted(s) == Denoted(s[..0]) * 10 + (s[0] as int - 48);
    } else {
      DecimalDenotes(n / 10);
      assert s[..|s| - 1] == Decimal(n / 10);
    }
  }

  /** The position a name stands for is the one whose decimal text it is. */
  lemma {:induction false} IndexNamedIs(i: nat, from: nat, size: nat)
    requires from <= i
    ensures IndexNamed(Decimal(i), from, size) == if i < size then Some(i) else None
    decreases size - from
  {
    if from < size {
      DecimalDenotes(from);
      DecimalDenotes(i);
      if from < i { IndexNamedIs(i, from + 1, size); }
    }
    if from >= size {
      assert IndexNamed(Decimal(i), from, size) == None;
    } else if i >= size {
      assert Decimal(from) != Decimal(i);
    }
  }

  lemma {:induction false} IndexNamedNone(name: string, from: nat, size: nat)
    requires forall i: nat :: Decimal(i) != name
    ensures IndexNamed(name, from, size) == None
    decreases size - from
  {
    if from < size {
      assert Decimal(from) != name;
      IndexNamedNone(name, from + 1, size);
    }
  }
}
