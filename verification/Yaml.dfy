/**
 * A small reader for block-style YAML: maps, lists of scalars, plain and double-quoted scalars, with the
 * core schema's words and numbers. It rejects plain text that starts with an indicator or holds a colon or
 * a comment sign, and keys that are no strings.
 */
module Yaml {
  import opened Wrappers
  import opened JsonTree
  import opened Text

  // ---- Scalars -------------------------------------------------------------

  predicate AllDigits(s: string) {
    |s| > 0 && forall i | 0 <= i < |s| :: '0' <= s[i] <= '9'
  }

  /** How far a decimal number has been read. */
  datatype Scan = Start | Signed | Whole | Point | Fraction | Mark | MarkSigned | Power

  function Move(at: Scan, c: char): Option<Scan> {
    if '0' <= c <= '9' then
      Some(match at
           case Start | Signed | Whole => Whole
           case Point | Fraction => Fraction
           case Mark | MarkSigned | Power => Power)
    else if c == '.' then
      (match at
       case Start | Signed => Some(Point)
       case Whole => Some(Fraction)
       case _ => None)
    else if c == '+' || c == '-' then
      (match at
       case Start => Some(Signed)
       case Mark => Some(MarkSigned)
       case _ => None)
    else if (c == 'e' || c == 'E') && (at.Whole? || at.Fraction?) then Some(Mark)
    else None
  }

  /** `[-+]?(\.[0-9]+|[0-9]+(\.[0-9]*)?)([eE][-+]?[0-9]+)?` from where the reading stands. */
  predicate IsFloat(at: Scan, s: string)
    decreases |s|
  {
    if s == "" then at.Whole? || at.Fraction? || at.Power?
    else Move(at, s[0]).Some? && IsFloat(Move(at, s[0]).value, s[1..])
  }

  /** Octal and hexadecimal numbers. */
  predicate IsRadix(s: string) {
    |s| > 2 && s[0] == '0' && forall i | 2 <= i < |s| :: IsRadixDigit(s[1], s[i])
  }

  predicate IsRadixDigit(radix: char, c: char) {
    || (radix == 'o' && '0' <= c <= '7')
    || (radix == 'x' && ('0' <= c <= '9' || 'a' <= c <= 'f' || 'A' <= c <= 'F'))
  }

  predicate IsInfinity(s: string) {
    s == "inf" || s == "Inf" || s == "INF"
  }

  predicate IsSpecial(s: string) {
    || (|s| == 4 && s[0] == '.' && (IsInfinity(s[1..]) || s[1..] == "nan" || s[1..] == "NaN" || s[1..] == "NAN"))
    || (|s| == 5 && (s[0] == '+' || s[0] == '-') && s[1] == '.' && IsInfinity(s[2..]))
  }

  /** What the core schema reads as a number (section 10.3.2 of YAML 1.2.2). */
  predicate IsNumber(s: string) {
    IsFloat(Start, s) || IsRadix(s) || IsSpecial(s)
  }

  predicate IsNullWord(s: string) {
    s == "" || s == "null" || s == "Null" || s == "NULL" || s == "~"
  }

  predicate IsTrueWord(s: string) {
    s == "true" || s == "True" || s == "TRUE"
  }

  predicate IsFalseWord(s: string) {
    s == "false" || s == "False" || s == "FALSE"
  }

  predicate IsBlank(c: char) {
    c == ' ' || c == '\t'
  }

  function TrimBlanks(s: string): (r: string)
    ensures |r| <= |s|
    ensures r != "" ==> !IsBlank(r[0]) && !IsBlank(r[|r| - 1])
    decreases |s|
  {
    if s == "" then s
    else if IsBlank(s[0]) then TrimBlanks(s[1..])
    else if IsBlank(s[|s| - 1]) then TrimBlanks(s[..|s| - 1])
    else s
  }

  function Unescape(c: char): Option<char> {
    if c == '"' || c == '\\' || c == '/' then Some(c)
    else if c == 'n' then Some('\n')
    else if c == 't' then Some('\t')
    else None
  }

  /** The text after an opening double quote, up to a closing quote that must end it. */
  function Unquote(t: string): Option<string> {
    if t == "" then None
    else if t[0] == '"' then (if |t| == 1 then Some("") else None)
    else if t[0] == '\\' then
      if |t| < 2 || Unescape(t[1]).None? then None else
        var rest := Unquote(t[2..]);
        if rest.None? then None else Some([Unescape(t[1]).value] + rest.value)
    else
      var rest := Unquote(t[1..]);
      if rest.None? then None else Some([t[0]] + rest.value)
  }

  /** Text that YAML would not read as a plain string. */
  predicate StartsWithIndicator(s: string) {
    s != "" && (s[0] in "[]{},&*!|>'\"%@`" || (s[0] in "-?" && (|s| == 1 || s[1] == ' ')))
  }

  function ReadScalar(text: string): Option<Json> {
    var t := TrimBlanks(text);
    if IsNullWord(t) then Some(Null)
    else if IsTrueWord(t) then Some(Bool(true))
    else if IsFalseWord(t) then Some(Bool(false))
    else if IsNumber(t) then Some(Num(t))
    else if t[0] == '"' then
      var s := Unquote(t[1..]);
      if s.None? then None else Some(Str(s.value))
    else if StartsWithIndicator(t) || ':' in t || '#' in t then None
    else Some(Str(t))
  }

  // ---- Lines ---------------------------------------------------------------

  datatype Line =
    | Item(indent: nat, value: Json)
    | Header(indent: nat, key: string)
    | Entry(indent: nat, key: string, value: Json)
    | Unreadable(indent: nat)

  function ItemLine(n: nat, text: string): Line {
    var v := ReadScalar(text);
    if v.None? then Unreadable(n) else Item(n, v.value)
  }

  function EntryLine(n: nat, key: string, text: string): Line {
    var v := ReadScalar(text);
    if v.None? then Unreadable(n) else Entry(n, key, v.value)
  }

  function Indent(line: string): (n: nat)
    ensures n <= |line|
  {
    if line != "" && line[0] == ' ' then 1 + Indent(line[1..]) else 0
  }

  function ParseLine(line: string): Line {
    var n := Indent(line);
    var body := line[n..];
    if StartsWith(body, "- ") then ItemLine(n, body[2..]) else
      var colon := IndexOf(body, ':');
      if colon == |body| then Unreadable(n)
      else if colon + 1 == |body| then Header(n, body[..colon])
      else if body[colon + 1] == ' ' then EntryLine(n, body[..colon], body[colon + 2..])
      else Unreadable(n)
  }

  function ParseLines(lines: seq<string>): seq<Line> {
    if lines == [] then []
    else if TrimBlanks(lines[0]) == "" then ParseLines(lines[1..])
    else [ParseLine(lines[0])] + ParseLines(lines[1..])
  }

  // ---- Blocks --------------------------------------------------------------

  datatype Block<T> = Block(value: T, rest: seq<Line>)

  function ReadList(lines: seq<Line>, indent: nat): (r: Option<Block<seq<Json>>>)
    ensures r.Some? ==> |r.value.rest| <= |lines|
  {
    if lines == [] || lines[0].indent < indent then Some(Block([], lines))
    else if lines[0].indent > indent || !lines[0].Item? then None
    else
      var tail := ReadList(lines[1..], indent);
      if tail.None? then None else Some(Block([lines[0].value] + tail.value.value, tail.value.rest))
  }

  /** The entries at one indentation. */
  function ReadMap(lines: seq<Line>, indent: nat): (r: Option<Block<seq<Member>>>)
    ensures r.Some? ==> |r.value.rest| <= |lines|
    decreases |lines|, 0
  {
    if lines == [] || lines[0].indent < indent then Some(Block([], lines))
    else if lines[0].indent > indent then None
    else
      match lines[0]
      case Entry(_, key, value) =>
        var tail := ReadMap(lines[1..], indent);
        if tail.None? then None else Some(Block([Member(key, value)] + tail.value.value, tail.value.rest))
      case Header(_, key) =>
        var child := ReadChild(lines[1..], indent);
        if child.None? then None else
          var tail := ReadMap(child.value.rest, indent);
          if tail.None? then None
          else Some(Block([Member(key, child.value.value)] + tail.value.value, tail.value.rest))
      case _ => None
  }

  /** What a `key:` line at `indent` introduces; nothing deeper means null. */
  function ReadChild(lines: seq<Line>, indent: nat): (r: Option<Block<Json>>)
    ensures r.Some? ==> |r.value.rest| <= |lines|
    decreases |lines|, 1
  {
    if lines == [] || lines[0].indent <= indent then Some(Block(Null, lines))
    else if lines[0].Item? then
      var list := ReadList(lines, lines[0].indent);
      if list.None? then None else Some(Block(Arr(list.value.value), list.value.rest))
    else
      var m := ReadMap(lines, lines[0].indent);
      if m.None? then None else Some(Block(Obj(m.value.value), m.value.rest))
  }

  /** A key is a bare text that reads as that same string. */
  predicate KeyReads(line: Line) {
    (line.Header? || line.Entry?) ==> ReadScalar(line.key) == Some(Str(line.key))
  }

  predicate KeysRead(lines: seq<Line>) {
    forall i | 0 <= i < |lines| :: KeyReads(lines[i])
  }

  function ReadDocument(text: string): Option<Json> {
    var lines := ParseLines(Split(text, '\n'));
    var m := ReadMap(lines, 0);
    if m.None? || m.value.rest != [] || !KeysRead(lines) then None else Some(Obj(m.value.value))
  }
}
