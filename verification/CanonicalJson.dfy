/** The canonical JSON text whose SHA-256 is the worker output digest. */
module CanonicalJson {
  import opened Basics
  import Utf16Order
  import opened Sorting

  /** A JavaScript number. A finite value other than -0 is identified by its
      shortest decimal text, which is what String(value) returns. */
  datatype Number = Finite(text: string) | NegativeZero | NonFinite

  datatype Field = Field(key: string, value: Json)

  /** Any value the printer may be handed; `Opaque` stands for functions, symbols
      and big integers. Object fields keep their insertion order. */
  datatype Json =
    | Null
    | Bool(b: bool)
    | Num(n: Number)
    | Str(s: string)
    | Arr(items: seq<Json>)
    | Obj(fields: seq<Field>)
    | Undefined
    | Opaque

  predicate NumberChar(c: char) {
    '0' <= c <= '9' || c == '-' || c == '+' || c == '.' || c == 'e' || c == 'E'
  }

  /** The part of the RFC 8259 section 6 number grammar that separates a number
      from its neighbours. */
  predicate NumberText(t: string) {
    t != "" && ('0' <= t[0] <= '9' || t[0] == '-') && forall i :: 0 <= i < |t| ==> NumberChar(t[i])
  }

  predicate DistinctKeys(fields: seq<Field>) {
    forall i, j :: 0 <= i < j < |fields| ==> fields[i].key != fields[j].key
  }

  /** What every JavaScript value satisfies: object keys are distinct and finite
      numbers print as number text. */
  predicate WellFormed(v: Json) {
    match v
    case Num(Finite(t)) => NumberText(t)
    case Arr(items) => forall i :: 0 <= i < |items| ==> WellFormed(items[i])
    case Obj(fields) => DistinctKeys(fields) && forall i :: 0 <= i < |fields| ==> WellFormed(fields[i].value)
    case _ => true
  }

  // ---------------------------------------------------------------- printing

  function HexDigit(n: int): char
    requires 0 <= n < 16
  {
    "0123456789abcdef"[n]
  }

  function EscapeChar(c: char): string {
    if c == '"' then "\\\""
    else if c == '\\' then "\\\\"
    else if c == '\n' then "\\n"
    else if c == '\r' then "\\r"
    else if c == '\t' then "\\t"
    else if c as int == 8 then "\\b"
    else if c as int == 12 then "\\f"
    else if c as int < 0x20 then "\\u00" + [HexDigit(c as int / 16), HexDigit(c as int % 16)]
    else [c]
  }

  function Escape(s: string): string {
    if s == "" then "" else EscapeChar(s[0]) + Escape(s[1..])
  }

  /** JSON.stringify of a string. */
  function Quote(s: string): string {
    "\"" + Escape(s) + "\""
  }

  function Join(parts: seq<string>): string {
    if parts == [] then ""
    else if |parts| == 1 then parts[0]
    else parts[0] + "," + Join(parts[1..])
  }

  predicate KeyLess(a: (string, string), b: (string, string)) {
    Utf16Order.Less(a.0, b.0)
  }

  function FieldText(f: (string, string)): string {
    Quote(f.0) + ":" + f.1
  }

  /** canonicalJson; None where the source throws. */
  function CanonicalJson(v: Json): Option<string>
    decreases v, 1
  {
    match v
    case Null => Some("null")
    case Bool(b) => Some(if b then "true" else "false")
    case Num(Finite(t)) => Some(t)
    case Num(NegativeZero) => Some("0")
    case Num(NonFinite) => None
    case Str(s) => Some(Quote(s))
    case Arr(items) =>
      var texts := PrintItems(items);
      if texts.None? then None else Some("[" + Join(texts.value) + "]")
    case Obj(fields) =>
      var texts := PrintFields(fields);
      if texts.None? then None
      else Some("{" + Join(Map(FieldText, Sort(texts.value, KeyLess))) + "}")
    case Undefined => None
    case Opaque => None
  }

  function PrintItems(items: seq<Json>): Option<seq<string>>
    decreases items, 0
  {
    if items == [] then Some([])
    else
      var head := CanonicalJson(items[0]);
      var tail := PrintItems(items[1..]);
      if head.None? || tail.None? then None else Some([head.value] + tail.value)
  }

  /** Key and printed value of every field that is not undefined. */
  function PrintFields(fields: seq<Field>): Option<seq<(string, string)>>
    decreases fields, 0
  {
    if fields == [] then Some([])
    else if fields[0].value.Undefined? then PrintFields(fields[1..])
    else
      var head := CanonicalJson(fields[0].value);
      var tail := PrintFields(fields[1..]);
      if head.None? || tail.None? then None else Some([(fields[0].key, head.value)] + tail.value)
  }

  // ------------------------------------------------------------ normal forms

  predicate FieldLess(a: Field, b: Field) {
    Utf16Order.Less(a.key, b.key)
  }

  /** Equality of values up to key order, undefined fields and the sign of zero. */
  function Norm(v: Json): Json
    decreases v, 1
  {
    match v
    case Num(NegativeZero) => Num(Finite("0"))
    case Arr(items) => Arr(NormItems(items))
    case Obj(fields) => Obj(Sort(NormFields(fields), FieldLess))
    case _ => v
  }

  function NormItems(items: seq<Json>): (r: seq<Json>)
    ensures |r| == |items|
    decreases items, 0
  {
    if items == [] then [] else [Norm(items[0])] + NormItems(items[1..])
  }

  function NormFields(fields: seq<Field>): seq<Field>
    decreases fields, 0
  {
    if fields == [] then []
    else if fields[0].value.Undefined? then NormFields(fields[1..])
    else [Field(fields[0].key, Norm(fields[0].value))] + NormFields(fields[1..])
  }

  /** The values the printer accepts: nothing non-finite, non-JSON or undefined
      outside an object field. */
  predicate Serialisable(v: Json) {
    match v
    case Num(n) => !n.NonFinite?
    case Arr(items) => forall i :: 0 <= i < |items| ==> Serialisable(items[i])
    case Obj(fields) =>
      forall i :: 0 <= i < |fields| ==> fields[i].value.Undefined? || Serialisable(fields[i].value)
    case Undefined => false
    case Opaque => false
    case _ => true
  }

  /** Plain rendering of a value that is already in normal form. */
  function Render(v: Json): string
    decreases v, 1
  {
    match v
    case Null => "null"
    case Bool(b) => if b then "true" else "false"
    case Num(Finite(t)) => t
    case Str(s) => Quote(s)
    case Arr(items) => "[" + RenderItems(items)
    case Obj(fields) => "{" + RenderFields(fields)
    case _ => ""
  }

  function RenderItems(items: seq<Json>): string
    decreases items, 0
  {
    if items == [] then "]"
    else Render(items[0]) + (if |items| == 1 then "]" else "," + RenderItems(items[1..]))
  }

  function RenderFields(fields: seq<Field>): string
    decreases fields, 0
  {
    if fields == [] then "}"
    else
      Quote(fields[0].key) + ":"
      + (Render(fields[0].value) + (if |fields| == 1 then "}" else "," + RenderFields(fields[1..])))
  }

  predicate Normal(v: Json) {
    match v
    case Num(n) => n.Finite? && NumberText(n.text)
    case Arr(items) => forall i :: 0 <= i < |items| ==> Normal(items[i])
    case Obj(fields) => forall i :: 0 <= i < |fields| ==> Normal(fields[i].value)
    case Undefined => false
    case Opaque => false
    case _ => true
  }

  // ----------------------------------------------------------------- parsing

  function HexValue(c: char): int {
    if '0' <= c <= '9' then c as int - '0' as int
    else if 'a' <= c <= 'f' then c as int - 'a' as int + 10
    else -1
  }

  /** The rest of a string literal after its opening quote (RFC 8259 section 7). */
  function ParseChars(t: string): (r: Option<(string, string)>)
    ensures r.Some? ==> |r.value.1| < |t|
  {
    if t == "" then None
    else if t[0] == '"' then Some(("", t[1..]))
    else if t[0] == '\\' then
      if |t| < 2 then None
      else if t[1] == 'u' then
        if |t| < 6 || t[2..4] != "00" || HexValue(t[4]) < 0 || HexValue(t[5]) < 0 then None
        else Prepend((HexValue(t[4]) * 16 + HexValue(t[5])) as char, ParseChars(t[6..]))
      else
        var c := Unescape(t[1]);
        if c.None? then None else Prepend(c.value, ParseChars(t[2..]))
    else Prepend(t[0], ParseChars(t[1..]))
  }

  function Unescape(c: char): Option<char> {
    if c == '"' || c == '\\' then Some(c)
    else if c == 'n' then Some('\n')
    else if c == 'r' then Some('\r')
    else if c == 't' then Some('\t')
    else if c == 'b' then Some(8 as char)
    else if c == 'f' then Some(12 as char)
    else None
  }

  function Prepend(c: char, r: Option<(string, string)>): Option<(string, string)> {
    if r.None? then None else Some(([c] + r.value.0, r.value.1))
  }

  function NumberPrefix(t: string): (n: nat)
    ensures n <= |t|
  {
    if t == "" || !NumberChar(t[0]) then 0 else 1 + NumberPrefix(t[1..])
  }

  function ParseValue(t: string): (r: Option<(Json, string)>)
    ensures r.Some? ==> |r.value.1| < |t|
    decreases |t|, 0
  {
    if t == "" then None
    else if t[0] == '"' then
      var s := ParseChars(t[1..]);
      if s.None? then None else Some((Str(s.value.0), s.value.1))
    else if t[0] == '[' then
      if |t| > 1 && t[1] == ']' then Some((Arr([]), t[2..]))
      else
        var items := ParseItems(t[1..]);
        if items.None? then None else Some((Arr(items.value.0), items.value.1))
    else if t[0] == '{' then
      if |t| > 1 && t[1] == '}' then Some((Obj([]), t[2..]))
      else
        var fields := ParseFields(t[1..]);
        if fields.None? then None else Some((Obj(fields.value.0), fields.value.1))
    else if NumberPrefix(t) > 0 then
      var n := NumberPrefix(t);
      Some((Num(Finite(t[..n])), t[n..]))
    else if |t| >= 4 && t[..4] == "null" then Some((Null, t[4..]))
    else if |t| >= 4 && t[..4] == "true" then Some((Bool(true), t[4..]))
    else if |t| >= 5 && t[..5] == "false" then Some((Bool(false), t[5..]))
    else None
  }

  /** One or more comma-separated values up to and including ']'. */
  function ParseItems(t: string): (r: Option<(seq<Json>, string)>)
    ensures r.Some? ==> |r.value.1| < |t|
    decreases |t|, 1
  {
    var head := ParseValue(t);
    if head.None? || head.value.1 == "" then None
    else
      var (v, u) := head.value;
      if u[0] == ']' then Some(([v], u[1..]))
      else if u[0] == ',' then
        var tail := ParseItems(u[1..]);
        if tail.None? then None else Some(([v] + tail.value.0, tail.value.1))
      else None
  }

  /** One or more comma-separated members up to and including '}'. */
  function ParseFields(t: string): (r: Option<(seq<Field>, string)>)
    ensures r.Some? ==> |r.value.1| < |t|
    decreases |t|, 1
  {
    if t == "" || t[0] != '"' then None
    else
      var key := ParseChars(t[1..]);
      if key.None? || key.value.1 == "" || key.value.1[0] != ':' then None
      else
        var head := ParseValue(key.value.1[1..]);
        if head.None? || head.value.1 == "" then None
        else
          var (v, u) := head.value;
          if u[0] == '}' then Some(([Field(key.value.0, v)], u[1..]))
          else if u[0] == ',' then
            var tail := ParseFields(u[1..]);
            if tail.None? then None else Some(([Field(key.value.0, v)] + tail.value.0, tail.value.1))
          else None
  }

  // ------------------------------------------------- parsing undoes rendering

  lemma {:induction false} ParseEscapedChar(c: char, t: string)
    ensures ParseChars(EscapeChar(c) + t) == Prepend(c, ParseChars(t))
  {
    var e := EscapeChar(c);
    assert (e + t)[|e|..] == t;
    if 0x20 > c as int && |e| == 6 {
      assert (e + t)[2..4] == "00";
      assert HexValue(e[4]) == c as int / 16 && HexValue(e[5]) == c as int % 16;
    }
  }

  lemma {:induction false} ParseQuoted(s: string, rest: string)
    ensures ParseChars(Escape(s) + "\"" + rest) == Some((s, rest))
  {
    if s == "" {
      assert Escape(s) + "\"" + rest == "\"" + rest;
      assert ("\"" + rest)[1..] == rest;
    } else {
      var tail := Escape(s[1..]) + "\"" + rest;
      ParseEscapedChar(s[0], tail);
      assert Escape(s) + "\"" + rest == EscapeChar(s[0]) + tail;
      ParseQuoted(s[1..], rest);
      assert s == [s[0]] + s[1..];
    }
  }

  /** What may follow a value: nothing that would extend a number. */
  predicate Ends(rest: string) {
    rest == "" || !NumberChar(rest[0])
  }

  lemma {:induction false} NumberPrefixExact(t: string, rest: string)
    requires forall i :: 0 <= i < |t| ==> NumberChar(t[i])
    requires Ends(rest)
    ensures NumberPrefix(t + rest) == |t|
  {
    if t == "" {
      assert t + rest == rest;
    } else {
      assert (t + rest)[1..] == t[1..] + rest;
      NumberPrefixExact(t[1..], rest);
    }
  }

  lemma {:induction false} ParseWord(v: Json, rest: string)
    requires v.Null? || v.Bool?
    ensures ParseValue(Render(v) + rest) == Some((v, rest))
  {
  }

  lemma {:induction false} ParseNumber(text: string, rest: string)
    requires NumberText(text) && Ends(rest)
    ensures ParseValue(text + rest) == Some((Num(Finite(text)), rest))
  {
    NumberPrefixExact(text, rest);
    assert (text + rest)[..|text|] == text && (text + rest)[|text|..] == rest;
  }

  lemma {:induction false} ParseString(s: string, rest: string)
    ensures ParseValue(Quote(s) + rest) == Some((Str(s), rest))
  {
    ParseQuoted(s, rest);
    assert (Quote(s) + rest)[1..] == Escape(s) + "\"" + rest;
  }

  lemma {:induction false} RenderHead(v: Json)
    requires Normal(v)
    ensures Render(v) != "" && Render(v)[0] != ']'
  {
  }

  lemma {:induction false} ParseBracketed(items: seq<Json>, rest: string)
    requires forall i :: 0 <= i < |items| ==> Normal(items[i])
    requires items != [] ==> ParseItems(RenderItems(items) + rest) == Some((items, rest))
    ensures ParseValue("[" + RenderItems(items) + rest) == Some((Arr(items), rest))
  {
    var t := "[" + RenderItems(items) + rest;
    assert t[1..] == RenderItems(items) + rest;
    if items == [] {
      assert t == "[]" + rest;
      assert t[2..] == rest;
    } else {
      RenderHead(items[0]);
      assert t[1] == RenderItems(items)[0] == Render(items[0])[0];
    }
  }

  lemma {:induction false} ParseBraced(body: string, fields: seq<Field>, rest: string)
    requires body != "" && body[0] == '"' && ParseFields(body + rest) == Some((fields, rest))
    ensures ParseValue("{" + body + rest) == Some((Obj(fields), rest))
  {
    var t := "{" + body + rest;
    assert t[1..] == body + rest && t[1] == body[0];
  }

  lemma {:induction false} ParseEmptyObject(rest: string)
    ensures ParseValue("{}" + rest) == Some((Obj([]), rest))
  {
  }

  lemma {:induction false} RenderFieldsHead(fields: seq<Field>)
    requires fields != []
    ensures RenderFields(fields) != "" && RenderFields(fields)[0] == '"'
  {
  }

  lemma {:induction false} ParseRendered(v: Json, rest: string)
    requires Normal(v) && Ends(rest)
    ensures ParseValue(Render(v) + rest) == Some((v, rest))
    decreases v, 1
  {
    match v {
      case Arr(items) =>
        if items != [] {
          ParseRenderedItems(items, rest);
        }
        ParseBracketed(items, rest);
      case Obj(fields) =>
        if fields == [] {
          ParseEmptyObject(rest);
        } else {
          ParseRenderedFields(fields, rest);
          RenderFieldsHead(fields);
          ParseBraced(RenderFields(fields), fields, rest);
        }
      case Num(n) =>
        ParseNumber(n.text, rest);
      case Str(s) =>
        ParseString(s, rest);
      case _ =>
        ParseWord(v, rest);
    }
  }

  lemma {:induction false} ItemsStep(t: string, v: Json, u: string, vs: seq<Json>, rest: string)
    requires ParseValue(t) == Some((v, if vs == [] then "]" + rest else "," + u))
    requires vs != [] ==> ParseItems(u) == Some((vs, rest))
    ensures ParseItems(t) == Some(([v] + vs, rest))
  {
    assert ("]" + rest)[1..] == rest && ("," + u)[1..] == u && (vs == [] ==> [v] + vs == [v]);
  }

  lemma {:induction false} RenderItemsText(items: seq<Json>, rest: string)
    requires items != []
    ensures RenderItems(items) + rest
         == Render(items[0]) + if items[1..] == [] then "]" + rest else "," + (RenderItems(items[1..]) + rest)
  {
  }

  lemma {:induction false} RenderFieldsText(fields: seq<Field>, rest: string)
    requires fields != []
    ensures RenderFields(fields) + rest
         == Quote(fields[0].key) + ":"
            + (Render(fields[0].value) + if fields[1..] == [] then "}" + rest else "," + (RenderFields(fields[1..]) + rest))
  {
  }

  lemma {:induction false} ParseRenderedItems(items: seq<Json>, rest: string)
    requires items != [] && forall i :: 0 <= i < |items| ==> Normal(items[i])
    ensures ParseItems(RenderItems(items) + rest) == Some((items, rest))
    decreases items, 0
  {
    var u := RenderItems(items[1..]) + rest;
    var more := if items[1..] == [] then "]" + rest else "," + u;
    RenderItemsText(items, rest);
    ParseRendered(items[0], more);
    if items[1..] != [] {
      ParseRenderedItems(items[1..], rest);
    }
    ItemsStep(Render(items[0]) + more, items[0], u, items[1..], rest);
    assert items == [items[0]] + items[1..];
  }

  lemma {:induction false} ParseKey(key: string, value: string)
    ensures var t := Quote(key) + ":" + value;
      t[0] == '"' && ParseChars(t[1..]) == Some((key, ":" + value))
  {
    ParseQuoted(key, ":" + value);
    assert (Quote(key) + ":" + value)[1..] == Escape(key) + "\"" + (":" + value);
  }

  lemma {:induction false} FieldsStep(t: string, key: string, v: Json, value: string, u: string, fs: seq<Field>, rest: string)
    requires t != "" && t[0] == '"' && ParseChars(t[1..]) == Some((key, ":" + value))
    requires ParseValue(value) == Some((v, if fs == [] then "}" + rest else "," + u))
    requires fs != [] ==> ParseFields(u) == Some((fs, rest))
    ensures ParseFields(t) == Some(([Field(key, v)] + fs, rest))
  {
    assert (":" + value)[1..] == value;
    assert ("}" + rest)[1..] == rest && ("," + u)[1..] == u && (fs == [] ==> [Field(key, v)] + fs == [Field(key, v)]);
  }

  lemma {:induction false} ParseRenderedFields(fields: seq<Field>, rest: string)
    requires fields != [] && forall i :: 0 <= i < |fields| ==> Normal(fields[i].value)
    ensures ParseFields(RenderFields(fields) + rest) == Some((fields, rest))
    decreases fields, 0
  {
    var f, u := fields[0], RenderFields(fields[1..]) + rest;
    var more := if fields[1..] == [] then "}" + rest else "," + u;
    var value := Render(f.value) + more;
    RenderFieldsText(fields, rest);
    ParseRendered(f.value, more);
    if fields[1..] != [] {
      ParseRenderedFields(fields[1..], rest);
    }
    ParseKey(f.key, value);
    FieldsStep(Quote(f.key) + ":" + value, f.key, f.value, value, u, fields[1..], rest);
    assert fields == [f] + fields[1..];
  }

  // ------------------------------------------- printing renders normal forms

  function FieldEntry(f: Field): (string, string) {
    (f.key, Render(f.value))
  }

  /** The printer throws exactly on the values that are not serialisable, and
      otherwise returns the plain rendering of the normal form. */
  lemma {:induction false} PrintsNormalForm(v: Json)
    ensures CanonicalJson(v) == if Serialisable(v) then Some(Render(Norm(v))) else None
    decreases v, 1
  {
    match v {
      case Arr(items) =>
        PrintsItems(items);
        if Serialisable(v) {
          var texts := Map(Render, NormItems(items));
          JoinItems(NormItems(items));
          assert "[" + Join(texts) + "]" == "[" + (Join(texts) + "]");
        }
      case Obj(fields) =>
        PrintsFields(fields);
        if Serialisable(v) {
          var n := NormFields(fields);
          SortCommutes(n, FieldEntry, FieldLess, KeyLess);
          JoinFields(Sort(n, FieldLess));
          var texts := Map(FieldText, Map(FieldEntry, Sort(n, FieldLess)));
          assert "{" + Join(texts) + "}" == "{" + (Join(texts) + "}");
        }
      case _ =>
    }
  }

  lemma {:induction false} PrintsItems(items: seq<Json>)
    ensures PrintItems(items)
         == if forall i :: 0 <= i < |items| ==> Serialisable(items[i])
            then Some(Map(Render, NormItems(items))) else None
    decreases items, 0
  {
    if items == [] {
      assert Map(Render, NormItems(items)) == [];
    } else {
      var rest := items[1..];
      PrintsNormalForm(items[0]);
      PrintsItems(rest);
      if Serialisable(items[0]) && forall i :: 0 <= i < |rest| ==> Serialisable(rest[i]) {
        assert forall i :: 0 <= i < |items| ==> items[i] == if i == 0 then items[0] else rest[i - 1];
        MapCons(Render, Norm(items[0]), NormItems(rest));
      } else if Serialisable(items[0]) {
        var i :| 0 <= i < |rest| && !Serialisable(rest[i]);
        assert items[i + 1] == rest[i];
      }
    }
  }

  lemma {:induction false} MapCons<T, U>(f: T -> U, x: T, s: seq<T>)
    ensures Map(f, [x] + s) == [f(x)] + Map(f, s)
  {
  }

  lemma {:induction false} PrintsFields(fields: seq<Field>)
    ensures PrintFields(fields)
         == if forall i :: 0 <= i < |fields| ==> fields[i].value.Undefined? || Serialisable(fields[i].value)
            then Some(Map(FieldEntry, NormFields(fields))) else None
    decreases fields, 0
  {
    if fields == [] {
      assert Map(FieldEntry, NormFields(fields)) == [];
    } else {
      var f, rest := fields[0], fields[1..];
      PrintsNormalForm(f.value);
      PrintsFields(rest);
      if (f.value.Undefined? || Serialisable(f.value))
         && forall i :: 0 <= i < |rest| ==> rest[i].value.Undefined? || Serialisable(rest[i].value) {
        assert forall i :: 0 <= i < |fields| ==> fields[i] == if i == 0 then f else rest[i - 1];
        MapCons(FieldEntry, Field(f.key, Norm(f.value)), NormFields(rest));
      } else if f.value.Undefined? || Serialisable(f.value) {
        var i :| 0 <= i < |rest| && !(rest[i].value.Undefined? || Serialisable(rest[i].value));
        assert fields[i + 1] == rest[i];
      }
    }
  }

  lemma {:induction false} JoinItems(items: seq<Json>)
    ensures Join(Map(Render, items)) + "]" == RenderItems(items)
  {
    if |items| > 1 {
      JoinItems(items[1..]);
      assert Map(Render, items)[1..] == Map(Render, items[1..]);
    }
  }

  lemma {:induction false} JoinFields(fields: seq<Field>)
    ensures Join(Map(FieldText, Map(FieldEntry, fields))) + "}" == RenderFields(fields)
  {
    if |fields| > 1 {
      JoinFields(fields[1..]);
      assert Map(FieldText, Map(FieldEntry, fields))[1..] == Map(FieldText, Map(FieldEntry, fields[1..]));
    }
  }

  lemma {:induction false} NormIsNormal(v: Json)
    requires WellFormed(v) && Serialisable(v)
    ensures Normal(Norm(v))
    decreases v, 1
  {
    match v {
      case Arr(items) =>
        NormItemsNormal(items);
      case Obj(fields) =>
        NormFieldsNormal(fields);
        var n := NormFields(fields);
        var sorted := Sort(n, FieldLess);
        forall i | 0 <= i < |sorted| ensures Normal(sorted[i].value) {
          SortMember(n, FieldLess, sorted[i]);
        }
      case _ =>
    }
  }

  lemma {:induction false} NormItemsNormal(items: seq<Json>)
    requires forall i :: 0 <= i < |items| ==> WellFormed(items[i]) && Serialisable(items[i])
    ensures forall i :: 0 <= i < |items| ==> Normal(NormItems(items)[i])
    decreases items, 0
  {
    if items != [] {
      NormIsNormal(items[0]);
      NormItemsNormal(items[1..]);
    }
  }

  lemma {:induction false} NormFieldsNormal(fields: seq<Field>)
    requires forall i :: 0 <= i < |fields| ==>
      WellFormed(fields[i].value) && (fields[i].value.Undefined? || Serialisable(fields[i].value))
    ensures forall f :: f in NormFields(fields) ==> Normal(f.value)
    decreases fields, 0
  {
    if fields != [] {
      if !fields[0].value.Undefined? {
        NormIsNormal(fields[0].value);
      }
      NormFieldsNormal(fields[1..]);
    }
  }

  // ------------------------------------------------------------ main theorems

  /** A parser that never sees the value recovers its normal form from the text. */
  lemma {:induction false} RoundTrip(v: Json)
    requires WellFormed(v)
    ensures CanonicalJson(v).Some? <==> Serialisable(v)
    ensures Serialisable(v) ==> ParseValue(CanonicalJson(v).value) == Some((Norm(v), ""))
  {
    PrintsNormalForm(v);
    if Serialisable(v) {
      NormIsNormal(v);
      ParseRendered(Norm(v), "");
      assert Render(Norm(v)) + "" == Render(Norm(v));
    }
  }

  /** Two printable values print alike exactly when they are equal up to key
      order, undefined fields and the sign of zero. */
  lemma {:induction false} Unambiguous(v: Json, w: Json)
    requires WellFormed(v) && WellFormed(w) && Serialisable(v) && Serialisable(w)
    ensures CanonicalJson(v) == CanonicalJson(w) <==> Norm(v) == Norm(w)
  {
    PrintsNormalForm(v);
    PrintsNormalForm(w);
    RoundTrip(v);
    RoundTrip(w);
  }

  lemma {:induction false} FieldOrder(fields: seq<Field>)
    requires DistinctKeys(fields)
    ensures Transitive(FieldLess) && Irreflexive(FieldLess) && Comparable(NormFields(fields), FieldLess)
  {
    forall x: Field, y: Field, z: Field | FieldLess(x, y) && FieldLess(y, z) ensures FieldLess(x, z) {
      Utf16Order.LessTransitive(x.key, y.key, z.key);
    }
    forall x: Field ensures !FieldLess(x, x) {
      Utf16Order.LessTotal(x.key, x.key);
    }
    NormKeysDistinct(fields);
    var n := NormFields(fields);
    forall i, j | 0 <= i < j < |n| ensures FieldLess(n[i], n[j]) || FieldLess(n[j], n[i]) {
      Utf16Order.LessTotal(n[i].key, n[j].key);
    }
  }

  lemma {:induction false} NormKeysDistinct(fields: seq<Field>)
    requires DistinctKeys(fields)
    ensures DistinctKeys(NormFields(fields))
    ensures forall f :: f in NormFields(fields) ==> exists i :: 0 <= i < |fields| && fields[i].key == f.key
  {
    if fields != [] {
      var rest := fields[1..];
      NormKeysDistinct(rest);
      forall f | f in NormFields(fields) ensures exists i :: 0 <= i < |fields| && fields[i].key == f.key {
        if f in NormFields(rest) {
          var i :| 0 <= i < |rest| && rest[i].key == f.key;
          assert fields[i + 1].key == f.key;
        } else {
          assert fields[0].key == f.key;
        }
      }
      forall f | f in NormFields(rest) ensures f.key != fields[0].key {
        var i :| 0 <= i < |rest| && rest[i].key == f.key;
        assert fields[i + 1] == rest[i];
      }
    }
  }

  lemma {:induction false} NormFieldsConcat(a: seq<Field>, b: seq<Field>)
    ensures NormFields(a + b) == NormFields(a) + NormFields(b)
  {
    if a == [] {
      assert a + b == b;
    } else {
      assert (a + b)[1..] == a[1..] + b;
      NormFieldsConcat(a[1..], b);
    }
  }

  lemma {:induction false} NormFieldsAround(a: seq<Field>, f: Field, b: seq<Field>)
    ensures multiset(NormFields(a + [f] + b)) == multiset(NormFields([f])) + multiset(NormFields(a + b))
  {
    NormFieldsConcat(a + [f], b);
    NormFieldsConcat(a, [f]);
    NormFieldsConcat(a, b);
  }

  lemma {:induction false} NormFieldsBag(a: seq<Field>, b: seq<Field>)
    requires multiset(a) == multiset(b)
    ensures multiset(NormFields(a)) == multiset(NormFields(b))
    decreases |a|
  {
    assert |a| == |multiset(a)| == |multiset(b)| == |b|;
    if a != [] {
      var x, rest := a[0], a[1..];
      assert a == [x] + rest;
      SameMembers(a, b, x);
      var k :| 0 <= k < |b| && b[k] == x;
      var l, r := b[..k], b[k + 1..];
      assert b == l + [x] + r;
      RemoveOne(x, rest, l, r);
      NormFieldsBag(rest, l + r);
      NormFieldsAround(l, x, r);
      NormFieldsConcat([x], rest);
    }
  }

  /** Reordering the fields of an object never changes its canonical text. */
  lemma {:induction false} FieldOrderIrrelevant(a: seq<Field>, b: seq<Field>)
    requires WellFormed(Obj(a)) && multiset(a) == multiset(b)
    ensures CanonicalJson(Obj(a)) == CanonicalJson(Obj(b))
  {
    PrintsNormalForm(Obj(a));
    PrintsNormalForm(Obj(b));
    assert Serialisable(Obj(a)) <==> Serialisable(Obj(b)) by {
      forall f: Field ensures f in a <==> f in b {
        SameMembers(a, b, f);
      }
      assert Serialisable(Obj(a)) <==> forall f :: f in a ==> f.value.Undefined? || Serialisable(f.value);
      assert Serialisable(Obj(b)) <==> forall f :: f in b ==> f.value.Undefined? || Serialisable(f.value);
    }
    NormFieldsBag(a, b);
    FieldOrder(a);
    assert Comparable(NormFields(b), FieldLess) by {
      DistinctAcross(a, b);
      FieldOrder(b);
    }
    SortAscending(NormFields(a), FieldLess);
    SortAscending(NormFields(b), FieldLess);
    SortBag(NormFields(a), FieldLess);
    SortBag(NormFields(b), FieldLess);
    AscendingUnique(Sort(NormFields(a), FieldLess), Sort(NormFields(b), FieldLess), FieldLess);
  }

  lemma {:induction false} DistinctAcross(a: seq<Field>, b: seq<Field>)
    requires DistinctKeys(a) && multiset(a) == multiset(b)
    ensures DistinctKeys(b)
  {
    forall i, j | 0 <= i < j < |b| && b[i].key == b[j].key ensures false {
      SameMembers(a, b, b[i]);
      SameMembers(a, b, b[j]);
      CountsTwice(b, i, j);
      DistinctOnce(a, b[i]);
    }
  }

  lemma {:induction false} CountsTwice(s: seq<Field>, i: nat, j: nat)
    requires i < j < |s| && s[i] == s[j]
    ensures multiset(s)[s[i]] >= 2
  {
    assert s == s[..j] + [s[j]] + s[j + 1..];
    assert s[i] in s[..j];
  }

  lemma {:induction false} DistinctOnce(a: seq<Field>, f: Field)
    requires DistinctKeys(a)
    ensures multiset(a)[f] <= 1
  {
    if a != [] {
      DistinctOnce(a[1..], f);
      assert a == [a[0]] + a[1..];
      if a[0] == f {
        assert f !in a[1..];
      }
    }
  }

  /** workerOutputDigest over the three result lists; a missing list prints as []. */
  function WorkerOutputDigest(accounts: Option<Json>, transactions: Option<Json>, positions: Option<Json>,
                              sha256: string -> string): Option<string> {
    var text := CanonicalJson(OutputObject(accounts, transactions, positions));
    if text.None? then None else Some(sha256(text.value))
  }

  function OutputObject(accounts: Option<Json>, transactions: Option<Json>, positions: Option<Json>): Json {
    Obj([Field("accounts", OrEmpty(accounts)), Field("transactions", OrEmpty(transactions)),
         Field("positions", OrEmpty(positions))])
  }

  function OrEmpty(v: Option<Json>): Json {
    if v.None? then Arr([]) else v.value
  }

  predicate Printable(v: Option<Json>) {
    WellFormed(OrEmpty(v)) && Serialisable(OrEmpty(v))
  }

  /** Under a collision-free hash, equal digests mean equal results list by list. */
  lemma {:induction false} DigestIdentifiesResults(a: Option<Json>, t: Option<Json>, p: Option<Json>,
                                a': Option<Json>, t': Option<Json>, p': Option<Json>, sha256: string -> string)
    requires forall x, y :: sha256(x) == sha256(y) ==> x == y
    requires Printable(a) && Printable(t) && Printable(p) && Printable(a') && Printable(t') && Printable(p')
    ensures WorkerOutputDigest(a, t, p, sha256) == WorkerOutputDigest(a', t', p', sha256)
      <==> && Norm(OrEmpty(a)) == Norm(OrEmpty(a'))
           && Norm(OrEmpty(t)) == Norm(OrEmpty(t'))
           && Norm(OrEmpty(p)) == Norm(OrEmpty(p'))
  {
    NormOutput(a, t, p);
    NormOutput(a', t', p');
    var v, w := OutputObject(a, t, p), OutputObject(a', t', p');
    RoundTrip(v);
    RoundTrip(w);
    Unambiguous(v, w);
    assert CanonicalJson(v).value == CanonicalJson(w).value
      <==> sha256(CanonicalJson(v).value) == sha256(CanonicalJson(w).value);
  }

  lemma {:induction false} SortThree<T>(x: T, y: T, z: T, less: (T, T) -> bool)
    requires less(z, y) && !less(z, x)
    ensures Sort([x, y, z], less) == [x, z, y]
  {
    calc {
      Sort([x, y, z], less);
      { assert [x, y, z][1..] == [y, z]; }
      Insert(x, Sort([y, z], less), less);
      { assert [y, z][1..] == [z]; }
      Insert(x, Insert(y, Sort([z], less), less), less);
      { assert [z][1..] == []; assert Sort([z], less) == [z]; }
      Insert(x, Insert(y, [z], less), less);
      { assert [z][1..] == []; assert Insert(y, [z], less) == [z] + [y] == [z, y]; }
      Insert(x, [z, y], less);
      [x] + [z, y];
    }
  }

  lemma {:induction false} OutputPrintable(a: Option<Json>, t: Option<Json>, p: Option<Json>)
    requires Printable(a) && Printable(t) && Printable(p)
    ensures WellFormed(OutputObject(a, t, p)) && Serialisable(OutputObject(a, t, p))
  {
  }

  lemma {:induction false} SortedKeys(a: Field, t: Field, p: Field)
    requires a.key == "accounts" && t.key == "transactions" && p.key == "positions"
    ensures FieldLess(a, p) && FieldLess(p, t) && FieldLess(a, t) && !FieldLess(p, a) && !FieldLess(t, p) && !FieldLess(t, a)
  {
  }

  lemma {:induction false} NormOutput(a: Option<Json>, t: Option<Json>, p: Option<Json>)
    requires Printable(a) && Printable(t) && Printable(p)
    ensures WellFormed(OutputObject(a, t, p)) && Serialisable(OutputObject(a, t, p))
    ensures Norm(OutputObject(a, t, p))
         == Obj([Field("accounts", Norm(OrEmpty(a))), Field("positions", Norm(OrEmpty(p))), Field("transactions", Norm(OrEmpty(t)))])
  {
    var va, vt, vp := OrEmpty(a), OrEmpty(t), OrEmpty(p);
    OutputPrintable(a, t, p);
    NormThree("accounts", va, "transactions", vt, "positions", vp);
    var fa, ft, fp := Field("accounts", Norm(va)), Field("transactions", Norm(vt)), Field("positions", Norm(vp));
    SortedKeys(fa, ft, fp);
    SortThree(fa, ft, fp, FieldLess);
  }

  lemma {:induction false} NormThree(a: string, va: Json, t: string, vt: Json, p: string, vp: Json)
    requires !va.Undefined? && !vt.Undefined? && !vp.Undefined?
    ensures NormFields([Field(a, va), Field(t, vt), Field(p, vp)])
         == [Field(a, Norm(va)), Field(t, Norm(vt)), Field(p, Norm(vp))]
  {
    calc {
      NormFields([Field(a, va), Field(t, vt), Field(p, vp)]);
      { assert [Field(a, va), Field(t, vt), Field(p, vp)][1..] == [Field(t, vt), Field(p, vp)]; }
      [Field(a, Norm(va))] + NormFields([Field(t, vt), Field(p, vp)]);
      { assert [Field(t, vt), Field(p, vp)][1..] == [Field(p, vp)]; }
      [Field(a, Norm(va))] + ([Field(t, Norm(vt))] + NormFields([Field(p, vp)]));
      { assert [Field(p, vp)][1..] == []; }
      [Field(a, Norm(va))] + ([Field(t, Norm(vt))] + [Field(p, Norm(vp))]);
    }
  }
}
