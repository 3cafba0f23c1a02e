/** The printer whose text is hashed into payment fingerprints: two inputs print alike exactly when they are the same
    tree up to the order of object keys. Keys are sorted by an order that is a parameter here. */
module Canonical {
  import opened Wrappers
  import opened Decimals
  import opened NumberIdentity

  /** A JSON value, or `undefined` in the place of one. A number carries the text that JSON prints for it; an object
      lists its entries in insertion order. */
  datatype Tree = Undefined
                | Null
                | Bool(b: bool)
                | Number(text: string)
                | Text(s: string)
                | Big(n: int)
                | List(items: seq<Tree>)
                | Object(fields: seq<Field>)

  datatype Field = Field(key: string, value: Tree)

  // ---------------------------------------------------------------- quoted strings

  function HexChar(d: nat): (c: char)
    requires d < 16
    ensures c == "0123456789abcdef"[d]
  {
    if d < 10 then (d + '0' as int) as char else (d - 10 + 'a' as int) as char
  }

  /** One character inside quotes. */
  function Escape(c: char): (s: string)
    ensures s == [c] <==> c as int >= 32 && c != '"' && c != '\\'
  {
    if c == '"' then ['\\', '"']
    else if c == '\\' then ['\\', '\\']
    else if c as int == 8 then ['\\', 'b']
    else if c as int == 9 then ['\\', 't']
    else if c as int == 10 then ['\\', 'n']
    else if c as int == 12 then ['\\', 'f']
    else if c as int == 13 then ['\\', 'r']
    else if c as int < 32 then ['\\', 'u', '0', '0', HexChar(c as int / 16), HexChar(c as int % 16)]
    else [c]
  }

  function Escaped(s: string): string {
    if s == "" then "" else Escape(s[0]) + Escaped(s[1..])
  }

  function Quote(s: string): string {
    ['"'] + Escaped(s) + ['"']
  }

  lemma EscapeStart(c: char)
    ensures 1 <= |Escape(c)| && Escape(c)[0] != '"'
    ensures |Escape(c)| == 1 <==> Escape(c)[0] != '\\'
    ensures |Escape(c)| > 1 ==> (|Escape(c)| == 6 <==> Escape(c)[1] == 'u') && (|Escape(c)| == 2 || |Escape(c)| == 6)
  {
  }

  lemma EscapeUnique(c: char, d: char)
    requires Escape(c) == Escape(d)
    ensures c == d
  {
    if |Escape(c)| == 6 {
      assert c as int == 16 * (c as int / 16) + c as int % 16 && d as int == 16 * (d as int / 16) + d as int % 16;
      assert Escape(c)[4] == Escape(d)[4] && Escape(c)[5] == Escape(d)[5];
    } else if |Escape(c)| == 2 {
      assert Escape(c)[1] == Escape(d)[1];
    } else {
      assert Escape(c)[0] == Escape(d)[0];
    }
  }

  /** The code of one character is recognised from the front. */
  lemma EscapeApart(c: char, d: char, x: string, y: string)
    requires Escape(c) + x == Escape(d) + y
    ensures c == d && x == y
  {
    EscapeStart(c);
    EscapeStart(d);
    var t := Escape(c) + x;
    assert t[0] == Escape(c)[0] == Escape(d)[0];
    if |Escape(c)| > 1 { assert t[1] == Escape(c)[1] == Escape(d)[1]; }
    assert |Escape(c)| == |Escape(d)|;
    assert Escape(c) == t[..|Escape(c)|] && Escape(d) == t[..|Escape(d)|];
    assert x == t[|Escape(c)|..] && y == t[|Escape(d)|..];
    EscapeUnique(c, d);
  }

  lemma EscapedShape(s: string, x: string)
    ensures s == "" ==> Escaped(s) + ['"'] + x == ['"'] + x
    ensures s != "" ==> Escaped(s) + ['"'] + x == Escape(s[0]) + (Escaped(s[1..]) + ['"'] + x)
    ensures (Escaped(s) + ['"'] + x)[0] == '"' <==> s == ""
  {
    if s != "" {
      EscapeStart(s[0]);
      Regroup(Escape(s[0]), Escaped(s[1..]), ['"'], x);
    }
  }

  lemma Regroup(a: string, b: string, c: string, d: string)
    ensures (a + b) + c + d == a + (b + c + d) && (a != "" ==> ((a + b) + c + d)[0] == a[0])
  {
  }

  lemma {:induction false} EscapedApart(s: string, t: string, x: string, y: string)
    requires Escaped(s) + ['"'] + x == Escaped(t) + ['"'] + y
    ensures s == t && x == y
    decreases |s|
  {
    EscapedShape(s, x);
    EscapedShape(t, y);
    if s != "" {
      EscapeApart(s[0], t[0], Escaped(s[1..]) + ['"'] + x, Escaped(t[1..]) + ['"'] + y);
      EscapedApart(s[1..], t[1..], x, y);
      assert s == [s[0]] + s[1..] && t == [t[0]] + t[1..];
    } else {
      SameStart(['"'], x, y);
    }
  }

  lemma QuoteShape(q: string, e: string, x: string)
    ensures q + e + q + x == q + (e + q + x)
  {
  }

  lemma QuoteApart(s: string, t: string, x: string, y: string)
    requires Quote(s) + x == Quote(t) + y
    ensures s == t && x == y
  {
    QuoteShape(['"'], Escaped(s), x);
    QuoteShape(['"'], Escaped(t), y);
    SameStart(['"'], Escaped(s) + ['"'] + x, Escaped(t) + ['"'] + y);
    EscapedApart(s, t, x, y);
  }

  // ---------------------------------------------------------------- the printer

  predicate NumberChar(c: char) {
    IsDigit(c) || c == '-' || c == '+' || c == '.' || c == 'e'
  }

  predicate NumberText(s: string) {
    s != "" && (IsDigit(s[0]) || s[0] == '-') && forall i | 0 <= i < |s| :: NumberChar(s[i])
  }

  function Separator(first: bool): string {
    if first then [] else [',']
  }

  /** An undefined field prints as that word; as a whole input it has no text, and the hash refuses it. */
  function Render(t: Tree): string
    decreases t
  {
    match t
    case Undefined => "undefined"
    case Null => "null"
    case Bool(b) => if b then "true" else "false"
    case Number(text) => text
    case Text(s) => Quote(s)
    case Big(n) => Quote(PrintInt(n))
    case List(items) => ['['] + RenderItems(items, true)
    case Object(fields) => ['{'] + RenderFields(fields, true)
  }

  /** The items after the bracket, separated by commas, and the closing bracket; an undefined item leaves no trace. */
  function RenderItems(items: seq<Tree>, first: bool): string
    decreases items
  {
    if items == [] then [']']
    else Separator(first) + (if items[0].Undefined? then "" else Render(items[0])) + RenderItems(items[1..], false)
  }

  function RenderFields(fields: seq<Field>, first: bool): string
    decreases fields
  {
    if fields == [] then ['}']
    else Separator(first) + Quote(fields[0].key) + [':'] + Render(fields[0].value) + RenderFields(fields[1..], false)
  }

  // ---------------------------------------------------------------- the printer is injective

  /** Printable as it stands: numbers have their text and there is no bigint left. */
  predicate Plain(t: Tree)
    decreases t
  {
    match t
    case Number(text) => NumberText(text)
    case Big(_) => false
    case List(items) => forall i | 0 <= i < |items| :: !items[i].Undefined? && Plain(items[i])
    case Object(fields) => forall i | 0 <= i < |fields| :: Plain(fields[i].value)
    case _ => true
  }

  /** What may follow a value. */
  predicate Stops(x: string) {
    x == "" || x[0] == ',' || x[0] == ']' || x[0] == '}'
  }

  /** The kind of a value shows in its first character. */
  function Kind(c: char): nat {
    if c == 'n' then 0 else if c == 't' then 1 else if c == 'f' then 2 else if c == '"' then 4
    else if c == '[' then 5 else if c == '{' then 6 else if IsDigit(c) || c == '-' then 3 else 7
  }

  function KindOf(t: Tree): nat {
    match t
    case Undefined => 7
    case Null => 0
    case Bool(b) => if b then 1 else 2
    case Number(_) => 3
    case Text(_) => 4
    case Big(_) => 4
    case List(_) => 5
    case Object(_) => 6
  }

  lemma FirstChar(t: Tree, x: string)
    requires Plain(t)
    ensures Render(t) != "" && Kind(Render(t)[0]) == KindOf(t) && (Render(t) + x)[0] == Render(t)[0]
  {
  }

  lemma NumbersApart(a: string, b: string, x: string, y: string)
    requires NumberText(a) && NumberText(b) && Stops(x) && Stops(y) && a + x == b + y
    ensures a == b && x == y
  {
    var t := a + x;
    assert forall i | 0 <= i < |a| :: t[i] == a[i] && NumberChar(t[i]);
    assert forall i | 0 <= i < |b| :: t[i] == b[i] && NumberChar(t[i]);
    assert |a| < |t| ==> t[|a|] == x[0];
    assert |b| < |t| ==> t[|b|] == y[0];
    assert |a| == |b|;
    assert a == t[..|a|] && b == t[..|b|] && x == t[|a|..] && y == t[|b|..];
  }

  /** A printed value, followed by anything that may follow it, determines the value and what follows. */
  lemma {:induction false} RenderApart(a: Tree, b: Tree, x: string, y: string)
    requires Plain(a) && Plain(b) && Stops(x) && Stops(y) && Render(a) + x == Render(b) + y
    ensures a == b && x == y
    decreases a
  {
    FirstChar(a, x);
    FirstChar(b, y);
    assert KindOf(a) == KindOf(b);
    match a
    case Undefined => SameStart("undefined", x, y);
    case Null => SameStart("null", x, y);
    case Bool(v) => SameStart(if v then "true" else "false", x, y);
    case Number(text) => NumbersApart(text, b.text, x, y);
    case Text(s) => QuoteApart(s, b.s, x, y);
    case List(items) =>
      SameHead('[', RenderItems(items, true), RenderItems(b.items, true), x, y);
      ItemsApart(items, b.items, true, x, y);
    case Object(fields) =>
      SameHead('{', RenderFields(fields, true), RenderFields(b.fields, true), x, y);
      FieldsApart(fields, b.fields, true, x, y);
    case Big(_) =>
  }

  lemma SameStart(s: string, x: string, y: string)
    requires s + x == s + y
    ensures x == y
  {
    assert x == (s + x)[|s|..] && y == (s + y)[|s|..];
  }

  lemma SameHead(c: char, s: string, t: string, x: string, y: string)
    requires [c] + s + x == [c] + t + y
    ensures s + x == t + y
  {
    assert s + x == ([c] + s + x)[1..] && t + y == ([c] + t + y)[1..];
  }

  lemma ItemsShape(items: seq<Tree>, first: bool, x: string)
    requires forall i | 0 <= i < |items| :: !items[i].Undefined? && Plain(items[i])
    ensures items == [] ==> RenderItems(items, first) + x == [']'] + x
    ensures items != [] ==>
              RenderItems(items, first) + x == Separator(first) +
                (Render(items[0]) + (RenderItems(items[1..], false) + x))
    ensures Stops(RenderItems(items, false) + x)
    ensures RenderItems(items, first) != "" && (RenderItems(items, first)[0] == ']' <==> items == [])
  {
    if items != [] {
      FirstChar(items[0], "");
      RegroupItem(Separator(first), Render(items[0]), RenderItems(items[1..], false), x);
      RegroupItem(Separator(false), Render(items[0]), RenderItems(items[1..], false), x);
    }
  }

  lemma RegroupItem(a: string, v: string, r: string, x: string)
    ensures a + v + r + x == a + (v + (r + x))
    ensures a != "" ==> (a + v + r)[0] == a[0] && (a + v + r + x)[0] == a[0]
    ensures a == "" && v != "" ==> (a + v + r)[0] == v[0]
  {
  }

  lemma {:induction false} ItemsApart(a: seq<Tree>, b: seq<Tree>, first: bool, x: string, y: string)
    requires forall i | 0 <= i < |a| :: !a[i].Undefined? && Plain(a[i])
    requires forall i | 0 <= i < |b| :: !b[i].Undefined? && Plain(b[i])
    requires RenderItems(a, first) + x == RenderItems(b, first) + y
    ensures a == b && x == y
    decreases a
  {
    ItemsShape(a, first, x);
    ItemsShape(b, first, y);
    var t := RenderItems(a, first) + x;
    assert t[0] == RenderItems(a, first)[0] == RenderItems(b, first)[0];
    if a == [] {
      SameStart([']'], x, y);
    } else {
      SameStart(Separator(first), Render(a[0]) + (RenderItems(a[1..], false) + x),
                Render(b[0]) + (RenderItems(b[1..], false) + y));
      ItemsShape(a[1..], false, x);
      ItemsShape(b[1..], false, y);
      RenderApart(a[0], b[0], RenderItems(a[1..], false) + x, RenderItems(b[1..], false) + y);
      ItemsApart(a[1..], b[1..], false, x, y);
      assert a == [a[0]] + a[1..] && b == [b[0]] + b[1..];
    }
  }

  lemma FieldsShape(fields: seq<Field>, first: bool, x: string)
    ensures fields == [] ==> RenderFields(fields, first) + x == ['}'] + x
    ensures fields != [] ==>
              RenderFields(fields, first) + x ==
              Separator(first) +
                (Quote(fields[0].key) + ([':'] + (Render(fields[0].value) + (RenderFields(fields[1..], false) + x))))
    ensures Stops(RenderFields(fields, false) + x)
    ensures RenderFields(fields, first) != "" && (RenderFields(fields, first)[0] == '}' <==> fields == [])
  {
    if fields != [] {
      RegroupField(Separator(first), Quote(fields[0].key), Render(fields[0].value), RenderFields(fields[1..], false),
                   x);
      RegroupField(Separator(false), Quote(fields[0].key), Render(fields[0].value), RenderFields(fields[1..], false),
                   x);
      QuoteStarts(fields[0].key);
    }
  }

  lemma QuoteStarts(s: string)
    ensures Quote(s) != "" && Quote(s)[0] == '"'
  {
  }

  lemma RegroupField(a: string, q: string, v: string, r: string, x: string)
    ensures a + q + [':'] + v + r + x == a + (q + ([':'] + (v + (r + x))))
    ensures a != "" ==> (a + q + [':'] + v + r)[0] == a[0] && (a + q + [':'] + v + r + x)[0] == a[0]
    ensures a == "" && q != "" ==> (a + q + [':'] + v + r)[0] == q[0]
  {
  }

  lemma {:induction false} FieldsApart(a: seq<Field>, b: seq<Field>, first: bool, x: string, y: string)
    requires (forall i | 0 <= i < |a| :: Plain(a[i].value)) && (forall i | 0 <= i < |b| :: Plain(b[i].value))
    requires RenderFields(a, first) + x == RenderFields(b, first) + y
    ensures a == b && x == y
    decreases a
  {
    FieldsShape(a, first, x);
    FieldsShape(b, first, y);
    var t := RenderFields(a, first) + x;
    assert t[0] == RenderFields(a, first)[0] == RenderFields(b, first)[0];
    if a == [] {
      SameStart(['}'], x, y);
    } else {
      var ra, rb := RenderFields(a[1..], false) + x, RenderFields(b[1..], false) + y;
      SameStart(Separator(first), Quote(a[0].key) + ([':'] + (Render(a[0].value) + ra)),
                Quote(b[0].key) + ([':'] + (Render(b[0].value) + rb)));
      QuoteApart(a[0].key, b[0].key, [':'] + (Render(a[0].value) + ra), [':'] + (Render(b[0].value) + rb));
      SameStart([':'], Render(a[0].value) + ra, Render(b[0].value) + rb);
      FieldsShape(a[1..], false, x);
      FieldsShape(b[1..], false, y);
      RenderApart(a[0].value, b[0].value, ra, rb);
      FieldsApart(a[1..], b[1..], false, x, y);
      assert a[0] == b[0] && a == [a[0]] + a[1..] && b == [b[0]] + b[1..];
    }
  }

  // ---------------------------------------------------------------- sorting the keys

  type Order = (string, string) -> bool

  /** The key order: strict and total. */
  ghost predicate StrictTotal(less: Order) {
    && (forall a :: !less(a, a))
    && (forall a, b :: a != b ==> less(a, b) || less(b, a))
    && (forall a, b, c :: less(a, b) && less(b, c) ==> less(a, c))
  }

  function InsertField(fields: seq<Field>, f: Field, less: Order): seq<Field> {
    if fields == [] || less(f.key, fields[0].key) then [f] + fields
    else [fields[0]] + InsertField(fields[1..], f, less)
  }

  /** A stable sort by key. */
  function SortFields(fields: seq<Field>, less: Order): (sorted: seq<Field>)
    ensures |sorted| == |fields|
  {
    if fields == [] then []
    else
      InsertLength(SortFields(fields[..|fields| - 1], less), fields[|fields| - 1], less);
      InsertField(SortFields(fields[..|fields| - 1], less), fields[|fields| - 1], less)
  }

  lemma {:induction false} InsertLength(fields: seq<Field>, f: Field, less: Order)
    ensures |InsertField(fields, f, less)| == |fields| + 1
    ensures forall g :: g in InsertField(fields, f, less) <==> g == f || g in fields
  {
    if fields != [] && !less(f.key, fields[0].key) {
      InsertLength(fields[1..], f, less);
      assert forall g :: g in fields <==> g == fields[0] || g in fields[1..];
    }
  }

  lemma {:induction false} SortKeeps(fields: seq<Field>, less: Order)
    ensures forall g :: g in SortFields(fields, less) <==> g in fields
  {
    if fields != [] {
      var init, last := fields[..|fields| - 1], fields[|fields| - 1];
      SortKeeps(init, less);
      InsertLength(SortFields(init, less), last, less);
      assert fields == init + [last];
    }
  }

  predicate Sorted(fields: seq<Field>, less: Order) {
    forall i, j | 0 <= i < j < |fields| :: less(fields[i].key, fields[j].key)
  }

  predicate DistinctKeys(fields: seq<Field>) {
    forall i, j | 0 <= i < j < |fields| :: fields[i].key != fields[j].key
  }

  lemma {:induction false} InsertSorted(fields: seq<Field>, f: Field, less: Order)
    requires StrictTotal(less) && Sorted(fields, less) && forall g | g in fields :: g.key != f.key
    ensures Sorted(InsertField(fields, f, less), less)
  {
    if fields != [] {
      if less(f.key, fields[0].key) {
        forall j | 0 <= j < |fields| ensures less(f.key, fields[j].key) {
          assert j > 0 ==> less(fields[0].key, fields[j].key);
        }
      } else {
        var rest := fields[1..];
        assert forall i | 0 <= i < |rest| :: rest[i] == fields[i + 1];
        InsertSorted(rest, f, less);
        InsertLength(rest, f, less);
        var placed := InsertField(rest, f, less);
        assert fields[0] in fields;
        forall j | 0 <= j < |placed| ensures less(fields[0].key, placed[j].key) {
          assert placed[j] in placed;
          if placed[j] != f {
            var i :| 0 <= i < |rest| && rest[i] == placed[j];
            assert less(fields[0].key, fields[i + 1].key);
          }
        }
      }
    }
  }

  lemma {:induction false} SortSorts(fields: seq<Field>, less: Order)
    requires StrictTotal(less) && DistinctKeys(fields)
    ensures Sorted(SortFields(fields, less), less)
  {
    if fields != [] {
      var init, last := fields[..|fields| - 1], fields[|fields| - 1];
      SortSorts(init, less);
      SortKeeps(init, less);
      forall g | g in SortFields(init, less) ensures g.key != last.key {
        var i :| 0 <= i < |init| && init[i] == g;
        assert fields[i].key != fields[|fields| - 1].key;
      }
      InsertSorted(SortFields(init, less), last, less);
    }
  }

  lemma FirstIsLeast(fields: seq<Field>, g: Field, less: Order)
    requires Sorted(fields, less) && g in fields
    ensures |fields| > 0 && (g == fields[0] || less(fields[0].key, g.key))
  {
    var i :| 0 <= i < |fields| && fields[i] == g;
    assert i > 0 ==> less(fields[0].key, fields[i].key);
  }

  lemma RestMembers(fields: seq<Field>, less: Order)
    requires StrictTotal(less) && Sorted(fields, less) && |fields| > 0
    ensures forall g :: g in fields[1..] <==> g in fields && g != fields[0]
    ensures Sorted(fields[1..], less)
  {
    assert forall i | 0 <= i < |fields[1..]| :: fields[1..][i] == fields[i + 1];
    forall g | g in fields[1..] ensures g in fields && g != fields[0] {
      var i :| 0 <= i < |fields[1..]| && fields[1..][i] == g;
      assert less(fields[0].key, fields[i + 1].key);
    }
  }

  lemma NoEntries(b: seq<Field>)
    ensures (forall g :: g !in b) ==> b == []
  {
    if b != [] { assert b[0] in b; }
  }

  /** Two sorted lists with the same entries are the same list. */
  lemma {:induction false} SortedUnique(a: seq<Field>, b: seq<Field>, less: Order)
    requires StrictTotal(less) && Sorted(a, less) && Sorted(b, less) && forall g :: g in a <==> g in b
    ensures a == b
    decreases |a|
  {
    if a == [] {
      NoEntries(b);
    } else {
      assert a[0] in b;
      FirstIsLeast(b, a[0], less);
      FirstIsLeast(a, b[0], less);
      assert a[0] == b[0];
      RestMembers(a, less);
      RestMembers(b, less);
      SortedUnique(a[1..], b[1..], less);
      assert a == [a[0]] + a[1..] && b == [b[0]] + b[1..];
    }
  }

  // ---------------------------------------------------------------- canonical

  /** What is printed: bigints as their decimal text, keys sorted at every level. */
  function Normal(t: Tree, less: Order): Tree
    decreases t
  {
    match t
    case Big(n) => Text(PrintInt(n))
    case List(items) => List(NormalItems(items, less))
    case Object(fields) => Object(SortFields(NormalFields(fields, less), less))
    case _ => t
  }

  function NormalItems(items: seq<Tree>, less: Order): (r: seq<Tree>)
    ensures |r| == |items|
    decreases items
  {
    if items == [] then [] else [Normal(items[0], less)] + NormalItems(items[1..], less)
  }

  function NormalFields(fields: seq<Field>, less: Order): (r: seq<Field>)
    ensures |r| == |fields|
    decreases fields
  {
    if fields == [] then [] else [Field(fields[0].key, Normal(fields[0].value, less))] + NormalFields(fields[1..], less)
  }

  function Canonical(t: Tree, less: Order): string {
    Render(Normal(t, less))
  }

  /** Numbers have their text, no object has a key twice, and no item of a list is undefined. */
  predicate Proper(t: Tree)
    decreases t
  {
    match t
    case Number(text) => NumberText(text)
    case List(items) => forall i | 0 <= i < |items| :: !items[i].Undefined? && Proper(items[i])
    case Object(fields) => DistinctKeys(fields) && forall i | 0 <= i < |fields| :: Proper(fields[i].value)
    case _ => true
  }

  function LeafOf(t: Tree): Tree {
    if t.Big? then Text(PrintInt(t.n)) else t
  }

  /** Equal up to the order of object keys, a bigint counting as its decimal text. */
  ghost predicate Same(a: Tree, b: Tree)
    decreases a
  {
    match a
    case List(items) => b.List? && |items| == |b.items| && forall i | 0 <= i < |items| :: Same(items[i], b.items[i])
    case Object(fields) =>
      && b.Object? && |fields| == |b.fields|
      && forall i | 0 <= i < |fields| :: exists j :: 0 <= j < |b.fields| && SameField(fields[i], b.fields[j])
    case _ => !b.List? && !b.Object? && LeafOf(a) == LeafOf(b)
  }

  ghost predicate SameField(f: Field, g: Field)
    decreases f
  {
    f.key == g.key && Same(f.value, g.value)
  }

  lemma {:induction false} NormalItemAt(items: seq<Tree>, less: Order, i: nat)
    requires i < |items|
    ensures NormalItems(items, less)[i] == Normal(items[i], less)
    decreases items
  {
    if i > 0 { NormalItemAt(items[1..], less, i - 1); }
  }

  lemma {:induction false} NormalFieldAt(fields: seq<Field>, less: Order, i: nat)
    requires i < |fields|
    ensures NormalFields(fields, less)[i] == Field(fields[i].key, Normal(fields[i].value, less))
    decreases fields
  {
    if i > 0 { NormalFieldAt(fields[1..], less, i - 1); }
  }

  lemma NormalDistinct(fields: seq<Field>, less: Order)
    requires DistinctKeys(fields)
    ensures DistinctKeys(NormalFields(fields, less))
  {
    forall i, j | 0 <= i < j < |fields| ensures NormalFields(fields, less)[i].key != NormalFields(fields, less)[j].key {
      NormalFieldAt(fields, less, i);
      NormalFieldAt(fields, less, j);
    }
  }

  /** The normal form prints. */
  lemma {:induction false} NormalIsPlain(t: Tree, less: Order)
    requires Proper(t)
    ensures Plain(Normal(t, less))
    decreases t
  {
    match t
    case List(items) =>
      forall i | 0 <= i < |items|
        ensures !NormalItems(items, less)[i].Undefined? && Plain(NormalItems(items, less)[i])
      {
        NormalItemAt(items, less, i);
        NormalIsPlain(items[i], less);
      }
    case Object(fields) =>
      var normal := NormalFields(fields, less);
      SortKeeps(normal, less);
      forall k | 0 <= k < |SortFields(normal, less)| ensures Plain(SortFields(normal, less)[k].value) {
        assert SortFields(normal, less)[k] in normal;
        var i :| 0 <= i < |normal| && normal[i] == SortFields(normal, less)[k];
        NormalFieldAt(fields, less, i);
        NormalIsPlain(fields[i].value, less);
      }
    case _ =>
  }

  lemma {:induction false} SubsetOfDistinct(a: seq<Field>, b: seq<Field>)
    requires DistinctKeys(a) && DistinctKeys(b) && |a| == |b| && forall g | g in a :: g in b
    ensures forall g | g in b :: g in a
  {
    var sa, sb := set g | g in a, set g | g in b;
    DistinctCount(a);
    DistinctCount(b);
    assert sa <= sb;
    assert |sb - sa| == |sb| - |sa|;
    forall g | g in b ensures g in a {
      assert g in sb;
      assert sb - sa == {};
    }
  }

  lemma {:induction false} DistinctCount(a: seq<Field>)
    requires DistinctKeys(a)
    ensures |set g | g in a| == |a|
  {
    if a != [] {
      var init, last := a[..|a| - 1], a[|a| - 1];
      DistinctCount(init);
      assert last !in init;
      assert (set g | g in a) == (set g | g in init) + {last};
    }
  }

  lemma FieldMatches(a: Tree, b: Tree, less: Order, i: nat)
    requires a.Object? && b.Object? && i < |a.fields|
    requires forall g | g in NormalFields(a.fields, less) :: g in NormalFields(b.fields, less)
    ensures exists j ::
              0 <= j < |b.fields| && a.fields[i].key == b.fields[j].key &&
                Normal(a.fields[i].value, less) == Normal(b.fields[j].value, less)
  {
    var na, nb := NormalFields(a.fields, less), NormalFields(b.fields, less);
    NormalFieldAt(a.fields, less, i);
    assert na[i] in na && na[i] in nb;
    var j :| 0 <= j < |nb| && nb[j] == na[i];
    NormalFieldAt(b.fields, less, j);
  }

  lemma SameSorted(a: seq<Field>, b: seq<Field>, less: Order)
    requires StrictTotal(less) && DistinctKeys(a) && DistinctKeys(b)
    ensures SortFields(a, less) == SortFields(b, less) <==> (set g | g in a) == (set g | g in b)
  {
    SortSorts(a, less);
    SortSorts(b, less);
    SortKeeps(a, less);
    SortKeeps(b, less);
    var sa, sb := set g | g in a, set g | g in b;
    if sa == sb {
      forall g ensures g in SortFields(a, less) <==> g in SortFields(b, less) {
        assert g in a <==> g in sa;
        assert g in b <==> g in sb;
      }
      SortedUnique(SortFields(a, less), SortFields(b, less), less);
    }
    if SortFields(a, less) == SortFields(b, less) {
      assert forall g :: g in a <==> g in b;
    }
  }

  /** Equal normal forms are what "the same up to key order" means. */
  lemma {:induction false} SameIffNormal(a: Tree, b: Tree, less: Order)
    requires StrictTotal(less) && Proper(a) && Proper(b)
    ensures Same(a, b) <==> Normal(a, less) == Normal(b, less)
    decreases a
  {
    if a.List? && b.List? {
      SameLists(a, b, less);
    } else if a.Object? && b.Object? {
      SameObjects(a, b, less);
    }
  }

  lemma {:induction false} SameLists(a: Tree, b: Tree, less: Order)
    requires StrictTotal(less) && Proper(a) && Proper(b) && a.List? && b.List?
    ensures Same(a, b) <==> Normal(a, less) == Normal(b, less)
    decreases a, 0
  {
    var na, nb := NormalItems(a.items, less), NormalItems(b.items, less);
    if |a.items| == |b.items| {
      forall i | 0 <= i < |a.items| ensures Same(a.items[i], b.items[i]) <==> na[i] == nb[i] {
        NormalItemAt(a.items, less, i);
        NormalItemAt(b.items, less, i);
        SameIffNormal(a.items[i], b.items[i], less);
      }
      if Same(a, b) {
        assert forall i | 0 <= i < |na| :: na[i] == nb[i];
      }
    }
  }

  lemma {:induction false} SameObjects(a: Tree, b: Tree, less: Order)
    requires StrictTotal(less) && Proper(a) && Proper(b) && a.Object? && b.Object?
    ensures Same(a, b) <==> Normal(a, less) == Normal(b, less)
    decreases a, 0
  {
    var na, nb := NormalFields(a.fields, less), NormalFields(b.fields, less);
    NormalDistinct(a.fields, less);
    NormalDistinct(b.fields, less);
    SameSorted(na, nb, less);
    forall i, j | 0 <= i < |a.fields| && 0 <= j < |b.fields|
      ensures SameField(a.fields[i], b.fields[j]) <==> na[i] == nb[j]
    {
      NormalFieldAt(a.fields, less, i);
      NormalFieldAt(b.fields, less, j);
      SameIffNormal(a.fields[i].value, b.fields[j].value, less);
    }
    if Same(a, b) {
      forall g | g in na ensures g in nb {
        var i :| 0 <= i < |na| && na[i] == g;
        var j :| 0 <= j < |b.fields| && SameField(a.fields[i], b.fields[j]);
        assert nb[j] == g;
      }
      SubsetOfDistinct(na, nb);
    }
    var sa, sb := set g | g in na, set g | g in nb;
    if sa == sb {
      forall g | g in na ensures g in nb { assert g in sa && g in sb; }
      DistinctCount(na);
      DistinctCount(nb);
      forall i | 0 <= i < |a.fields| ensures exists j :: 0 <= j < |b.fields| && SameField(a.fields[i], b.fields[j]) {
        FieldMatches(a, b, less, i);
        var j :| 0 <= j < |b.fields| && a.fields[i].key == b.fields[j].key &&
            Normal(a.fields[i].value, less) == Normal(b.fields[j].value, less);
        NormalFieldAt(a.fields, less, i);
        NormalFieldAt(b.fields, less, j);
      }
    }
  }

  /** Two inputs have the same canonical text exactly when they are the same up to key order; so equal fingerprints,
      the hash being taken as injective, mean equal inputs. */
  lemma CanonicalIff(a: Tree, b: Tree, less: Order)
    requires StrictTotal(less) && Proper(a) && Proper(b)
    ensures Canonical(a, less) == Canonical(b, less) <==> Same(a, b)
  {
    SameIffNormal(a, b, less);
    NormalIsPlain(a, less);
    NormalIsPlain(b, less);
    if Canonical(a, less) == Canonical(b, less) {
      assert Canonical(a, less) + "" == Canonical(b, less) + "";
      RenderApart(Normal(a, less), Normal(b, less), "", "");
    }
  }

  /** An undefined item breaks this: the list that holds nothing else prints as the empty list. */
  lemma UndefinedItemVanishes(less: Order)
    ensures Canonical(List([Undefined]), less) == Canonical(List([]), less) && !Same(List([Undefined]), List([]))
  {
    var normal := NormalItems([Undefined], less);
    NormalItemAt([Undefined], less, 0);
    assert normal == [Undefined];
    assert RenderItems([Undefined], true) == Separator(true) + "" + RenderItems([Undefined][1..], false);
    assert Separator(true) + "" + [']'] == [']'];
  }

  /** An order that ties two different keys breaks this: the printed order is then the order of insertion. */
  lemma TiedKeysPrintApart(less: Order, k: string, l: string)
    requires k != l && !less(k, l) && !less(l, k)
    ensures Same(Object([Field(k, Null), Field(l, Null)]), Object([Field(l, Null), Field(k, Null)]))
    ensures Canonical(Object([Field(k, Null), Field(l, Null)]), less) !=
            Canonical(Object([Field(l, Null), Field(k, Null)]), less)
  {
    var a, b := [Field(k, Null), Field(l, Null)], [Field(l, Null), Field(k, Null)];
    assert SameField(a[0], b[1]) && SameField(a[1], b[0]);
    NormalPair(k, l, less);
    NormalPair(l, k, less);
    assert a[0] != b[0];
    if Render(Object(a)) == Render(Object(b)) {
      assert Render(Object(a)) + "" == Render(Object(b)) + "";
      RenderApart(Object(a), Object(b), "", "");
    }
  }

  lemma NormalPair(k: string, l: string, less: Order)
    requires !less(l, k)
    ensures Normal(Object([Field(k, Null), Field(l, Null)]), less) == Object([Field(k, Null), Field(l, Null)])
  {
    var a, f, g := [Field(k, Null), Field(l, Null)], Field(k, Null), Field(l, Null);
    assert a[1..] == [g] && [g][1..] == [];
    assert NormalFields([g], less) == [g];
    assert NormalFields(a, less) == a;
    assert a[..1] == [f] && [f][..0] == [] && [f][1..] == [];
    assert SortFields([], less) == [];
    assert SortFields([f], less) == InsertField([], f, less) == [f];
    assert InsertField([], g, less) == [g];
    assert InsertField([f], g, less) == [f] + [g];
    assert SortFields(a, less) == InsertField(SortFields(a[..1], less), g, less);
  }
}
