/** writeCanonical: JSON with sorted keys at every level. A character stands for a code
    point, so a string here is a valid UTF-8 string there. */
module CanonicalJson {
  import opened Sorting
  import opened Text

  datatype Json =
    | Str(s: string)
    | Num(n: int)
    | Truth(b: bool)
    | Arr(items: seq<Json>)
    | Obj(fields: map<string, Json>)

  function HexDigit(d: nat): char
    requires d < 16
  {
    if d < 10 then '0' + d as char else 'a' + (d - 10) as char
  }

  function Hex4(n: nat): string
    requires n < 0x1_0000
  {
    [HexDigit(n / 16 / 16 / 16), HexDigit(n / 16 / 16 % 16), HexDigit(n / 16 % 16), HexDigit(n % 16)]
  }

  /** The letter after the backslash, for the characters that have a short escape. */
  function ShortEscape(c: char): string {
    if c == '\"' then "\"" else if c == '\\' then "\\"
    else if c as int == 8 then "b" else if c as int == 12 then "f"
    else if c as int == 10 then "n" else if c as int == 13 then "r"
    else if c as int == 9 then "t" else ""
  }

  /** encoding/json also spells out control characters, the HTML ones and the two line separators. */
  predicate SpeltOut(c: char) {
    c as int < 0x20 || c == '<' || c == '>' || c == '&' || c as int == 0x2028 || c as int == 0x2029
  }

  function EscapeChar(c: char): (e: string)
    ensures e != "" && e[0] != '\"'
  {
    if ShortEscape(c) != "" then "\\" + ShortEscape(c)
    else if SpeltOut(c) then "\\u" + Hex4(c as int)
    else [c]
  }

  /** The text of a string after its opening quote. */
  function QuoteRest(s: string): string {
    if s == "" then "\"" else EscapeChar(s[0]) + QuoteRest(s[1..])
  }

  function Quote(s: string): string { "\"" + QuoteRest(s) }

  function StringLeFn(): (string, string) -> bool { (a, b) => StringLe(a, b) }

  lemma StringOrder()
    ensures TotalPreorder(StringLeFn()) && Antisymmetric(StringLeFn())
  {
    forall a, b ensures StringLe(a, b) || StringLe(b, a)
      ensures StringLe(a, b) && StringLe(b, a) ==> a == b
    {
      StringLeTotal(a, b);
    }
    forall a, b, c | StringLe(a, b) && StringLe(b, c) ensures StringLe(a, c) {
      StringLeTransitive(a, b, c);
    }
  }

  ghost function SomeOrder(keys: set<string>): (r: seq<string>)
    ensures multiset(r) == multiset(keys)
  {
    if keys == {} then []
    else
      var k :| k in keys;
      assert keys == keys - {k} + {k};
      [k] + SomeOrder(keys - {k})
  }

  ghost function SortedKeys(keys: set<string>): (r: seq<string>)
    ensures multiset(r) == multiset(keys)
    ensures |r| == |keys|
    ensures forall k :: k in r <==> k in keys
  {
    StringOrder();
    SortCorrect(StringLeFn(), SomeOrder(keys));
    var r := Sort(StringLeFn(), SomeOrder(keys));
    assert |multiset(r)| == |multiset(keys)| == |keys|;
    assert forall k :: k in r <==> k in multiset(keys);
    r
  }

  /** Whatever order the map yields its keys in, sorting them gives the same list. */
  lemma KeyOrderIrrelevant(keys: set<string>, order: seq<string>)
    requires multiset(order) == multiset(keys)
    ensures Sort(StringLeFn(), order) == SortedKeys(keys)
  {
    StringOrder();
    SortDependsOnMultiset(StringLeFn(), order, SomeOrder(keys));
  }

  ghost function Width(v: Json): nat {
    match v
    case Arr(items) => 2 + |items|
    case Obj(fields) => 2 + |fields.Keys|
    case _ => 0
  }

  ghost function Print(v: Json): (r: string)
    ensures r != "" && r[0] != ']' && r[0] != '}' && r[0] != ','
    decreases v, Width(v)
  {
    match v
    case Str(s) => Quote(s)
    case Num(n) => NumText(n)
    case Truth(b) => if b then "true" else "false"
    case Arr(items) => "[" + PrintItems(v, 0)
    case Obj(fields) => "{" + PrintFields(v, SortedKeys(fields.Keys), true)
  }

  function NumText(n: int): (r: string)
    ensures r != "" && (r[0] == '-' || IsDigit(r[0]))
  {
    DecimalInt(n)
  }

  /** The items from i on, with what separates and closes them. */
  ghost function PrintItems(v: Json, i: nat): (r: string)
    requires v.Arr? && i <= |v.items|
    ensures r != ""
    ensures i > 0 ==> r[0] == if i == |v.items| then ']' else ','
    decreases v, 1 + |v.items| - i
  {
    if i == |v.items| then "]" else
    Comma(i == 0) + (Print(v.items[i]) + PrintItems(v, i + 1))
  }

  function Comma(first: bool): string { if first then "" else "," }

  /** The fields named by keys, with what separates and closes them. */
  ghost function PrintFields(v: Json, keys: seq<string>, first: bool): (r: string)
    requires v.Obj? && forall k | k in keys :: k in v.fields
    ensures r != ""
    ensures !first ==> r[0] == if keys == [] then '}' else ','
    decreases v, 1 + |keys|
  {
    if keys == [] then "}" else
    Comma(first) + (Quote(keys[0]) + (":" + (Print(v.fields[keys[0]]) + PrintFields(v, keys[1..], false))))
  }

  // Reading back

  lemma HexDigitUnique(a: nat, b: nat)
    requires a < 16 && b < 16 && HexDigit(a) == HexDigit(b)
    ensures a == b
  {
  }

  lemma Hex4Unique(m: nat, n: nat)
    requires m < 0x1_0000 && n < 0x1_0000 && Hex4(m) == Hex4(n)
    ensures m == n
  {
    var x, y := Hex4(m), Hex4(n);
    assert x[0] == y[0] && x[1] == y[1] && x[2] == y[2] && x[3] == y[3];
    hide HexDigit;
    HexDigitUnique(m / 16 / 16 / 16, n / 16 / 16 / 16);
    HexDigitUnique(m / 16 / 16 % 16, n / 16 / 16 % 16);
    HexDigitUnique(m / 16 % 16, n / 16 % 16);
    HexDigitUnique(m % 16, n % 16);
  }

  lemma ShortEscapeUnique(c: char, d: char)
    requires ShortEscape(c) == ShortEscape(d) != ""
    ensures c == d
  {
    assert ShortEscape(c)[0] == ShortEscape(d)[0];
  }

  lemma SamePrefix(a: string, r: string, b: string, s: string)
    requires a + r == b + s && |a| == |b|
    ensures a == b && r == s
  {
    assert (a + r)[..|a|] == a && (b + s)[..|b|] == b;
    assert (a + r)[|a|..] == r && (b + s)[|b|..] == s;
  }

  /** No escape is the start of another, so the first character can be read off. */
  lemma EscapeUnique(c: char, r: string, d: char, s: string)
    requires EscapeChar(c) + r == EscapeChar(d) + s
    ensures c == d && r == s
  {
    var x, y := EscapeChar(c) + r, EscapeChar(d) + s;
    assert x[0] == y[0];
    if |EscapeChar(c)| > 1 && |EscapeChar(d)| > 1 {
      assert x[1] == EscapeChar(c)[1] && y[1] == EscapeChar(d)[1];
      SamePrefix(EscapeChar(c), r, EscapeChar(d), s);
      if |EscapeChar(c)| == 2 {
        assert ShortEscape(c) == EscapeChar(c)[1..] == EscapeChar(d)[1..] == ShortEscape(d);
        ShortEscapeUnique(c, d);
      } else {
        assert Hex4(c as int) == EscapeChar(c)[2..] == EscapeChar(d)[2..] == Hex4(d as int);
        Hex4Unique(c as int, d as int);
      }
    } else {
      SamePrefix(EscapeChar(c), r, EscapeChar(d), s);
    }
  }

  lemma {:induction false} QuoteRestUnique(a: string, r: string, b: string, s: string)
    requires QuoteRest(a) + r == QuoteRest(b) + s
    ensures a == b && r == s
  {
    if a == "" || b == "" {
      assert (QuoteRest(a) + r)[0] == (QuoteRest(b) + s)[0];
      SamePrefix("\"", r, "\"", s);
    } else {
      var x, y := QuoteRest(a[1..]), QuoteRest(b[1..]);
      Reassociate(EscapeChar(a[0]), x, r);
      Reassociate(EscapeChar(b[0]), y, s);
      EscapeUnique(a[0], x + r, b[0], y + s);
      QuoteRestUnique(a[1..], r, b[1..], s);
      assert a == [a[0]] + a[1..] && b == [b[0]] + b[1..];
    }
  }

  lemma QuoteUnique(a: string, r: string, b: string, s: string)
    requires Quote(a) + r == Quote(b) + s
    ensures a == b && r == s
  {
    SamePrefix("\"", QuoteRest(a) + r, "\"", QuoteRest(b) + s) by {
      Reassociate("\"", QuoteRest(a), r);
      Reassociate("\"", QuoteRest(b), s);
    }
    QuoteRestUnique(a, r, b, s);
  }

  /** What follows a value starts with a comma or a bracket, or is nothing. */
  lemma SameKind(a: Json, r: string, b: Json, s: string)
    requires Print(a) + r == Print(b) + s
    ensures a.Str? == b.Str? && a.Num? == b.Num? && a.Truth? == b.Truth?
    ensures a.Arr? == b.Arr? && a.Obj? == b.Obj?
  {
    assert (Print(a) + r)[0] == Print(a)[0] && (Print(b) + s)[0] == Print(b)[0];
    FirstChar(a);
    FirstChar(b);
  }

  lemma FirstChar(v: Json)
    ensures v.Str? <==> Print(v)[0] == '\"'
    ensures v.Num? <==> Print(v)[0] == '-' || IsDigit(Print(v)[0])
    ensures v.Truth? <==> Print(v)[0] == 't' || Print(v)[0] == 'f'
    ensures v.Arr? <==> Print(v)[0] == '['
    ensures v.Obj? <==> Print(v)[0] == '{'
  {
  }

  lemma NumUnique(m: int, r: string, n: int, s: string)
    requires StopsNumber(r) && StopsNumber(s) && NumText(m) + r == NumText(n) + s
    ensures m == n && r == s
  {
    hide DecimalInt;
    DecimalUnique(m, r, n, s);
  }

  lemma TruthUnique(a: Json, r: string, b: Json, s: string)
    requires a.Truth? && b.Truth? && Print(a) + r == Print(b) + s
    ensures a == b && r == s
  {
    assert (Print(a) + r)[0] == (Print(b) + s)[0];
    SamePrefix(Print(a), r, Print(b), s);
  }

  /** Unique readability: the text of a value and what follows it fix both. */
  lemma {:induction false} PrintUnique(a: Json, r: string, b: Json, s: string)
    requires StopsNumber(r) && StopsNumber(s) && Print(a) + r == Print(b) + s
    ensures a == b && r == s
    decreases a, Width(a), 1
  {
    hide Quote, NumText, Sort, SortedKeys, PrintItems, PrintFields;
    SameKind(a, r, b, s);
    match a
    case Str(x) => QuoteUnique(x, r, b.s, s);
    case Num(n) => NumUnique(n, r, b.n, s);
    case Truth(x) => TruthUnique(a, r, b, s);
    case Arr(items) => ArrUnique(a, r, b, s);
    case Obj(fields) => ObjUnique(a, r, b, s);
  }

  lemma {:induction false} ArrUnique(a: Json, r: string, b: Json, s: string)
    requires a.Arr? && b.Arr?
    requires StopsNumber(r) && StopsNumber(s) && Print(a) + r == Print(b) + s
    ensures a == b && r == s
    decreases a, Width(a), 0
  {
    hide PrintItems;
    Reassociate("[", PrintItems(a, 0), r);
    Reassociate("[", PrintItems(b, 0), s);
    SamePrefix("[", PrintItems(a, 0) + r, "[", PrintItems(b, 0) + s);
    ItemsUnique(a, r, b, s, 0);
    assert a.items == b.items;
  }

  lemma {:induction false} ObjUnique(a: Json, r: string, b: Json, s: string)
    requires a.Obj? && b.Obj?
    requires StopsNumber(r) && StopsNumber(s) && Print(a) + r == Print(b) + s
    ensures a == b && r == s
    decreases a, Width(a), 0
  {
    hide PrintFields;
    var ks, ls := SortedKeys(a.fields.Keys), SortedKeys(b.fields.Keys);
    var x, y := PrintFields(a, ks, true), PrintFields(b, ls, true);
    Reassociate("{", x, r);
    Reassociate("{", y, s);
    SamePrefix("{", x + r, "{", y + s);
    FieldsUnique(a, ks, r, b, ls, s, true);
    assert a.fields.Keys == b.fields.Keys;
    assert a.fields == b.fields;
  }

  lemma {:induction false} ItemsUnique(a: Json, r: string, b: Json, s: string, i: nat)
    requires StopsNumber(r) && StopsNumber(s)
    requires a.Arr? && b.Arr? && i <= |a.items| && i <= |b.items|
    requires PrintItems(a, i) + r == PrintItems(b, i) + s
    ensures |a.items| == |b.items| && r == s && a.items[i..] == b.items[i..]
    decreases a, 1 + |a.items| - i, 0
  {
    ItemsEndTogether(a, r, b, s, i);
    if i == |a.items| {
      SamePrefix("]", r, "]", s);
    } else {
      var x, y := PrintItems(a, i + 1), PrintItems(b, i + 1);
      TwoParts(Comma(i == 0), Print(a.items[i]), x, r);
      TwoParts(Comma(i == 0), Print(b.items[i]), y, s);
      SamePrefix(Comma(i == 0), Print(a.items[i]) + (x + r), Comma(i == 0), Print(b.items[i]) + (y + s));
      assert (x + r)[0] == x[0] && (y + s)[0] == y[0];
      PrintUnique(a.items[i], x + r, b.items[i], y + s);
      ItemsUnique(a, r, b, s, i + 1);
      assert a.items[i..] == [a.items[i]] + a.items[i + 1..] && b.items[i..] == [b.items[i]] + b.items[i + 1..];
    }
  }

  lemma TwoParts(a: string, b: string, c: string, r: string)
    ensures a + (b + c) + r == a + (b + (c + r))
  {
    Reassociate(a, b + c, r);
    Reassociate(b, c, r);
  }

  lemma ItemsEndTogether(a: Json, r: string, b: Json, s: string, i: nat)
    requires a.Arr? && b.Arr? && i <= |a.items| && i <= |b.items|
    requires PrintItems(a, i) + r == PrintItems(b, i) + s
    ensures i == |a.items| <==> i == |b.items|
  {
    assert (PrintItems(a, i) + r)[0] == PrintItems(a, i)[0] && (PrintItems(b, i) + s)[0] == PrintItems(b, i)[0];
    if i < |a.items| && i == 0 {
      assert PrintItems(a, i)[0] == Print(a.items[i])[0];
    }
    if i < |b.items| && i == 0 {
      assert PrintItems(b, i)[0] == Print(b.items[i])[0];
    }
  }

  lemma {:induction false} FieldsUnique(a: Json, ks: seq<string>, r: string, b: Json, ls: seq<string>, s: string,
                                        first: bool)
    requires StopsNumber(r) && StopsNumber(s)
    requires a.Obj? && b.Obj?
    requires (forall k | k in ks :: k in a.fields) && (forall k | k in ls :: k in b.fields)
    requires PrintFields(a, ks, first) + r == PrintFields(b, ls, first) + s
    ensures ks == ls && r == s && forall k | k in ks :: a.fields[k] == b.fields[k]
    decreases a, 1 + |ks|, 0
  {
    FieldsEndTogether(a, ks, r, b, ls, s, first);
    if ks == [] {
      SamePrefix("}", r, "}", s);
    } else {
      var k, l, ks', ls' := ks[0], ls[0], ks[1..], ls[1..];
      var x, y := PrintFields(a, ks', false), PrintFields(b, ls', false);
      FourParts(Comma(first), Quote(k), Print(a.fields[k]), x, r);
      FourParts(Comma(first), Quote(l), Print(b.fields[l]), y, s);
      var p, q := Print(a.fields[k]) + (x + r), Print(b.fields[l]) + (y + s);
      SamePrefix(Comma(first), Quote(k) + (":" + p), Comma(first), Quote(l) + (":" + q));
      QuoteUnique(k, ":" + p, l, ":" + q);
      SamePrefix(":", p, ":", q);
      assert (x + r)[0] == x[0] && (y + s)[0] == y[0];
      PrintUnique(a.fields[k], x + r, b.fields[l], y + s);
      FieldsUnique(a, ks', r, b, ls', s, false);
      assert ks == [k] + ks' && ls == [l] + ls';
    }
  }

  lemma FourParts(c: string, q: string, p: string, x: string, r: string)
    ensures c + (q + (":" + (p + x))) + r == c + (q + (":" + (p + (x + r))))
  {
    Reassociate(c, q + (":" + (p + x)), r);
    Reassociate(q, ":" + (p + x), r);
    Reassociate(":", p + x, r);
    Reassociate(p, x, r);
  }

  lemma FieldsEndTogether(a: Json, ks: seq<string>, r: string, b: Json, ls: seq<string>, s: string, first: bool)
    requires a.Obj? && b.Obj?
    requires (forall k | k in ks :: k in a.fields) && (forall k | k in ls :: k in b.fields)
    requires PrintFields(a, ks, first) + r == PrintFields(b, ls, first) + s
    ensures ks == [] <==> ls == []
  {
    FieldsStart(a, ks, r, first);
    FieldsStart(b, ls, s, first);
  }

  lemma FieldsStart(a: Json, ks: seq<string>, r: string, first: bool)
    requires a.Obj? && forall k | k in ks :: k in a.fields
    ensures PrintFields(a, ks, first) + r != ""
    ensures (PrintFields(a, ks, first) + r)[0] == '}' <==> ks == []
  {
    if ks != [] && first {
      assert PrintFields(a, ks, first)[0] == Quote(ks[0])[0];
    }
  }

  /** The buffer the walker appends to. */
  class Buffer {
    var text: string

    constructor ()
      ensures text == ""
    {
      text := "";
    }

    method Write(s: string)
      modifies this
      ensures text == old(text) + s
    {
      text := text + s;
    }
  }

  /** The keys of a map in the order a range loop happens to visit them. */
  method CollectKeys(fields: map<string, Json>) returns (keys: seq<string>)
    ensures multiset(keys) == multiset(fields.Keys)
  {
    keys := [];
    var left := fields.Keys;
    while left != {}
      invariant left <= fields.Keys
      invariant multiset(keys) + multiset(left) == multiset(fields.Keys)
      decreases |left|
    {
      var k :| k in left;
      assert left == left - {k} + {k};
      keys, left := keys + [k], left - {k};
    }
  }

  method SortKeys(keys: seq<string>) returns (sorted: seq<string>)
    ensures sorted == Sort(StringLeFn(), keys)
  {
    var a := new string[|keys|](i requires 0 <= i < |keys| => keys[i]);
    assert a[..] == keys;
    InsertionSort(a, StringLeFn());
    sorted := a[..];
  }

  /** The walker appends the canonical text, whatever order the maps are visited in. */
  method {:induction false} WriteCanonical(buf: Buffer, v: Json)
    modifies buf
    ensures buf.text == old(buf.text) + Print(v)
    decreases v, Width(v)
  {
    hide Quote, NumText, Sort, SortedKeys, PrintItems, PrintFields;
    ghost var was := buf.text;
    match v
    case Str(s) => buf.Write(Quote(s));
    case Num(n) => buf.Write(NumText(n));
    case Truth(b) => buf.Write(if b then "true" else "false");
    case Arr(items) =>
      buf.Write("[");
      Reassociate(was, "[", PrintItems(v, 0));
      WriteItems(buf, v);
    case Obj(fields) =>
      buf.Write("{");
      Reassociate(was, "{", PrintFields(v, SortedKeys(fields.Keys), true));
      WriteFields(buf, v);
  }

  lemma ItemStep(before: string, sep: string, p: string, rest: string)
    ensures before + (sep + (p + rest)) == (before + sep + p) + rest
  {
    Reassociate(before + sep, p, rest);
    Reassociate(before, sep, p + rest);
  }

  method {:induction false} WriteItems(buf: Buffer, v: Json)
    requires v.Arr?
    modifies buf
    ensures buf.text == old(buf.text) + PrintItems(v, 0)
    decreases v, 1
  {
    hide Print;
    ghost var done := buf.text + PrintItems(v, 0);
    for i := 0 to |v.items|
      invariant buf.text + PrintItems(v, i) == done
    {
      ItemStep(buf.text, Comma(i == 0), Print(v.items[i]), PrintItems(v, i + 1));
      buf.Write(Comma(i == 0));
      WriteCanonical(buf, v.items[i]);
    }
    buf.Write("]");
  }

  lemma FieldStep(before: string, sep: string, q: string, p: string, rest: string)
    ensures before + (sep + (q + (":" + (p + rest)))) == (before + sep + q + ":" + p) + rest
  {
    Reassociate(before + sep + q + ":", p, rest);
    Reassociate(before + sep + q, ":", p + rest);
    Reassociate(before + sep, q, ":" + (p + rest));
    Reassociate(before, sep, q + (":" + (p + rest)));
  }

  /** One field written moves it from what is left to what is there. */
  lemma NextField(before: string, v: Json, keys: seq<string>, i: nat)
    requires v.Obj? && i < |keys| && forall k | k in keys :: k in v.fields
    ensures before + PrintFields(v, keys[i..], i == 0)
         == (before + Comma(i == 0) + Quote(keys[i]) + ":" + Print(v.fields[keys[i]]))
             + PrintFields(v, keys[i + 1..], false)
  {
    hide Print, Quote;
    assert keys[i..][1..] == keys[i + 1..] && keys[i..][0] == keys[i];
    FieldStep(before, Comma(i == 0), Quote(keys[i]), Print(v.fields[keys[i]]), PrintFields(v, keys[i + 1..], false));
  }

  lemma NoField(v: Json, first: bool)
    requires v.Obj?
    ensures PrintFields(v, [], first) == "}"
  {
  }

  method {:induction false} WriteFields(buf: Buffer, v: Json)
    requires v.Obj?
    modifies buf
    ensures buf.text == old(buf.text) + PrintFields(v, SortedKeys(v.fields.Keys), true)
    decreases v, 1
  {
    hide Print, PrintFields, Quote, Sort;
    var keys := CollectKeys(v.fields);
    KeyOrderIrrelevant(v.fields.Keys, keys);
    keys := SortKeys(keys);
    ghost var done := buf.text + PrintFields(v, keys, true);
    assert keys[0..] == keys;
    for i := 0 to |keys|
      invariant buf.text + PrintFields(v, keys[i..], i == 0) == done
    {
      NextField(buf.text, v, keys, i);
      buf.Write(Comma(i == 0));
      buf.Write(Quote(keys[i]));
      buf.Write(":");
      WriteCanonical(buf, v.fields[keys[i]]);
    }
    assert keys[|keys|..] == [];
    NoField(v, keys == []);
    buf.Write("}");
  }
}
