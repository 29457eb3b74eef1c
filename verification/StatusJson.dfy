/** JSON values as `kookr status --json` builds them, and the byte size of their text. */
module StatusJson {
  import opened Wrappers
  import Utf8

  datatype Field = Field(key: string, value: Json)

  /** `Num` keeps the number's text. */
  datatype Json =
    | Null
    | Bool(b: bool)
    | Num(text: string)
    | Str(s: string)
    | Arr(items: seq<Json>)
    | Obj(fields: seq<Field>)

  // ---- size of the serialized text ----

  function EscapedSize(c: char): nat {
    var n := c as int;
    if c == '"' || c == '\\' || 8 <= n <= 10 || 12 <= n <= 13 then 2
    else if n < 0x20 then 6
    else |Utf8.CharBytes(c)|
  }

  function TextSize(s: string): nat {
    if s == "" then 0 else TextSize(s[..|s| - 1]) + EscapedSize(s[|s| - 1])
  }

  function QuotedSize(s: string): nat {
    2 + TextSize(s)
  }

  function Size(v: Json): (n: nat)
    decreases v, 1
  {
    match v
    case Null => 4
    case Bool(b) => if b then 4 else 5
    case Num(text) => |text|
    case Str(s) => QuotedSize(s)
    case Arr(items) => if items == [] then 2 else 1 + ItemsSize(items)
    case Obj(fields) => if fields == [] then 2 else 1 + FieldsSize(fields)
  }

  /** Items with one separator each. */
  function ItemsSize(items: seq<Json>): nat
    decreases items, 0
  {
    if items == [] then 0 else Size(items[0]) + 1 + ItemsSize(items[1..])
  }

  function FieldSize(f: Field): nat
    decreases f, 2
  {
    QuotedSize(f.key) + 1 + Size(f.value)
  }

  /** Fields with one separator each. */
  function FieldsSize(fields: seq<Field>): nat
    decreases fields, 0
  {
    if fields == [] then 0 else FieldSize(fields[0]) + 1 + FieldsSize(fields[1..])
  }

  lemma {:induction false} ItemsSizeGrows(items: seq<Json>, m: nat, n: nat)
    requires m <= n <= |items|
    ensures ItemsSize(items[..m]) <= ItemsSize(items[..n])
  {
    if m > 0 {
      assert items[..m][1..] == items[1..][..m - 1] && items[..n][1..] == items[1..][..n - 1];
      ItemsSizeGrows(items[1..], m - 1, n - 1);
    }
  }

  // ---- field lists ----

  function Find(fields: seq<Field>, key: string): Option<Json> {
    if fields == [] then None
    else if fields[0].key == key then Some(fields[0].value)
    else Find(fields[1..], key)
  }

  /** Assigning a property: in place if it is there, else at the end. */
  function Put(fields: seq<Field>, key: string, value: Json): seq<Field> {
    if fields == [] then [Field(key, value)]
    else if fields[0].key == key then [Field(key, value)] + fields[1..]
    else [fields[0]] + Put(fields[1..], key, value)
  }

  /** Deleting a property. */
  function Drop(fields: seq<Field>, key: string): seq<Field> {
    if fields == [] then []
    else if fields[0].key == key then Drop(fields[1..], key)
    else [fields[0]] + Drop(fields[1..], key)
  }

  /** No property occurs twice. */
  predicate Unique(fields: seq<Field>) {
    fields == [] || (Find(fields[1..], fields[0].key).None? && Unique(fields[1..]))
  }

  lemma {:induction false} FindPut(fields: seq<Field>, key: string, value: Json, other: string)
    ensures Find(Put(fields, key, value), other) == if other == key then Some(value) else Find(fields, other)
  {
    if fields != [] && fields[0].key != key {
      FindPut(fields[1..], key, value, other);
    }
  }

  lemma {:induction false} FindDrop(fields: seq<Field>, key: string, other: string)
    ensures Find(Drop(fields, key), other) == if other == key then None else Find(fields, other)
  {
    if fields != [] {
      FindDrop(fields[1..], key, other);
    }
  }

  lemma {:induction false} PutPut(fields: seq<Field>, key: string, v: Json, w: Json)
    ensures Put(Put(fields, key, v), key, w) == Put(fields, key, w)
  {
    if fields != [] && fields[0].key != key {
      PutPut(fields[1..], key, v, w);
    }
  }

  lemma {:induction false} PutCommutes(fields: seq<Field>, k: string, v: Json, j: string, w: Json)
    requires k != j && (Find(fields, k).Some? || Find(fields, j).Some?)
    ensures Put(Put(fields, k, v), j, w) == Put(Put(fields, j, w), k, v)
  {
    if fields[0].key == k || fields[0].key == j {
    } else {
      PutCommutes(fields[1..], k, v, j, w);
    }
  }

  lemma {:induction false} DropPut(fields: seq<Field>, key: string, v: Json)
    ensures Drop(Put(fields, key, v), key) == Drop(fields, key)
  {
    if fields != [] && fields[0].key != key {
      DropPut(fields[1..], key, v);
    }
  }

  lemma {:induction false} DropDrop(fields: seq<Field>, key: string)
    ensures Drop(Drop(fields, key), key) == Drop(fields, key)
  {
    if fields != [] {
      DropDrop(fields[1..], key);
    }
  }

  lemma {:induction false} DropPutOther(fields: seq<Field>, key: string, other: string, v: Json)
    requires key != other
    ensures Drop(Put(fields, other, v), key) == Put(Drop(fields, key), other, v)
  {
    if fields != [] {
      DropPutOther(fields[1..], key, other, v);
    }
  }

  lemma {:induction false} PutUnique(fields: seq<Field>, key: string, v: Json)
    requires Unique(fields)
    ensures Unique(Put(fields, key, v))
  {
    if fields != [] && fields[0].key != key {
      PutUnique(fields[1..], key, v);
      FindPut(fields[1..], key, v, fields[0].key);
    }
  }

  lemma {:induction false} DropUnique(fields: seq<Field>, key: string)
    requires Unique(fields)
    ensures Unique(Drop(fields, key))
  {
    if fields != [] {
      DropUnique(fields[1..], key);
      FindDrop(fields[1..], key, fields[0].key);
    }
  }

  lemma {:induction false} PutSize(fields: seq<Field>, key: string, v: Json)
    ensures Put(fields, key, v) != []
    ensures Find(fields, key).Some? ==>
              FieldsSize(Put(fields, key, v)) + Size(Find(fields, key).value) == FieldsSize(fields) + Size(v)
    ensures Find(fields, key).None? ==> FieldsSize(Put(fields, key, v)) == FieldsSize(fields) + FieldSize(Field(key, v)) + 1
  {
    if fields != [] && fields[0].key != key {
      PutSize(fields[1..], key, v);
    }
  }

  lemma {:induction false} DropAbsent(fields: seq<Field>, key: string)
    requires Find(fields, key).None?
    ensures Drop(fields, key) == fields
  {
    if fields != [] {
      DropAbsent(fields[1..], key);
    }
  }

  lemma {:induction false} DropSize(fields: seq<Field>, key: string)
    requires Unique(fields) && Find(fields, key).Some?
    ensures FieldsSize(fields) == FieldsSize(Drop(fields, key)) + FieldSize(Field(key, Find(fields, key).value)) + 1
  {
    if fields[0].key == key {
      DropAbsent(fields[1..], key);
    } else {
      DropSize(fields[1..], key);
    }
  }

  // ---- the text whose size that is ----

  function HexDigit(n: nat): char
    requires n < 16
  {
    "0123456789abcdef"[n]
  }

  /** A character inside a string, escaped as section 7 of RFC 8259 has it, in the short form
      where there is one. */
  function EscapeChar(c: char): string {
    if c == '"' then "\\\""
    else if c == '\\' then "\\\\"
    else if c == 8 as char then "\\b"
    else if c == 9 as char then "\\t"
    else if c == 10 as char then "\\n"
    else if c == 12 as char then "\\f"
    else if c == 13 as char then "\\r"
    else if c < 0x20 as char then "\\u00" + [HexDigit(c as int / 16), HexDigit(c as int % 16)]
    else [c]
  }

  function EscapeText(s: string): string {
    if s == "" then "" else EscapeText(s[..|s| - 1]) + EscapeChar(s[|s| - 1])
  }

  function Quote(s: string): string {
    "\"" + EscapeText(s) + "\""
  }

  /** The document without white space. */
  function Print(v: Json): string
    decreases v, 1
  {
    match v
    case Null => "null"
    case Bool(b) => if b then "true" else "false"
    case Num(text) => text
    case Str(s) => Quote(s)
    case Arr(items) => "[" + PrintItems(items) + "]"
    case Obj(fields) => "{" + PrintFields(fields) + "}"
  }

  function PrintItems(items: seq<Json>): string
    decreases items, 0
  {
    if items == [] then "" else Print(items[0]) + (if |items| > 1 then "," else "") + PrintItems(items[1..])
  }

  function PrintFields(fields: seq<Field>): string
    decreases fields, 0
  {
    if fields == [] then ""
    else
      Quote(fields[0].key) + ":" + Print(fields[0].value) + (if |fields| > 1 then "," else "") + PrintFields(fields[1..])
  }

  /** Numbers are written in ASCII. */
  predicate PlainNumbers(v: Json)
    decreases v
  {
    match v
    case Num(text) => Plain(text)
    case Arr(items) => forall x :: x in items ==> PlainNumbers(x)
    case Obj(fields) => forall f :: f in fields ==> PlainNumbers(f.value)
    case _ => true
  }

  predicate Plain(t: string) {
    forall c :: c in t ==> c < 0x80 as char
  }

  function Bytes(t: string): nat {
    |Utf8.Encode(t)|
  }

  lemma BytesOf(a: string, b: string)
    ensures Bytes(a + b) == Bytes(a) + Bytes(b)
  {
    Utf8.EncodeConcat(a, b);
  }

  lemma {:induction false} PlainBytes(t: string)
    requires Plain(t)
    ensures Bytes(t) == |t|
  {
    if t != "" {
      var init, c := t[..|t| - 1], t[|t| - 1];
      assert forall x :: x in init ==> x in t;
      PlainBytes(init);
      assert c in t && |Utf8.CharBytes(c)| == 1;
    }
  }

  lemma EscapeBytes(c: char)
    ensures Bytes(EscapeChar(c)) == EscapedSize(c)
  {
    var t := EscapeChar(c);
    if t == [c] {
      assert t[..0] == "" && Utf8.Encode("") == [];
    } else {
      PlainBytes(t);
    }
  }

  lemma {:induction false} TextBytes(s: string)
    ensures Bytes(EscapeText(s)) == TextSize(s)
  {
    hide Bytes, EscapeChar, EscapedSize;
    if s == "" {
      PlainBytes("");
    } else {
      TextBytes(s[..|s| - 1]);
      EscapeBytes(s[|s| - 1]);
      BytesOf(EscapeText(s[..|s| - 1]), EscapeChar(s[|s| - 1]));
    }
  }

  lemma QuoteBytes(s: string)
    ensures Bytes(Quote(s)) == QuotedSize(s)
  {
    hide Bytes;
    TextBytes(s);
    PlainBytes("\"");
    BytesOf("\"", EscapeText(s));
    BytesOf("\"" + EscapeText(s), "\"");
  }

  /** The size of a value is the number of bytes of its text. */
  lemma {:induction false} SizeIsPrinted(v: Json)
    requires PlainNumbers(v)
    ensures |Utf8.Encode(Print(v))| == Size(v)
    decreases v, 1
  {
    hide Bytes, QuotedSize;
    BytesIs(Print(v));
    match v
    case Null => PlainBytes("null");
    case Bool(b) => PlainBytes(if b then "true" else "false");
    case Num(text) => PlainBytes(text);
    case Str(s) => QuoteBytes(s);
    case Arr(items) =>
      ItemsArePrinted(items);
      Bracketed("[", PrintItems(items), "]");
    case Obj(fields) =>
      FieldsArePrinted(fields);
      Bracketed("{", PrintFields(fields), "}");
  }

  lemma BytesIs(t: string)
    ensures Bytes(t) == |Utf8.Encode(t)|
  {
  }

  lemma Bracketed(open: string, t: string, end: string)
    requires |open| == 1 && |end| == 1 && Plain(open) && Plain(end)
    ensures Bytes(open + t + end) == Bytes(t) + 2
  {
    hide Bytes;
    PlainBytes(open);
    PlainBytes(end);
    BytesOf(open, t);
    BytesOf(open + t, end);
  }

  lemma {:induction false} ItemsArePrinted(items: seq<Json>)
    requires forall x :: x in items ==> PlainNumbers(x)
    ensures Bytes(PrintItems(items)) == if items == [] then 0 else ItemsSize(items) - 1
    decreases items, 0
  {
    hide Bytes, PlainNumbers;
    if items == [] {
      PlainBytes("");
    } else {
      var comma := if |items| > 1 then "," else "";
      assert items[0] in items;
      SizeIsPrinted(items[0]);
      BytesIs(Print(items[0]));
      ItemsArePrinted(items[1..]);
      PlainBytes(comma);
      BytesOf(Print(items[0]), comma);
      BytesOf(Print(items[0]) + comma, PrintItems(items[1..]));
    }
  }

  lemma {:induction false} FieldsArePrinted(fields: seq<Field>)
    requires forall f :: f in fields ==> PlainNumbers(f.value)
    ensures Bytes(PrintFields(fields)) == if fields == [] then 0 else FieldsSize(fields) - 1
    decreases fields, 0
  {
    hide Bytes, PlainNumbers, QuotedSize;
    if fields == [] {
      PlainBytes("");
    } else {
      var f, comma := fields[0], if |fields| > 1 then "," else "";
      assert f in fields;
      QuoteBytes(f.key);
      SizeIsPrinted(f.value);
      BytesIs(Print(f.value));
      FieldsArePrinted(fields[1..]);
      PlainBytes(":");
      PlainBytes(comma);
      BytesOf(Quote(f.key), ":");
      BytesOf(Quote(f.key) + ":", Print(f.value));
      BytesOf(Quote(f.key) + ":" + Print(f.value), comma);
      BytesOf(Quote(f.key) + ":" + Print(f.value) + comma, PrintFields(fields[1..]));
    }
  }

  // ---- counts ----

  function Digits(n: nat): string {
    if n < 10 then [('0' as int + n) as char] else Digits(n / 10) + [('0' as int + n % 10) as char]
  }

  lemma {:induction false} DigitsGrow(m: nat, n: nat)
    requires m <= n
    ensures |Digits(m)| <= |Digits(n)|
    decreases n
  {
    if m >= 10 {
      DigitsGrow(m / 10, n / 10);
    }
  }

  /** The number that decimal digits stand for. */
  function DecimalValue(text: string): int {
    if text == "" then 0 else 10 * DecimalValue(text[..|text| - 1]) + (text[|text| - 1] as int - '0' as int)
  }

  /** Reading a count back gives the count; it is written in digits without leading zeros. */
  lemma {:induction false} DigitsReadBack(n: nat)
    ensures DecimalValue(Digits(n)) == n
    ensures Digits(n) != "" && (forall c :: c in Digits(n) ==> '0' <= c <= '9')
    ensures Digits(n)[0] == '0' ==> n == 0
  {
    if n < 10 {
      assert Digits(n)[..0] == "";
    } else {
      DigitsReadBack(n / 10);
      assert Digits(n)[..|Digits(n)| - 1] == Digits(n / 10);
    }
  }
}
