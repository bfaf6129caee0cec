/** JSON values, their compact text, the UTF-8 bytes of that text, and the proof
    that reading undoes writing.  The writers take the text that follows
    (`rest`), so that no concatenation has to be re-associated in a proof. */
module Json {
  import opened Prelude

  datatype Json =
    | Null
    | Bool(flag: bool)
    | Int(number: int)
    | Str(text: string)
    | Arr(items: seq<Json>)
    | Obj(fields: seq<Field>)

  datatype Field = Field(key: string, value: Json)

  // ---------------------------------------------------------------- writing

  function Digit(d: int): char
    requires 0 <= d < 10
  {
    "0123456789"[d]
  }

  function WriteNat(n: nat, rest: string): string {
    if n < 10 then [Digit(n)] + rest else WriteNat(n / 10, [Digit(n % 10)] + rest)
  }

  function WriteChars(s: string, rest: string): string {
    if s == "" then "\"" + rest
    else if s[0] == '"' || s[0] == '\\' then ['\\', s[0]] + WriteChars(s[1..], rest)
    else [s[0]] + WriteChars(s[1..], rest)
  }

  function Write(j: Json, rest: string): string
    decreases j, 0
  {
    match j
    case Null => "null" + rest
    case Bool(flag) => (if flag then "true" else "false") + rest
    case Int(n) => if n < 0 then "-" + WriteNat(-n, rest) else WriteNat(n, rest)
    case Str(s) => "\"" + WriteChars(s, rest)
    case Arr(items) => "[" + WriteItems(items, rest)
    case Obj(fields) => "{" + WriteFields(fields, rest)
  }

  function WriteItems(items: seq<Json>, rest: string): string
    decreases items, 2
  {
    if items == [] then "]" + rest else Write(items[0], WriteMoreItems(items[1..], rest))
  }

  function WriteMoreItems(items: seq<Json>, rest: string): string
    decreases items, 1
  {
    if items == [] then "]" + rest else "," + Write(items[0], WriteMoreItems(items[1..], rest))
  }

  function WriteFields(fields: seq<Field>, rest: string): string
    decreases fields, 2
  {
    if fields == [] then "}" + rest else WriteField(fields[0], WriteMoreFields(fields[1..], rest))
  }

  function WriteMoreFields(fields: seq<Field>, rest: string): string
    decreases fields, 1
  {
    if fields == [] then "}" + rest else "," + WriteField(fields[0], WriteMoreFields(fields[1..], rest))
  }

  function WriteField(f: Field, rest: string): string
    decreases f, 0
  {
    "\"" + WriteChars(f.key, ":" + Write(f.value, rest))
  }

  // ---------------------------------------------------------------- reading

  predicate IsDigit(c: char) {
    '0' <= c <= '9'
  }

  predicate StartsWithDigit(t: string) {
    t != "" && IsDigit(t[0])
  }

  function ReadDigits(soFar: nat, t: string): (r: (nat, string))
    ensures |r.1| <= |t|
    decreases |t|
  {
    if StartsWithDigit(t) then ReadDigits(10 * soFar + (t[0] - '0') as int, t[1..]) else (soFar, t)
  }

  /** A number without superfluous leading zeros. */
  function ReadNat(t: string): (r: Option<(nat, string)>)
    ensures r.Some? ==> |r.value.1| < |t|
  {
    if !StartsWithDigit(t) then None
    else if t[0] == '0' then Some((0, t[1..]))
    else Some(ReadDigits((t[0] - '0') as int, t[1..]))
  }

  function ReadChars(t: string): (r: Option<(string, string)>)
    ensures r.Some? ==> |r.value.1| < |t|
  {
    if t == "" then None
    else if t[0] == '"' then Some(("", t[1..]))
    else if t[0] == '\\' then
      if |t| < 2 || (t[1] != '"' && t[1] != '\\') then None
      else
        var (s, rest) :- ReadChars(t[2..]);
        Some(([t[1]] + s, rest))
    else
      var (s, rest) :- ReadChars(t[1..]);
      Some(([t[0]] + s, rest))
  }

  function Read(t: string): (r: Option<(Json, string)>)
    ensures r.Some? ==> |r.value.1| < |t|
    decreases |t|, 0
  {
    if t == "" then None
    else if t[0] == '"' then
      var (s, rest) :- ReadChars(t[1..]);
      Some((Str(s), rest))
    else if t[0] == '[' then
      var (items, rest) :- ReadItems(t[1..]);
      Some((Arr(items), rest))
    else if t[0] == '{' then
      var (fields, rest) :- ReadFields(t[1..]);
      Some((Obj(fields), rest))
    else if t[0] == '-' then
      var (n, rest) :- ReadNat(t[1..]);
      if n == 0 then None else Some((Int(0 - n as int), rest))
    else if IsDigit(t[0]) then
      var (n, rest) :- ReadNat(t);
      Some((Int(n), rest))
    else if "null" <= t then Some((Null, t[4..]))
    else if "true" <= t then Some((Bool(true), t[4..]))
    else if "false" <= t then Some((Bool(false), t[5..]))
    else None
  }

  function ReadItems(t: string): (r: Option<(seq<Json>, string)>)
    ensures r.Some? ==> |r.value.1| < |t|
    decreases |t|, 1
  {
    if t != "" && t[0] == ']' then Some(([], t[1..]))
    else
      var (item, more) :- Read(t);
      var (items, rest) :- ReadMoreItems(more);
      Some(([item] + items, rest))
  }

  function ReadMoreItems(t: string): (r: Option<(seq<Json>, string)>)
    ensures r.Some? ==> |r.value.1| < |t|
    decreases |t|, 1
  {
    if t == "" then None
    else if t[0] == ']' then Some(([], t[1..]))
    else if t[0] != ',' then None
    else
      var (item, more) :- Read(t[1..]);
      var (items, rest) :- ReadMoreItems(more);
      Some(([item] + items, rest))
  }

  function ReadFields(t: string): (r: Option<(seq<Field>, string)>)
    ensures r.Some? ==> |r.value.1| < |t|
    decreases |t|, 2
  {
    if t != "" && t[0] == '}' then Some(([], t[1..]))
    else
      var (field, more) :- ReadField(t);
      var (fields, rest) :- ReadMoreFields(more);
      Some(([field] + fields, rest))
  }

  function ReadMoreFields(t: string): (r: Option<(seq<Field>, string)>)
    ensures r.Some? ==> |r.value.1| < |t|
    decreases |t|, 1
  {
    if t == "" then None
    else if t[0] == '}' then Some(([], t[1..]))
    else if t[0] != ',' then None
    else
      var (field, more) :- ReadField(t[1..]);
      var (fields, rest) :- ReadMoreFields(more);
      Some(([field] + fields, rest))
  }

  function ReadField(t: string): (r: Option<(Field, string)>)
    ensures r.Some? ==> |r.value.1| < |t|
    decreases |t|, 1
  {
    if t == "" || t[0] != '"' then None
    else
      var (key, afterKey) :- ReadChars(t[1..]);
      if afterKey == "" || afterKey[0] != ':' then None
      else
        var (value, rest) :- Read(afterKey[1..]);
        Some((Field(key, value), rest))
  }

  // ----------------------------------------------------- reading undoes writing

  lemma {:induction false} ReadDigitsOfWrittenNat(n: nat, rest: string)
    ensures StartsWithDigit(WriteNat(n, rest))
    ensures n > 0 ==> WriteNat(n, rest)[0] != '0'
    ensures ReadDigits(0, WriteNat(n, rest)) == ReadDigits(n, rest)
  {
    if n >= 10 {
      ReadDigitsOfWrittenNat(n / 10, [Digit(n % 10)] + rest);
    }
  }

  lemma ReadWrittenNat(n: nat, rest: string)
    requires !StartsWithDigit(rest)
    ensures StartsWithDigit(WriteNat(n, rest))
    ensures ReadNat(WriteNat(n, rest)) == Some((n, rest))
  {
    ReadDigitsOfWrittenNat(n, rest);
    var t := WriteNat(n, rest);
    assert n > 0 ==> ReadDigits(0, t) == ReadDigits((t[0] - '0') as int, t[1..]);
  }

  lemma {:induction false} ReadWrittenChars(s: string, rest: string)
    ensures ReadChars(WriteChars(s, rest)) == Some((s, rest))
  {
    if s != "" {
      ReadWrittenChars(s[1..], rest);
      var t := WriteChars(s, rest);
      if s[0] == '"' || s[0] == '\\' {
        assert t[2..] == WriteChars(s[1..], rest);
      } else {
        assert t[1..] == WriteChars(s[1..], rest);
      }
      assert [s[0]] + s[1..] == s;
    } else {
      assert ("\"" + rest)[1..] == rest;
    }
  }

  lemma {:induction false} ReadWritten(j: Json, rest: string)
    requires !StartsWithDigit(rest)
    ensures Read(Write(j, rest)) == Some((j, rest))
    decreases j, 0
  {
    var t := Write(j, rest);
    hide WriteItems, WriteFields, ReadItems, ReadFields, WriteChars, ReadChars, WriteNat, ReadNat;
    match j
    case Null => assert t[4..] == rest;
    case Bool(flag) => assert t[if flag then 4 else 5..] == rest;
    case Int(n) =>
      if n < 0 {
        ReadWrittenNat(-n, rest);
        assert t[1..] == WriteNat(-n, rest);
      } else {
        ReadWrittenNat(n, rest);
      }
    case Str(s) =>
      ReadWrittenChars(s, rest);
      assert t[1..] == WriteChars(s, rest);
    case Arr(items) =>
      ReadWrittenItems(items, rest);
      assert t[1..] == WriteItems(items, rest);
    case Obj(fields) =>
      ReadWrittenFields(fields, rest);
      assert t[1..] == WriteFields(fields, rest);
  }

  /** No value is written with a leading `]`. */
  lemma WrittenHead(j: Json, rest: string)
    ensures Write(j, rest) != "" && Write(j, rest)[0] != ']'
  {
    if j.Int? && j.number >= 0 {
      ReadDigitsOfWrittenNat(j.number, rest);
    }
  }

  lemma {:induction false} ReadWrittenItems(items: seq<Json>, rest: string)
    ensures ReadItems(WriteItems(items, rest)) == Some((items, rest))
    decreases items, 2
  {
    if items == [] {
      assert ("]" + rest)[1..] == rest;
    } else {
      var more := WriteMoreItems(items[1..], rest);
      ReadWrittenMoreItems(items[1..], rest);
      WrittenHead(items[0], more);
      ReadWritten(items[0], more);
      assert [items[0]] + items[1..] == items;
    }
  }

  lemma {:induction false} ReadWrittenMoreItems(items: seq<Json>, rest: string)
    ensures ReadMoreItems(WriteMoreItems(items, rest)) == Some((items, rest))
    decreases items, 1
  {
    if items == [] {
      assert ("]" + rest)[1..] == rest;
    } else {
      var more := WriteMoreItems(items[1..], rest);
      ReadWrittenMoreItems(items[1..], rest);
      ReadWritten(items[0], more);
      assert WriteMoreItems(items, rest)[1..] == Write(items[0], more);
      assert [items[0]] + items[1..] == items;
    }
  }

  lemma {:induction false} ReadWrittenFields(fields: seq<Field>, rest: string)
    ensures ReadFields(WriteFields(fields, rest)) == Some((fields, rest))
    decreases fields, 2
  {
    if fields == [] {
      assert ("}" + rest)[1..] == rest;
    } else {
      var more := WriteMoreFields(fields[1..], rest);
      ReadWrittenMoreFields(fields[1..], rest);
      ReadWrittenField(fields[0], more);
      assert [fields[0]] + fields[1..] == fields;
    }
  }

  lemma {:induction false} ReadWrittenMoreFields(fields: seq<Field>, rest: string)
    ensures ReadMoreFields(WriteMoreFields(fields, rest)) == Some((fields, rest))
    decreases fields, 1
  {
    if fields == [] {
      assert ("}" + rest)[1..] == rest;
    } else {
      var more := WriteMoreFields(fields[1..], rest);
      ReadWrittenMoreFields(fields[1..], rest);
      ReadWrittenField(fields[0], more);
      assert WriteMoreFields(fields, rest)[1..] == WriteField(fields[0], more);
      assert [fields[0]] + fields[1..] == fields;
    }
  }

  lemma {:induction false} ReadWrittenField(f: Field, rest: string)
    requires !StartsWithDigit(rest)
    ensures ReadField(WriteField(f, rest)) == Some((f, rest))
    decreases f, 0
  {
    var value := Write(f.value, rest);
    ReadWrittenChars(f.key, ":" + value);
    assert WriteField(f, rest)[1..] == WriteChars(f.key, ":" + value);
    assert (":" + value)[1..] == value;
    ReadWritten(f.value, rest);
  }

  // ------------------------------------------------- only what is written is read

  lemma {:induction false} DigitsAreRewritten(soFar: nat, t: string)
    requires soFar > 0
    ensures var (n, rest) := ReadDigits(soFar, t);
            n > 0 && WriteNat(n, rest) == WriteNat(soFar, t)
    decreases |t|
  {
    if StartsWithDigit(t) {
      var d := (t[0] - '0') as int;
      DigitsAreRewritten(10 * soFar + d, t[1..]);
      assert (10 * soFar + d) / 10 == soFar && (10 * soFar + d) % 10 == d;
      assert [Digit(d)] + t[1..] == t;
    }
  }

  lemma NatIsRewritten(t: string)
    requires ReadNat(t).Some?
    ensures var (n, rest) := ReadNat(t).value;
            WriteNat(n, rest) == t
  {
    var d := (t[0] - '0') as int;
    assert [Digit(d)] + t[1..] == t;
    if d > 0 {
      DigitsAreRewritten(d, t[1..]);
    }
  }

  lemma {:induction false} CharsAreRewritten(t: string)
    requires ReadChars(t).Some?
    ensures var (s, rest) := ReadChars(t).value;
            WriteChars(s, rest) == t
    decreases |t|
  {
    if t[0] == '"' {
      assert t == "\"" + t[1..];
    } else if t[0] == '\\' {
      CharsAreRewritten(t[2..]);
      var (s, rest) := ReadChars(t[2..]).value;
      assert ([t[1]] + s)[1..] == s;
      assert t == [t[0], t[1]] + t[2..];
    } else {
      CharsAreRewritten(t[1..]);
      var (s, rest) := ReadChars(t[1..]).value;
      assert ([t[0]] + s)[1..] == s;
      assert t == [t[0]] + t[1..];
    }
  }

  /** Whatever is read as a value is what the writer writes for it. */
  lemma {:induction false} ReadIsRewritten(t: string)
    requires Read(t).Some?
    ensures var (j, rest) := Read(t).value;
            Write(j, rest) == t
    decreases |t|, 0
  {
    var (j, rest) := Read(t).value;
    assert t == [t[0]] + t[1..];
    match j
    case Null => assert t == "null" + t[4..];
    case Bool(flag) => assert t == (if flag then "true" else "false") + rest;
    case Int(_) => NatIsRewritten(if t[0] == '-' then t[1..] else t);
    case Str(_) => CharsAreRewritten(t[1..]);
    case Arr(_) => ItemsAreRewritten(t[1..]);
    case Obj(_) => FieldsAreRewritten(t[1..]);
  }

  lemma {:induction false} ItemsAreRewritten(t: string)
    requires ReadItems(t).Some?
    ensures var (items, rest) := ReadItems(t).value;
            WriteItems(items, rest) == t
    decreases |t|, 1
  {
    if t != "" && t[0] == ']' {
      assert t == "]" + t[1..];
    } else {
      ReadIsRewritten(t);
      var (item, more) := Read(t).value;
      MoreItemsAreRewritten(more);
      var (items, rest) := ReadMoreItems(more).value;
      assert ([item] + items)[1..] == items;
    }
  }

  lemma {:induction false} MoreItemsAreRewritten(t: string)
    requires ReadMoreItems(t).Some?
    ensures var (items, rest) := ReadMoreItems(t).value;
            WriteMoreItems(items, rest) == t
    decreases |t|, 1
  {
    assert t == [t[0]] + t[1..];
    if t[0] != ']' {
      ReadIsRewritten(t[1..]);
      var (item, more) := Read(t[1..]).value;
      MoreItemsAreRewritten(more);
      var (items, rest) := ReadMoreItems(more).value;
      assert ([item] + items)[1..] == items;
    }
  }

  lemma {:induction false} FieldsAreRewritten(t: string)
    requires ReadFields(t).Some?
    ensures var (fields, rest) := ReadFields(t).value;
            WriteFields(fields, rest) == t
    decreases |t|, 2
  {
    if t != "" && t[0] == '}' {
      assert t == "}" + t[1..];
    } else {
      FieldIsRewritten(t);
      var (field, more) := ReadField(t).value;
      MoreFieldsAreRewritten(more);
      var (fields, rest) := ReadMoreFields(more).value;
      assert ([field] + fields)[1..] == fields;
    }
  }

  lemma {:induction false} MoreFieldsAreRewritten(t: string)
    requires ReadMoreFields(t).Some?
    ensures var (fields, rest) := ReadMoreFields(t).value;
            WriteMoreFields(fields, rest) == t
    decreases |t|, 1
  {
    assert t == [t[0]] + t[1..];
    if t[0] != '}' {
      FieldIsRewritten(t[1..]);
      var (field, more) := ReadField(t[1..]).value;
      MoreFieldsAreRewritten(more);
      var (fields, rest) := ReadMoreFields(more).value;
      assert ([field] + fields)[1..] == fields;
    }
  }

  lemma {:induction false} FieldIsRewritten(t: string)
    requires ReadField(t).Some?
    ensures var (field, rest) := ReadField(t).value;
            WriteField(field, rest) == t
    decreases |t|, 1
  {
    CharsAreRewritten(t[1..]);
    var (key, afterKey) := ReadChars(t[1..]).value;
    ReadIsRewritten(afterKey[1..]);
    assert afterKey == ":" + afterKey[1..];
    assert t == "\"" + t[1..];
  }

  // ---------------------------------------------------------------- what is written

  /** The decimal digits of a number. */
  function Decimal(n: nat): string {
    (if n < 10 then "" else Decimal(n / 10)) + [('0' as int + n % 10) as char]
  }

  function Escaped(s: string): string {
    if s == "" then ""
    else (if s[0] in {'"', '\\'} then "\\" else "") + [s[0]] + Escaped(s[1..])
  }

  function Quoted(s: string): string {
    "\"" + Escaped(s) + "\""
  }

  /** The text of a value, as section 2 of RFC 8259 has it, without white space. */
  function Text(j: Json): string
    decreases j, 0
  {
    match j
    case Null => "null"
    case Bool(flag) => if flag then "true" else "false"
    case Int(n) => if n < 0 then "-" + Decimal(-n) else Decimal(n)
    case Str(s) => Quoted(s)
    case Arr(items) => "[" + Listed(items) + "]"
    case Obj(fields) => "{" + Members(fields) + "}"
  }

  function Listed(items: seq<Json>): string
    decreases items, 1
  {
    if items == [] then ""
    else Text(items[0]) + (if |items| > 1 then "," else "") + Listed(items[1..])
  }

  function Members(fields: seq<Field>): string
    decreases fields, 1
  {
    if fields == [] then ""
    else Member(fields[0]) + (if |fields| > 1 then "," else "") + Members(fields[1..])
  }

  function Member(f: Field): string
    decreases f, 0
  {
    Quoted(f.key) + ":" + Text(f.value)
  }

  lemma {:induction false} WriteNatIsDecimal(n: nat, rest: string)
    ensures WriteNat(n, rest) == Decimal(n) + rest
  {
    if n >= 10 {
      WriteNatIsDecimal(n / 10, [Digit(n % 10)] + rest);
    }
  }

  lemma {:induction false} WriteCharsIsEscaped(s: string, rest: string)
    ensures WriteChars(s, rest) == Escaped(s) + "\"" + rest
  {
    if s != "" {
      WriteCharsIsEscaped(s[1..], rest);
    }
  }

  lemma WriteStringIsQuoted(s: string, rest: string)
    ensures "\"" + WriteChars(s, rest) == Quoted(s) + rest
  {
    WriteCharsIsEscaped(s, rest);
  }

  lemma Regroup(open: string, first: string, comma: string, others: string, close: string, rest: string)
    ensures open + (first + (comma + others + close + rest)) == open + (first + comma + others) + close + rest
  {
  }

  /** The writer writes the text of the value in front of what follows. */
  lemma {:induction false} WriteIsText(j: Json, rest: string)
    ensures Write(j, rest) == Text(j) + rest
    decreases j, 0
  {
    hide WriteItems, WriteFields, Listed, Members, WriteChars, Quoted, WriteNat, Decimal;
    match j
    case Null =>
    case Bool(flag) =>
    case Int(n) => WriteNatIsDecimal(if n < 0 then -n else n, rest);
    case Str(s) => WriteStringIsQuoted(s, rest);
    case Arr(items) => WriteItemsIsListed(items, rest);
    case Obj(fields) => WriteFieldsIsMembers(fields, rest);
  }

  lemma {:induction false} WriteItemsIsListed(items: seq<Json>, rest: string)
    ensures "[" + WriteItems(items, rest) == "[" + Listed(items) + "]" + rest
    decreases items, 2
  {
    if items != [] {
      WriteMoreItemsIsListed(items[1..], rest);
      WriteIsText(items[0], WriteMoreItems(items[1..], rest));
      Regroup("[", Text(items[0]), if |items| > 1 then "," else "", Listed(items[1..]), "]", rest);
    }
  }

  lemma {:induction false} WriteMoreItemsIsListed(items: seq<Json>, rest: string)
    ensures WriteMoreItems(items, rest) == (if items == [] then "" else ",") + Listed(items) + "]" + rest
    decreases items, 1
  {
    if items != [] {
      WriteMoreItemsIsListed(items[1..], rest);
      WriteIsText(items[0], WriteMoreItems(items[1..], rest));
      Regroup(",", Text(items[0]), if |items| > 1 then "," else "", Listed(items[1..]), "]", rest);
    }
  }

  lemma {:induction false} WriteFieldsIsMembers(fields: seq<Field>, rest: string)
    ensures "{" + WriteFields(fields, rest) == "{" + Members(fields) + "}" + rest
    decreases fields, 2
  {
    if fields != [] {
      WriteMoreFieldsIsMembers(fields[1..], rest);
      WriteFieldIsText(fields[0], WriteMoreFields(fields[1..], rest));
      Regroup("{", Member(fields[0]), if |fields| > 1 then "," else "", Members(fields[1..]), "}", rest);
    }
  }

  lemma {:induction false} WriteMoreFieldsIsMembers(fields: seq<Field>, rest: string)
    ensures WriteMoreFields(fields, rest) == (if fields == [] then "" else ",") + Members(fields) + "}" + rest
    decreases fields, 1
  {
    if fields != [] {
      WriteMoreFieldsIsMembers(fields[1..], rest);
      WriteFieldIsText(fields[0], WriteMoreFields(fields[1..], rest));
      Regroup(",", Member(fields[0]), if |fields| > 1 then "," else "", Members(fields[1..]), "}", rest);
    }
  }

  lemma {:induction false} WriteFieldIsText(f: Field, rest: string)
    ensures WriteField(f, rest) == Member(f) + rest
    decreases f, 0
  {
    WriteIsText(f.value, rest);
    WriteCharsIsEscaped(f.key, ":" + Write(f.value, rest));
  }

  // ---------------------------------------------------------------- UTF-8

  function EncodeChar(c: char): seq<byte> {
    var n := c as int;
    if n < 0x80 then [n]
    else if n < 0x800 then [0xC0 + n / 64, 0x80 + n % 64]
    else if n < 0x10000 then [0xE0 + n / 4096, 0x80 + n / 64 % 64, 0x80 + n % 64]
    else [0xF0 + n / 262144, 0x80 + n / 4096 % 64, 0x80 + n / 64 % 64, 0x80 + n % 64]
  }

  predicate IsScalar(n: int) {
    0 <= n < 0xD800 || 0xE000 <= n < 0x11_0000
  }

  predicate Continues(b: byte) {
    0x80 <= b < 0xC0
  }

  function Low(b: byte): int {
    b as int - 0x80
  }

  /** The first character of `b` and what follows it. */
  function DecodeChar(b: seq<byte>): (r: Option<(char, seq<byte>)>)
    ensures r.Some? ==> |r.value.1| < |b|
  {
    if b == [] then None
    else if b[0] < 0x80 then Some((b[0] as char, b[1..]))
    else if 0xC0 <= b[0] < 0xE0 && |b| >= 2 && Continues(b[1]) then
      Scalar(0x40 * (b[0] as int - 0xC0) + Low(b[1]), 0x80, b, 2)
    else if 0xE0 <= b[0] < 0xF0 && |b| >= 3 && Continues(b[1]) && Continues(b[2]) then
      Scalar(0x1000 * (b[0] as int - 0xE0) + 0x40 * Low(b[1]) + Low(b[2]), 0x800, b, 3)
    else if 0xF0 <= b[0] < 0xF8 && |b| >= 4 && Continues(b[1]) && Continues(b[2]) && Continues(b[3]) then
      Scalar(0x40000 * (b[0] as int - 0xF0) + 0x1000 * Low(b[1]) + 0x40 * Low(b[2]) + Low(b[3]), 0x10000, b, 4)
    else None
  }

  function Scalar(n: int, least: int, b: seq<byte>, used: nat): (r: Option<(char, seq<byte>)>)
    requires 0 < used <= |b|
    ensures r.Some? ==> |r.value.1| < |b|
  {
    if least <= n && IsScalar(n) then Some((n as char, b[used..])) else None
  }

  function EncodeText(t: string): seq<byte> {
    if t == "" then [] else EncodeChar(t[0]) + EncodeText(t[1..])
  }

  function DecodeText(b: seq<byte>): Option<string> {
    if b == [] then Some("")
    else
      var (c, rest) :- DecodeChar(b);
      var t :- DecodeText(rest);
      Some([c] + t)
  }

  /** The bit patterns of section 3 of RFC 3629: the leading byte tells the length, every
      other byte carries six bits, and the shortest form is used. */
  lemma EncodedCharIsUtf8(c: char)
    ensures var b, n := EncodeChar(c), c as int;
            match |b|
            case 1 => n < 0x80 && b[0] as int == n
            case 2 => 0x80 <= n < 0x800 && n == (b[0] as int - 0xC0) * 64 + (b[1] as int - 0x80)
            case 3 => 0x800 <= n < 0x10000
                      && n == ((b[0] as int - 0xE0) * 64 + (b[1] as int - 0x80)) * 64 + (b[2] as int - 0x80)
            case 4 => 0x10000 <= n
                      && n == (((b[0] as int - 0xF0) * 64 + (b[1] as int - 0x80)) * 64 + (b[2] as int - 0x80)) * 64
                              + (b[3] as int - 0x80)
            case _ => false
    ensures forall i :: 0 < i < |EncodeChar(c)| ==> Continues(EncodeChar(c)[i])
  {
    var n := c as int;
    assert n == 64 * (n / 64) + n % 64;
    assert n / 64 == 64 * (n / 4096) + n / 64 % 64;
    assert n / 4096 == 64 * (n / 262144) + n / 4096 % 64;
  }

  lemma DecodeEncodedChar(c: char, rest: seq<byte>)
    ensures DecodeChar(EncodeChar(c) + rest) == Some((c, rest))
  {
    var n := c as int;
    var b := EncodeChar(c) + rest;
    assert b[|EncodeChar(c)|..] == rest;
    assert n == 64 * (n / 64) + n % 64;
    assert n / 64 == 64 * (n / 4096) + n / 64 % 64;
    assert n / 4096 == 64 * (n / 262144) + n / 4096 % 64;
  }

  /** Only the shortest form of a character is read. */
  lemma CharIsReencoded(b: seq<byte>)
    requires DecodeChar(b).Some?
    ensures var (c, rest) := DecodeChar(b).value;
            EncodeChar(c) + rest == b
  {
    if b[0] < 0x80 {
      assert b == [b[0]] + b[1..];
    } else if b[0] < 0xE0 {
      Sextets(b[0] as int - 0xC0, Low(b[1]));
      assert b == [b[0], b[1]] + b[2..];
    } else if b[0] < 0xF0 {
      ThreeBytes(b[0] as int - 0xE0, Low(b[1]), Low(b[2]));
      assert b == [b[0], b[1], b[2]] + b[3..];
    } else {
      FourBytes(b[0] as int - 0xF0, Low(b[1]), Low(b[2]), Low(b[3]));
      assert b == [b[0], b[1], b[2], b[3]] + b[4..];
    }
  }

  lemma ThreeBytes(high: int, middle: int, low: int)
    requires 0 <= high && 0 <= middle < 0x40 && 0 <= low < 0x40
    ensures var n := 0x1000 * high + 0x40 * middle + low;
            n / 0x1000 == high && n / 0x40 % 0x40 == middle && n % 0x40 == low
  {
    Sextets(0x40 * high + middle, low);
    Sextets(high, middle);
  }

  lemma FourBytes(high: int, second: int, third: int, low: int)
    requires 0 <= high && 0 <= second < 0x40 && 0 <= third < 0x40 && 0 <= low < 0x40
    ensures var n := 0x40000 * high + 0x1000 * second + 0x40 * third + low;
            && n / 0x40000 == high && n / 0x1000 % 0x40 == second
            && n / 0x40 % 0x40 == third && n % 0x40 == low
  {
    ThreeBytes(0x40 * high + second, third, low);
    Sextets(high, second);
  }

  lemma Sextets(high: int, low: int)
    requires 0 <= low < 0x40
    ensures (0x40 * high + low) / 0x40 == high && (0x40 * high + low) % 0x40 == low
  {
  }

  lemma {:induction false} TextIsReencoded(b: seq<byte>)
    requires DecodeText(b).Some?
    ensures EncodeText(DecodeText(b).value) == b
    decreases |b|
  {
    if b != [] {
      CharIsReencoded(b);
      var (c, rest) := DecodeChar(b).value;
      TextIsReencoded(rest);
      var t := DecodeText(rest).value;
      assert ([c] + t)[1..] == t;
    }
  }

  lemma {:induction false} DecodeEncodedText(t: string)
    ensures DecodeText(EncodeText(t)) == Some(t)
  {
    if t != "" {
      DecodeEncodedChar(t[0], EncodeText(t[1..]));
      DecodeEncodedText(t[1..]);
      assert [t[0]] + t[1..] == t;
    }
  }

  // ---------------------------------------------------------------- bytes

  function Encode(j: Json): seq<byte> {
    EncodeText(Write(j, ""))
  }

  function Decode(b: seq<byte>): Option<Json> {
    var t :- DecodeText(b);
    var (j, rest) :- Read(t);
    if rest == "" then Some(j) else None
  }

  /** Every JSON value survives the trip through its bytes. */
  lemma DecodeUndoesEncode(j: Json)
    ensures Decode(Encode(j)) == Some(j)
  {
    DecodeEncodedText(Write(j, ""));
    ReadWritten(j, "");
  }

  /** Bytes are read as a value if and only if they are its bytes: the UTF-8 of its text,
      with nothing before or behind it. */
  lemma DecodeIff(b: seq<byte>, j: Json)
    ensures Decode(b) == Some(j) <==> b == EncodeText(Text(j))
  {
    WriteIsText(j, "");
    assert Text(j) + "" == Text(j);
    DecodeUndoesEncode(j);
    if Decode(b) == Some(j) {
      TextIsReencoded(b);
      ReadIsRewritten(DecodeText(b).value);
    }
  }
}
