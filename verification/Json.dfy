/**
 JSON text: compact writing, and reading with insignificant white space, for integers, strings
 without escapes, arrays and objects (sections 2 and 4 to 7 of RFC 8259).
 */
module Json {
  import opened Decimal
  import opened Options
  import opened Ordering

  datatype Value = Num(n: int) | Str(s: string) | Arr(items: Items) | Obj(fields: Fields)
  datatype Items = NoItems | Item(head: Value, tail: Items)
  datatype Fields = NoFields | Field(key: string, value: Value, rest: Fields)

  /** Text that a JSON string holds without escapes. */
  predicate Plain(s: string) {
    forall i :: 0 <= i < |s| ==> s[i] != '"' && s[i] != '\\' && s[i] >= ' '
  }

  predicate WellFormed(v: Value) {
    match v
    case Num(_) => true
    case Str(s) => Plain(s)
    case Arr(items) => WellFormedItems(items)
    case Obj(fields) => WellFormedFields(fields)
  }

  predicate WellFormedItems(items: Items) {
    items.Item? ==> WellFormed(items.head) && WellFormedItems(items.tail)
  }

  predicate WellFormedFields(fields: Fields) {
    fields.Field? ==> Plain(fields.key) && WellFormed(fields.value) && WellFormedFields(fields.rest)
  }

  // ---- writing ----

  function Quote(s: string): string {
    "\"" + s + "\""
  }

  function Render(v: Value): string {
    match v
    case Num(n) => Itoa(n)
    case Str(s) => Quote(s)
    case Arr(items) => if items.NoItems? then "[]" else "[" + RenderItems(items)
    case Obj(fields) => if fields.NoFields? then "{}" else "{" + RenderFields(fields)
  }

  function RenderItems(items: Items): string
    requires items.Item?
  {
    Render(items.head) + if items.tail.NoItems? then "]" else "," + RenderItems(items.tail)
  }

  function RenderFields(fields: Fields): string
    requires fields.Field?
  {
    Quote(fields.key) + ":" + Render(fields.value)
    + if fields.rest.NoFields? then "}" else "," + RenderFields(fields.rest)
  }

  // ---- reading ----

  datatype Parsed<+T> = Bad | Good(value: T, rest: string)

  predicate IsSpace(c: char) {
    c == ' ' || c == '\t' || c == '\n' || c == '\r'
  }

  function Skip(s: string): (r: string)
    ensures |r| <= |s|
  {
    if |s| > 0 && IsSpace(s[0]) then Skip(s[1..]) else s
  }

  predicate Starts(s: string, c: char) {
    |s| > 0 && s[0] == c
  }

  function ParseString(s: string): (r: Parsed<string>)
    ensures r.Good? ==> |r.rest| < |s|
  {
    if |s| == 0 || s[0] == '\\' || s[0] < ' ' then Bad
    else if s[0] == '"' then Good("", s[1..])
    else
      match ParseString(s[1..])
      case Bad => Bad
      case Good(x, rest) => Good([s[0]] + x, rest)
  }

  /** Length of the leading run of digits. */
  function RunLength(s: string): (n: nat)
    ensures n <= |s|
    ensures forall i :: 0 <= i < n ==> IsDigit(s[i])
  {
    if |s| > 0 && IsDigit(s[0]) then 1 + RunLength(s[1..]) else 0
  }

  function ParseNumber(s: string): (r: Parsed<Value>)
    requires |s| > 0
    ensures r.Good? ==> |r.rest| < |s|
  {
    var body := if s[0] == '-' then s[1..] else s;
    var n := RunLength(body);
    if n == 0 || (n > 1 && body[0] == '0') then Bad
    else
      var magnitude: int := Number(body[..n]);
      Good(Num(if s[0] == '-' then -magnitude else magnitude), body[n..])
  }

  function ParseValue(text: string): (r: Parsed<Value>)
    ensures r.Good? ==> |r.rest| < |text|
    decreases |text|, 2
  {
    var s := Skip(text);
    if |s| == 0 then Bad
    else if s[0] == '"' then
      match ParseString(s[1..])
      case Bad => Bad
      case Good(x, rest) => Good(Str(x), rest)
    else if s[0] == '[' then ParseArray(s[1..])
    else if s[0] == '{' then ParseObject(s[1..])
    else ParseNumber(s)
  }

  /** After the opening bracket. */
  function ParseArray(text: string): (r: Parsed<Value>)
    ensures r.Good? ==> |r.rest| < |text|
    decreases |text|, 4
  {
    var t := Skip(text);
    if Starts(t, ']') then Good(Arr(NoItems), t[1..])
    else
      match ParseItems(t)
      case Bad => Bad
      case Good(items, rest) => Good(Arr(items), rest)
  }

  /** After the opening brace. */
  function ParseObject(text: string): (r: Parsed<Value>)
    ensures r.Good? ==> |r.rest| < |text|
    decreases |text|, 4
  {
    var t := Skip(text);
    if Starts(t, '}') then Good(Obj(NoFields), t[1..])
    else
      match ParseFields(t)
      case Bad => Bad
      case Good(fields, rest) => Good(Obj(fields), rest)
  }

  function ParseItems(text: string): (r: Parsed<Items>)
    ensures r.Good? ==> |r.rest| < |text|
    decreases |text|, 3
  {
    match ParseValue(text)
    case Bad => Bad
    case Good(v, more) =>
      var s := Skip(more);
      if Starts(s, ']') then Good(Item(v, NoItems), s[1..])
      else if Starts(s, ',') then
        match ParseItems(s[1..])
        case Bad => Bad
        case Good(items, rest) => Good(Item(v, items), rest)
      else Bad
  }

  function ParseFields(text: string): (r: Parsed<Fields>)
    ensures r.Good? ==> |r.rest| < |text|
    decreases |text|, 3
  {
    var start := Skip(text);
    if !Starts(start, '"') then Bad
    else
      match ParseString(start[1..])
      case Bad => Bad
      case Good(key, afterKey) =>
        var colon := Skip(afterKey);
        if !Starts(colon, ':') then Bad
        else
          match ParseValue(colon[1..])
          case Bad => Bad
          case Good(v, more) =>
            var s := Skip(more);
            if Starts(s, '}') then Good(Field(key, v, NoFields), s[1..])
            else if Starts(s, ',') then
              match ParseFields(s[1..])
              case Bad => Bad
              case Good(fields, rest) => Good(Field(key, v, fields), rest)
            else Bad
  }

  /** A whole document: one value and nothing but white space after it. */
  function Parse(text: string): Option<Value> {
    match ParseValue(text)
    case Good(v, rest) => if Skip(rest) == "" then Some(v) else None
    case Bad => None
  }

  // ---- round trip ----

  lemma {:induction false} ParseQuoted(x: string, rest: string)
    requires Plain(x)
    ensures ParseString(x + "\"" + rest) == Good(x, rest)
  {
    var s := x + "\"" + rest;
    if |x| == 0 {
      assert s == ['"'] + rest;
    } else {
      ParseQuoted(x[1..], rest);
      assert s[1..] == x[1..] + "\"" + rest;
      assert x == [x[0]] + x[1..];
    }
  }

  lemma {:induction false} RunOfDigits(d: string, rest: string)
    requires forall i :: 0 <= i < |d| ==> IsDigit(d[i])
    requires |rest| == 0 || !IsDigit(rest[0])
    ensures RunLength(d + rest) == |d|
  {
    if |d| == 0 {
      assert d + rest == rest;
    } else {
      RunOfDigits(d[1..], rest);
      assert (d + rest)[1..] == d[1..] + rest;
    }
  }

  lemma ParseDigits(n: nat, rest: string)
    requires |rest| == 0 || !IsDigit(rest[0])
    ensures var d := Digits(n);
            && RunLength(d + rest) == |d|
            && (d + rest)[..|d|] == d && (d + rest)[|d|..] == rest
            && Number(d) == n && IsDigit((d + rest)[0]) && (|d| > 1 ==> (d + rest)[0] != '0')
  {
    RunOfDigits(Digits(n), rest);
    NumberDigits(n);
  }

  lemma ParsePositive(n: nat, rest: string)
    requires |rest| == 0 || !IsDigit(rest[0])
    ensures ParseNumber(Digits(n) + rest) == Good(Num(n), rest)
  {
    ParseDigits(n, rest);
    assert (Digits(n) + rest)[0] != '-';
  }

  lemma Behead(c: char, s: string, rest: string)
    ensures ([c] + s + rest)[0] == c && ([c] + s + rest)[1..] == s + rest
  {
    Reassociate([c], s, rest);
  }

  lemma ReadSigned(s: string, body: string, d: string, rest: string)
    requires Starts(s, '-') && s[1..] == body
    requires RunLength(body) == |d| && body[..|d|] == d && body[|d|..] == rest
    requires |d| > 0 && (|d| > 1 ==> body[0] != '0')
    requires forall i :: 0 <= i < |d| ==> IsDigit(d[i])
    ensures ParseNumber(s) == Good(Num(-(Number(d) as int)), rest)
  {
  }

  lemma ParseNegative(n: int, rest: string)
    requires n < 0 && (|rest| == 0 || !IsDigit(rest[0]))
    ensures ParseNumber("-" + Digits(-n) + rest) == Good(Num(n), rest)
  {
    ParseDigits(-n, rest);
    Behead('-', Digits(-n), rest);
    ReadSigned("-" + Digits(-n) + rest, Digits(-n) + rest, Digits(-n), rest);
  }

  lemma ParseDecimal(n: int, rest: string)
    requires |rest| == 0 || !IsDigit(rest[0])
    ensures ParseNumber(Itoa(n) + rest) == Good(Num(n), rest)
  {
    if n < 0 {
      ParseNegative(n, rest);
    } else {
      ParsePositive(n, rest);
    }
  }

  /** A rendered value begins with neither white space nor a closing bracket. */
  lemma RenderHead(v: Value)
    ensures |Render(v)| > 0
    ensures var c := Render(v)[0]; !IsSpace(c) && c != ']' && c != '}'
    ensures v.Num? ==> (Render(v)[0] == '-' || IsDigit(Render(v)[0]))
  {
    if v.Num? {
      assert IsDigit(Digits(if v.n < 0 then -v.n else v.n)[0]);
    }
  }

  // One step of the reader each, so that the round trip below only has to chain them.

  lemma ReadString(s: string, x: string, rest: string)
    requires Starts(s, '"') && ParseString(s[1..]) == Good(x, rest)
    ensures ParseValue(s) == Good(Str(x), rest)
  {
  }

  lemma ReadArray(s: string, items: Items, rest: string)
    requires Starts(s, '[') && |s| > 1 && !IsSpace(s[1]) && s[1] != ']'
    requires ParseItems(s[1..]) == Good(items, rest)
    ensures ParseValue(s) == Good(Arr(items), rest)
  {
  }

  lemma ReadObject(s: string, fields: Fields, rest: string)
    requires Starts(s, '{') && |s| > 1 && !IsSpace(s[1]) && s[1] != '}'
    requires ParseFields(s[1..]) == Good(fields, rest)
    ensures ParseValue(s) == Good(Obj(fields), rest)
  {
  }

  lemma ReadEmpty(rest: string)
    ensures ParseValue("[]" + rest) == Good(Arr(NoItems), rest)
    ensures ParseValue("{}" + rest) == Good(Obj(NoFields), rest)
  {
    var a, o := "[]" + rest, "{}" + rest;
    assert a[1..] == "]" + rest && o[1..] == "}" + rest;
    assert a[1..][1..] == rest && o[1..][1..] == rest;
  }

  lemma ReadNumber(s: string)
    requires |s| > 0 && (s[0] == '-' || IsDigit(s[0]))
    ensures ParseValue(s) == ParseNumber(s)
  {
    assert !IsSpace(s[0]) && s[0] != '"' && s[0] != '[' && s[0] != '{';
    assert Skip(s) == s;
  }

  lemma ReadLastItem(s: string, v: Value, more: string)
    requires ParseValue(s) == Good(v, more) && Starts(more, ']')
    ensures ParseItems(s) == Good(Item(v, NoItems), more[1..])
  {
  }

  lemma ReadItem(s: string, v: Value, more: string, items: Items, rest: string)
    requires ParseValue(s) == Good(v, more) && Starts(more, ',')
    requires ParseItems(more[1..]) == Good(items, rest)
    ensures ParseItems(s) == Good(Item(v, items), rest)
  {
  }

  lemma ReadLastField(s: string, key: string, afterKey: string, v: Value, more: string)
    requires Starts(s, '"') && ParseString(s[1..]) == Good(key, afterKey)
    requires Starts(afterKey, ':') && ParseValue(afterKey[1..]) == Good(v, more)
    requires Starts(more, '}')
    ensures ParseFields(s) == Good(Field(key, v, NoFields), more[1..])
  {
  }

  lemma ReadField(s: string, key: string, afterKey: string, v: Value, more: string, fields: Fields, rest: string)
    requires Starts(s, '"') && ParseString(s[1..]) == Good(key, afterKey)
    requires Starts(afterKey, ':') && ParseValue(afterKey[1..]) == Good(v, more)
    requires Starts(more, ',') && ParseFields(more[1..]) == Good(fields, rest)
    ensures ParseFields(s) == Good(Field(key, v, fields), rest)
  {
  }

  /** Reading inverts writing, for any text after the value that cannot extend a number. */
  lemma {:induction false} ValueRoundTrip(v: Value, rest: string)
    requires WellFormed(v)
    requires |rest| == 0 || !IsDigit(rest[0])
    ensures ParseValue(Render(v) + rest) == Good(v, rest)
    decreases v, 1
  {
    match v
    case Num(n) => NumberRoundTrip(n, rest);
    case Str(x) => StringRoundTrip(x, rest);
    case Arr(items) =>
      if items.Item? {
        ItemsRoundTrip(items, rest);
        ArrayRoundTrip(items, rest);
      } else {
        ReadEmpty(rest);
      }
    case Obj(fields) =>
      if fields.Field? {
        FieldsRoundTrip(fields, rest);
        ObjectRoundTrip(fields, rest);
      } else {
        ReadEmpty(rest);
      }
  }

  lemma NumberRoundTrip(n: int, rest: string)
    requires |rest| == 0 || !IsDigit(rest[0])
    ensures ParseValue(Itoa(n) + rest) == Good(Num(n), rest)
  {
    RenderHead(Num(n));
    ParseDecimal(n, rest);
    ReadNumber(Itoa(n) + rest);
  }

  lemma StringRoundTrip(x: string, rest: string)
    requires Plain(x)
    ensures ParseValue(Quote(x) + rest) == Good(Str(x), rest)
  {
    var s := Quote(x) + rest;
    ParseQuoted(x, rest);
    assert s[1..] == x + "\"" + rest;
    ReadString(s, x, rest);
  }

  lemma ArrayRoundTrip(items: Items, rest: string)
    requires items.Item? && ParseItems(RenderItems(items) + rest) == Good(items, rest)
    ensures ParseValue("[" + RenderItems(items) + rest) == Good(Arr(items), rest)
  {
    var s := "[" + RenderItems(items) + rest;
    RenderHead(items.head);
    Behead('[', RenderItems(items), rest);
    assert s[1] == s[1..][0];
    ReadArray(s, items, rest);
  }

  lemma FieldsHead(fields: Fields)
    requires fields.Field?
    ensures Starts(RenderFields(fields), '"')
  {
  }

  lemma ObjectRoundTrip(fields: Fields, rest: string)
    requires fields.Field? && ParseFields(RenderFields(fields) + rest) == Good(fields, rest)
    ensures ParseValue("{" + RenderFields(fields) + rest) == Good(Obj(fields), rest)
  {
    var s := "{" + RenderFields(fields) + rest;
    FieldsHead(fields);
    Behead('{', RenderFields(fields), rest);
    assert s[1] == s[1..][0];
    ReadObject(s, fields, rest);
  }

  lemma ItemsText(items: Items, rest: string) returns (more: string)
    requires items.Item?
    ensures RenderItems(items) + rest == Render(items.head) + more
    ensures items.tail.NoItems? ==> Starts(more, ']') && more[1..] == rest
    ensures items.tail.Item? ==> Starts(more, ',') && more[1..] == RenderItems(items.tail) + rest
  {
    var tail := if items.tail.NoItems? then "]" else "," + RenderItems(items.tail);
    more := tail + rest;
    assert Render(items.head) + tail + rest == Render(items.head) + (tail + rest);
  }

  lemma {:induction false} ItemsRoundTrip(items: Items, rest: string)
    requires items.Item? && WellFormedItems(items)
    ensures ParseItems(RenderItems(items) + rest) == Good(items, rest)
    decreases items, 0
  {
    var s := RenderItems(items) + rest;
    var more := ItemsText(items, rest);
    ValueRoundTrip(items.head, more);
    if items.tail.NoItems? {
      ReadLastItem(s, items.head, more);
    } else {
      ItemsRoundTrip(items.tail, rest);
      ReadItem(s, items.head, more, items.tail, rest);
    }
  }

  /** The text of an object member, split at the places where the reader stops. */
  lemma FieldText(key: string, value: string, tail: string)
    ensures var afterKey := ":" + value + tail;
            var s := Quote(key) + ":" + value + tail;
            Starts(s, '"') && s[1..] == key + "\"" + afterKey && afterKey[1..] == value + tail
  {
    assert Quote(key) + ":" + value + tail == "\"" + (key + "\"" + (":" + value + tail));
  }

  lemma {:induction false} FieldsRoundTrip(fields: Fields, rest: string)
    requires fields.Field? && WellFormedFields(fields)
    ensures ParseFields(RenderFields(fields) + rest) == Good(fields, rest)
    decreases fields, 0
  {
    var s := RenderFields(fields) + rest;
    var key, v := fields.key, fields.value;
    if fields.rest.NoFields? {
      var more := "}" + rest;
      FieldText(key, Render(v), more);
      var afterKey := ":" + Render(v) + more;
      assert s == Quote(key) + ":" + Render(v) + more && more[1..] == rest;
      ParseQuoted(key, afterKey);
      ValueRoundTrip(v, more);
      ReadLastField(s, key, afterKey, v, more);
    } else {
      var more := "," + RenderFields(fields.rest) + rest;
      FieldText(key, Render(v), more);
      var afterKey := ":" + Render(v) + more;
      assert s == Quote(key) + ":" + Render(v) + more;
      assert more[1..] == RenderFields(fields.rest) + rest;
      ParseQuoted(key, afterKey);
      ValueRoundTrip(v, more);
      FieldsRoundTrip(fields.rest, rest);
      ReadField(s, key, afterKey, v, more, fields.rest, rest);
    }
  }

  /** Reading a written document gives the document back. */
  lemma RoundTrip(v: Value)
    requires WellFormed(v)
    ensures Parse(Render(v)) == Some(v)
  {
    ValueRoundTrip(v, "");
    assert Render(v) + "" == Render(v);
  }

  /** Insignificant white space, in the sense of section 2 of RFC 8259. */
  ghost predicate Blank(s: string) {
    forall i :: 0 <= i < |s| ==> s[i] == ' ' || s[i] == '\t' || s[i] == '\n' || s[i] == '\r'
  }

  lemma {:induction false} SkipBlank(blank: string, s: string)
    requires Blank(blank) && (|s| == 0 || !IsSpace(s[0]))
    ensures Skip(blank + s) == s
  {
    if |blank| > 0 {
      SkipBlank(blank[1..], s);
      assert (blank + s)[1..] == blank[1..] + s;
    } else {
      assert blank + s == s;
    }
  }

  lemma SkipOnce(blank: string, s: string)
    requires Blank(blank) && |s| > 0 && !IsSpace(s[0])
    ensures ParseValue(blank + s) == ParseValue(s)
  {
    SkipBlank(blank, s);
    assert Skip(s) == s;
  }

  /** White space around a document does not matter. */
  lemma SpaceAround(v: Value, before: string, after: string)
    requires WellFormed(v) && Blank(before) && Blank(after)
    ensures Parse(before + (Render(v) + after)) == Some(v)
  {
    RenderHead(v);
    ValueRoundTrip(v, after);
    SkipOnce(before, Render(v) + after);
    SkipBlank(after, "");
    assert after + "" == after;
  }

  /** Text after a document is an error. */
  lemma NothingFollows(v: Value, rest: string)
    requires WellFormed(v) && |rest| > 0 && !IsSpace(rest[0]) && !IsDigit(rest[0])
    ensures Parse(Render(v) + rest) == None
  {
    ValueRoundTrip(v, rest);
  }
}
