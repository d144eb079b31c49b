/** Reading an engine's native type text into an Arrow type, and that it undoes printing. */
module NativeTypes {
  import opened Basics
  import opened Outcomes
  import opened Numerals

  datatype ArrowType =
    | Boolean | Int8 | Int16 | Int32 | Int64 | Float32 | Float64 | Binary | Date32 | Timestamp | Utf8
    | Decimal128(precision: nat, scale: int)
    | ListOf(element: ArrowType)
    | MapOf(key: ArrowType, value: ArrowType)

  // ---- text ----

  predicate IsSpace(c: char) {
    var n := c as int;
    || n == 0x20 || 0x09 <= n <= 0x0D || n == 0x85 || n == 0xA0 || n == 0x1680
    || 0x2000 <= n <= 0x200A || n == 0x2028 || n == 0x2029 || n == 0x202F || n == 0x205F || n == 0x3000
  }

  function TrimStart(text: string): (r: string)
    ensures |r| <= |text|
  {
    if text != "" && IsSpace(text[0]) then TrimStart(text[1..]) else text
  }

  function TrimEnd(text: string): (r: string)
    ensures |r| <= |text|
  {
    if text != "" && IsSpace(text[|text| - 1]) then TrimEnd(text[..|text| - 1]) else text
  }

  function Trim(text: string): (r: string)
    ensures |r| <= |text|
  {
    TrimEnd(TrimStart(text))
  }

  predicate IsOpen(c: char) {
    c == '(' || c == '<'
  }

  predicate IsClose(c: char) {
    c == ')' || c == '>'
  }

  // ---- the parser ----

  /** What stands between the brackets that follow `name`. */
  function TypeArguments(text: string, name: string): (r: Option<string>)
    ensures r.Some? ==> |r.value| + 2 + |name| <= |text|
  {
    if !(name <= text) then None
    else
      var suffix := Trim(text[|name|..]);
      var n := |suffix|;
      if n >= 2 && ((suffix[0] == '(' && suffix[n - 1] == ')') || (suffix[0] == '<' && suffix[n - 1] == '>')) then
        Some(suffix[1..n - 1])
      else None
  }

  /** The parts from `start` on, when the scan has reached `index` at bracket depth `depth`. */
  function SplitFrom(text: string, index: nat, start: nat, depth: int): (parts: seq<string>)
    requires start <= index <= |text|
    ensures |parts| > 0
    ensures forall i :: 0 <= i < |parts| ==> |parts[i]| <= |text|
    decreases |text| - index
  {
    if index == |text| then [Trim(text[start..])]
    else if IsOpen(text[index]) then SplitFrom(text, index + 1, start, depth + 1)
    else if IsClose(text[index]) then SplitFrom(text, index + 1, start, depth - 1)
    else if text[index] == ',' && depth == 0 then
      [Trim(text[start..index])] + SplitFrom(text, index + 1, index + 1, depth)
    else SplitFrom(text, index + 1, start, depth)
  }

  function SplitTop(text: string): seq<string> {
    SplitFrom(text, 0, 0, 0)
  }

  /** The scanning loop. */
  method SplitTopLevel(text: string) returns (output: seq<string>)
    ensures output == SplitTop(text)
  {
    var depth, start := 0, 0;
    output := [];
    for index := 0 to |text|
      invariant 0 <= start <= index
      invariant SplitTop(text) == output + SplitFrom(text, index, start, depth)
    {
      if IsOpen(text[index]) {
        depth := depth + 1;
      } else if IsClose(text[index]) {
        depth := depth - 1;
      } else if text[index] == ',' && depth == 0 {
        Shift(output, [Trim(text[start..index])], SplitFrom(text, index + 1, index + 1, depth));
        output := output + [Trim(text[start..index])];
        start := index + 1;
      }
    }
    output := output + [Trim(text[start..])];
  }

  function StripClosing(text: string): string {
    if text != "" && text[|text| - 1] == ')' then StripClosing(text[..|text| - 1]) else text
  }

  /** Precision and scale; the scale defaults to zero, further parts are ignored. */
  function DecimalShape(text: string): Option<(nat, int)> {
    var open := IndexOf(text, '(');
    if open == |text| then None else ShapeOf(StripClosing(text[open + 1..]))
  }

  function ShapeOf(body: string): Option<(nat, int)> {
    var comma := IndexOf(body, ',');
    var rest := if comma < |body| then body[comma + 1..] else "0";
    var precision := ParseUnsigned(Trim(body[..comma]), 10, 255);
    var scale := ParseSigned(Trim(rest[..IndexOf(rest, ',')]), -128, 127);
    if precision.None? || scale.None? then None else Some((precision.value, scale.value))
  }

  predicate IsDecimalName(name: string) {
    name == "decimal" || name == "numeric" || name == "number"
  }

  function ScalarOf(name: string): ArrowType {
    if name == "boolean" || name == "bool" then Boolean
    else if name == "tinyint" || name == "byteint" then Int8
    else if name == "smallint" then Int16
    else if name == "integer" || name == "int" then Int32
    else if name == "bigint" || name == "long" then Int64
    else if name == "real" || name == "float" then Float32
    else if name == "double" || name == "double precision" then Float64
    else if name == "binary" || name == "varbinary" then Binary
    else if name == "date" then Date32
    else if name == "timestamp" || name == "timestamp_ntz" || name == "timestamp_ltz" || name == "timestamp_tz" then Timestamp
    else Utf8
  }

  /** The text before the first opening bracket. */
  function Base(text: string): string {
    if text == "" || IsOpen(text[0]) then "" else [text[0]] + Base(text[1..])
  }

  const DEFAULT_DECIMAL := Decimal128(38, 9)

  function ScalarType(normalized: string): ArrowType {
    var name := Trim(Base(normalized));
    if IsDecimalName(name) then
      var shape := DecimalShape(normalized);
      if shape.Some? then Decimal128(shape.value.0, shape.value.1) else DEFAULT_DECIMAL
    else ScalarOf(name)
  }

  /** Every argument is strictly shorter than the text it is taken from, so the recursion ends. */
  function ArrowTypeOf(native: string): ArrowType
    decreases |native|
  {
    var normalized := Lower(Trim(native));
    var element := TypeArguments(normalized, "array");
    if element.Some? then ListOf(ArrowTypeOf(element.value))
    else if normalized == "array" then ListOf(Utf8)
    else
      var entry := TypeArguments(normalized, "map");
      var parts := if entry.Some? then SplitTop(entry.value) else [];
      if entry.Some? && |parts| == 2 then MapOf(ArrowTypeOf(parts[0]), ArrowTypeOf(parts[1]))
      else if normalized == "object" || normalized == "map" then MapOf(Utf8, Utf8)
      else ScalarType(normalized)
  }

  // ---- printed trees ----

  /** What a scalar column holds; `OtherText` is everything an engine has no Arrow type for. */
  datatype Kind =
    | Logical | TinyInt | SmallInt | PlainInt | BigInt | SinglePrecision | DoublePrecision
    | ByteString | Day | Instant | OtherText

  /** How engines spell it. */
  function Spellings(kind: Kind): set<string> {
    match kind
    case Logical => {"boolean", "bool"}
    case TinyInt => {"tinyint", "byteint"}
    case SmallInt => {"smallint"}
    case PlainInt => {"integer", "int"}
    case BigInt => {"bigint", "long"}
    case SinglePrecision => {"real", "float"}
    case DoublePrecision => {"double", "double precision"}
    case ByteString => {"binary", "varbinary"}
    case Day => {"date"}
    case Instant => {"timestamp", "timestamp_ntz", "timestamp_ltz", "timestamp_tz"}
    case OtherText => {}
  }

  /** The Arrow type that holds it. */
  function ArrowOf(kind: Kind): ArrowType {
    match kind
    case Logical => Boolean
    case TinyInt => Int8
    case SmallInt => Int16
    case PlainInt => Int32
    case BigInt => Int64
    case SinglePrecision => Float32
    case DoublePrecision => Float64
    case ByteString => Binary
    case Day => Date32
    case Instant => Timestamp
    case OtherText => Utf8
  }

  datatype NativeType =
    | Scalar(kind: Kind, name: string)
    /** A scalar with arguments the gateway ignores, such as a length or a precision. */
    | Sized(kind: Kind, name: string, arguments: string, angle: bool)
    /** An array or map without arguments. */
    | Untyped(name: string)
    /** A decimal name alone. */
    | Bare(name: string)
    /** `gap` spaces follow the comma, if there is a scale. */
    | Decimal(name: string, precision: nat, scale: Option<int>, angle: bool, gap: nat)
    | ArrayOf(element: NativeType, angle: bool)
    /** `gap` spaces follow the comma. */
    | Entries(key: NativeType, value: NativeType, angle: bool, gap: nat)

  function Spaces(n: nat): (s: string)
    ensures |s| == n
  {
    if n == 0 then "" else " " + Spaces(n - 1)
  }

  function Bracketed(name: string, inner: string, angle: bool): string {
    if angle then name + "<" + inner + ">" else name + "(" + inner + ")"
  }

  function Print(t: NativeType): (text: string) {
    match t
    case Scalar(_, name) => name
    case Sized(_, name, arguments, angle) => Bracketed(name, arguments, angle)
    case Untyped(name) => name
    case Bare(name) => name
    case Decimal(name, precision, scale, angle, gap) => Bracketed(name, DecimalArguments(precision, scale, gap), angle)
    case ArrayOf(element, angle) => Bracketed("array", Print(element), angle)
    case Entries(key, value, angle, gap) => Bracketed("map", Print(key) + "," + Spaces(gap) + Print(value), angle)
  }

  /** What a tree says; a decimal without arguments is the gateway's default, one without a scale has scale zero. */
  function Meaning(t: NativeType): ArrowType {
    match t
    case Scalar(kind, _) => ArrowOf(kind)
    case Sized(kind, _, _, _) => ArrowOf(kind)
    case Untyped(name) => if name == "array" then ListOf(Utf8) else MapOf(Utf8, Utf8)
    case Bare(_) => DEFAULT_DECIMAL
    case Decimal(_, precision, scale, _, _) => Decimal128(precision, ScaleOf(scale))
    case ArrayOf(element, _) => ListOf(Meaning(element))
    case Entries(key, value, _, _) => MapOf(Meaning(key), Meaning(value))
  }

  function ScaleOf(scale: Option<int>): int {
    if scale.Some? then scale.value else 0
  }

  /** Every decimal written in angle brackets happens to be the default one. */
  predicate AnglesAreDefault(t: NativeType) {
    match t
    case Scalar(_, _) => true
    case Sized(_, _, _, _) => true
    case Untyped(_) => true
    case Bare(_) => true
    case Decimal(_, precision, scale, angle, _) => angle ==> precision == 38 && ScaleOf(scale) == 9
    case ArrayOf(element, _) => AnglesAreDefault(element)
    case Entries(key, value, _, _) => AnglesAreDefault(key) && AnglesAreDefault(value)
  }

  predicate IsPlainChar(c: char) {
    !IsOpen(c) && !IsClose(c) && c != ',' && LowerChar(c) == c
  }

  predicate IsLower(text: string) {
    forall i :: 0 <= i < |text| ==> LowerChar(text[i]) == text[i]
  }

  /** Lower case and without blanks at either end. */
  predicate Normal(text: string) {
    text != "" && !IsSpace(text[0]) && !IsSpace(text[|text| - 1]) && IsLower(text)
  }

  /** A scalar name: normal, without brackets or commas, and not one of the composite or decimal names. */
  ghost predicate PlainName(name: string) {
    && Normal(name) && (forall i :: 0 <= i < |name| ==> IsPlainChar(name[i]))
    && name != "array" && name != "map" && name != "object" && !IsDecimalName(name)
  }

  /** `name` is a spelling of `kind`; any other plain name stands for other text. */
  ghost predicate Names(kind: Kind, name: string) {
    if kind.OtherText? then PlainName(name) && forall k: Kind :: name !in Spellings(k) else name in Spellings(kind)
  }

  ghost predicate Printable(t: NativeType) {
    match t
    case Scalar(kind, name) => Names(kind, name)
    case Sized(kind, name, arguments, _) => Names(kind, name) && IsFlat(arguments)
    case Untyped(name) => name == "array" || name == "map" || name == "object"
    case Bare(name) => IsDecimalName(name)
    case Decimal(name, precision, scale, _, _) => IsDecimalName(name) && precision <= 255 && -128 <= ScaleOf(scale) <= 127
    case ArrayOf(element, _) => Printable(element)
    case Entries(key, value, _, _) => Printable(key) && Printable(value)
  }

  /** Small letters, underscores and inner blanks only. */
  predicate IsNameText(name: string) {
    && name != "" && name[0] != ' ' && name[|name| - 1] != ' '
    && forall i :: 0 <= i < |name| ==> 'a' <= name[i] <= 'z' || name[i] == '_' || name[i] == ' '
  }

  lemma NameTextIsPlain(name: string)
    requires IsNameText(name) && name != "array" && name != "map" && name != "object" && !IsDecimalName(name)
    ensures PlainName(name)
  {
  }

  lemma IntegerNames(name: string)
    requires var t := ScalarOf(name); t.Int8? || t.Int16? || t.Int32? || t.Int64?
    ensures PlainName(name)
  {
    if name == "tinyint" {
    } else if name == "byteint" {
    } else if name == "smallint" {
    } else if name == "integer" {
    } else if name == "int" {
    } else if name == "bigint" {
    }
    NameTextIsPlain(name);
  }

  lemma FloatNames(name: string)
    requires var t := ScalarOf(name); t.Float32? || t.Float64? || t.Date32?
    ensures PlainName(name)
  {
    if name == "real" {
    } else if name == "float" {
    } else if name == "double" {
    } else if name == "double precision" {
    }
    NameTextIsPlain(name);
  }

  lemma TimestampNames(name: string)
    requires ScalarOf(name).Timestamp?
    ensures PlainName(name)
  {
    if name == "timestamp" {
    } else if name == "timestamp_ntz" {
    } else if name == "timestamp_ltz" {
    }
    NameTextIsPlain(name);
  }

  lemma OtherNames(name: string)
    requires ScalarOf(name).Boolean? || ScalarOf(name).Binary?
    ensures PlainName(name)
  {
    if name == "boolean" {
    } else if name == "bool" {
    } else if name == "binary" {
    }
    NameTextIsPlain(name);
  }

  lemma ScalarsOnly(name: string)
    ensures var t := ScalarOf(name); !t.ListOf? && !t.MapOf? && !t.Decimal128?
  {
  }

  /** Every scalar name the parser knows can stand in a tree. */
  lemma KnownNameIsPlain(name: string)
    requires ScalarOf(name) != Utf8
    ensures PlainName(name)
  {
    ScalarsOnly(name);
    var t := ScalarOf(name);
    if t.Int8? || t.Int16? || t.Int32? || t.Int64? {
      IntegerNames(name);
    } else if t.Float32? || t.Float64? || t.Date32? {
      FloatNames(name);
    } else if t.Timestamp? {
      TimestampNames(name);
    } else {
      OtherNames(name);
    }
  }

  lemma IntegerKinds(kind: Kind, name: string)
    requires (kind.TinyInt? || kind.SmallInt? || kind.PlainInt? || kind.BigInt?) && name in Spellings(kind)
    ensures ScalarOf(name) == ArrowOf(kind)
  {
    if name == "tinyint" {
    } else if name == "byteint" {
    } else if name == "smallint" {
    } else if name == "integer" {
    } else if name == "int" {
    } else if name == "bigint" {
    }
  }

  lemma NumberKinds(kind: Kind, name: string)
    requires (kind.SinglePrecision? || kind.DoublePrecision?) && name in Spellings(kind)
    ensures ScalarOf(name) == ArrowOf(kind)
  {
    if name == "real" {
    } else if name == "float" {
    } else if name == "double" {
    }
  }

  lemma TimeKinds(kind: Kind, name: string)
    requires (kind.Day? || kind.Instant?) && name in Spellings(kind)
    ensures ScalarOf(name) == ArrowOf(kind)
  {
    if name == "date" {
    } else if name == "timestamp" {
    } else if name == "timestamp_ntz" {
    } else if name == "timestamp_ltz" {
    }
  }

  lemma ByteKinds(kind: Kind, name: string)
    requires (kind.Logical? || kind.ByteString?) && name in Spellings(kind)
    ensures ScalarOf(name) == ArrowOf(kind)
  {
    if name == "boolean" {
    } else if name == "bool" {
    } else if name == "binary" {
    }
  }

  lemma OtherKind(name: string)
    requires forall k: Kind :: name !in Spellings(k)
    ensures ScalarOf(name) == Utf8
  {
    assert name !in Spellings(Logical) && name !in Spellings(TinyInt) && name !in Spellings(SmallInt);
    assert name !in Spellings(PlainInt) && name !in Spellings(BigInt) && name !in Spellings(SinglePrecision);
    assert name !in Spellings(DoublePrecision) && name !in Spellings(ByteString) && name !in Spellings(Day) && name !in Spellings(Instant);
  }

  /** The parser's table gives every spelling its kind's Arrow type, and everything else text. */
  lemma SpelledAsMeant(kind: Kind, name: string)
    requires Names(kind, name)
    ensures ScalarOf(name) == ArrowOf(kind) && PlainName(name)
  {
    if kind.OtherText? {
      OtherKind(name);
    } else {
      if kind.TinyInt? || kind.SmallInt? || kind.PlainInt? || kind.BigInt? {
        IntegerKinds(kind, name);
      } else if kind.SinglePrecision? || kind.DoublePrecision? {
        NumberKinds(kind, name);
      } else if kind.Day? || kind.Instant? {
        TimeKinds(kind, name);
      } else {
        ByteKinds(kind, name);
      }
      KnownNameIsPlain(name);
    }
  }

  // ---- text lemmas ----

  lemma TrimTight(text: string)
    requires text != "" && !IsSpace(text[0]) && !IsSpace(text[|text| - 1])
    ensures Trim(text) == text
  {
  }

  lemma TrimNormal(text: string)
    requires Normal(text)
    ensures Trim(text) == text
  {
  }

  lemma {:induction false} StartAfterGap(n: nat, text: string)
    requires text != "" && !IsSpace(text[0])
    ensures TrimStart(Spaces(n) + text) == text
  {
    if n == 0 {
      assert Spaces(0) + text == text;
    } else {
      StartAfterGap(n - 1, text);
      assert (Spaces(n) + text)[1..] == Spaces(n - 1) + text;
    }
  }

  lemma TrimGap(n: nat, text: string)
    requires Normal(text)
    ensures Trim(Spaces(n) + text) == text
  {
    StartAfterGap(n, text);
  }

  lemma NormalIsFixed(text: string)
    requires Normal(text)
    ensures Lower(Trim(text)) == text
  {
    assert Lower(text) == text;
  }

  lemma {:induction false} TrimKeepsChars(text: string, i: nat)
    requires i < |Trim(text)|
    ensures Trim(text)[i] in text
    decreases |text|
  {
    if text != "" && IsSpace(text[0]) {
      TrimKeepsChars(text[1..], i);
    } else {
      TrimEndIsPrefix(text);
    }
  }

  lemma {:induction false} TrimEndIsPrefix(text: string)
    ensures TrimEnd(text) <= text
  {
    if text != "" && IsSpace(text[|text| - 1]) {
      TrimEndIsPrefix(text[..|text| - 1]);
    }
  }

  lemma {:induction false} BaseStops(front: string, rest: string)
    requires forall i :: 0 <= i < |front| ==> !IsOpen(front[i])
    requires rest == "" || IsOpen(rest[0])
    ensures Base(front + rest) == front
  {
    if front == "" {
      assert front + rest == rest;
    } else {
      assert (front + rest)[1..] == front[1..] + rest;
      BaseStops(front[1..], rest);
    }
  }

  // ---- bracket depth ----

  /** Scan `text` from depth `depth`: the final depth, or `None` if a comma stands at depth zero. */
  function Walk(text: string, depth: int): Option<int> {
    if text == "" then Some(depth)
    else if IsOpen(text[0]) then Walk(text[1..], depth + 1)
    else if IsClose(text[0]) then Walk(text[1..], depth - 1)
    else if text[0] == ',' && depth == 0 then None
    else Walk(text[1..], depth)
  }

  lemma {:induction false} WalkConcat(a: string, b: string, depth: int)
    requires Walk(a, depth).Some?
    ensures Walk(a + b, depth) == Walk(b, Walk(a, depth).value)
    decreases a
  {
    if a == "" {
      assert a + b == b;
    } else {
      assert (a + b)[1..] == a[1..] + b;
      var d := if IsOpen(a[0]) then depth + 1 else if IsClose(a[0]) then depth - 1 else depth;
      WalkConcat(a[1..], b, d);
    }
  }

  lemma {:induction false} WalkPlain(text: string, depth: int)
    requires forall i :: 0 <= i < |text| ==> !IsOpen(text[i]) && !IsClose(text[i]) && (text[i] == ',' ==> depth != 0)
    ensures Walk(text, depth) == Some(depth)
  {
    if text != "" {
      WalkPlain(text[1..], depth);
    }
  }

  /** A name, then brackets around text that keeps its depth, keeps the depth. */
  lemma WalkBracketed(name: string, inner: string, angle: bool, depth: nat)
    requires forall i :: 0 <= i < |name| ==> IsPlainChar(name[i])
    requires Walk(inner, depth + 1) == Some(depth + 1)
    ensures Walk(Bracketed(name, inner, angle), depth) == Some(depth)
  {
    var open, close := if angle then "<" else "(", if angle then ">" else ")";
    WalkPlain(name, depth);
    WalkConcat(name, open + inner + close, depth);
    assert Bracketed(name, inner, angle) == name + (open + inner + close);
    assert (open + inner + close)[1..] == inner + close;
    WalkConcat(inner, close, depth + 1);
    assert close[1..] == "";
  }

  /** No brackets, commas, capitals or blanks. */
  predicate IsWord(text: string) {
    forall i :: 0 <= i < |text| ==> IsPlainChar(text[i]) && !IsSpace(text[i])
  }

  lemma DigitsAreAWord(n: nat)
    ensures IsWord(Show(n, 10))
  {
    var text := Show(n, 10);
    ShowThenRead(n, 10);
    forall i | 0 <= i < |text| ensures IsPlainChar(text[i]) && !IsSpace(text[i]) {
      OnlyDigits(text, 10, i);
    }
  }

  lemma WordAppend(a: string, b: string)
    requires IsWord(a) && IsWord(b)
    ensures IsWord(a + b)
  {
  }

  lemma IntIsAWord(n: int)
    ensures IsWord(ShowInt(n)) && ShowInt(n) != ""
  {
    if n < 0 {
      DigitsAreAWord(-n);
      WordAppend("-", Show(-n, 10));
    } else {
      DigitsAreAWord(n);
    }
  }

  lemma WordIsNormal(text: string)
    requires IsWord(text) && text != ""
    ensures Normal(text) && text[|text| - 1] != ')' && IndexOf(text, ',') == |text|
  {
    assert IsPlainChar(text[|text| - 1]);
  }

  /** The arguments of a decimal: digits and, if there is a scale, one comma, blanks and digits. */
  function DecimalArguments(precision: nat, scale: Option<int>, gap: nat): string {
    Show(precision, 10) + if scale.Some? then "," + (Spaces(gap) + ShowInt(scale.value)) else ""
  }

  predicate IsFlat(text: string) {
    forall i :: 0 <= i < |text| ==> !IsOpen(text[i]) && !IsClose(text[i]) && LowerChar(text[i]) == text[i]
  }

  lemma FlatAppend(a: string, b: string)
    requires IsFlat(a) && IsFlat(b)
    ensures IsFlat(a + b)
  {
  }

  lemma DecimalArgumentsAreFlat(precision: nat, scale: Option<int>, gap: nat)
    ensures IsFlat(DecimalArguments(precision, scale, gap))
  {
    DigitsAreAWord(precision);
    if scale.Some? {
      IntIsAWord(scale.value);
      SpacesArePlain(gap);
      FlatAppend(Spaces(gap), ShowInt(scale.value));
      FlatAppend(",", Spaces(gap) + ShowInt(scale.value));
      FlatAppend(Show(precision, 10), "," + (Spaces(gap) + ShowInt(scale.value)));
    }
  }

  lemma DecimalNameIsPlain(name: string)
    requires IsDecimalName(name)
    ensures Normal(name) && (forall i :: 0 <= i < |name| ==> IsPlainChar(name[i])) && (name[0] == 'd' || name[0] == 'n')
  {
  }

  lemma {:induction false} SpacesArePlain(n: nat)
    ensures forall i :: 0 <= i < n ==> Spaces(n)[i] == ' '
  {
    if n > 0 {
      SpacesArePlain(n - 1);
    }
  }

  lemma UntypedIsNormal(name: string)
    requires name == "array" || name == "map" || name == "object"
    ensures Normal(name) && forall i :: 0 <= i < |name| ==> IsPlainChar(name[i])
  {
  }

  lemma {:induction false} PrintKeepsDepth(t: NativeType, depth: nat)
    requires Printable(t)
    ensures Walk(Print(t), depth) == Some(depth)
    decreases t
  {
    match t
    case Scalar(kind, name) =>
      SpelledAsMeant(kind, name);
      WalkPlain(name, depth);
    case Sized(kind, name, arguments, angle) =>
      SpelledAsMeant(kind, name);
      WalkPlain(arguments, depth + 1);
      WalkBracketed(name, arguments, angle, depth);
    case Untyped(name) =>
      UntypedIsNormal(name);
      WalkPlain(name, depth);
    case Bare(name) =>
      DecimalNameIsPlain(name);
      WalkPlain(name, depth);
    case Decimal(name, precision, scale, angle, gap) =>
      DecimalNameIsPlain(name);
      DecimalArgumentsAreFlat(precision, scale, gap);
      WalkPlain(DecimalArguments(precision, scale, gap), depth + 1);
      WalkBracketed(name, DecimalArguments(precision, scale, gap), angle, depth);
    case ArrayOf(element, angle) =>
      PrintKeepsDepth(element, depth + 1);
      WalkBracketed("array", Print(element), angle, depth);
    case Entries(key, value, angle, gap) =>
      PrintKeepsDepth(key, depth + 1);
      PrintKeepsDepth(value, depth + 1);
      EntryKeepsDepth(Print(key), Print(value), gap, depth);
      WalkBracketed("map", Print(key) + "," + Spaces(gap) + Print(value), angle, depth);
  }

  lemma EntryKeepsDepth(key: string, value: string, gap: nat, depth: nat)
    requires Walk(key, depth + 1) == Some(depth + 1) && Walk(value, depth + 1) == Some(depth + 1)
    ensures Walk(key + "," + Spaces(gap) + value, depth + 1) == Some(depth + 1)
  {
    SpacesArePlain(gap);
    var middle := "," + Spaces(gap);
    WalkPlain(middle, depth + 1);
    WalkConcat(middle, value, depth + 1);
    WalkConcat(key, middle + value, depth + 1);
    assert key + "," + Spaces(gap) + value == key + (middle + value);
  }

  // ---- splitting ----

  /** A stretch without a top-level comma is skipped. */
  lemma {:induction false} SplitSkips(text: string, index: nat, start: nat, depth: int, n: nat)
    requires start <= index && index + n <= |text| && Walk(text[index..index + n], depth).Some?
    ensures SplitFrom(text, index, start, depth) == SplitFrom(text, index + n, start, Walk(text[index..index + n], depth).value)
    decreases n
  {
    if n > 0 {
      var part := text[index..index + n];
      assert part[1..] == text[index + 1..index + n];
      var d := if IsOpen(part[0]) then depth + 1 else if IsClose(part[0]) then depth - 1 else depth;
      SplitSkips(text, index + 1, start, d, n - 1);
    }
  }

  lemma CommaSplits(text: string, k: nat)
    requires k < |text| && text[k] == ','
    ensures SplitFrom(text, k, 0, 0) == [Trim(text[..k])] + SplitFrom(text, k + 1, k + 1, 0)
  {
    assert text[0..k] == text[..k];
  }

  lemma SplitAtComma(text: string, key: string)
    requires |key| < |text| && text[0..|key|] == key && Walk(key, 0) == Some(0) && text[|key|] == ','
    ensures SplitTop(text) == [Trim(key)] + SplitFrom(text, |key| + 1, |key| + 1, 0)
  {
    SplitSkips(text, 0, 0, 0, |key|);
    CommaSplits(text, |key|);
    assert text[..|key|] == key;
  }

  lemma SplitLast(text: string, start: nat)
    requires start <= |text| && Walk(text[start..], 0) == Some(0)
    ensures SplitFrom(text, start, start, 0) == [Trim(text[start..])]
  {
    var n := |text| - start;
    assert text[start..start + n] == text[start..];
    SplitSkips(text, start, start, 0, n);
  }

  lemma WalkAfterGap(gap: nat, value: string)
    requires Walk(value, 0) == Some(0)
    ensures Walk(Spaces(gap) + value, 0) == Some(0)
  {
    SpacesArePlain(gap);
    WalkPlain(Spaces(gap), 0);
    WalkConcat(Spaces(gap), value, 0);
  }

  lemma SplitsEntry(key: string, value: string, gap: nat)
    requires Normal(key) && Normal(value) && Walk(key, 0) == Some(0) && Walk(value, 0) == Some(0)
    ensures SplitTop(key + "," + Spaces(gap) + value) == [key, value]
  {
    var tail := Spaces(gap) + value;
    var text := key + "," + Spaces(gap) + value;
    var k := |key|;
    assert text == key + "," + tail;
    assert text[0..k] == key && text[k] == ',' && text[k + 1..] == tail;
    SplitAtComma(text, key);
    WalkAfterGap(gap, value);
    SplitLast(text, k + 1);
    TrimGap(gap, value);
    TrimNormal(key);
  }

  // ---- printed text is normal ----

  lemma BracketedNormal(name: string, inner: string, angle: bool)
    requires Normal(name) && IsLower(inner)
    ensures Normal(Bracketed(name, inner, angle))
  {
    var text := Bracketed(name, inner, angle);
    assert text[0] == name[0];
  }

  lemma LowerAppend(a: string, b: string)
    requires IsLower(a) && IsLower(b)
    ensures IsLower(a + b)
  {
  }

  lemma EntryIsLower(key: string, value: string, gap: nat)
    requires IsLower(key) && IsLower(value)
    ensures IsLower(key + "," + Spaces(gap) + value)
  {
    SpacesArePlain(gap);
    LowerAppend(key, ",");
    LowerAppend(key + ",", Spaces(gap));
    LowerAppend(key + "," + Spaces(gap), value);
  }

  lemma {:induction false} PrintIsNormal(t: NativeType)
    requires Printable(t)
    ensures Normal(Print(t))
    decreases t
  {
    match t
    case Scalar(kind, name) => SpelledAsMeant(kind, name);
    case Sized(kind, name, arguments, angle) =>
      SpelledAsMeant(kind, name);
      BracketedNormal(name, arguments, angle);
    case Untyped(name) => UntypedIsNormal(name);
    case Bare(name) => DecimalNameIsPlain(name);
    case Decimal(name, precision, scale, angle, gap) =>
      DecimalNameIsPlain(name);
      DecimalArgumentsAreFlat(precision, scale, gap);
      BracketedNormal(name, DecimalArguments(precision, scale, gap), angle);
    case ArrayOf(element, angle) =>
      PrintIsNormal(element);
      BracketedNormal("array", Print(element), angle);
    case Entries(key, value, angle, gap) =>
      PrintIsNormal(key);
      PrintIsNormal(value);
      EntryIsLower(Print(key), Print(value), gap);
      BracketedNormal("map", Print(key) + "," + Spaces(gap) + Print(value), angle);
  }

  // ---- the four shapes ----

  lemma ArgumentsOf(name: string, inner: string, angle: bool)
    ensures TypeArguments(Bracketed(name, inner, angle), name) == Some(inner)
  {
    var text := Bracketed(name, inner, angle);
    var open, close := if angle then "<" else "(", if angle then ">" else ")";
    var suffix := open + inner + close;
    assert text == name + suffix;
    assert text[|name|..] == suffix;
    TrimTight(suffix);
    assert suffix[1..|suffix| - 1] == inner;
  }

  lemma NoArguments(name: string, prefix: string)
    requires forall i :: 0 <= i < |name| ==> !IsOpen(name[i])
    ensures TypeArguments(name, prefix).None?
  {
    if prefix <= name {
      var suffix := Trim(name[|prefix|..]);
      if suffix != "" {
        TrimKeepsChars(name[|prefix|..], 0);
      }
    }
  }

  lemma ScalarShape(name: string)
    requires PlainName(name)
    ensures ArrowTypeOf(name) == ScalarOf(name)
  {
    NormalIsFixed(name);
    NoArguments(name, "array");
    NoArguments(name, "map");
    BaseStops(name, "");
    assert name + "" == name;
    TrimNormal(name);
  }

  lemma UntypedShape(name: string)
    requires name == "array" || name == "map" || name == "object"
    ensures ArrowTypeOf(name) == if name == "array" then ListOf(Utf8) else MapOf(Utf8, Utf8)
  {
    UntypedIsNormal(name);
    NormalIsFixed(name);
    NoArguments(name, "array");
    NoArguments(name, "map");
  }

  lemma {:induction false} TrimStartConcat(a: string, b: string)
    requires a != "" && !IsSpace(a[|a| - 1])
    ensures TrimStart(a + b) == TrimStart(a) + b && TrimStart(a) != "" && TrimStart(a)[0] in a
  {
    if IsSpace(a[0]) {
      assert (a + b)[1..] == a[1..] + b;
      TrimStartConcat(a[1..], b);
    }
  }

  /** Arguments behind a longer name are not those of an array or a map. */
  lemma OthersHaveNoArguments(name: string, inner: string, angle: bool, prefix: string)
    requires Normal(name) && (forall i :: 0 <= i < |name| ==> IsPlainChar(name[i]))
    requires (forall i :: 0 <= i < |prefix| ==> !IsOpen(prefix[i])) && prefix < name
    ensures TypeArguments(Bracketed(name, inner, angle), prefix).None?
  {
    var rest := if angle then "<" + inner + ">" else "(" + inner + ")";
    var text, tail := Bracketed(name, inner, angle), name[|prefix|..];
    assert text == name + rest;
    assert text[|prefix|..] == tail + rest;
    TrimStartConcat(tail, rest);
    TrimEndStays(TrimStart(tail) + rest);
  }

  lemma TrimEndStays(text: string)
    requires text != "" && !IsSpace(text[|text| - 1])
    ensures TrimEnd(text) == text
  {
  }

  /** A shorter or different name is no prefix of the text. */
  lemma NotAPrefix(name: string, inner: string, angle: bool, prefix: string)
    requires prefix <= Bracketed(name, inner, angle) && (forall i :: 0 <= i < |prefix| ==> !IsOpen(prefix[i])) && name != prefix
    ensures prefix < name
  {
    var rest := if angle then "<" + inner + ">" else "(" + inner + ")";
    assert Bracketed(name, inner, angle) == name + rest;
    assert IsOpen((name + rest)[|name|]);
    assert |prefix| <= |name|;
  }

  lemma SizedHasNoArguments(name: string, inner: string, angle: bool, prefix: string)
    requires PlainName(name) && (prefix == "array" || prefix == "map")
    ensures TypeArguments(Bracketed(name, inner, angle), prefix).None?
  {
    if prefix <= Bracketed(name, inner, angle) {
      NotAPrefix(name, inner, angle, prefix);
      OthersHaveNoArguments(name, inner, angle, prefix);
    }
  }

  lemma SizedShape(name: string, inner: string, angle: bool)
    requires PlainName(name) && IsLower(inner)
    ensures ArrowTypeOf(Bracketed(name, inner, angle)) == ScalarOf(name)
  {
    var text := Bracketed(name, inner, angle);
    BracketedNormal(name, inner, angle);
    NormalIsFixed(text);
    SizedHasNoArguments(name, inner, angle, "array");
    SizedHasNoArguments(name, inner, angle, "map");
    BaseOfBracketed(name, inner, angle);
    EndsInBracket(name, inner, angle);
  }

  lemma EndsInBracket(name: string, inner: string, angle: bool)
    ensures var text := Bracketed(name, inner, angle); text != "array" && text != "object" && text != "map"
  {
    var text := Bracketed(name, inner, angle);
    assert IsClose(text[|text| - 1]);
  }

  lemma StripOne(text: string)
    requires text == "" || text[|text| - 1] != ')'
    ensures StripClosing(text + ")") == text
  {
    assert (text + ")")[..|text|] == text;
  }

  lemma {:induction false} Absent(text: string, c: char)
    requires forall i :: 0 <= i < |text| ==> text[i] != c
    ensures IndexOf(text, c) == |text|
  {
    if text != "" {
      Absent(text[1..], c);
    }
  }

  /** The text after the comma, with its blanks, is read as the scale. */
  lemma ScaleRoundTrip(scale: int, gap: nat)
    requires -128 <= scale <= 127
    ensures
      var rest := Spaces(gap) + ShowInt(scale);
      IndexOf(rest, ',') == |rest| && ParseSigned(Trim(rest[..|rest|]), -128, 127) == Some(scale)
  {
    var s := ShowInt(scale);
    IntIsAWord(scale);
    WordIsNormal(s);
    SpacesArePlain(gap);
    Absent(Spaces(gap) + s, ',');
    TrimGap(gap, s);
    ParseShownInt(scale, -128, 127);
    assert (Spaces(gap) + s)[..|Spaces(gap) + s|] == Spaces(gap) + s;
  }

  lemma PrecisionRoundTrip(precision: nat)
    requires precision <= 255
    ensures ParseUnsigned(Trim(Show(precision, 10)), 10, 255) == Some(precision) && IndexOf(Show(precision, 10), ',') == |Show(precision, 10)|
  {
    DigitsAreAWord(precision);
    WordIsNormal(Show(precision, 10));
    TrimNormal(Show(precision, 10));
    ParseShown(precision, 10, 255);
  }

  lemma PrecisionAlone(precision: nat)
    requires precision <= 255
    ensures ShapeOf(Show(precision, 10)) == Some((precision, 0))
  {
    var p := Show(precision, 10);
    PrecisionRoundTrip(precision);
    assert p[..|p|] == p;
    ScaleRoundTrip(0, 0);
    assert Spaces(0) + ShowInt(0) == "0";
  }

  lemma BothArguments(precision: nat, scale: int, gap: nat)
    requires precision <= 255 && -128 <= scale <= 127
    ensures ShapeOf(DecimalArguments(precision, Some(scale), gap)) == Some((precision, scale))
  {
    var p, rest := Show(precision, 10), Spaces(gap) + ShowInt(scale);
    var body := DecimalArguments(precision, Some(scale), gap);
    assert body == p + "," + rest;
    PrecisionRoundTrip(precision);
    DigitsAreAWord(precision);
    IndexAfter(p, ',', rest);
    assert body[..|p|] == p && body[|p| + 1..] == rest;
    ScaleRoundTrip(scale, gap);
  }

  /** Reading the arguments back. */
  lemma ArgumentsRoundTrip(precision: nat, scale: Option<int>, gap: nat)
    requires precision <= 255 && -128 <= ScaleOf(scale) <= 127
    ensures ShapeOf(DecimalArguments(precision, scale, gap)) == Some((precision, ScaleOf(scale)))
  {
    if scale.Some? {
      BothArguments(precision, scale.value, gap);
    } else {
      PrecisionAlone(precision);
      assert Show(precision, 10) + "" == Show(precision, 10);
    }
  }

  lemma AfterOpening(name: string, rest: string)
    requires forall i :: 0 <= i < |name| ==> name[i] != '('
    ensures var text := name + "(" + rest; IndexOf(text, '(') == |name| && text[|name| + 1..] == rest
  {
    IndexAfter(name, '(', rest);
  }

  /** Behind a round bracket the arguments are found. */
  lemma RoundShape(name: string, body: string)
    requires (forall i :: 0 <= i < |name| ==> name[i] != '(') && (body == "" || body[|body| - 1] != ')')
    ensures DecimalShape(name + "(" + (body + ")")) == ShapeOf(body)
  {
    AfterOpening(name, body + ")");
    StripOne(body);
  }

  /** Round brackets: precision and scale read back as printed. */
  lemma DecimalShapeOf(name: string, precision: nat, scale: Option<int>, gap: nat)
    requires IsDecimalName(name) && precision <= 255 && -128 <= ScaleOf(scale) <= 127
    ensures DecimalShape(Bracketed(name, DecimalArguments(precision, scale, gap), false)) == Some((precision, ScaleOf(scale)))
  {
    var body := DecimalArguments(precision, scale, gap);
    assert Bracketed(name, body, false) == name + "(" + (body + ")");
    DecimalNameIsPlain(name);
    DecimalArgumentsAreFlat(precision, scale, gap);
    RoundShape(name, body);
    ArgumentsRoundTrip(precision, scale, gap);
  }

  /** Angle brackets: the arguments are not found. */
  lemma AngleHasNoShape(name: string, precision: nat, scale: Option<int>, gap: nat)
    requires IsDecimalName(name)
    ensures DecimalShape(Bracketed(name, DecimalArguments(precision, scale, gap), true)).None?
  {
    var text := Bracketed(name, DecimalArguments(precision, scale, gap), true);
    DecimalNameIsPlain(name);
    DecimalArgumentsAreFlat(precision, scale, gap);
    Absent(text, '(');
  }

  /** Text that starts like none of the composite names is read as a scalar. */
  lemma NotComposite(text: string)
    requires Normal(text) && text[0] != 'a' && text[0] != 'm' && text[0] != 'o'
    ensures ArrowTypeOf(text) == ScalarType(text)
  {
    NormalIsFixed(text);
    assert "array"[0] == 'a' && "map"[0] == 'm' && "object"[0] == 'o';
  }

  lemma BaseOfBracketed(name: string, inner: string, angle: bool)
    requires Normal(name) && forall i :: 0 <= i < |name| ==> IsPlainChar(name[i])
    ensures Trim(Base(Bracketed(name, inner, angle))) == name
  {
    var rest := if angle then "<" + inner + ">" else "(" + inner + ")";
    assert Bracketed(name, inner, angle) == name + rest;
    BaseStops(name, rest);
    TrimNormal(name);
  }

  lemma DecimalTypeShape(name: string, precision: nat, scale: Option<int>, angle: bool, gap: nat)
    requires IsDecimalName(name) && precision <= 255 && -128 <= ScaleOf(scale) <= 127
    ensures ScalarType(Bracketed(name, DecimalArguments(precision, scale, gap), angle))
         == if angle then DEFAULT_DECIMAL else Decimal128(precision, ScaleOf(scale))
  {
    DecimalNameIsPlain(name);
    BaseOfBracketed(name, DecimalArguments(precision, scale, gap), angle);
    if angle {
      AngleHasNoShape(name, precision, scale, gap);
    } else {
      DecimalShapeOf(name, precision, scale, gap);
    }
  }

  lemma BareShape(name: string)
    requires IsDecimalName(name)
    ensures ArrowTypeOf(name) == DEFAULT_DECIMAL
  {
    DecimalNameIsPlain(name);
    NotComposite(name);
    BaseStops(name, "");
    assert name + "" == name;
    TrimNormal(name);
    Absent(name, '(');
  }

  lemma ArrayShape(inner: string, angle: bool)
    requires IsLower(inner)
    ensures ArrowTypeOf(Bracketed("array", inner, angle)) == ListOf(ArrowTypeOf(inner))
  {
    BracketedNormal("array", inner, angle);
    NormalIsFixed(Bracketed("array", inner, angle));
    ArgumentsOf("array", inner, angle);
  }

  lemma MapShape(key: string, value: string, angle: bool, gap: nat)
    requires Normal(key) && Normal(value) && Walk(key, 0) == Some(0) && Walk(value, 0) == Some(0)
    ensures ArrowTypeOf(Bracketed("map", key + "," + Spaces(gap) + value, angle)) == MapOf(ArrowTypeOf(key), ArrowTypeOf(value))
  {
    var inner := key + "," + Spaces(gap) + value;
    var text := Bracketed("map", inner, angle);
    EntryIsLower(key, value, gap);
    BracketedNormal("map", inner, angle);
    NormalIsFixed(text);
    assert text[0] == 'm' && "array"[0] == 'a';
    ArgumentsOf("map", inner, angle);
    SplitsEntry(key, value, gap);
    MapFromParts(text, inner, key, value);
  }

  lemma MapFromParts(text: string, inner: string, key: string, value: string)
    requires Lower(Trim(text)) == text && TypeArguments(text, "array").None? && TypeArguments(text, "map") == Some(inner)
    requires SplitTop(inner) == [key, value]
    ensures ArrowTypeOf(text) == MapOf(ArrowTypeOf(key), ArrowTypeOf(value))
  {
  }

  /** What the parser makes of a printed tree: a decimal in angle brackets loses its arguments. */
  function Parsed(t: NativeType): ArrowType {
    match t
    case Scalar(kind, _) => ArrowOf(kind)
    case Sized(kind, _, _, _) => ArrowOf(kind)
    case Untyped(name) => if name == "array" then ListOf(Utf8) else MapOf(Utf8, Utf8)
    case Bare(_) => DEFAULT_DECIMAL
    case Decimal(_, precision, scale, angle, _) => if angle then DEFAULT_DECIMAL else Decimal128(precision, ScaleOf(scale))
    case ArrayOf(element, _) => ListOf(Parsed(element))
    case Entries(key, value, _, _) => MapOf(Parsed(key), Parsed(value))
  }

  lemma {:induction false} ParsedIsMeant(t: NativeType)
    ensures Parsed(t) == Meaning(t) <==> AnglesAreDefault(t)
  {
    match t
    case ArrayOf(element, _) => ParsedIsMeant(element);
    case Entries(key, value, _, _) =>
      ParsedIsMeant(key);
      ParsedIsMeant(value);
    case _ =>
  }

  lemma DecimalParses(name: string, precision: nat, scale: Option<int>, angle: bool, gap: nat)
    requires Printable(Decimal(name, precision, scale, angle, gap))
    ensures ArrowTypeOf(Print(Decimal(name, precision, scale, angle, gap))) == Parsed(Decimal(name, precision, scale, angle, gap))
  {
    var t := Decimal(name, precision, scale, angle, gap);
    PrintIsNormal(t);
    DecimalNameIsPlain(name);
    assert Print(t)[0] == name[0];
    NotComposite(Print(t));
    DecimalTypeShape(name, precision, scale, angle, gap);
  }

  lemma EntryParts(t: NativeType)
    requires Printable(t)
    ensures Normal(Print(t)) && Walk(Print(t), 0) == Some(0)
  {
    PrintIsNormal(t);
    PrintKeepsDepth(t, 0);
  }

  lemma {:induction false} PrintParses(t: NativeType)
    requires Printable(t)
    ensures ArrowTypeOf(Print(t)) == Parsed(t)
    decreases t
  {
    match t
    case Scalar(kind, name) =>
      SpelledAsMeant(kind, name);
      ScalarShape(name);
    case Sized(kind, name, arguments, angle) =>
      SpelledAsMeant(kind, name);
      SizedShape(name, arguments, angle);
    case Untyped(name) => UntypedShape(name);
    case Bare(name) => BareShape(name);
    case Decimal(name, precision, scale, angle, gap) => DecimalParses(name, precision, scale, angle, gap);
    case ArrayOf(element, angle) =>
      PrintIsNormal(element);
      ArrayShape(Print(element), angle);
      PrintParses(element);
    case Entries(key, value, angle, gap) =>
      EntryParts(key);
      EntryParts(value);
      MapShape(Print(key), Print(value), angle, gap);
      PrintParses(key);
      PrintParses(value);
  }

  predicate AllBlank(text: string) {
    forall i :: 0 <= i < |text| ==> IsSpace(text[i])
  }

  lemma {:induction false} TrimStartBlank(before: string, text: string)
    requires AllBlank(before) && text != "" && !IsSpace(text[0])
    ensures TrimStart(before + text) == text
  {
    if before == "" {
      assert before + text == text;
    } else {
      assert (before + text)[1..] == before[1..] + text;
      TrimStartBlank(before[1..], text);
    }
  }

  lemma {:induction false} TrimEndBlank(text: string, after: string)
    requires AllBlank(after) && text != "" && !IsSpace(text[|text| - 1])
    ensures TrimEnd(text + after) == text
  {
    if after == "" {
      assert text + after == text;
    } else {
      var n := |after| - 1;
      assert (text + after)[..|text + after| - 1] == text + after[..n];
      TrimEndBlank(text, after[..n]);
    }
  }

  lemma TrimAround(before: string, text: string, after: string)
    requires AllBlank(before) && AllBlank(after) && text != "" && !IsSpace(text[0]) && !IsSpace(text[|text| - 1])
    ensures Trim(before + text + after) == text
  {
    assert before + text + after == before + (text + after);
    TrimStartBlank(before, text + after);
    TrimEndBlank(text, after);
  }

  lemma LettersAreNotBlank(a: char, b: char)
    requires SameLetter(a, b) && !IsSpace(b)
    ensures !IsSpace(a)
  {
  }

  /** Blanks around and another letter case do not matter. */
  lemma WrittenIsRead(before: string, written: string, after: string, text: string)
    requires AllBlank(before) && AllBlank(after) && Normal(text) && SameLetters(written, text)
    ensures ArrowTypeOf(before + written + after) == ArrowTypeOf(text)
  {
    LettersAreNotBlank(written[0], text[0]);
    LettersAreNotBlank(written[|written| - 1], text[|text| - 1]);
    TrimAround(before, written, after);
    LowerForgetsCase(written, text);
    NormalIsFixed(text);
    TrimNormal(text);
  }

  /**
    Parsing printed text, for every tree, written in any letter case and with blanks around: the
    result is what the tree says if and only if each decimal in angle brackets is the default one, for
    the parser looks for a decimal's arguments behind a round bracket only.
  */
  lemma ParseUndoesPrint(t: NativeType, before: string, written: string, after: string)
    requires Printable(t) && AllBlank(before) && AllBlank(after) && SameLetters(written, Print(t))
    ensures ArrowTypeOf(before + written + after) == Parsed(t)
    ensures ArrowTypeOf(before + written + after) == Meaning(t) <==> AnglesAreDefault(t)
  {
    PrintIsNormal(t);
    WrittenIsRead(before, written, after, Print(t));
    PrintParses(t);
    ParsedIsMeant(t);
  }
}
