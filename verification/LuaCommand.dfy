/** Nested command arguments: `to_lua_value` and a reader for Lua table constructors. */
module LuaCommand {
  import opened Basics
  import opened LuaFloat
  import opened LuaLiteral

  // ----- Writing -----

  /** Python values a command can carry; a dictionary lists its entries in the order of their keys. */
  datatype Value =
    | NoneValue
    | Bool(b: bool)
    | Int(i: int)
    | Str(s: string)
    | List(items: seq<Value>)
    | Dict(entries: seq<Pair>)

  datatype Pair = Pair(key: string, value: Value)

  function Decimal(n: nat): string {
    (if n < 10 then "" else Decimal(n / 10)) + [(n % 10 + '0' as int) as char]
  }

  function IntText(i: int): string {
    if i < 0 then "-" + Decimal(-i) else Decimal(i)
  }

  predicate IsAscii(c: char) {
    c as int < 128
  }

  predicate IsLetter(c: char) {
    'a' <= c <= 'z' || 'A' <= c <= 'Z' || c == '_'
  }

  predicate IsNameChar(c: char) {
    IsLetter(c) || IsDigit(c)
  }

  /** A Lua name, reserved words included. */
  predicate IsName(s: string) {
    s != "" && !IsDigit(s[0]) && forall i :: 0 <= i < |s| ==> IsNameChar(s[i])
  }

  /** `str.isidentifier`; `wide` decides which strings with characters beyond ASCII are identifiers. */
  predicate IsIdentifier(k: string, wide: string -> bool) {
    && k != "" && !IsDigit(k[0])
    && (forall i :: 0 <= i < |k| ==> IsNameChar(k[i]) || !IsAscii(k[i]))
    && (IsName(k) || wide(k))
  }

  function JoinComma(pieces: seq<string>): string {
    if pieces == [] then ""
    else if |pieces| == 1 then pieces[0]
    else pieces[0] + ", " + JoinComma(pieces[1..])
  }

  function ToLua(v: Value, wide: string -> bool): string
    decreases v
  {
    match v
    case NoneValue => "nil"
    case Bool(b) => if b then "true" else "false"
    case Int(i) => IntText(i)
    case Str(s) => ToLuaString(s)
    case List(items) => "{" + JoinComma(ItemTexts(items, wide)) + "}"
    case Dict(entries) => "{ " + JoinComma(EntryTexts(entries, wide)) + " }"
  }

  function ItemTexts(items: seq<Value>, wide: string -> bool): (texts: seq<string>)
    ensures |texts| == |items|
    decreases items
  {
    if items == [] then [] else [ToLua(items[0], wide)] + ItemTexts(items[1..], wide)
  }

  function KeyText(k: string, wide: string -> bool): string {
    if IsIdentifier(k, wide) then k else "[" + ToLuaString(k) + "]"
  }

  function EntryTexts(entries: seq<Pair>, wide: string -> bool): (texts: seq<string>)
    ensures |texts| == |entries|
    decreases entries
  {
    if entries == [] then []
    else [KeyText(entries[0].key, wide) + (" = " + ToLua(entries[0].value, wide))] + EntryTexts(entries[1..], wide)
  }

  // ----- Reading (Lua 5.4 reference manual, sections 3.1 and 3.4.9) -----

  /** What the source denotes before the table is built; an oversized numeral is a float. */
  datatype Tree =
    | LNil
    | LBool(b: bool)
    | LInt(i: int)
    | LFloat(value: Float)
    | LStr(s: string)
    | LTable(fields: seq<Field>)

  datatype Field = Positional(value: Tree) | Keyed(key: string, value: Tree)

  const LITERAL_WORDS: seq<string> := ["nil", "true", "false"]

  const OTHER_KEYWORDS: seq<string> := [
    "and", "break", "do", "else", "elseif", "end", "for", "function", "goto", "if", "in", "local", "not", "or",
    "repeat", "return", "then", "until", "while"]

  predicate Among(s: string, words: seq<string>) {
    words != [] && (s == words[0] || Among(s, words[1..]))
  }

  predicate IsReserved(s: string) {
    Among(s, LITERAL_WORDS) || Among(s, OTHER_KEYWORDS)
  }

  lemma {:induction false} AmongAt(words: seq<string>, i: nat)
    requires i < |words|
    ensures Among(words[i], words)
  {
    if i == 0 {
    } else {
      AmongAt(words[1..], i - 1);
    }
  }

  lemma SomeReserved(s: string)
    requires s == "nil" || s == "true" || s == "false"
    ensures IsReserved(s)
  {
    AmongAt(LITERAL_WORDS, if s == "nil" then 0 else if s == "true" then 1 else 2);
  }

  const MAX_INTEGER := 0x7FFF_FFFF_FFFF_FFFF

  function DigitRun(s: string): (n: nat)
    ensures n <= |s| && forall i :: 0 <= i < n ==> IsDigit(s[i])
  {
    if s != "" && IsDigit(s[0]) then 1 + DigitRun(s[1..]) else 0
  }

  function NameRun(s: string): (n: nat)
    ensures n <= |s| && forall i :: 0 <= i < n ==> IsNameChar(s[i])
  {
    if s != "" && IsNameChar(s[0]) then 1 + NameRun(s[1..]) else 0
  }

  function DigitsValue(s: string): nat
    requires forall i :: 0 <= i < |s| ==> IsDigit(s[i])
  {
    if s == "" then 0 else DigitsValue(s[..|s| - 1]) * 10 + Digit(s[|s| - 1])
  }

  /** Nothing that would continue a name or a numeral. */
  predicate EndsToken(rest: string) {
    rest == "" || !(IsNameChar(rest[0]) || rest[0] == '.' || !IsAscii(rest[0]))
  }

  /** A decimal integer numeral. */
  function ReadNumeral(s: string): (r: Option<Read<Tree>>)
    ensures r.Some? ==> |r.value.rest| < |s|
  {
    var n := DigitRun(s);
    if n == 0 || (n < |s| && (IsLetter(s[n]) || s[n] == '.')) then None
    else
      var v := DigitsValue(s[..n]);
      Some(Read(if v <= MAX_INTEGER then LInt(v) else LFloat(Nearest(v)), s[n..]))
  }

  function Negate(t: Tree): Tree {
    match t
    case LInt(i) => LInt(-i)
    case LFloat(value) => LFloat(Opposite(value))
    case _ => t
  }

  function ReadWord(s: string): (r: Option<Read<Tree>>)
    ensures r.Some? ==> |r.value.rest| < |s|
  {
    var n := NameRun(s);
    if s[..n] == "nil" then Some(Read(LNil, s[n..]))
    else if s[..n] == "true" then Some(Read(LBool(true), s[n..]))
    else if s[..n] == "false" then Some(Read(LBool(false), s[n..]))
    else None
  }

  function ReadValue(text: string): (r: Option<Read<Tree>>)
    ensures r.Some? ==> |r.value.rest| < |text|
    decreases |text|, 0
  {
    var s := SkipSpace(text);
    if s == "" then None
    else if s[0] == '"' then
      match ReadString(s[1..])
      case Some(str) => Some(Read(LStr(str.value), str.rest))
      case None => None
    else if s[0] == '{' then
      match ReadFields(s[1..])
      case Some(fields) => Some(Read(LTable(fields.value), fields.rest))
      case None => None
    else if s[0] == '-' then
      match ReadNumeral(s[1..])
      case Some(n) => Some(Read(Negate(n.value), n.rest))
      case None => None
    else if IsDigit(s[0]) then ReadNumeral(s)
    else ReadWord(s)
  }

  predicate StartsWith(s: string, c: char) {
    s != "" && s[0] == c
  }

  /** One field: `[key] = value`, `name = value` or a value; `s` has no leading space. */
  function ReadField(s: string): (r: Option<Read<Field>>)
    ensures r.Some? ==> |r.value.rest| < |s|
    decreases |s|, 1
  {
    if StartsWith(s, '[') then
      match ReadValue(s[1..])
      case None => None
      case Some(k) =>
        var close := SkipSpace(k.rest);
        if !k.value.LStr? || !StartsWith(close, ']') then None
        else ReadKeyed(k.value.s, SkipSpace(close[1..]))
    else
      var n := NameRun(s);
      var after := SkipSpace(s[n..]);
      if n > 0 && IsName(s[..n]) && !IsReserved(s[..n]) && StartsWith(after, '=') && !StartsWith(after[1..], '=')
      then ReadKeyed(s[..n], after)
      else
        match ReadValue(s)
        case Some(v) => Some(Read(Positional(v.value), v.rest))
        case None => None
  }

  /** `= value` after a key. */
  function ReadKeyed(key: string, s: string): (r: Option<Read<Field>>)
    ensures r.Some? ==> |r.value.rest| < |s|
    decreases |s|, 0
  {
    if !StartsWith(s, '=') then None
    else
      match ReadValue(s[1..])
      case Some(v) => Some(Read(Keyed(key, v.value), v.rest))
      case None => None
  }

  /** The fields of a table up to and including its closing brace. */
  function ReadFields(text: string): (r: Option<Read<seq<Field>>>)
    ensures r.Some? ==> |r.value.rest| < |text|
    decreases |text|, 2
  {
    var s := SkipSpace(text);
    if StartsWith(s, '}') then Some(Read([], s[1..]))
    else
      match ReadField(s)
      case None => None
      case Some(f) =>
        var after := SkipSpace(f.rest);
        if StartsWith(after, '}') then Some(Read([f.value], after[1..]))
        else if StartsWith(after, ',') || StartsWith(after, ';') then
          match ReadFields(after[1..])
          case Some(more) => Some(Read([f.value] + more.value, more.rest))
          case None => None
        else None
  }

  // ----- What should come back -----

  /** An integer beyond the symmetric 64-bit range, -2^63 included, arrives as the nearest float. */
  function IntTree(i: int): Tree {
    if -MAX_INTEGER <= i <= MAX_INTEGER then LInt(i)
    else if i > 0 then LFloat(Nearest(i))
    else LFloat(Opposite(Nearest(-i)))
  }

  function TreeOf(v: Value): Tree
    decreases v
  {
    match v
    case NoneValue => LNil
    case Bool(b) => LBool(b)
    case Int(i) => IntTree(i)
    case Str(s) => LStr(s)
    case List(items) => LTable(ItemFields(items))
    case Dict(entries) => LTable(EntryFields(entries))
  }

  function ItemFields(items: seq<Value>): seq<Field>
    decreases items
  {
    if items == [] then [] else [Positional(TreeOf(items[0]))] + ItemFields(items[1..])
  }

  function EntryFields(entries: seq<Pair>): seq<Field>
    decreases entries
  {
    if entries == [] then [] else [Keyed(entries[0].key, TreeOf(entries[0].value))] + EntryFields(entries[1..])
  }

  /** A key that is written bare must be a Lua name and no reserved word. */
  predicate KeyReadable(k: string, wide: string -> bool) {
    IsIdentifier(k, wide) ==> IsName(k) && !IsReserved(k)
  }

  predicate Readable(v: Value, wide: string -> bool)
    decreases v
  {
    match v
    case List(items) => ItemsReadable(items, wide)
    case Dict(entries) => EntriesReadable(entries, wide)
    case _ => true
  }

  predicate ItemsReadable(items: seq<Value>, wide: string -> bool)
    decreases items
  {
    items == [] || (Readable(items[0], wide) && ItemsReadable(items[1..], wide))
  }

  predicate EntriesReadable(entries: seq<Pair>, wide: string -> bool)
    decreases entries
  {
    entries == []
    || (KeyReadable(entries[0].key, wide) && Readable(entries[0].value, wide) && EntriesReadable(entries[1..], wide))
  }

  function Expect<T>(ok: bool, value: T, rest: string): Option<Read<T>> {
    if ok then Some(Read(value, rest)) else None
  }

  // ----- Tokens come back -----

  lemma {:induction false} NameRunStops(name: string, rest: string)
    requires forall i :: 0 <= i < |name| ==> IsNameChar(name[i])
    requires rest == "" || !IsNameChar(rest[0])
    ensures NameRun(name + rest) == |name|
  {
    if name == "" {
      assert name + rest == rest;
    } else {
      assert (name + rest)[1..] == name[1..] + rest;
      NameRunStops(name[1..], rest);
    }
  }

  lemma {:induction false} DigitRunStops(digits: string, rest: string)
    requires forall i :: 0 <= i < |digits| ==> IsDigit(digits[i])
    requires rest == "" || !IsDigit(rest[0])
    ensures DigitRun(digits + rest) == |digits|
  {
    if digits == "" {
      assert digits + rest == rest;
    } else {
      assert (digits + rest)[1..] == digits[1..] + rest;
      DigitRunStops(digits[1..], rest);
    }
  }

  lemma {:induction false} DecimalValue(n: nat)
    ensures Decimal(n) != "" && forall i :: 0 <= i < |Decimal(n)| ==> IsDigit(Decimal(n)[i])
    ensures DigitsValue(Decimal(n)) == n
  {
    var front := if n < 10 then "" else Decimal(n / 10);
    if n < 10 {
    } else {
      DecimalValue(n / 10);
    }
    assert Decimal(n)[..|Decimal(n)| - 1] == front;
  }

  lemma NumeralComesBack(n: nat, rest: string)
    requires EndsToken(rest)
    ensures ReadNumeral(Decimal(n) + rest)
         == Some(Read(if n <= MAX_INTEGER then LInt(n) else LFloat(Nearest(n)), rest))
  {
    DecimalValue(n);
    DigitRunStops(Decimal(n), rest);
    Cut(Decimal(n), rest);
  }

  function Negated(r: Option<Read<Tree>>): Option<Read<Tree>> {
    match r
    case Some(n) => Some(Read(Negate(n.value), n.rest))
    case None => None
  }

  lemma NumeralByFirst(s: string)
    requires s != "" && (IsDigit(s[0]) || s[0] == '-')
    ensures IsDigit(s[0]) ==> ReadValue(s) == ReadNumeral(s)
    ensures s[0] == '-' ==> ReadValue(s) == Negated(ReadNumeral(s[1..]))
  {
  }

  lemma IntStart(i: int, rest: string)
    ensures IntText(i) != "" && (IsDigit((IntText(i) + rest)[0]) <==> i >= 0)
    ensures i < 0 ==> (IntText(i) + rest)[0] == '-' && (IntText(i) + rest)[1..] == Decimal(-i) + rest
  {
    DecimalValue(if i < 0 then -i else i);
    if i < 0 {
      Cat3("-", Decimal(-i), rest);
      Cut("-", Decimal(-i) + rest);
    }
  }

  /** Every integer reads back; one too large for a Lua integer reads back as the nearest float. */
  lemma IntComesBack(i: int, rest: string)
    requires EndsToken(rest)
    ensures ReadValue(IntText(i) + rest) == Some(Read(IntTree(i), rest))
  {
    IntStart(i, rest);
    NumeralByFirst(IntText(i) + rest);
    NumeralComesBack(if i < 0 then -i else i, rest);
  }

  predicate IsLiteralWord(word: string) {
    word == "nil" || word == "true" || word == "false"
  }

  lemma WordComesBack(word: string, rest: string)
    requires EndsToken(rest) && IsLiteralWord(word)
    ensures NameRun(word + rest) == |word| && (word + rest)[..|word|] == word
    ensures ReadValue(word + rest)
         == Some(Read(if word == "nil" then LNil else LBool(word == "true"), rest))
  {
    NameRunStops(word, rest);
    Cut(word, rest);
  }

  lemma StrComesBack(s: string, rest: string)
    ensures ReadValue(ToLuaString(s) + rest) == Some(Read(LStr(s), rest))
  {
    StringComesBack(s, rest);
  }

  lemma SpaceBefore(text: string)
    ensures ReadValue(" " + text) == ReadValue(text)
    ensures ReadFields(" " + text) == ReadFields(text)
  {
    Cut(" ", text);
  }

  // ----- Fields -----

  predicate Front(s: string) {
    s != "" && !IsSpace(s[0]) && s[0] != '}'
  }

  lemma FieldsLast(front: string, field: Field, close: string, rest: string)
    requires Front(front) && SkipSpace(close) == "}" + rest
    requires ReadField(front + close) == Some(Read(field, close))
    ensures ReadFields(front + close) == Some(Read([field], rest))
  {
    Cut("}", rest);
  }

  lemma FieldsMore(front: string, field: Field, tail: string, more: Option<Read<seq<Field>>>)
    requires Front(front) && ReadField(front + (", " + tail)) == Some(Read(field, ", " + tail))
    requires ReadFields(tail) == more
    ensures ReadFields(front + (", " + tail))
         == match more case Some(m) => Some(Read([field] + m.value, m.rest)) case None => None
  {
    SpaceBefore(tail);
    assert (", " + tail)[1..] == " " + tail;
  }

  lemma FieldsFail(front: string, after: string)
    requires Front(front) && ReadField(front + after) == None
    ensures ReadFields(front + after) == None
  {
  }

  function AsItem(r: Option<Read<Tree>>): Option<Read<Field>> {
    match r
    case Some(v) => Some(Read(Positional(v.value), v.rest))
    case None => None
  }

  lemma UnnamedField(s: string)
    requires s != "" && s[0] != '[' && (IsDigit(s[0]) || !IsNameChar(s[0]))
    ensures ReadField(s) == AsItem(ReadValue(s))
  {
    if IsDigit(s[0]) && NameRun(s) > 0 {
      assert s[..NameRun(s)][0] == s[0];
    }
  }

  lemma WordField(word: string, rest: string)
    requires EndsToken(rest) && IsLiteralWord(word)
    ensures ReadField(word + rest) == AsItem(ReadValue(word + rest))
  {
    WordComesBack(word, rest);
    SomeReserved(word);
  }

  /** A list item is read as a value. */
  lemma ItemIsValue(v: Value, wide: string -> bool, rest: string)
    requires EndsToken(rest)
    ensures Front(ToLua(v, wide))
    ensures ReadField(ToLua(v, wide) + rest) == AsItem(ReadValue(ToLua(v, wide) + rest))
  {
    match v
    case NoneValue => WordField("nil", rest);
    case Bool(b) => WordField(ToLua(v, wide), rest);
    case Int(i) =>
      IntStart(i, rest);
      UnnamedField(IntText(i) + rest);
    case _ => UnnamedField(ToLua(v, wide) + rest);
  }

  function AsEntry(key: string, r: Option<Read<Tree>>): Option<Read<Field>> {
    match r
    case Some(v) => Some(Read(Keyed(key, v.value), v.rest))
    case None => None
  }

  lemma EqualsValue(key: string, x: string)
    ensures SkipSpace(" = " + x) == "= " + x
    ensures ReadKeyed(key, "= " + x) == AsEntry(key, ReadValue(x))
  {
    assert (" = " + x)[1..] == "= " + x;
    assert ("= " + x)[1..] == " " + x;
    SpaceBefore(x);
  }

  lemma NamedField(k: string, x: string)
    requires IsName(k) && !IsReserved(k)
    ensures ReadField(k + (" = " + x)) == AsEntry(k, ReadValue(x))
  {
    var s := k + (" = " + x);
    NameRunStops(k, " = " + x);
    Cut(k, " = " + x);
    EqualsValue(k, x);
  }

  lemma BracketedField(k: string, x: string)
    ensures ReadField("[" + ToLuaString(k) + "]" + (" = " + x)) == AsEntry(k, ReadValue(x))
  {
    var after := "]" + (" = " + x);
    Cat4("[", ToLuaString(k), "]", " = " + x);
    Cat3(ToLuaString(k), "]", " = " + x);
    Cut("[", ToLuaString(k) + after);
    StrComesBack(k, after);
    Cut("]", " = " + x);
    EqualsValue(k, x);
  }

  /** A readable key and its value are one field. */
  lemma KeyComesBack(k: string, wide: string -> bool, x: string)
    requires KeyReadable(k, wide)
    ensures Front(KeyText(k, wide)) && ReadField(KeyText(k, wide) + (" = " + x)) == AsEntry(k, ReadValue(x))
  {
    if IsIdentifier(k, wide) {
      NamedField(k, x);
    } else {
      BracketedField(k, x);
    }
  }

  lemma {:induction false} NameRunMaximal(s: string)
    ensures NameRun(s) < |s| ==> !IsNameChar(s[NameRun(s)])
    ensures NameRun(s) == |s| <==> forall i :: 0 <= i < |s| ==> IsNameChar(s[i])
  {
    if s != "" && IsNameChar(s[0]) {
      NameRunMaximal(s[1..]);
    } else {
    }
  }

  /** A word read as a value and then followed by something that is no separator ends the table badly. */
  lemma StrayWord(s: string)
    requires s != "" && !IsSpace(s[0]) && s[0] !in {'"', '{', '}', '[', '-'} && !IsDigit(s[0])
    requires var after := SkipSpace(s[NameRun(s)..]);
      after != "" && after[0] !in {'}', ',', ';'} && ReadField(s) == AsItem(ReadValue(s))
    ensures ReadFields(s) == None
  {
    assert ReadValue(s) == ReadWord(s);
  }

  lemma ReservedKey(k: string, x: string)
    requires IsName(k) && IsReserved(k)
    ensures ReadFields(k + (" = " + x)) == None
  {
    EqualsValue(k, x);
    NameRunStops(k, " = " + x);
    Cut(k, " = " + x);
    StrayWord(k + (" = " + x));
  }

  lemma WideKey(k: string, wide: string -> bool, x: string)
    requires IsIdentifier(k, wide) && !IsName(k)
    ensures ReadFields(k + (" = " + x)) == None
  {
    var n := NameRun(k);
    NameRunMaximal(k);
    assert k[..n] + k[n..] == k;
    Cat3(k[..n], k[n..], " = " + x);
    NameRunStops(k[..n], k[n..] + (" = " + x));
    Cut(k[..n], k[n..] + (" = " + x));
    StrayWord(k + (" = " + x));
  }

  /** An unreadable key makes the whole table unreadable. */
  lemma BadKey(k: string, wide: string -> bool, x: string)
    requires !KeyReadable(k, wide)
    ensures ReadFields(KeyText(k, wide) + (" = " + x)) == None
  {
    if IsName(k) {
      ReservedKey(k, x);
    } else {
      WideKey(k, wide, x);
    }
  }

  // ----- Whole values -----

  lemma JoinFirst(p: string, more: seq<string>, rest: string)
    requires more != []
    ensures JoinComma([p] + more) + rest == p + (", " + (JoinComma(more) + rest))
  {
    assert ([p] + more)[1..] == more;
    Cat4(p, ", ", JoinComma(more), rest);
    Cat3(", ", JoinComma(more), rest);
  }

  function AsTable(r: Option<Read<seq<Field>>>): Option<Read<Tree>> {
    match r
    case Some(fields) => Some(Read(LTable(fields.value), fields.rest))
    case None => None
  }

  lemma TableReads(joined: string, rest: string)
    ensures ReadValue("{" + joined + "}" + rest) == AsTable(ReadFields(joined + ("}" + rest)))
    ensures ReadValue("{ " + joined + " }" + rest) == AsTable(ReadFields(joined + (" }" + rest)))
  {
    Cat4("{", joined, "}", rest);
    Cat3(joined, "}", rest);
    Cut("{", joined + ("}" + rest));
    Cat4("{ ", joined, " }", rest);
    Cat3(joined, " }", rest);
    assert ("{ " + (joined + (" }" + rest)))[1..] == " " + (joined + (" }" + rest));
    SpaceBefore(joined + (" }" + rest));
  }

  /**
   * What the program writes reads back as the same value exactly when every bare key is a Lua name and no
   * reserved word; otherwise it does not read at all.
   */
  lemma {:induction false} ValueComesBack(v: Value, wide: string -> bool, rest: string)
    requires EndsToken(rest)
    ensures ReadValue(ToLua(v, wide) + rest) == Expect(Readable(v, wide), TreeOf(v), rest)
    decreases v, 1
  {
    match v
    case NoneValue => WordComesBack("nil", rest);
    case Bool(b) => WordComesBack(ToLua(v, wide), rest);
    case Int(i) => IntComesBack(i, rest);
    case Str(s) => StrComesBack(s, rest);
    case List(items) =>
      ItemsComeBack(items, wide, rest);
      TableReads(JoinComma(ItemTexts(items, wide)), rest);
    case Dict(entries) =>
      EntriesComeBack(entries, wide, rest);
      TableReads(JoinComma(EntryTexts(entries, wide)), rest);
  }

  /** One item in front of `next`. */
  lemma ItemComesBack(v: Value, wide: string -> bool, next: string) returns (front: string)
    requires EndsToken(next) && ReadValue(ToLua(v, wide) + next) == Expect(Readable(v, wide), TreeOf(v), next)
    ensures front == ToLua(v, wide)
    ensures Readable(v, wide) ==> Front(front) && ReadField(front + next) == Some(Read(Positional(TreeOf(v)), next))
    ensures !Readable(v, wide) ==> ReadFields(front + next) == None
  {
    front := ToLua(v, wide);
    ItemIsValue(v, wide, next);
    if !Readable(v, wide) {
      FieldsFail(front, next);
    }
  }

  lemma ItemTextsFirst(items: seq<Value>, wide: string -> bool, close: string)
    requires items != []
    ensures JoinComma(ItemTexts(items, wide)) + close
         == ToLua(items[0], wide)
            + if |items| == 1 then close else ", " + (JoinComma(ItemTexts(items[1..], wide)) + close)
  {
    if |items| > 1 {
      JoinFirst(ToLua(items[0], wide), ItemTexts(items[1..], wide), close);
    }
  }

  lemma {:induction false} ItemsComeBack(items: seq<Value>, wide: string -> bool, rest: string)
    ensures ReadFields(JoinComma(ItemTexts(items, wide)) + ("}" + rest))
         == Expect(ItemsReadable(items, wide), ItemFields(items), rest)
    decreases items, 0
  {
    var close := "}" + rest;
    if items == [] {
      assert JoinComma(ItemTexts(items, wide)) + close == close;
      Cut("}", rest);
    } else {
      var tail := JoinComma(ItemTexts(items[1..], wide)) + close;
      var next := if |items| == 1 then close else ", " + tail;
      ValueComesBack(items[0], wide, next);
      ItemsComeBack(items[1..], wide, rest);
      var front := ItemComesBack(items[0], wide, next);
      var field := Positional(TreeOf(items[0]));
      ItemTextsFirst(items, wide, close);
      if Readable(items[0], wide) {
        if |items| == 1 {
          FieldsLast(front, field, close, rest);
          assert ItemFields(items) == [field];
        } else {
          FieldsMore(front, field, tail, ReadFields(tail));
        }
      }
    }
  }

  /** One entry in front of `next`. */
  lemma EntryComesBack(e: Pair, wide: string -> bool, next: string) returns (front: string)
    requires EndsToken(next)
    requires ReadValue(ToLua(e.value, wide) + next) == Expect(Readable(e.value, wide), TreeOf(e.value), next)
    ensures front == KeyText(e.key, wide) + (" = " + ToLua(e.value, wide))
    ensures KeyReadable(e.key, wide) && Readable(e.value, wide) ==>
      Front(front) && ReadField(front + next) == Some(Read(Keyed(e.key, TreeOf(e.value)), next))
    ensures !(KeyReadable(e.key, wide) && Readable(e.value, wide)) ==> ReadFields(front + next) == None
  {
    var key, value := KeyText(e.key, wide), ToLua(e.value, wide);
    front := key + (" = " + value);
    Cat3(key, " = " + value, next);
    Cat3(" = ", value, next);
    if KeyReadable(e.key, wide) {
      KeyComesBack(e.key, wide, value + next);
      if !Readable(e.value, wide) {
        FieldsFail(front, next);
      }
    } else {
      BadKey(e.key, wide, value + next);
    }
  }

  lemma EntryTextsFirst(entries: seq<Pair>, wide: string -> bool, close: string)
    requires entries != []
    ensures JoinComma(EntryTexts(entries, wide)) + close
         == (KeyText(entries[0].key, wide) + (" = " + ToLua(entries[0].value, wide)))
            + if |entries| == 1 then close else ", " + (JoinComma(EntryTexts(entries[1..], wide)) + close)
  {
    if |entries| > 1 {
      JoinFirst(KeyText(entries[0].key, wide) + (" = " + ToLua(entries[0].value, wide)),
                EntryTexts(entries[1..], wide), close);
    }
  }

  lemma NoEntries(wide: string -> bool, rest: string)
    ensures ReadFields(JoinComma(EntryTexts([], wide)) + (" }" + rest)) == Some(Read([], rest))
  {
    SpaceBefore("}" + rest);
    assert JoinComma(EntryTexts([], wide)) + (" }" + rest) == " " + ("}" + rest);
    Cut("}", rest);
  }

  lemma LastEntry(e: Pair, wide: string -> bool, rest: string)
    requires ReadValue(ToLua(e.value, wide) + (" }" + rest))
          == Expect(Readable(e.value, wide), TreeOf(e.value), " }" + rest)
    ensures ReadFields(KeyText(e.key, wide) + (" = " + ToLua(e.value, wide)) + (" }" + rest))
         == Expect(KeyReadable(e.key, wide) && Readable(e.value, wide), [Keyed(e.key, TreeOf(e.value))], rest)
  {
    var close := " }" + rest;
    assert close[1..] == "}" + rest;
    var front := EntryComesBack(e, wide, close);
    if KeyReadable(e.key, wide) && Readable(e.value, wide) {
      FieldsLast(front, Keyed(e.key, TreeOf(e.value)), close, rest);
    }
  }

  lemma MoreEntries(e: Pair, wide: string -> bool, tail: string, ok: bool, more: seq<Field>, rest: string)
    requires ReadValue(ToLua(e.value, wide) + (", " + tail))
          == Expect(Readable(e.value, wide), TreeOf(e.value), ", " + tail)
    requires ReadFields(tail) == Expect(ok, more, rest)
    ensures ReadFields(KeyText(e.key, wide) + (" = " + ToLua(e.value, wide)) + (", " + tail))
         == Expect(KeyReadable(e.key, wide) && Readable(e.value, wide) && ok,
                   [Keyed(e.key, TreeOf(e.value))] + more, rest)
  {
    var front := EntryComesBack(e, wide, ", " + tail);
    if KeyReadable(e.key, wide) && Readable(e.value, wide) {
      FieldsMore(front, Keyed(e.key, TreeOf(e.value)), tail, ReadFields(tail));
    }
  }

  lemma {:induction false} EntriesComeBack(entries: seq<Pair>, wide: string -> bool, rest: string)
    ensures ReadFields(JoinComma(EntryTexts(entries, wide)) + (" }" + rest))
         == Expect(EntriesReadable(entries, wide), EntryFields(entries), rest)
    decreases entries, 0
  {
    if entries == [] {
      NoEntries(wide, rest);
    } else {
      var close, e := " }" + rest, entries[0];
      EntryTextsFirst(entries, wide, close);
      if |entries| == 1 {
        ValueComesBack(e.value, wide, close);
        LastEntry(e, wide, rest);
        assert EntryFields(entries) == [Keyed(e.key, TreeOf(e.value))];
      } else {
        var tail := JoinComma(EntryTexts(entries[1..], wide)) + close;
        ValueComesBack(e.value, wide, ", " + tail);
        EntriesComeBack(entries[1..], wide, rest);
        MoreEntries(e, wide, tail, EntriesReadable(entries[1..], wide), EntryFields(entries[1..]), rest);
      }
    }
  }

  /** A reserved word as a key, which Python calls an identifier, makes the command unreadable. */
  lemma ReservedKeyIsUnreadable(k: string, v: Value, wide: string -> bool)
    requires IsName(k) && IsReserved(k)
    ensures ReadValue(ToLua(Dict([Pair(k, v)]), wide)) == None
  {
    var d := Dict([Pair(k, v)]);
    assert d.entries[0] == Pair(k, v);
    assert !KeyReadable(k, wide) && !Readable(d, wide);
    ValueComesBack(d, wide, "");
    assert ToLua(d, wide) + "" == ToLua(d, wide);
  }
}
