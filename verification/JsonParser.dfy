/** A strict parser for RFC 8259 texts, and the proof that it inverts the encoder. */
module JsonParser {
  import opened Basics
  import opened Utf8
  import opened JsonText
  import opened LuaTables

  datatype Parsed<T> = Parsed(value: T, rest: Bytes)

  predicate IsSpace(b: Byte) {
    b == 32 || b == 9 || b == 10 || b == 13
  }

  function SkipSpace(s: Bytes): (r: Bytes)
    ensures |r| <= |s|
  {
    if s != [] && IsSpace(s[0]) then SkipSpace(s[1..]) else s
  }

  // ----- Strings (section 7) -----

  function HexValue(b: Byte): Option<nat> {
    if 48 <= b <= 57 then Some(b as int - 48)
    else if 97 <= b <= 102 then Some(b as int - 87)
    else if 65 <= b <= 70 then Some(b as int - 55)
    else None
  }

  /** Four hexadecimal digits at the front. */
  function HexUnit(s: Bytes): (u: Option<nat>)
    ensures u.Some? ==> |s| >= 4 && u.value < 0x1_0000
  {
    if |s| < 4 then None
    else
      match (HexValue(s[0]), HexValue(s[1]), HexValue(s[2]), HexValue(s[3]))
      case (Some(a), Some(b), Some(c), Some(d)) =>
        if a < 16 && b < 16 && c < 16 && d < 16 then Some(a * 4096 + b * 256 + c * 16 + d) else None
      case _ => None
  }

  /** The character of a `\u` escape whose digits start `s`, surrogate pairs included. */
  function UnicodeEscape(s: Bytes): (p: Option<Parsed<Bytes>>)
    ensures p.Some? ==> |p.value.rest| < |s|
  {
    match HexUnit(s)
    case None => None
    case Some(u) =>
      if !(0xD800 <= u <= 0xDFFF) then Some(Parsed(EncodeScalar(u), s[4..]))
      else if u < 0xDC00 && |s| >= 6 && s[4] == 92 && s[5] == 117 then
        match HexUnit(s[6..])
        case Some(l) =>
          if 0xDC00 <= l <= 0xDFFF
          then Some(Parsed(EncodeScalar(0x1_0000 + (u - 0xD800) * 1024 + (l - 0xDC00)), s[10..]))
          else None
        case None => None
      else None
  }

  /** The character of an escape whose letter starts `s`. */
  function EscapeSequence(s: Bytes): (p: Option<Parsed<Bytes>>)
    ensures p.Some? ==> |p.value.rest| < |s|
  {
    if s == [] then None
    else if s[0] == 34 || s[0] == 92 || s[0] == 47 then Some(Parsed([s[0]], s[1..]))
    else if s[0] == 98 then Some(Parsed([8], s[1..]))
    else if s[0] == 102 then Some(Parsed([12], s[1..]))
    else if s[0] == 110 then Some(Parsed([10], s[1..]))
    else if s[0] == 114 then Some(Parsed([13], s[1..]))
    else if s[0] == 116 then Some(Parsed([9], s[1..]))
    else if s[0] == 117 then UnicodeEscape(s[1..])
    else None
  }

  /** One character of a string: an escape, or an unescaped UTF-8 character. */
  function Character(s: Bytes): (p: Option<Parsed<Bytes>>)
    requires s != []
    ensures p.Some? ==> |p.value.rest| < |s|
  {
    if s[0] < 32 then None
    else if s[0] == 92 then EscapeSequence(s[1..])
    else if 0 < FrontLength(s) <= |s| then Some(Parsed(s[..FrontLength(s)], s[FrontLength(s)..]))
    else None
  }

  /** The rest of a string after its opening quote. */
  function ParseString(s: Bytes): (p: Option<Parsed<Bytes>>)
    ensures p.Some? ==> |p.value.rest| < |s|
    decreases |s|
  {
    if s == [] then None
    else if s[0] == 34 then Some(Parsed([], s[1..]))
    else
      match Character(s)
      case None => None
      case Some(c) =>
        match ParseString(c.rest)
        case None => None
        case Some(more) => Some(Parsed(c.value + more.value, more.rest))
  }

  // ----- Values (sections 3 to 6) -----

  predicate StartsWith(s: Bytes, word: Bytes) {
    |word| <= |s| && s[..|word|] == word
  }

  function ParseScalar(s: Bytes): (p: Option<Parsed<Json>>)
    requires s != []
    ensures p.Some? ==> |p.value.rest| < |s|
  {
    if StartsWith(s, [110, 117, 108, 108]) then Some(Parsed(Null, s[4..]))
    else if StartsWith(s, [116, 114, 117, 101]) then Some(Parsed(Bool(true), s[4..]))
    else if StartsWith(s, [102, 97, 108, 115, 101]) then Some(Parsed(Bool(false), s[5..]))
    else if 0 < ScanNumber(s) <= |s| then Some(Parsed(Number(s[..ScanNumber(s)]), s[ScanNumber(s)..]))
    else None
  }

  function ParseValue(text: Bytes): (p: Option<Parsed<Json>>)
    ensures p.Some? ==> |p.value.rest| < |text|
    decreases |text|, 0
  {
    var s := SkipSpace(text);
    if s == [] then None
    else if s[0] == 34 then
      match ParseString(s[1..])
      case Some(str) => Some(Parsed(Text(str.value), str.rest))
      case None => None
    else if s[0] == 91 then
      var inner := SkipSpace(s[1..]);
      if inner != [] && inner[0] == 93 then Some(Parsed(Arr([]), inner[1..]))
      else
        match ParseItems(inner)
        case Some(items) => Some(Parsed(Arr(items.value), items.rest))
        case None => None
    else if s[0] == 123 then
      var inner := SkipSpace(s[1..]);
      if inner != [] && inner[0] == 125 then Some(Parsed(Obj([]), inner[1..]))
      else
        match ParseMembers(inner)
        case Some(members) => Some(Parsed(Obj(members.value), members.rest))
        case None => None
    else ParseScalar(s)
  }

  /** One or more items up to and including the closing bracket. */
  function ParseItems(s: Bytes): (p: Option<Parsed<seq<Json>>>)
    ensures p.Some? ==> |p.value.rest| < |s|
    decreases |s|, 1
  {
    match ParseValue(s)
    case None => None
    case Some(first) =>
      var after := SkipSpace(first.rest);
      if after == [] then None
      else if after[0] == 93 then Some(Parsed([first.value], after[1..]))
      else if after[0] == 44 then
        match ParseItems(after[1..])
        case Some(more) => Some(Parsed([first.value] + more.value, more.rest))
        case None => None
      else None
  }

  /** A quoted name, a colon and a value. */
  function ParseMember(text: Bytes): (p: Option<Parsed<Member>>)
    ensures p.Some? ==> |p.value.rest| < |text|
    decreases |text|, 1
  {
    var s := SkipSpace(text);
    if s == [] || s[0] != 34 then None
    else
      match ParseString(s[1..])
      case None => None
      case Some(key) =>
        var after := SkipSpace(key.rest);
        if after == [] || after[0] != 58 then None
        else
          match ParseValue(after[1..])
          case Some(value) => Some(Parsed(Member(key.value, value.value), value.rest))
          case None => None
  }

  /** One or more members up to and including the closing brace. */
  function ParseMembers(s: Bytes): (p: Option<Parsed<seq<Member>>>)
    ensures p.Some? ==> |p.value.rest| < |s|
    decreases |s|, 2
  {
    match ParseMember(s)
    case None => None
    case Some(first) =>
      var after := SkipSpace(first.rest);
      if after == [] then None
      else if after[0] == 125 then Some(Parsed([first.value], after[1..]))
      else if after[0] == 44 then
        match ParseMembers(after[1..])
        case Some(more) => Some(Parsed([first.value] + more.value, more.rest))
        case None => None
      else None
  }

  /** A whole JSON text. */
  function ParseText(s: Bytes): Option<Json> {
    match ParseValue(s)
    case Some(p) => if SkipSpace(p.rest) == [] then Some(p.value) else None
    case None => None
  }

  // ----- Strings come back -----

  lemma {:induction false} EscapeHigh(a: Bytes, b: Bytes)
    requires forall i :: 0 <= i < |a| ==> a[i] >= 128
    ensures Escape(a + b) == a + Escape(b)
  {
    if a == [] {
      assert a + b == b && a + Escape(b) == Escape(b);
    } else {
      assert (a + b)[1..] == a[1..] + b && [a[0]] + a[1..] == a;
      EscapeHigh(a[1..], b);
      Assoc3([a[0]], a[1..], Escape(b));
    }
  }

  lemma HighScalar(v: Scalar)
    requires v >= 128
    ensures forall i :: 0 <= i < |EncodeScalar(v)| ==> EncodeScalar(v)[i] >= 128
  {
  }

  lemma HexDigitValue(n: nat)
    requires n < 16
    ensures HexValue(HexDigit(n)) == Some(n)
  {
  }

  /** The parser reads an escaped ASCII character back. */
  lemma AsciiComesBack(b: Byte, rest: Bytes)
    requires b < 128
    ensures EscapeByte(b)[0] != 34 && Character(EscapeByte(b) + rest) == Some(Parsed([b], rest))
  {
    var s := EscapeByte(b) + rest;
    if b < 32 && b != 8 && b != 9 && b != 10 && b != 12 && b != 13 {
      HexDigitValue(b / 16);
      HexDigitValue(b % 16);
      assert s[1..][1..] == [48, 48, HexDigit(b / 16), HexDigit(b % 16)] + rest;
      assert HexUnit(s[1..][1..]) == Some(b as nat);
      assert s[1..][1..][4..] == rest;
    } else if |EscapeByte(b)| == 2 {
      assert s[1..][1..] == rest;
    } else {
      assert s[..1] == [b] && s[1..] == rest;
    }
  }

  lemma HighComesBack(v: Scalar, rest: Bytes)
    requires v >= 128
    ensures EncodeScalar(v)[0] >= 128
    ensures Character(EncodeScalar(v) + rest) == Some(Parsed(EncodeScalar(v), rest))
  {
    HighScalar(v);
    ScalarIsFront(v, rest);
    CutAfter(EncodeScalar(v), rest);
  }

  /** Reading a character in front of a string that comes back. */
  lemma CharacterThenString(c: Bytes, front: Bytes, s: Bytes, tail: Bytes, rest: Bytes)
    requires front != [] && front[0] != 34 && Character(front + tail) == Some(Parsed(c, tail))
    requires ParseString(tail) == Some(Parsed(s, rest))
    ensures ParseString(front + tail) == Some(Parsed(c + s, rest))
  {
  }

  /** The text of an escaped string, its closing quote and what follows. */
  function Tail(s: Bytes, rest: Bytes): Bytes {
    Escape(s) + [34] + rest
  }

  lemma TailFront(front: Bytes, escaped: Bytes, s: Bytes, rest: Bytes)
    requires Escape(front + s) == escaped + Escape(s)
    ensures Tail(front + s, rest) == escaped + Tail(s, rest)
  {
    Assoc(escaped, Escape(s), [34], rest);
  }

  lemma EscapeFirst(b: Byte, s: Bytes)
    ensures Escape([b] + s) == EscapeByte(b) + Escape(s)
  {
    CutAfter([b], s);
  }

  /** Escaping is undone for every valid string. */
  lemma {:induction false} StringComesBack(vs: seq<Scalar>, rest: Bytes)
    ensures ParseString(Tail(EncodeScalars(vs), rest)) == Some(Parsed(EncodeScalars(vs), rest))
  {
    if vs == [] {
      assert Tail([], rest) == [34] + rest;
      CutAfter([34], rest);
    } else {
      var v, s := vs[0], EncodeScalars(vs[1..]);
      StringComesBack(vs[1..], rest);
      if v < 128 {
        EscapeFirst(v, s);
        TailFront([v], EscapeByte(v), s, rest);
        AsciiComesBack(v, Tail(s, rest));
        CharacterThenString([v], EscapeByte(v), s, Tail(s, rest), rest);
      } else {
        HighScalar(v);
        EscapeHigh(EncodeScalar(v), s);
        TailFront(EncodeScalar(v), EncodeScalar(v), s, rest);
        HighComesBack(v, Tail(s, rest));
        CharacterThenString(EncodeScalar(v), EncodeScalar(v), s, Tail(s, rest), rest);
      }
    }
  }

  lemma QuoteComesBack(s: Bytes, rest: Bytes)
    requires IsUtf8(s)
    ensures (Quote(s) + rest)[0] == 34
    ensures ParseString((Quote(s) + rest)[1..]) == Some(Parsed(s, rest))
  {
    var vs :| EncodeScalars(vs) == s;
    StringComesBack(vs, rest);
    Assoc([34], Escape(s), [34], rest);
    CutAfter([34], Tail(s, rest));
  }

  // ----- Trees come back -----

  /** Trees the bridge can write: every number is one, every string is UTF-8. */
  ghost predicate Writable(t: Json)
    decreases t
  {
    match t
    case Number(text) => IsNumber(text)
    case Text(s) => IsUtf8(s)
    case Arr(items) => forall i :: 0 <= i < |items| ==> Writable(items[i])
    case Obj(members) => forall i :: 0 <= i < |members| ==> IsUtf8(members[i].key) && Writable(members[i].value)
    case _ => true
  }

  lemma NumberStart(text: Bytes)
    requires IsNumber(text)
    ensures text[0] == 45 || IsDigit(text[0])
  {
  }

  /** An encoded tree starts with the character its kind calls for, never with a space. */
  lemma Starts(t: Json, rest: Bytes)
    requires Writable(t)
    ensures Enc(t) != [] && !IsSpace(Enc(t)[0]) && Enc(t)[0] != 93 && Enc(t)[0] != 125
    ensures SkipSpace(Enc(t) + rest) == Enc(t) + rest
  {
    if t.Number? {
      NumberStart(t.text);
    }
  }

  lemma NotAWord(s: Bytes, word: Bytes)
    requires s != [] && word != [] && s[0] != word[0]
    ensures !StartsWith(s, word)
  {
    if |word| <= |s| {
      assert s[..|word|][0] == s[0];
    }
  }

  lemma ScalarByFirst(s: Bytes)
    requires s != [] && !IsSpace(s[0]) && s[0] != 34 && s[0] != 91 && s[0] != 123
    ensures ParseValue(s) == ParseScalar(s)
  {
  }

  lemma NumberComesBack(text: Bytes, rest: Bytes)
    requires IsNumber(text) && EndsNumber(rest)
    ensures ParseValue(text + rest) == Some(Parsed(Number(text), rest))
  {
    var s := text + rest;
    NumberStart(text);
    ScalarByFirst(s);
    NumberStops(text, rest);
    NotAWord(s, [110, 117, 108, 108]);
    NotAWord(s, [116, 114, 117, 101]);
    NotAWord(s, [102, 97, 108, 115, 101]);
    CutAfter(text, rest);
  }

  lemma WordComesBack(t: Json, rest: Bytes)
    requires t.Null? || t.Bool?
    ensures ParseValue(Enc(t) + rest) == Some(Parsed(t, rest))
  {
    var s := Enc(t) + rest;
    ScalarByFirst(s);
    CutAfter(Enc(t), rest);
    if t != Null {
      NotAWord(s, [110, 117, 108, 108]);
    }
    if t != Bool(true) {
      NotAWord(s, [116, 114, 117, 101]);
    }
  }

  lemma StringValueComesBack(str: Bytes, rest: Bytes)
    requires IsUtf8(str)
    ensures ParseValue(Quote(str) + rest) == Some(Parsed(Text(str), rest))
  {
    Starts(Text(str), rest);
    QuoteComesBack(str, rest);
  }

  lemma ArrayComesBack(items: seq<Json>, rest: Bytes)
    requires Writable(Arr(items))
    requires items != [] ==> ParseItems(Join(EncItems(items)) + ([93] + rest)) == Some(Parsed(items, rest))
    ensures ParseValue(Enc(Arr(items)) + rest) == Some(Parsed(Arr(items), rest))
  {
    var joined := Join(EncItems(items));
    Starts(Arr(items), rest);
    Assoc([91], joined, [93], rest);
    Assoc3(joined, [93], rest);
    CutAfter([91], joined + ([93] + rest));
    CutAfter([93], rest);
    if items == [] {
      assert joined + ([93] + rest) == [93] + rest;
    } else {
      ItemsStart(items, [93] + rest);
    }
  }

  lemma ObjectComesBack(members: seq<Member>, rest: Bytes)
    requires members != [] ==> ParseMembers(Join(EncMembers(members)) + ([125] + rest)) == Some(Parsed(members, rest))
    ensures ParseValue(Enc(Obj(members)) + rest) == Some(Parsed(Obj(members), rest))
  {
    var joined := Join(EncMembers(members));
    Assoc([123], joined, [125], rest);
    Assoc3(joined, [125], rest);
    if members == [] {
      assert joined + ([125] + rest) == [125] + rest;
      EmptyObjectComesBack(rest);
    } else {
      MembersStart(members, [125] + rest);
      BracedComesBack(joined + ([125] + rest), members, rest);
    }
  }

  lemma BracedComesBack(inner: Bytes, members: seq<Member>, rest: Bytes)
    requires inner != [] && inner[0] == 34 && SkipSpace(inner) == inner
    requires ParseMembers(inner) == Some(Parsed(members, rest))
    ensures ParseValue([123] + inner) == Some(Parsed(Obj(members), rest))
  {
    CutAfter([123], inner);
  }

  lemma EmptyObjectComesBack(rest: Bytes)
    ensures ParseValue([123] + ([125] + rest)) == Some(Parsed(Obj([]), rest))
  {
    CutAfter([123], [125] + rest);
    CutAfter([125], rest);
  }

  lemma ItemsStart(items: seq<Json>, rest: Bytes)
    requires items != [] && Writable(items[0])
    ensures var s := Join(EncItems(items)) + rest;
      s != [] && s[0] != 93 && SkipSpace(s) == s
  {
    Starts(items[0], []);
  }

  lemma MembersStart(members: seq<Member>, rest: Bytes)
    requires members != []
    ensures var s := Join(EncMembers(members)) + rest;
      s != [] && s[0] == 34 && SkipSpace(s) == s
  {
  }

  lemma JoinFirst(p: Bytes, more: seq<Bytes>, rest: Bytes)
    requires more != []
    ensures Join([p] + more) + rest == p + ([44] + (Join(more) + rest))
  {
    CutOne(p, more);
    Assoc(p, [44], Join(more), rest);
    Assoc3([44], Join(more), rest);
  }

  lemma CutOne(p: Bytes, more: seq<Bytes>)
    ensures ([p] + more)[0] == p && ([p] + more)[1..] == more
  {
  }

  /**
   * The round trip: whatever follows, as long as it cannot extend a number, the parser reads back exactly
   * the tree that was encoded and leaves exactly what followed.
   */
  lemma {:induction false} TreeComesBack(t: Json, rest: Bytes)
    requires Writable(t) && EndsNumber(rest)
    ensures ParseValue(Enc(t) + rest) == Some(Parsed(t, rest))
    decreases t, 1
  {
    match t
    case Number(text) => NumberComesBack(text, rest);
    case Text(s) => StringValueComesBack(s, rest);
    case Arr(items) =>
      if items != [] {
        ItemsComeBack(items, rest);
      }
      ArrayComesBack(items, rest);
    case Obj(members) =>
      if members != [] {
        MembersComeBack(members, rest);
      }
      ObjectComesBack(members, rest);
    case _ => WordComesBack(t, rest);
  }

  lemma LastItem(front: Bytes, item: Json, rest: Bytes)
    requires ParseValue(front + ([93] + rest)) == Some(Parsed(item, [93] + rest))
    ensures ParseItems(front + ([93] + rest)) == Some(Parsed([item], rest))
  {
    CutAfter([93], rest);
  }

  lemma EarlierItem(front: Bytes, item: Json, tail: Bytes, more: seq<Json>, rest: Bytes)
    requires ParseValue(front + ([44] + tail)) == Some(Parsed(item, [44] + tail))
    requires ParseItems(tail) == Some(Parsed(more, rest))
    ensures ParseItems(front + ([44] + tail)) == Some(Parsed([item] + more, rest))
  {
    CutAfter([44], tail);
  }

  lemma {:induction false} ItemsComeBack(items: seq<Json>, rest: Bytes)
    requires items != [] && forall i :: 0 <= i < |items| ==> Writable(items[i])
    ensures ParseItems(Join(EncItems(items)) + ([93] + rest)) == Some(Parsed(items, rest))
    decreases items, 0
  {
    var close := [93] + rest;
    assert [items[0]] + items[1..] == items;
    if |items| == 1 {
      assert [items[0]] == items;
      TreeComesBack(items[0], close);
      LastItem(Enc(items[0]), items[0], rest);
    } else {
      var tail := Join(EncItems(items[1..])) + close;
      JoinFirst(Enc(items[0]), EncItems(items[1..]), close);
      TreeComesBack(items[0], [44] + tail);
      ItemsComeBack(items[1..], rest);
      EarlierItem(Enc(items[0]), items[0], tail, items[1..], rest);
    }
  }

  lemma MemberComesBack(m: Member, rest: Bytes)
    requires IsUtf8(m.key) && ParseValue(Enc(m.value) + rest) == Some(Parsed(m.value, rest))
    ensures ParseMember(EncMember(m) + rest) == Some(Parsed(m, rest))
  {
    var after := [58] + (Enc(m.value) + rest);
    Assoc(Quote(m.key), [58], Enc(m.value), rest);
    Assoc3([58], Enc(m.value), rest);
    QuoteComesBack(m.key, after);
    CutAfter([58], Enc(m.value) + rest);
  }

  lemma LastMember(front: Bytes, m: Member, rest: Bytes)
    requires ParseMember(front + ([125] + rest)) == Some(Parsed(m, [125] + rest))
    ensures ParseMembers(front + ([125] + rest)) == Some(Parsed([m], rest))
  {
    CutAfter([125], rest);
  }

  lemma EarlierMember(front: Bytes, m: Member, tail: Bytes, more: seq<Member>, rest: Bytes)
    requires ParseMember(front + ([44] + tail)) == Some(Parsed(m, [44] + tail))
    requires ParseMembers(tail) == Some(Parsed(more, rest))
    ensures ParseMembers(front + ([44] + tail)) == Some(Parsed([m] + more, rest))
  {
    CutAfter([44], tail);
  }

  lemma EncMembersFirst(members: seq<Member>, rest: Bytes)
    requires members != []
    ensures Join(EncMembers(members)) + rest
         == EncMember(members[0]) + if |members| == 1 then rest else [44] + (Join(EncMembers(members[1..])) + rest)
  {
    if |members| > 1 {
      JoinFirst(EncMember(members[0]), EncMembers(members[1..]), rest);
    }
  }

  lemma {:induction false} MembersComeBack(members: seq<Member>, rest: Bytes)
    requires members != []
    requires forall i :: 0 <= i < |members| ==> IsUtf8(members[i].key) && Writable(members[i].value)
    ensures ParseMembers(Join(EncMembers(members)) + ([125] + rest)) == Some(Parsed(members, rest))
    decreases members, 0
  {
    var next := AfterMember(members, rest);
    TreeComesBack(members[0].value, next);
    MemberComesBack(members[0], next);
    if |members| <= 1 {
    } else {
      MembersComeBack(members[1..], rest);
    }
    MembersStep(members, rest);
  }

  /** What follows the first member. */
  function AfterMember(members: seq<Member>, rest: Bytes): (next: Bytes)
    requires members != []
    ensures EndsNumber(next)
  {
    var close := [125] + rest;
    if |members| == 1 then close else [44] + (Join(EncMembers(members[1..])) + close)
  }

  lemma MembersStep(members: seq<Member>, rest: Bytes)
    requires members != []
    requires ParseMember(EncMember(members[0]) + AfterMember(members, rest))
          == Some(Parsed(members[0], AfterMember(members, rest)))
    requires |members| > 1 ==>
      ParseMembers(Join(EncMembers(members[1..])) + ([125] + rest)) == Some(Parsed(members[1..], rest))
    ensures ParseMembers(Join(EncMembers(members)) + ([125] + rest)) == Some(Parsed(members, rest))
  {
    var m, close := members[0], [125] + rest;
    EncMembersFirst(members, close);
    if |members| == 1 {
      LastMember(EncMember(m), m, rest);
      assert [m] == members;
    } else {
      EarlierMember(EncMember(m), m, Join(EncMembers(members[1..])) + close, members[1..], rest);
      assert [m] + members[1..] == members;
    }
  }

  /** Every tree a Lua value unfolds to can be written. */
  lemma {:induction false} UnfoldedIsWritable(heap: Heap, v: Value, t: Json)
    requires Unfolds(heap, v, t) && TextValid(t)
    ensures Writable(t)
    decreases t
  {
    match v
    case Integer(i) =>
      IntegerUnfolds(heap, i, t);
      DecimalTextIsNumber(i);
    case Table(r) =>
      if t.Arr? {
        forall i | 0 <= i < |t.items| ensures Writable(t.items[i]) {
          UnfoldedIsWritable(heap, RawGet(heap[r], IntKey(i + 1)), t.items[i]);
        }
      } else {
        forall i | 0 <= i < |t.members| ensures Writable(t.members[i].value) {
          UnfoldedIsWritable(heap, RawGet(heap[r], StrKey(t.members[i].key)), t.members[i].value);
        }
      }
    case _ =>
  }

  /** What the bridge writes for a value is a JSON text for exactly the tree of that value. */
  lemma ResponseParsesToItsValue(heap: Heap, v: Value, t: Json)
    requires Unfolds(heap, v, t) && TextValid(t)
    ensures ParseText(Enc(t)) == Some(t)
    ensures v.Table? && heap[v.ref] == [] ==> Enc(t) == [91, 93] && t == Arr([])
    ensures v.Integer? ==> t.Number? && IntegerOf(t.text) == Some(v.i)
  {
    UnfoldedIsWritable(heap, v, t);
    TreeComesBack(t, []);
    assert Enc(t) + [] == Enc(t);
  }

  /** Different trees are never written alike. */
  lemma EncodingIsInjective(a: Json, b: Json)
    requires Writable(a) && Writable(b) && Enc(a) == Enc(b)
    ensures a == b
  {
    TreeComesBack(a, []);
    TreeComesBack(b, []);
  }
}
