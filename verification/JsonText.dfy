/** JSON trees, their unbounded text encoding, and the sizes the bridge limits. */
module JsonText {
  import opened Basics
  import opened Utf8

  // ----- Numbers -----

  predicate IsDigit(b: Byte) {
    48 <= b <= 57
  }

  /** How many digits start at `i`. */
  function DigitRun(s: Bytes, i: nat): (n: nat)
    ensures i <= |s| ==> i + n <= |s|
    decreases |s| - i
  {
    if i < |s| && IsDigit(s[i]) then 1 + DigitRun(s, i + 1) else 0
  }

  function AfterInteger(s: Bytes, i: nat): nat {
    if i < |s| && s[i] == 48 then i + 1 else i + DigitRun(s, i)
  }

  function AfterFraction(s: Bytes, i: nat): nat {
    if i < |s| && s[i] == 46 && DigitRun(s, i + 1) > 0 then i + 1 + DigitRun(s, i + 1) else i
  }

  function AfterSign(s: Bytes, i: nat): nat {
    if i < |s| && (s[i] == 43 || s[i] == 45) then i + 1 else i
  }

  function AfterExponent(s: Bytes, i: nat): nat {
    if i < |s| && (s[i] == 101 || s[i] == 69) && DigitRun(s, AfterSign(s, i + 1)) > 0
    then AfterSign(s, i + 1) + DigitRun(s, AfterSign(s, i + 1))
    else i
  }

  /** Section 6 of RFC 8259: the length of the longest number at the front, 0 when there is none. */
  function ScanNumber(s: Bytes): nat {
    var i := if s != [] && s[0] == 45 then 1 else 0;
    var j := AfterInteger(s, i);
    if j == i then 0 else AfterExponent(s, AfterFraction(s, j))
  }

  predicate IsNumber(s: Bytes) {
    s != [] && ScanNumber(s) == |s|
  }

  /** Text that a longest-match number scan cannot run on into. */
  predicate EndsNumber(rest: Bytes) {
    rest == [] || !(IsDigit(rest[0]) || rest[0] == 46 || rest[0] == 101 || rest[0] == 69)
  }

  lemma {:induction false} DigitRunStops(s: Bytes, rest: Bytes, i: nat)
    requires EndsNumber(rest) && i <= |s|
    ensures DigitRun(s + rest, i) == DigitRun(s, i)
    decreases |s| - i
  {
    if i < |s| && IsDigit(s[i]) {
      DigitRunStops(s, rest, i + 1);
    } else {
    }
  }

  lemma IntegerStops(s: Bytes, rest: Bytes, i: nat)
    requires EndsNumber(rest) && i <= |s|
    ensures AfterInteger(s + rest, i) == AfterInteger(s, i)
  {
    DigitRunStops(s, rest, i);
  }

  lemma FractionStops(s: Bytes, rest: Bytes, i: nat)
    requires EndsNumber(rest) && i <= |s|
    ensures AfterFraction(s + rest, i) == AfterFraction(s, i) <= |s|
  {
    if i < |s| {
      DigitRunStops(s, rest, i + 1);
    }
  }

  lemma ExponentStops(s: Bytes, rest: Bytes, i: nat)
    requires EndsNumber(rest) && i <= |s| && AfterExponent(s, i) == |s|
    ensures AfterExponent(s + rest, i) == |s|
  {
    if i < |s| {
      assert (s + rest)[i] == s[i];
      var j := AfterSign(s, i + 1);
      assert i + 1 < |s|;
      assert AfterSign(s + rest, i + 1) == j;
      DigitRunStops(s, rest, j);
    }
  }

  /** A number followed by something that ends numbers is scanned to exactly its own end. */
  lemma NumberStops(s: Bytes, rest: Bytes)
    requires IsNumber(s) && EndsNumber(rest)
    ensures ScanNumber(s + rest) == |s|
  {
    var i := if s[0] == 45 then 1 else 0;
    IntegerStops(s, rest, i);
    FractionStops(s, rest, AfterInteger(s, i));
    ExponentStops(s, rest, AfterFraction(s, AfterInteger(s, i)));
  }

  function DecimalDigits(n: nat): Bytes {
    if n < 10 then [48 + n] else DecimalDigits(n / 10) + [48 + n % 10]
  }

  /** `tostring` of a Lua integer. */
  function DecimalText(i: int): Bytes {
    if i < 0 then [45] + DecimalDigits(-i) else DecimalDigits(i)
  }

  lemma {:induction false} DecimalDigitsAreDigits(n: nat)
    ensures DecimalDigits(n) != [] && forall k :: 0 <= k < |DecimalDigits(n)| ==> IsDigit(DecimalDigits(n)[k])
    ensures DecimalDigits(n)[0] == 48 <==> n == 0
  {
    if n < 10 {
    } else {
      DecimalDigitsAreDigits(n / 10);
    }
  }

  lemma {:induction false} AllDigitsRun(s: Bytes, i: nat)
    requires i <= |s| && forall k :: i <= k < |s| ==> IsDigit(s[k])
    ensures DigitRun(s, i) == |s| - i
    decreases |s| - i
  {
    if i < |s| {
      AllDigitsRun(s, i + 1);
    } else {
    }
  }

  /** Every integer is written as a JSON number. */
  lemma DecimalTextIsNumber(i: int)
    ensures IsNumber(DecimalText(i))
  {
    var n := if i < 0 then -i else i;
    DecimalDigitsAreDigits(n);
    var start := if i < 0 then 1 else 0;
    AllDigitsRun(DecimalText(i), start);
    if n == 0 {
      assert DecimalText(i) == [48];
    }
  }

  // ----- The integer a text denotes -----

  predicate AllDigits(s: Bytes) {
    s != [] && forall k :: 0 <= k < |s| ==> IsDigit(s[k])
  }

  /** Positional value in base ten. */
  function DigitsValue(s: Bytes): nat
    requires forall k :: 0 <= k < |s| ==> IsDigit(s[k])
  {
    if s == [] then 0
    else
      assert IsDigit(s[|s| - 1]);
      10 * DigitsValue(s[..|s| - 1]) + (s[|s| - 1] as int - 48)
  }

  /** An optional minus sign and digits. */
  function IntegerOf(text: Bytes): Option<int> {
    if AllDigits(text) then Some(DigitsValue(text))
    else if text != [] && text[0] == 45 && AllDigits(text[1..]) then Some(0 - DigitsValue(text[1..]) as int)
    else None
  }

  /** The shortest text of the integer: no leading zero, and no sign before zero. */
  predicate Writes(text: Bytes, i: int) {
    IntegerOf(text) == Some(i)
    && (i < 0 <==> text[0] == 45)
    && (text[0] == 48 ==> |text| == 1) && (i < 0 ==> text[1] != 48)
  }

  lemma {:induction false} DigitsDenote(n: nat)
    ensures AllDigits(DecimalDigits(n)) && DigitsValue(DecimalDigits(n)) == n
  {
    DecimalDigitsAreDigits(n);
    var digits := DecimalDigits(n);
    if n < 10 {
      assert digits[..0] == [];
    } else {
      DigitsDenote(n / 10);
      assert digits[..|digits| - 1] == DecimalDigits(n / 10);
    }
  }

  lemma {:induction false} LeadingDigitCounts(s: Bytes)
    requires AllDigits(s) && s[0] != 48
    ensures DigitsValue(s) > 0
  {
    if |s| == 1 {
    } else {
      LeadingDigitCounts(s[..|s| - 1]);
    }
  }

  lemma {:induction false} DigitsAreUnique(s: Bytes)
    requires AllDigits(s) && (s[0] == 48 ==> |s| == 1)
    ensures s == DecimalDigits(DigitsValue(s))
  {
    if |s| == 1 {
      assert s[..0] == [];
    } else {
      var front := s[..|s| - 1];
      LeadingDigitCounts(front);
      DigitsAreUnique(front);
      assert s == front + [s[|s| - 1]];
    }
  }

  /** `tostring` writes the integer itself, and no other text that writes it is as short. */
  lemma WritesExactly(text: Bytes, i: int)
    ensures Writes(text, i) <==> text == DecimalText(i)
  {
    var n := if i < 0 then -i else i;
    DigitsDenote(n);
    DecimalDigitsAreDigits(n);
    if i < 0 {
      assert DecimalText(i)[1..] == DecimalDigits(n);
    }
    if Writes(text, i) {
      if i < 0 {
        DigitsAreUnique(text[1..]);
        assert text == [45] + text[1..];
      } else {
        DigitsAreUnique(text);
      }
    }
  }

  /** So two integers are never written alike. */
  lemma IntegersDiffer(i: int, j: int)
    ensures IntegerOf(DecimalText(i)) == Some(i)
    ensures DecimalText(i) == DecimalText(j) ==> i == j
  {
    WritesExactly(DecimalText(i), i);
    WritesExactly(DecimalText(j), j);
  }

  // ----- Strings -----

  function HexDigit(n: nat): Byte
    requires n < 16
  {
    if n < 10 then 48 + n else 87 + n
  }

  /** The seven short escapes, `\u00xx` for the other control bytes, and every other byte as it is. */
  function EscapeByte(b: Byte): (e: Bytes)
    ensures 1 <= |e| <= 6
  {
    if b == 34 then [92, 34]
    else if b == 92 then [92, 92]
    else if b == 8 then [92, 98]
    else if b == 12 then [92, 102]
    else if b == 10 then [92, 110]
    else if b == 13 then [92, 114]
    else if b == 9 then [92, 116]
    else if b < 32 then [92, 117, 48, 48, HexDigit(b / 16), HexDigit(b % 16)]
    else [b]
  }

  function Escape(s: Bytes): (e: Bytes)
    ensures |e| >= |s|
  {
    if s == [] then [] else EscapeByte(s[0]) + Escape(s[1..])
  }

  function Quote(s: Bytes): (q: Bytes)
    ensures |q| >= |s| + 2
  {
    [34] + Escape(s) + [34]
  }

  lemma {:induction false} EscapeSnoc(s: Bytes, b: Byte)
    ensures Escape(s + [b]) == Escape(s) + EscapeByte(b)
  {
    if s == [] {
      assert s + [b] == [b] && Escape([b][1..]) == [];
    } else {
      assert (s + [b])[1..] == s[1..] + [b];
      EscapeSnoc(s[1..], b);
    }
  }

  lemma {:induction false} EscapePrefix(s: Bytes, n: nat)
    requires n <= |s|
    ensures |Escape(s)| >= |Escape(s[..n])| + |s| - n
    decreases |s| - n
  {
    if n == |s| {
      assert s[..n] == s;
    } else {
      EscapePrefix(s, n + 1);
      assert s[..n + 1] == s[..n] + [s[n]];
      EscapeSnoc(s[..n], s[n]);
    }
  }

  // ----- Trees -----

  datatype Member = Member(key: Bytes, value: Json)

  /** A JSON value; numbers keep their text. An object lists its members in key order. */
  datatype Json =
    | Null
    | Bool(b: bool)
    | Number(text: Bytes)
    | Text(s: Bytes)
    | Arr(items: seq<Json>)
    | Obj(members: seq<Member>)

  /** Comma-separated pieces. */
  function Join(pieces: seq<Bytes>): Bytes {
    if pieces == [] then []
    else if |pieces| == 1 then pieces[0]
    else pieces[0] + [44] + Join(pieces[1..])
  }

  function Enc(t: Json): Bytes
    decreases t
  {
    match t
    case Null => [110, 117, 108, 108]
    case Bool(b) => if b then [116, 114, 117, 101] else [102, 97, 108, 115, 101]
    case Number(text) => text
    case Text(s) => Quote(s)
    case Arr(items) => [91] + Join(EncItems(items)) + [93]
    case Obj(members) => [123] + Join(EncMembers(members)) + [125]
  }

  function EncItems(items: seq<Json>): (pieces: seq<Bytes>)
    ensures |pieces| == |items|
    decreases items
  {
    if items == [] then [] else [Enc(items[0])] + EncItems(items[1..])
  }

  function EncMembers(members: seq<Member>): (pieces: seq<Bytes>)
    ensures |pieces| == |members|
    decreases members
  {
    if members == [] then []
    else [Quote(members[0].key) + [58] + Enc(members[0].value)] + EncMembers(members[1..])
  }

  function EncMember(m: Member): Bytes {
    Quote(m.key) + [58] + Enc(m.value)
  }

  function Larger(a: nat, b: nat): nat {
    if a < b then b else a
  }

  /** How deeply tables nest; a scalar has depth 0. */
  function Depth(t: Json): nat
    decreases t
  {
    match t
    case Arr(items) => 1 + DepthOfItems(items)
    case Obj(members) => 1 + DepthOfMembers(members)
    case _ => 0
  }

  function DepthOfItems(items: seq<Json>): nat
    decreases items
  {
    if items == [] then 0 else Larger(Depth(items[0]), DepthOfItems(items[1..]))
  }

  function DepthOfMembers(members: seq<Member>): nat
    decreases members
  {
    if members == [] then 0 else Larger(Depth(members[0].value), DepthOfMembers(members[1..]))
  }

  /** How many table entries a traversal visits; a shared subtree counts every time. */
  function Entries(t: Json): nat
    decreases t
  {
    match t
    case Arr(items) => |items| + EntriesOfItems(items)
    case Obj(members) => |members| + EntriesOfMembers(members)
    case _ => 0
  }

  function EntriesOfItems(items: seq<Json>): nat
    decreases items
  {
    if items == [] then 0 else Entries(items[0]) + EntriesOfItems(items[1..])
  }

  function EntriesOfMembers(members: seq<Member>): nat
    decreases members
  {
    if members == [] then 0 else Entries(members[0].value) + EntriesOfMembers(members[1..])
  }

  /** Every string and key is valid UTF-8. */
  ghost predicate TextValid(t: Json)
    decreases t
  {
    match t
    case Text(s) => IsUtf8(s)
    case Arr(items) => forall i :: 0 <= i < |items| ==> TextValid(items[i])
    case Obj(members) => forall i :: 0 <= i < |members| ==> IsUtf8(members[i].key) && TextValid(members[i].value)
    case _ => true
  }

  // ----- Growing a collection at its end -----

  lemma {:induction false} JoinSnoc(pieces: seq<Bytes>, p: Bytes)
    ensures Join(pieces + [p]) == Join(pieces) + (if pieces == [] then [] else [44]) + p
  {
    if |pieces| > 1 {
      assert (pieces + [p])[1..] == pieces[1..] + [p];
      JoinSnoc(pieces[1..], p);
    } else if |pieces| == 1 {
      assert (pieces + [p])[1..] == [p];
    }
  }

  lemma Assoc3(a: Bytes, b: Bytes, c: Bytes)
    ensures a + b + c == a + (b + c)
  {
  }

  lemma Assoc(a: Bytes, b: Bytes, c: Bytes, d: Bytes)
    ensures a + b + c + d == a + (b + c + d)
  {
  }

  lemma CutAfter(a: Bytes, b: Bytes)
    ensures (a + b)[..|a|] == a && (a + b)[|a|..] == b
  {
  }

  /** Appending a comma where one is due and then a piece appends to the joined text. */
  lemma JoinAfter(prefix: Bytes, pieces: seq<Bytes>, p: Bytes)
    ensures prefix + Join(pieces) + (if pieces == [] then [] else [44]) + p == prefix + Join(pieces + [p])
  {
    JoinSnoc(pieces, p);
    Assoc(prefix, Join(pieces), if pieces == [] then [] else [44], p);
  }

  lemma {:induction false} ItemsSnoc(items: seq<Json>, t: Json)
    ensures EncItems(items + [t]) == EncItems(items) + [Enc(t)]
    ensures DepthOfItems(items + [t]) == Larger(DepthOfItems(items), Depth(t))
    ensures EntriesOfItems(items + [t]) == EntriesOfItems(items) + Entries(t)
  {
    if items == [] {
      assert items + [t] == [t] && [t][1..] == [];
    } else {
      assert (items + [t])[1..] == items[1..] + [t];
      ItemsSnoc(items[1..], t);
    }
  }

  lemma {:induction false} MembersSnoc(members: seq<Member>, m: Member)
    ensures EncMembers(members + [m]) == EncMembers(members) + [EncMember(m)]
    ensures DepthOfMembers(members + [m]) == Larger(DepthOfMembers(members), Depth(m.value))
    ensures EntriesOfMembers(members + [m]) == EntriesOfMembers(members) + Entries(m.value)
  {
    if members == [] {
      assert members + [m] == [m] && [m][1..] == [];
    } else {
      assert (members + [m])[1..] == members[1..] + [m];
      MembersSnoc(members[1..], m);
    }
  }

  /** The measures of a collection bound those of its first `n` elements. */
  lemma {:induction false} ItemsPrefix(items: seq<Json>, n: nat)
    requires n <= |items|
    ensures |Join(EncItems(items))| >= |Join(EncItems(items[..n]))|
    ensures DepthOfItems(items) >= DepthOfItems(items[..n])
    ensures EntriesOfItems(items) >= EntriesOfItems(items[..n])
    decreases |items| - n
  {
    if n == |items| {
      assert items[..n] == items;
    } else {
      ItemsPrefix(items, n + 1);
      assert items[..n + 1] == items[..n] + [items[n]];
      ItemsSnoc(items[..n], items[n]);
      JoinSnoc(EncItems(items[..n]), Enc(items[n]));
    }
  }

  lemma {:induction false} MembersPrefix(members: seq<Member>, n: nat)
    requires n <= |members|
    ensures |Join(EncMembers(members))| >= |Join(EncMembers(members[..n]))|
    ensures DepthOfMembers(members) >= DepthOfMembers(members[..n])
    ensures EntriesOfMembers(members) >= EntriesOfMembers(members[..n])
    decreases |members| - n
  {
    if n == |members| {
      assert members[..n] == members;
    } else {
      MembersPrefix(members, n + 1);
      assert members[..n + 1] == members[..n] + [members[n]];
      MembersSnoc(members[..n], members[n]);
      JoinSnoc(EncMembers(members[..n]), EncMember(members[n]));
    }
  }
}
