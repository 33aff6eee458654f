/** Command arguments as Lua source: `to_lua_string` and `to_lua_value`, and a reader that undoes them. */
module LuaLiteral {
  import opened Basics

  // ----- Writing strings -----

  /** `str.replace` of one character. */
  function Replace(s: string, c: char, into: string): string {
    if s == [] then [] else (if s[0] == c then into else [s[0]]) + Replace(s[1..], c, into)
  }

  /** The five replacements in the order the program makes them. */
  function Chained(s: string): string {
    Replace(Replace(Replace(Replace(Replace(s, '\\', "\\\\"), '"', "\\\""), '\n', "\\n"), '\r', "\\r"), '\t', "\\t")
  }

  function ToLuaString(s: string): string {
    "\"" + Chained(s) + "\""
  }

  /** What a single pass would write for one character. */
  function EscapeChar(c: char): (e: string)
    ensures 1 <= |e| <= 2
  {
    if c == '\\' then "\\\\"
    else if c == '"' then "\\\""
    else if c == '\n' then "\\n"
    else if c == '\r' then "\\r"
    else if c == '\t' then "\\t"
    else [c]
  }

  function SinglePass(s: string): string {
    if s == [] then [] else EscapeChar(s[0]) + SinglePass(s[1..])
  }

  lemma Cat3(a: string, b: string, c: string)
    ensures a + b + c == a + (b + c)
  {
  }

  lemma Cat4(a: string, b: string, c: string, d: string)
    ensures a + b + c + d == a + (b + c + d)
  {
  }

  lemma Cut(a: string, b: string)
    ensures (a + b)[..|a|] == a && (a + b)[|a|..] == b
  {
  }

  lemma {:induction false} ReplaceSplits(a: string, b: string, c: char, into: string)
    ensures Replace(a + b, c, into) == Replace(a, c, into) + Replace(b, c, into)
  {
    if a == [] {
      assert a + b == b;
    } else {
      assert (a + b)[1..] == a[1..] + b;
      ReplaceSplits(a[1..], b, c, into);
      Cat3(if a[0] == c then into else [a[0]], Replace(a[1..], c, into), Replace(b, c, into));
    }
  }

  lemma ReplaceShort(x: char, y: char, c: char, into: string)
    ensures Replace([x], c, into) == if x == c then into else [x]
    ensures Replace([x, y], c, into) == (if x == c then into else [x]) + if y == c then into else [y]
  {
    assert Replace([x][1..], c, into) == [];
    assert [x, y][1..] == [y];
    assert Replace([y][1..], c, into) == [];
  }

  lemma ChainedChar(c: char)
    ensures Chained([c]) == EscapeChar(c)
  {
    ReplaceShort(c, c, '\\', "\\\\");
    var s1 := Replace([c], '\\', "\\\\");
    ReplaceShort(s1[0], s1[|s1| - 1], '"', "\\\"");
    assert s1 == if |s1| == 1 then [s1[0]] else [s1[0], s1[1]];
    var s2 := Replace(s1, '"', "\\\"");
    ReplaceShort(s2[0], s2[|s2| - 1], '\n', "\\n");
    assert s2 == if |s2| == 1 then [s2[0]] else [s2[0], s2[1]];
    var s3 := Replace(s2, '\n', "\\n");
    ReplaceShort(s3[0], s3[|s3| - 1], '\r', "\\r");
    assert s3 == if |s3| == 1 then [s3[0]] else [s3[0], s3[1]];
    var s4 := Replace(s3, '\r', "\\r");
    ReplaceShort(s4[0], s4[|s4| - 1], '\t', "\\t");
    assert s4 == if |s4| == 1 then [s4[0]] else [s4[0], s4[1]];
  }

  lemma ChainedSplits(a: string, b: string)
    ensures Chained(a + b) == Chained(a) + Chained(b)
  {
    ReplaceSplits(a, b, '\\', "\\\\");
    var a1, b1 := Replace(a, '\\', "\\\\"), Replace(b, '\\', "\\\\");
    ReplaceSplits(a1, b1, '"', "\\\"");
    var a2, b2 := Replace(a1, '"', "\\\""), Replace(b1, '"', "\\\"");
    ReplaceSplits(a2, b2, '\n', "\\n");
    var a3, b3 := Replace(a2, '\n', "\\n"), Replace(b2, '\n', "\\n");
    ReplaceSplits(a3, b3, '\r', "\\r");
    ReplaceSplits(Replace(a3, '\r', "\\r"), Replace(b3, '\r', "\\r"), '\t', "\\t");
  }

  /** Replacing backslashes first makes the chain the same as one pass over the characters. */
  lemma {:induction false} ChainedIsSinglePass(s: string)
    ensures Chained(s) == SinglePass(s)
  {
    if s == [] {
    } else {
      assert [s[0]] + s[1..] == s;
      ChainedSplits([s[0]], s[1..]);
      ChainedChar(s[0]);
      ChainedIsSinglePass(s[1..]);
    }
  }

  // ----- Reading strings (Lua 5.4 reference manual, section 3.1) -----

  datatype Read<T> = Read(value: T, rest: string)

  predicate IsDigit(c: char) {
    '0' <= c <= '9'
  }

  function Digit(c: char): nat
    requires IsDigit(c)
  {
    c as int - '0' as int
  }

  function HexDigit(c: char): Option<nat> {
    if '0' <= c <= '9' then Some(c as int - '0' as int)
    else if 'a' <= c <= 'f' then Some(c as int - 'a' as int + 10)
    else if 'A' <= c <= 'F' then Some(c as int - 'A' as int + 10)
    else None
  }

  predicate IsSpace(c: char) {
    c == ' ' || c == '\t' || c == '\n' || c == '\r' || c as int == 11 || c as int == 12
  }

  function SkipSpace(s: string): (r: string)
    ensures |r| <= |s|
  {
    if s != [] && IsSpace(s[0]) then SkipSpace(s[1..]) else s
  }

  /** `\ddd`: up to three decimal digits, at most 255. */
  function DecimalEscape(s: string): (r: Option<Read<string>>)
    requires s != [] && IsDigit(s[0])
    ensures r.Some? ==> |r.value.rest| < |s|
  {
    var n := if |s| < 2 || !IsDigit(s[1]) then 1 else if |s| < 3 || !IsDigit(s[2]) then 2 else 3;
    var v := if n == 1 then Digit(s[0])
             else if n == 2 then Digit(s[0]) * 10 + Digit(s[1])
             else Digit(s[0]) * 100 + Digit(s[1]) * 10 + Digit(s[2]);
    if v > 255 then None else Some(Read([v as char], s[n..]))
  }

  /** The characters an escape stands for; `s` starts after the backslash. */
  function EscapeSequence(s: string): (r: Option<Read<string>>)
    ensures r.Some? ==> |r.value.rest| < |s|
  {
    if s == [] then None
    else if s[0] == 'n' || s[0] == '\n' then Some(Read("\n", s[1..]))
    else if s[0] == 'r' then Some(Read("\r", s[1..]))
    else if s[0] == 't' then Some(Read("\t", s[1..]))
    else if s[0] == 'a' then Some(Read([7 as char], s[1..]))
    else if s[0] == 'b' then Some(Read([8 as char], s[1..]))
    else if s[0] == 'v' then Some(Read([11 as char], s[1..]))
    else if s[0] == 'f' then Some(Read([12 as char], s[1..]))
    else if s[0] == '\\' || s[0] == '"' || s[0] == '\'' then Some(Read([s[0]], s[1..]))
    else if s[0] == 'z' then Some(Read("", SkipSpace(s[1..])))
    else if s[0] == 'x' then
      if |s| < 3 then None
      else
        match (HexDigit(s[1]), HexDigit(s[2]))
        case (Some(a), Some(b)) => if a < 16 && b < 16 then Some(Read([(a * 16 + b) as char], s[3..])) else None
        case _ => None
    else if IsDigit(s[0]) then DecimalEscape(s)
    else None
  }

  /** The rest of a short string after its opening quote; a raw line break is an error. */
  function ReadString(s: string): (r: Option<Read<string>>)
    ensures r.Some? ==> |r.value.rest| < |s|
    decreases |s|
  {
    if s == [] || s[0] == '\n' || s[0] == '\r' then None
    else if s[0] == '"' then Some(Read("", s[1..]))
    else
      match if s[0] == '\\' then EscapeSequence(s[1..]) else Some(Read([s[0]], s[1..]))
      case None => None
      case Some(c) =>
        match ReadString(c.rest)
        case None => None
        case Some(more) => Some(Read(c.value + more.value, more.rest))
  }

  lemma CharComesBack(c: char, tail: string, s: string, rest: string)
    requires ReadString(tail) == Some(Read(s, rest))
    ensures ReadString(EscapeChar(c) + tail) == Some(Read([c] + s, rest))
  {
    var text := EscapeChar(c) + tail;
    if |EscapeChar(c)| == 2 {
      assert text[1..][1..] == tail;
    } else {
      assert text[1..] == tail;
    }
  }

  lemma {:induction false} SinglePassComesBack(s: string, rest: string)
    ensures ReadString(SinglePass(s) + "\"" + rest) == Some(Read(s, rest))
  {
    if s == [] {
      assert SinglePass(s) + "\"" + rest == "\"" + rest;
      Cut("\"", rest);
    } else {
      SinglePassComesBack(s[1..], rest);
      Cat4(EscapeChar(s[0]), SinglePass(s[1..]), "\"", rest);
      CharComesBack(s[0], SinglePass(s[1..]) + "\"" + rest, s[1..], rest);
      assert [s[0]] + s[1..] == s;
    }
  }

  /** The literal of any string reads back as that string. */
  lemma StringComesBack(s: string, rest: string)
    ensures (ToLuaString(s) + rest)[0] == '"'
    ensures ReadString((ToLuaString(s) + rest)[1..]) == Some(Read(s, rest))
  {
    ChainedIsSinglePass(s);
    SinglePassComesBack(s, rest);
    Cat4("\"", Chained(s), "\"", rest);
    Cut("\"", Chained(s) + "\"" + rest);
  }
}
