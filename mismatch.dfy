/** The message `getContractCreationCode` throws when the verified bytecode
    does not end with the constructor arguments. It is written as a
    double-quoted string, so its `${...}` placeholder is never filled in;
    the template literal evidently intended embeds
    `JSON.stringify({verifiedBytecode, constructorArgs})`. */
module Mismatch {

  const Lead := "Expected verified bytecode to end with constructor args, but did not: "

  /** The message as the source writes it: the placeholder stays literal
      text. */
  function MessageAsWritten(verifiedBytecode: string, constructorArgs: string): (m: string)
    ensures |m| > |Lead| && m[..|Lead|] == Lead
  {
    Lead + "${JSON.stringify({verifiedBytecode, constructorArgs})}"
  }

  /** As written, the message is the same for every pair of values: it
      names neither the bytecode nor the arguments. */
  lemma AsWrittenIgnoresValues(b1: string, a1: string, b2: string, a2: string)
    ensures MessageAsWritten(b1, a1) == MessageAsWritten(b2, a2)
  {
  }

  // ---------------------------------------------------------------------
  // `JSON.stringify` of a string

  /** A lower-case hexadecimal digit, as `JSON.stringify` writes them. */
  function HexDigit(n: nat): (c: char)
    requires n < 16
    ensures '0' <= c <= '9' || 'a' <= c <= 'f'
  {
    if n < 10 then ('0' as int + n) as char else ('a' as int + n - 10) as char
  }

  /** One character inside a JSON string: quote, backslash and the control
      characters are escaped, the short forms where JSON has one. */
  function EscapeChar(c: char): (e: string)
    ensures |e| > 0 && e[0] != '"'
    ensures e[0] == '\\' <==> |e| > 1
  {
    if c == '"' then ['\\', '"']
    else if c == '\\' then ['\\', '\\']
    else if c as int == 8 then ['\\', 'b']
    else if c as int == 12 then ['\\', 'f']
    else if c == '\n' then ['\\', 'n']
    else if c == '\r' then ['\\', 'r']
    else if c == '\t' then ['\\', 't']
    else if c as int < 0x20 then ['\\', 'u', '0', '0', HexDigit(c as int / 16), HexDigit(c as int % 16)]
    else [c]
  }

  function Escape(s: string): string {
    if s == [] then [] else EscapeChar(s[0]) + Escape(s[1..])
  }

  /** The message the source evidently means: the two values, as
      `JSON.stringify` writes the object `{verifiedBytecode, constructorArgs}`
      (each string between quotes, escaped). */
  function Message(verifiedBytecode: string, constructorArgs: string): (m: string)
    ensures |m| > |Lead| && m[..|Lead|] == Lead
  {
    Lead + ("{\"verifiedBytecode\":\"" + (Escape(verifiedBytecode)
      + ("\",\"constructorArgs\":\"" + (Escape(constructorArgs) + "\"}"))))
  }

  // ---------------------------------------------------------------------
  // The intended message names both values

  lemma HexDigitInjective(m: nat, n: nat)
    requires m < 16 && n < 16 && HexDigit(m) == HexDigit(n)
    ensures m == n
  {
  }

  /** Different characters escape differently. */
  lemma EscapeCharInjective(c: char, d: char)
    requires EscapeChar(c) == EscapeChar(d)
    ensures c == d
  {
    var e := EscapeChar(c);
    if |e| == 6 {
      HexDigitInjective(c as int / 16, d as int / 16);
      HexDigitInjective(c as int % 16, d as int % 16);
    }
  }

  /** Escaped characters form a prefix code: the first two characters of
      an escape tell its length. */
  lemma EscapeCharPrefix(c: char, d: char, rest1: string, rest2: string)
    requires EscapeChar(c) + rest1 == EscapeChar(d) + rest2
    ensures c == d && rest1 == rest2
  {
    var e1, e2 := EscapeChar(c), EscapeChar(d);
    assert e1[0] == (e1 + rest1)[0] == (e2 + rest2)[0] == e2[0];
    if e1[0] == '\\' {
      assert e1[1] == (e1 + rest1)[1] == (e2 + rest2)[1] == e2[1];
      assert |e1| == 6 <==> e1[1] == 'u';
      assert |e2| == 6 <==> e2[1] == 'u';
    }
    assert |e1| == |e2|;
    assert e1 == (e1 + rest1)[..|e1|] == (e2 + rest2)[..|e2|] == e2;
    EscapeCharInjective(c, d);
    assert rest1 == (e1 + rest1)[|e1|..] == (e2 + rest2)[|e2|..] == rest2;
  }

  /** A non-empty string escapes to its first character's escape and the
      rest's. */
  lemma EscapeCons(s: string, rest: string)
    requires s != []
    ensures Escape(s) + rest == EscapeChar(s[0]) + (Escape(s[1..]) + rest)
    ensures (Escape(s) + rest)[0] != '"'
  {
  }

  /** An escaped string holds no bare quote, so the closing quote marks
      where it ends: what precedes the quote is read back exactly. */
  lemma {:induction false} EscapeThenQuote(x: string, y: string, rest1: string, rest2: string)
    requires |rest1| > 0 && rest1[0] == '"' && |rest2| > 0 && rest2[0] == '"'
    requires Escape(x) + rest1 == Escape(y) + rest2
    ensures x == y && rest1 == rest2
    decreases |x|
  {
    if x == [] && y == [] {
      assert Escape(x) + rest1 == rest1 && Escape(y) + rest2 == rest2;
    } else if x == [] {
      assert Escape(x) + rest1 == rest1;
      EscapeCons(y, rest2);
    } else if y == [] {
      assert false;
    } else {
      EscapeCons(x, rest1);
      EscapeCons(y, rest2);
      EscapeCharPrefix(x[0], y[0], Escape(x[1..]) + rest1, Escape(y[1..]) + rest2);
      EscapeThenQuote(x[1..], y[1..], rest1, rest2);
      assert x == [x[0]] + x[1..] && y == [y[0]] + y[1..];
    }
  }

  /** Equal texts with equal beginnings have equal remainders. */
  lemma DropPrefix(p: string, r1: string, r2: string)
    requires p + r1 == p + r2
    ensures r1 == r2
  {
    assert r1 == (p + r1)[|p|..] == (p + r2)[|p|..] == r2;
  }

  /** Two escaped strings, each closed by a quote, between the same fixed
      texts, are read back exactly. */
  lemma EscapedPair(lead: string, head: string, middle: string, tail: string, b1: string, a1: string, b2: string, a2: string)
    requires |middle| > 0 && middle[0] == '"' && |tail| > 0 && tail[0] == '"'
    requires lead + (head + (Escape(b1) + (middle + (Escape(a1) + tail))))
          == lead + (head + (Escape(b2) + (middle + (Escape(a2) + tail))))
    ensures b1 == b2 && a1 == a2
  {
    DropPrefix(lead, head + (Escape(b1) + (middle + (Escape(a1) + tail))), head + (Escape(b2) + (middle + (Escape(a2) + tail))));
    DropPrefix(head, Escape(b1) + (middle + (Escape(a1) + tail)), Escape(b2) + (middle + (Escape(a2) + tail)));
    EscapeThenQuote(b1, b2, middle + (Escape(a1) + tail), middle + (Escape(a2) + tail));
    DropPrefix(middle, Escape(a1) + tail, Escape(a2) + tail);
    EscapeThenQuote(a1, a2, tail, tail);
  }

  /** The intended message determines both the bytecode and the arguments:
      two mismatches read the same only when they are the same. */
  lemma MessageInjective(b1: string, a1: string, b2: string, a2: string)
    requires Message(b1, a1) == Message(b2, a2)
    ensures b1 == b2 && a1 == a2
  {
    EscapedPair(Lead, "{\"verifiedBytecode\":\"", "\",\"constructorArgs\":\"", "\"}", b1, a1, b2, a2);
  }
}
