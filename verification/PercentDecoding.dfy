/** Percent decoding of inspected payloads (section 2.1 of RFC 3986, with '+' for a space). */
module PercentDecoding {
  import opened Common

  const PERCENT: Byte := 0x25
  const PLUS: Byte := 0x2B
  const SPACE: Byte := 0x20

  function HexDigit(b: Byte): Option<nat> {
    if 0x30 <= b <= 0x39 then Some(b - 0x30)
    else if 0x41 <= b <= 0x46 then Some(b - 0x41 + 10)
    else if 0x61 <= b <= 0x66 then Some(b - 0x61 + 10)
    else None
  }

  /** `u8::from_str_radix(.., 16)` on two bytes; it also takes a plus sign before a single digit. */
  function HexPair(h: Byte, l: Byte): (r: Option<Byte>)
    ensures r.Some? <==> (HexDigit(h).Some? || h == PLUS) && HexDigit(l).Some?
  {
    if HexDigit(l).None? then None
    else if h == PLUS then Some(HexDigit(l).value)
    else if HexDigit(h).None? then None
    else Some(16 * HexDigit(h).value + HexDigit(l).value)
  }

  /** The next byte of the output and how much input it takes. */
  function Token(s: seq<Byte>): (r: (Byte, nat))
    requires s != []
    ensures r.1 == 1 || (r.1 == 3 && |s| >= 3)
  {
    if s[0] == PERCENT && |s| > 2 && HexPair(s[1], s[2]).Some? then (HexPair(s[1], s[2]).value, 3)
    else if s[0] == PLUS then (SPACE, 1)
    else (s[0], 1)
  }

  function Decode(s: seq<Byte>): seq<Byte>
    decreases |s|
  {
    if s == [] then [] else [Token(s).0] + Decode(s[Token(s).1..])
  }

  lemma DecodeStep(s: seq<Byte>, i: nat)
    requires i < |s|
    ensures var t := Token(s[i..]);
            i + t.1 <= |s| && Decode(s[i..]) == [t.0] + Decode(s[i + t.1..])
  {
    assert s[i..][Token(s[i..]).1..] == s[i + Token(s[i..]).1..];
  }

  method PercentDecode(bytes: seq<Byte>) returns (result: seq<Byte>)
    ensures result == Decode(bytes)
  {
    result := [];
    var i := 0;
    while i < |bytes|
      invariant 0 <= i <= |bytes|
      invariant result + Decode(bytes[i..]) == Decode(bytes)
      decreases |bytes| - i
    {
      hide Decode, HexPair;
      DecodeStep(bytes, i);
      ghost var next := Token(bytes[i..]);
      ghost var before := result;
      ghost var rest := Decode(bytes[i + next.1..]);
      assert before + ([next.0] + rest) == before + [next.0] + rest;
      if bytes[i] == PERCENT && i + 2 < |bytes| {
        var decoded := HexPair(bytes[i + 1], bytes[i + 2]);
        if decoded.Some? {
          result := result + [decoded.value];
          i := i + 3;
        } else {
          result := result + [PERCENT];
          i := i + 1;
        }
      } else if bytes[i] == PLUS {
        result := result + [SPACE];
        i := i + 1;
      } else {
        result := result + [bytes[i]];
        i := i + 1;
      }
    }
  }

  // ---- decoding inverts encoding ----

  /** `code` is one of the ways an encoder may write the byte: as an escape with digits of either case,
      or, unless it is '%' or '+', as itself. */
  predicate Encodes(code: seq<Byte>, b: Byte) {
    || (|code| == 3 && code[0] == PERCENT && HexDigit(code[1]).Some? && HexDigit(code[2]).Some?
        && b == 16 * HexDigit(code[1]).value + HexDigit(code[2]).value)
    || (code == [b] && b != PERCENT && b != PLUS)
  }

  ghost predicate Encoding(codes: seq<seq<Byte>>, plain: seq<Byte>) {
    |codes| == |plain| && forall i :: 0 <= i < |plain| ==> Encodes(codes[i], plain[i])
  }

  function Joined(codes: seq<seq<Byte>>): seq<Byte>
    decreases |codes|
  {
    if codes == [] then [] else codes[0] + Joined(codes[1..])
  }

  /** Decoding inverts every encoder that escapes at least '%' and '+', byte by byte as it likes. */
  lemma {:induction false} DecodeInvertsEncoding(codes: seq<seq<Byte>>, plain: seq<Byte>)
    requires Encoding(codes, plain)
    ensures Decode(Joined(codes)) == plain
    decreases |codes|
  {
    if codes != [] {
      var s := Joined(codes);
      assert s[|codes[0]|..] == Joined(codes[1..]);
      assert Encodes(codes[0], plain[0]);
      DecodeInvertsEncoding(codes[1..], plain[1..]);
      assert Token(s) == (plain[0], |codes[0]|);
    }
  }

  // ---- and encoders that write their digits from a table ----

  const SMALL_DIGITS := "0123456789abcdef"
  const CAPITAL_DIGITS := "0123456789ABCDEF"

  predicate WritesDigit(b: Byte, d: nat)
    requires d < 16
  {
    b == SMALL_DIGITS[d] as int || b == CAPITAL_DIGITS[d] as int
  }

  lemma TableDigit(b: Byte, d: nat)
    requires d < 16 && WritesDigit(b, d)
    ensures HexDigit(b) == Some(d)
  {
    var small := [0x30, 0x31, 0x32, 0x33, 0x34, 0x35, 0x36, 0x37, 0x38, 0x39, 0x61, 0x62, 0x63, 0x64, 0x65, 0x66];
    var capital := [0x30, 0x31, 0x32, 0x33, 0x34, 0x35, 0x36, 0x37, 0x38, 0x39, 0x41, 0x42, 0x43, 0x44, 0x45, 0x46];
    assert SMALL_DIGITS[d] as int == small[d];
    assert CAPITAL_DIGITS[d] as int == capital[d];
  }

  /** `code` is one of the ways to write the byte: a percent sign and two digits from the tables; itself, unless
      it is a percent or plus sign; or a plus sign for a space. */
  predicate Writes(code: seq<Byte>, b: Byte) {
    || (|code| == 3 && code[0] == '%' as int && WritesDigit(code[1], b / 16) && WritesDigit(code[2], b % 16))
    || (code == [b] && b != '%' as int && b != '+' as int)
    || (code == ['+' as int] && b == ' ' as int)
  }

  lemma TokenOfWriting(s: seq<Byte>, code: seq<Byte>, b: Byte)
    requires Writes(code, b) && code <= s
    ensures Token(s) == (b, |code|)
  {
    if |code| == 3 {
      TableDigit(code[1], b / 16);
      TableDigit(code[2], b % 16);
      assert s[0] == PERCENT && s[1] == code[1] && s[2] == code[2];
      assert b == 16 * (b / 16) + b % 16;
    }
    hide WritesDigit;
  }

  /** Decoding inverts every such encoder, byte by byte as it likes. */
  lemma {:induction false} DecodeInvertsWriting(codes: seq<seq<Byte>>, plain: seq<Byte>)
    requires |codes| == |plain| && forall i :: 0 <= i < |plain| ==> Writes(codes[i], plain[i])
    ensures Decode(Joined(codes)) == plain
    decreases |codes|
  {
    if codes != [] {
      var s := Joined(codes);
      assert s[|codes[0]|..] == Joined(codes[1..]);
      assert Writes(codes[0], plain[0]) && codes[0] != [];
      DecodeInvertsWriting(codes[1..], plain[1..]);
      TokenOfWriting(s, codes[0], plain[0]);
      hide Writes, Token;
    }
  }

  /** A percent sign, a plus sign and one digit decode to the digit. */
  lemma PlusDigitDecodes(digit: Byte, d: nat)
    requires d < 16 && WritesDigit(digit, d)
    ensures Decode(['%' as int, '+' as int, digit]) == [d]
  {
    TableDigit(digit, d);
    var s: seq<Byte> := ['%' as int, '+' as int, digit];
    assert Token(s) == (d, 3);
    assert s[3..] == [];
  }

  predicate IsHexDigit(b: Byte) {
    '0' as int <= b <= '9' as int || 'a' as int <= b <= 'f' as int || 'A' as int <= b <= 'F' as int
  }

  /** Text without plus signs and without a percent sign before two digits is left as it is. */
  lemma {:induction false} LiteralTextStays(s: seq<Byte>)
    requires forall i :: 0 <= i < |s| ==> s[i] != '+' as int
    requires forall i :: 0 <= i < |s| - 2 && s[i] == '%' as int ==> !(IsHexDigit(s[i + 1]) && IsHexDigit(s[i + 2]))
    ensures Decode(s) == s
    decreases |s|
  {
    if s != [] {
      assert Token(s) == (s[0], 1);
      LiteralTextStays(s[1..]);
      assert [s[0]] + s[1..] == s;
    }
  }

  /** The output is no longer than the input and at least a third as long. */
  lemma {:induction false} DecodeLength(s: seq<Byte>)
    ensures |Decode(s)| <= |s| <= 3 * |Decode(s)|
    decreases |s|
  {
    if s != [] {
      DecodeLength(s[Token(s).1..]);
    }
  }

  // ---- decoding piece by piece ----

  /** The piece ends in the beginning of an escape that more input could complete. */
  predicate EndsInsideEscape(a: seq<Byte>) {
    || (|a| >= 1 && a[|a| - 1] == PERCENT)
    || (|a| >= 2 && a[|a| - 2] == PERCENT && (HexDigit(a[|a| - 1]).Some? || a[|a| - 1] == PLUS))
  }

  lemma TokenStable(a: seq<Byte>, b: seq<Byte>)
    requires a != [] && !EndsInsideEscape(a)
    ensures Token(a + b) == Token(a) && !EndsInsideEscape(a[Token(a).1..])
    ensures (a + b)[Token(a).1..] == a[Token(a).1..] + b
  {
    if a[0] == PERCENT && |a| == 2 && b != [] {
      assert (a + b)[1] == a[1] && (a + b)[2] == b[0];
      assert HexPair(a[1], b[0]).None?;
    }
    assert Token(a + b) == Token(a);
    var rest := a[Token(a).1..];
    hide Token;
    assert |rest| >= 1 ==> rest[|rest| - 1] == a[|a| - 1];
    assert |rest| >= 2 ==> rest[|rest| - 2] == a[|a| - 2];
  }

  /** With a piece that does not end inside an escape, decoding is done piece by piece. */
  lemma {:induction false} DecodeConcat(a: seq<Byte>, b: seq<Byte>)
    requires !EndsInsideEscape(a)
    ensures Decode(a + b) == Decode(a) + Decode(b)
    decreases |a|
  {
    if a == [] {
      assert a + b == b;
    } else {
      TokenStable(a, b);
      hide EndsInsideEscape;
      DecodeConcat(a[Token(a).1..], b);
    }
  }

  lemma TokenBeforePercent(a: seq<Byte>, b: seq<Byte>)
    requires a != [] && b != [] && b[0] == PERCENT
    ensures Token(a + b) == Token(a) && (a + b)[Token(a).1..] == a[Token(a).1..] + b
  {
    assert HexDigit(PERCENT).None?;
    if a[0] == PERCENT && |a| <= 2 && |a + b| > 2 {
      assert HexPair((a + b)[1], (a + b)[2]).None? by {
        assert (a + b)[|a|] == PERCENT;
      }
    }
  }

  /** A percent sign is never swallowed by an escape, so what is decoded before it does not depend on
      what follows. */
  lemma {:induction false} DecodeBeforePercent(a: seq<Byte>, b: seq<Byte>)
    requires b != [] && b[0] == PERCENT
    ensures Decode(a + b) == Decode(a) + Decode(b)
    decreases |a|
  {
    if a == [] {
      assert a + b == b;
    } else {
      TokenBeforePercent(a, b);
      hide Token;
      DecodeBeforePercent(a[Token(a).1..], b);
    }
  }

  lemma SplitEscape(a: seq<Byte>) returns (b: seq<Byte>)
    requires EndsInsideEscape(a)
    ensures Decode(a + b) != Decode(a) + Decode(b)
  {
    var zero: Byte := 0x30;
    if a[|a| - 1] == PERCENT {
      var head := a[..|a| - 1];
      b := [zero, zero];
      assert a == head + [PERCENT] && a + b == head + [PERCENT, zero, zero];
      DecodeBeforePercent(head, [PERCENT]);
      DecodeBeforePercent(head, [PERCENT, zero, zero]);
      DecodeLength([PERCENT, zero, zero]);
      assert |Decode([PERCENT, zero, zero])| == 1 by {
        assert Decode([PERCENT, zero, zero][3..]) == [];
      }
      DecodeLength(b);
      assert |Decode(b)| >= 1;
      assert |Decode([PERCENT])| == 1 by {
        assert Decode([PERCENT][1..]) == [];
      }
    } else {
      var d := a[|a| - 1];
      var head := a[..|a| - 2];
      b := [zero];
      assert a == head + [PERCENT, d] && a + b == head + [PERCENT, d, zero];
      DecodeBeforePercent(head, [PERCENT, d]);
      DecodeBeforePercent(head, [PERCENT, d, zero]);
      assert |Decode([PERCENT, d, zero])| == 1 by {
        assert Decode([PERCENT, d, zero][3..]) == [];
      }
      DecodeLength(b);
      assert |Decode([PERCENT, d])| == 2 by {
        assert [PERCENT, d][1..] == [d];
        assert Decode([d][1..]) == [];
      }
    }
  }

  /** Splitting the input is harmless for every continuation exactly when the first piece does not end
      inside an escape. */
  lemma SplitHarmlessIff(a: seq<Byte>)
    ensures (forall b: seq<Byte> :: Decode(a + b) == Decode(a) + Decode(b)) <==> !EndsInsideEscape(a)
  {
    if EndsInsideEscape(a) {
      var b := SplitEscape(a);
      assert Decode(a + b) != Decode(a) + Decode(b);
    } else {
      forall b: seq<Byte>
        ensures Decode(a + b) == Decode(a) + Decode(b)
      {
        DecodeConcat(a, b);
      }
    }
  }
}
