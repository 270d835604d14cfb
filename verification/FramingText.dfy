/** What the text operations behind the header checks mean: names compared up to case, numbers, white space
    and comma-separated lists. */
module FramingText {
  import opened Common
  import opened Framing

  // ---- names ----

  /** The same letter, be it a capital or a small one, or the same character of any other kind. */
  predicate SameLetter(c: char, d: char) {
    || c == d
    || ('A' <= c <= 'Z' && d as int - 'a' as int == c as int - 'A' as int)
    || ('A' <= d <= 'Z' && c as int - 'a' as int == d as int - 'A' as int)
  }

  /** The texts agree letter by letter. */
  predicate SameLetters(a: string, b: string) {
    |a| == |b| && forall i :: 0 <= i < |b| ==> SameLetter(a[i], b[i])
  }

  predicate Named(h: Header, name: string) {
    SameLetters(h.name, name)
  }

  lemma SameNameIff(a: string, b: string)
    ensures SameName(a, b) <==> SameLetters(a, b)
  {
    if SameLetters(a, b) {
      assert Lower(a) == Lower(b);
    } else if Lower(a) == Lower(b) {
      assert |Lower(a)| == |Lower(b)|;
      forall i | 0 <= i < |b|
        ensures SameLetter(a[i], b[i])
      {
        assert Lower(a)[i] == Lower(b)[i];
      }
    }
  }

  /** The values found under a name are those of the headers so named. */
  lemma {:induction false} ValuesNamed(hs: seq<Header>, name: string, v: seq<Byte>)
    ensures v in ValuesOf(hs, name) <==> exists i :: 0 <= i < |hs| && Named(hs[i], name) && hs[i].value == v
    decreases |hs|
  {
    hide SameName, SameLetters;
    if hs != [] {
      var last := hs[|hs| - 1];
      ValuesNamed(hs[..|hs| - 1], name, v);
      SameNameIff(last.name, name);
      if exists i :: 0 <= i < |hs| && Named(hs[i], name) && hs[i].value == v {
        var i :| 0 <= i < |hs| && Named(hs[i], name) && hs[i].value == v;
        assert i < |hs| - 1 ==> hs[..|hs| - 1][i] == hs[i];
      }
    }
  }

  /** A letter or a digit, by its code point. */
  predicate LetterOrDigit(c: char) {
    var n := c as int;
    48 <= n <= 57 || 65 <= n <= 90 || 97 <= n <= 122
  }

  /** A name is made of letters, digits, hyphens, underscores and full stops, and begins with a letter or
      digit. */
  lemma HeaderNameIff(name: string)
    ensures ValidHeaderName(name)
       <==> && 1 <= |name| <= 256 && LetterOrDigit(name[0])
            && forall i :: 0 <= i < |name| ==> LetterOrDigit(name[i]) || name[i] in {'-', '_', '.'}
  {
    assert forall c :: IsAlphanumeric(c) <==> LetterOrDigit(c);
    hide IsAlphanumeric, LetterOrDigit;
  }

  /** A value has no NUL, line feed or carriage return, and 32768 bytes at most. */
  lemma HeaderValueIff(value: seq<Byte>)
    ensures ValidHeaderValue(value)
       <==> |value| <= 32768 && forall i :: 0 <= i < |value| ==> value[i] != 0 && value[i] != 10 && value[i] != 13
  {
  }

  // ---- numbers ----

  /** The digit of that value, by its code point. */
  function Digit(n: nat): char
    requires n < 10
  {
    (48 + n) as char
  }

  /** The decimal text of a number. */
  function Decimal(n: nat): string {
    if n < 10 then [Digit(n)] else Decimal(n / 10) + [Digit(n % 10)]
  }

  function Zeros(k: nat): string {
    seq(k, i => '0')
  }

  lemma ZeroDigit()
    ensures Decimal(0) == "0"
  {
  }

  predicate AllDigits(s: string) {
    forall c :: c in s ==> IsDigit(c)
  }

  lemma DigitsSnoc(s: string, d: nat)
    requires AllDigits(s) && d < 10
    ensures AllDigits(s + [Digit(d)]) && Digits(s + [Digit(d)]) == 10 * Digits(s) + d
  {
    var t := s + [Digit(d)];
    assert t[..|t| - 1] == s;
  }

  lemma {:induction false} DigitsOfZeros(k: nat)
    ensures AllDigits(Zeros(k)) && Digits(Zeros(k)) == 0
  {
    if k > 0 {
      DigitsOfZeros(k - 1);
      DigitsSnoc(Zeros(k - 1), 0);
      assert Zeros(k) == Zeros(k - 1) + [Digit(0)];
    }
  }

  lemma {:induction false} DigitsOfDecimal(k: nat, n: nat)
    ensures AllDigits(Zeros(k) + Decimal(n)) && Digits(Zeros(k) + Decimal(n)) == n
  {
    hide Digits, AllDigits, Digit;
    if n >= 10 {
      DigitsOfDecimal(k, n / 10);
      DigitsSnoc(Zeros(k) + Decimal(n / 10), n % 10);
      assert Zeros(k) + Decimal(n) == Zeros(k) + Decimal(n / 10) + [Digit(n % 10)];
    } else {
      DigitsOfZeros(k);
      DigitsSnoc(Zeros(k), n);
    }
  }

  lemma LastDigit(s: string) returns (d: nat)
    requires s != "" && AllDigits(s)
    ensures d < 10 && s == s[..|s| - 1] + [Digit(d)] && AllDigits(s[..|s| - 1])
    ensures Digits(s) == 10 * Digits(s[..|s| - 1]) + d
  {
    var last := s[|s| - 1];
    assert last in s && IsDigit(last);
    d := last as int - '0' as int;
    assert Digit(d) == last;
    assert forall c :: c in s[..|s| - 1] ==> c in s;
  }

  /** A text of digits is the decimal text of its value after some zeros. */
  lemma {:induction false} DecimalOfDigits(s: string) returns (k: nat)
    requires s != "" && AllDigits(s)
    ensures s == Zeros(k) + Decimal(Digits(s))
    decreases |s|
  {
    var d := LastDigit(s);
    var init := s[..|s| - 1];
    hide AllDigits, Digit;
    if init == "" {
      k := 0;
      assert Digits(init) == 0 && Zeros(0) == "";
    } else {
      k := DecimalOfDigits(init);
      var n := Digits(init);
      hide Digits;
      if n == 0 {
        assert Zeros(k) + Decimal(0) == Zeros(k + 1) by {
          ZeroDigit();
        }
        k := k + 1;
      } else {
        assert Decimal(10 * n + d) == Decimal(n) + [Digit(d)];
      }
    }
  }

  /** A number is read from its decimal text, with zeros or a plus sign before it or not, if it takes 64 bits
      at most; and from no other text. */
  lemma ParseInverts(k: nat, n: nat)
    requires n < 0x1_0000_0000_0000_0000
    ensures ParseU64(Zeros(k) + Decimal(n)) == Some(n) && ParseU64("+" + Zeros(k) + Decimal(n)) == Some(n)
  {
    var s := Zeros(k) + Decimal(n);
    DigitsOfDecimal(k, n);
    assert Decimal(n) != "" && s != "";
    assert s[0] in s;
    assert "+" + Zeros(k) + Decimal(n) == "+" + s;
    assert ("+" + s)[1..] == s;
  }

  lemma ParsedText(s: string) returns (k: nat)
    requires ParseU64(s).Some?
    ensures ParseU64(s).value < 0x1_0000_0000_0000_0000
    ensures var text := Zeros(k) + Decimal(ParseU64(s).value);
            s == text || s == "+" + text
  {
    var body := if s[0] == '+' then s[1..] else s;
    k := DecimalOfDigits(body);
    assert s[0] == '+' ==> s == "+" + body;
  }

  // ---- white space ----

  /** The code points that count as white space. */
  const WHITE_SPACE: set<int> :=
    {9, 10, 11, 12, 13, 32, 133, 160, 5760, 8192, 8193, 8194, 8195, 8196, 8197, 8198, 8199, 8200, 8201, 8202,
     8232, 8233, 8239, 8287, 12288}

  lemma WhitespaceIff(c: char)
    ensures IsWhitespace(c) <==> c as int in WHITE_SPACE
  {
  }

  predicate Blank(s: string) {
    forall c :: c in s ==> IsWhitespace(c)
  }

  lemma {:induction false} TrimStartDrops(pad: string, rest: string)
    requires Blank(pad) && (rest == "" || !IsWhitespace(rest[0]))
    ensures TrimStart(pad + rest) == rest
    decreases |pad|
  {
    hide IsWhitespace;
    if pad == "" {
      assert pad + rest == rest;
    } else {
      assert pad[0] in pad;
      assert (pad + rest)[1..] == pad[1..] + rest;
      TrimStartDrops(pad[1..], rest);
    }
  }

  lemma {:induction false} TrimEndDrops(rest: string, pad: string)
    requires Blank(pad) && (rest == "" || !IsWhitespace(rest[|rest| - 1]))
    ensures TrimEnd(rest + pad) == rest
    decreases |pad|
  {
    hide IsWhitespace;
    if pad == "" {
      assert rest + pad == rest;
    } else {
      var init := pad[..|pad| - 1];
      assert pad[|pad| - 1] in pad;
      assert forall c :: c in init ==> c in pad;
      assert (rest + pad)[..|rest + pad| - 1] == rest + init;
      TrimEndDrops(rest, init);
    }
  }

  /** Trimming takes off the white space around a text, and no more. */
  lemma TrimInverts(before: string, text: string, after: string)
    requires Blank(before) && Blank(after)
    requires text != "" ==> !IsWhitespace(text[0]) && !IsWhitespace(text[|text| - 1])
    ensures Trim(before + text + after) == text
  {
    hide IsWhitespace;
    if text == "" {
      assert before + text + after == (before + after) + "";
      assert Blank(before + after);
      TrimStartDrops(before + after, "");
    } else {
      assert before + text + after == before + (text + after);
      TrimStartDrops(before, text + after);
      TrimEndDrops(text, after);
    }
  }

  lemma DigitsAreNotBlank(s: string)
    requires AllDigits(s)
    ensures s != "" ==> !IsWhitespace(s[0]) && !IsWhitespace(s[|s| - 1])
  {
    if s != "" {
      assert s[0] in s && s[|s| - 1] in s;
      assert IsDigit(s[0]) && IsDigit(s[|s| - 1]);
    }
  }

  /** A Content-Length value that is a decimal number of 64 bits, with any white space around it, stands for
      that number. */
  lemma LengthOfDecimal(lib: Library, v: seq<Byte>, before: string, n: nat, after: string)
    requires Blank(before) && Blank(after) && n < 0x1_0000_0000_0000_0000
    requires lib.fromUtf8(v) == Some(before + Decimal(n) + after)
    ensures LengthOf(lib, v) == Some(n)
  {
    ParseInverts(0, n);
    DigitsOfDecimal(0, n);
    var text := Decimal(n);
    assert Zeros(0) + text == text;
    DigitsAreNotBlank(text);
    TrimInverts(before, text, after);
    hide ParseU64, Trim, IsWhitespace, Decimal, Zeros;
  }

  /** A value is signed exactly if its text, apart from white space around it, begins with a sign. */
  lemma SignedIff(lib: Library, v: seq<Byte>, before: string, text: string, after: string)
    requires Blank(before) && Blank(after) && lib.fromUtf8(v) == Some(before + text + after)
    requires text != "" ==> !IsWhitespace(text[0]) && !IsWhitespace(text[|text| - 1])
    ensures Signed(lib, v) <==> text != "" && text[0] in {'-', '+'}
  {
    TrimInverts(before, text, after);
    hide Trim, IsWhitespace;
  }

  /** Values conflict exactly if two of their texts differ, a value that is no text counting as empty. */
  lemma AllSameIff(lib: Library, vs: seq<seq<Byte>>)
    requires vs != []
    ensures AllSame(lib, vs)
       <==> forall i, j :: 0 <= i < j < |vs| ==>
              match (lib.fromUtf8(vs[i]), lib.fromUtf8(vs[j]))
              case (Some(a), Some(b)) => a == b
              case (Some(a), None) => a == ""
              case (None, Some(b)) => b == ""
              case (None, None) => true
  {
    if AllSame(lib, vs) {
      assert forall i :: 0 <= i < |vs| ==> vs[i] in vs;
    } else {
      var v :| v in vs && TextOrEmpty(lib, v) != TextOrEmpty(lib, vs[0]);
      var k :| 0 <= k < |vs| && vs[k] == v;
    }
  }

  // ---- lists ----

  function JoinedFrom(parts: seq<string>): string
    decreases |parts|
  {
    if parts == [] then "" else "," + parts[0] + JoinedFrom(parts[1..])
  }

  lemma SplitAfterChar(c: char, s: string)
    requires c != ',' && Split(s) != []
    ensures Split([c] + s) == [[c] + Split(s)[0]] + Split(s)[1..]
  {
    assert ([c] + s)[1..] == s;
  }

  lemma SplitAfterComma(s: string)
    ensures Split("," + s) == [""] + Split(s)
  {
    assert ("," + s)[1..] == s;
  }

  lemma {:induction false} SplitFirst(part: string, rest: seq<string>)
    requires ',' !in part && forall p :: p in rest ==> ',' !in p
    ensures Split(part + JoinedFrom(rest)) == [part] + rest
    decreases |rest|, |part|
  {
    if part == "" {
      assert part + JoinedFrom(rest) == JoinedFrom(rest);
      if rest != [] {
        assert rest[0] in rest;
        SplitFirst(rest[0], rest[1..]);
        SplitAfterComma(rest[0] + JoinedFrom(rest[1..]));
        assert JoinedFrom(rest) == "," + (rest[0] + JoinedFrom(rest[1..]));
        hide Split, JoinedFrom;
        assert [rest[0]] + rest[1..] == rest;
      }
    } else {
      var s := part[1..] + JoinedFrom(rest);
      assert part[0] in part;
      SplitFirst(part[1..], rest);
      SplitAfterChar(part[0], s);
      assert part + JoinedFrom(rest) == [part[0]] + s;
      hide Split, JoinedFrom;
      assert [part[0]] + part[1..] == part;
      assert ([part[1..]] + rest)[1..] == rest;
    }
  }

  /** Codings listed with commas, with white space around each or not, are read back one by one. */
  lemma TokensInvert(pads: seq<(string, string)>, codings: seq<string>)
    requires |pads| == |codings| > 0
    requires forall i :: 0 <= i < |codings| ==>
               && Blank(pads[i].0) && Blank(pads[i].1) && ',' !in pads[i].0 && ',' !in pads[i].1 && ',' !in codings[i]
               && (codings[i] != "" ==>
                     !IsWhitespace(codings[i][0]) && !IsWhitespace(codings[i][|codings[i]| - 1]))
    ensures var parts := seq(|codings|, i requires 0 <= i < |codings| => pads[i].0 + codings[i] + pads[i].1);
            Tokens(parts[0] + JoinedFrom(parts[1..])) == codings
  {
    hide IsWhitespace;
    var parts := seq(|codings|, i requires 0 <= i < |codings| => pads[i].0 + codings[i] + pads[i].1);
    forall p | p in parts
      ensures ',' !in p
    {
      var i :| 0 <= i < |parts| && parts[i] == p;
    }
    SplitFirst(parts[0], parts[1..]);
    assert [parts[0]] + parts[1..] == parts;
    hide Split, Trim, JoinedFrom;
    forall i | 0 <= i < |codings|
      ensures Trim(parts[i]) == codings[i]
    {
      TrimInverts(pads[i].0, codings[i], pads[i].1);
    }
  }
}
