/** The two validators of request headers (`ProtocolValidator`) and their checks of message framing
    (section 6.3 of RFC 9112 and section 8.6 of RFC 9110). */
module Framing {
  import opened Common

  const MAX_HEADERS_COUNT: nat := 128
  const KNOWN_ENCODINGS: seq<string> := ["gzip", "compress", "deflate", "br", "identity"]

  datatype Severity = Pass | Warn | Reject

  datatype Kind =
    | TooManyHeaders | InvalidHeaderName | InvalidHeaderValue
    | ContentLengthMismatch | DoubleContentLength | ConflictingContentLength
    | TransferEncodingInvalid | TransferEncodingWithContentLength | NonStandardEncoding | InvalidChunkSize
    | StartLine(code: nat)  // any finding about the method, path or version

  datatype Entry = Entry(kind: Kind, severity: Severity)

  datatype Header = Header(name: string, value: seq<Byte>)

  /** Text operations of the standard library; nothing below depends on what they do. */
  datatype Library = Library(fromUtf8: seq<Byte> -> Option<string>, toLowercase: string -> string)

  // ---- text ----

  function LowerChar(c: char): char {
    if 'A' <= c <= 'Z' then (c as int + 32) as char else c
  }

  function Lower(s: string): string {
    seq(|s|, i requires 0 <= i < |s| => LowerChar(s[i]))
  }

  predicate SameName(a: string, b: string) {
    Lower(a) == Lower(b)
  }

  predicate IsWhitespace(c: char) {
    var n := c as int;
    0x09 <= n <= 0x0D || n == 0x20 || n == 0x85 || n == 0xA0 || n == 0x1680 || 0x2000 <= n <= 0x200A
    || n == 0x2028 || n == 0x2029 || n == 0x202F || n == 0x205F || n == 0x3000
  }

  function TrimStart(s: string): string
    decreases |s|
  {
    if s != "" && IsWhitespace(s[0]) then TrimStart(s[1..]) else s
  }

  function TrimEnd(s: string): string
    decreases |s|
  {
    if s != "" && IsWhitespace(s[|s| - 1]) then TrimEnd(s[..|s| - 1]) else s
  }

  function Trim(s: string): string {
    TrimEnd(TrimStart(s))
  }

  predicate IsDigit(c: char) {
    '0' <= c <= '9'
  }

  function Digits(s: string): nat
    requires forall c :: c in s ==> IsDigit(c)
    decreases |s|
  {
    if s == "" then 0 else
      var last := s[|s| - 1];
      assert IsDigit(last);
      10 * Digits(s[..|s| - 1]) + (last as int - '0' as int)
  }

  /** `parse::<u64>`, which takes one leading plus sign. */
  function ParseU64(s: string): Option<nat> {
    var body := if s != "" && s[0] == '+' then s[1..] else s;
    if body != "" && (forall c :: c in body ==> IsDigit(c)) && Digits(body) <= U64_MAX
    then Some(Digits(body)) else None
  }

  function Split(s: string): seq<string>
    decreases |s|
  {
    if s == "" then [""]
    else if s[0] == ',' then [""] + Split(s[1..])
    else
      var rest := Split(s[1..]);
      if rest == [] then [[s[0]]] else [[s[0]] + rest[0]] + rest[1..]
  }

  // ---- what each check adds to the entries found so far ----

  predicate Has(es: seq<Entry>, s: Severity) {
    exists i :: 0 <= i < |es| && es[i].severity == s
  }

  function AddIf(es: seq<Entry>, found: bool, kind: Kind, severity: Severity): seq<Entry> {
    if found then es + [Entry(kind, severity)] else es
  }

  predicate IsAlphanumeric(c: char) {
    'a' <= c <= 'z' || 'A' <= c <= 'Z' || IsDigit(c)
  }

  predicate ValidHeaderName(name: string) {
    && 0 < |name| <= 256
    && (forall c :: c in name ==> IsAlphanumeric(c) || c == '-' || c == '_' || c == '.')
    && IsAlphanumeric(name[0])
  }

  predicate ValidHeaderValue(value: seq<Byte>) {
    value == [] || (|value| <= 32768 && 0 !in value && 0x0A !in value && 0x0D !in value)
  }

  function CountChecked(es: seq<Entry>, hs: seq<Header>): seq<Entry> {
    AddIf(es, |hs| > MAX_HEADERS_COUNT, TooManyHeaders, Reject)
  }

  function HeaderChecked(es: seq<Entry>, h: Header): seq<Entry> {
    AddIf(AddIf(es, !ValidHeaderName(h.name), InvalidHeaderName, Reject),
          !ValidHeaderValue(h.value), InvalidHeaderValue, Reject)
  }

  function HeadersChecked(es: seq<Entry>, hs: seq<Header>): seq<Entry>
    decreases |hs|
  {
    if hs == [] then es else HeaderChecked(HeadersChecked(es, hs[..|hs| - 1]), hs[|hs| - 1])
  }

  /** The values of the headers of that name, in order. */
  function ValuesOf(hs: seq<Header>, name: string): seq<seq<Byte>>
    decreases |hs|
  {
    if hs == [] then [] else
      ValuesOf(hs[..|hs| - 1], name) + if SameName(hs[|hs| - 1].name, name) then [hs[|hs| - 1].value] else []
  }

  /** The text of a value, empty if it has none. */
  function TextOrEmpty(lib: Library, v: seq<Byte>): string {
    if lib.fromUtf8(v).Some? then lib.fromUtf8(v).value else ""
  }

  predicate AllSame(lib: Library, vs: seq<seq<Byte>>) {
    forall v :: v in vs ==> TextOrEmpty(lib, v) == TextOrEmpty(lib, vs[0])
  }

  /** The length a header value stands for, if it is one. */
  function LengthOf(lib: Library, v: seq<Byte>): Option<nat> {
    if lib.fromUtf8(v).Some? then ParseU64(Trim(lib.fromUtf8(v).value)) else None
  }

  predicate Signed(lib: Library, v: seq<Byte>) {
    lib.fromUtf8(v).Some?
    && var t := Trim(lib.fromUtf8(v).value);
       t != "" && (t[0] == '-' || t[0] == '+')
  }

  /** The check of the Content-Length values, and the length it reports. */
  function LengthChecked(lib: Library, es: seq<Entry>, vs: seq<seq<Byte>>): (seq<Entry>, Option<nat>)
    requires vs != []
  {
    if |vs| > 1 && !AllSame(lib, vs) then (es + [Entry(ConflictingContentLength, Reject)], None)
    else
      var doubled := AddIf(es, |vs| > 1, DoubleContentLength, Warn);
      var bad := lib.fromUtf8(vs[0]).None? || Signed(lib, vs[0]);
      (AddIf(doubled, LengthOf(lib, vs[0]).None?, ContentLengthMismatch, if bad then Reject else Warn),
       LengthOf(lib, vs[0]))
  }

  function TokenChecked(lib: Library, es: seq<Entry>, token: string): seq<Entry> {
    var lower := lib.toLowercase(token);
    if lower == "chunked" || lower in KNOWN_ENCODINGS then es
    else if lower == "" then es + [Entry(TransferEncodingInvalid, Reject)]
    else es + [Entry(NonStandardEncoding, Warn)]
  }

  function TokensChecked(lib: Library, es: seq<Entry>, tokens: seq<string>): seq<Entry>
    decreases |tokens|
  {
    if tokens == [] then es
    else TokenChecked(lib, TokensChecked(lib, es, tokens[..|tokens| - 1]), tokens[|tokens| - 1])
  }

  function Tokens(text: string): seq<string> {
    var parts := Split(text);
    seq(|parts|, i requires 0 <= i < |parts| => Trim(parts[i]))
  }

  predicate NamesChunked(lib: Library, tokens: seq<string>) {
    exists i :: 0 <= i < |tokens| && lib.toLowercase(tokens[i]) == "chunked"
  }

  predicate ChunkedNotLast(tokens: seq<string>) {
    && |tokens| > 1 && (exists i :: 0 <= i < |tokens| && SameName(tokens[i], "chunked"))
    && !SameName(tokens[|tokens| - 1], "chunked")
  }

  function EncodingChecked(lib: Library, es: seq<Entry>, te: seq<Byte>, hasLength: bool): (seq<Entry>, bool) {
    match lib.fromUtf8(te)
    case None => (es + [Entry(TransferEncodingInvalid, Reject)], false)
    case Some(text) =>
      var tokens := Tokens(Trim(text));
      var both := AddIf(es, hasLength, TransferEncodingWithContentLength, Reject);
      (AddIf(TokensChecked(lib, both, tokens), ChunkedNotLast(tokens), InvalidChunkSize, Warn),
       NamesChunked(lib, tokens))
  }

  /** The framing checks of a parsed request, the length they report and whether it is chunked. */
  function FramingChecked(lib: Library, es: seq<Entry>, hs: seq<Header>): (seq<Entry>, Option<nat>, bool) {
    var lengths := ValuesOf(hs, "content-length");
    var encodings := ValuesOf(hs, "transfer-encoding");
    var (le, n) := if lengths == [] then (es, None) else LengthChecked(lib, es, lengths);
    var (te, chunked) := if encodings == [] then (le, false)
                         else EncodingChecked(lib, le, encodings[0], lengths != []);
    (te, n, chunked)
  }

  /** The checks of a parsed request's headers, after `es` has been found in its start line. */
  function RequestChecked(lib: Library, es: seq<Entry>, hs: seq<Header>): (seq<Entry>, Option<nat>, bool) {
    FramingChecked(lib, HeadersChecked(CountChecked(es, hs), hs), hs)
  }

  /** One header in the loop of the other validator: the entries and the length noted after it. */
  function ListedChecked(lib: Library, es: seq<Entry>, n: Option<nat>, h: Header, repeated: bool)
    : (seq<Entry>, Option<nat>)
  {
    var named := HeaderChecked(es, h);
    if !SameName(h.name, "content-length") then (named, n) else
      var doubled := AddIf(named, repeated, DoubleContentLength, Reject);
      if lib.fromUtf8(h.value).None? then (doubled, n)
      else if LengthOf(lib, h.value).None? then (doubled + [Entry(ContentLengthMismatch, Reject)], n)
      else (doubled, LengthOf(lib, h.value))
  }

  function ListChecked(lib: Library, es: seq<Entry>, hs: seq<Header>): (seq<Entry>, Option<nat>)
    decreases |hs|
  {
    if hs == [] then (es, None) else
      var earlier := hs[..|hs| - 1];
      var (before, n) := ListChecked(lib, es, earlier);
      ListedChecked(lib, before, n, hs[|hs| - 1], ValuesOf(earlier, "content-length") != [])
  }

  function HeaderListChecked(lib: Library, hs: seq<Header>): (seq<Entry>, Option<nat>) {
    var (es, n) := ListChecked(lib, CountChecked([], hs), hs);
    (AddIf(es, ValuesOf(hs, "content-length") != [] && ValuesOf(hs, "transfer-encoding") != [],
           TransferEncodingWithContentLength, Reject), n)
  }

  // ---- the accumulating result ----

  class ValidResult {
    var passed: bool
    var severity: Severity
    var errors: seq<Entry>
    var contentLength: Option<nat>
    var isChunked: bool
    var headersCount: nat

    /** The request has passed, the severity is not Reject and no entry is one, or none of the three. */
    ghost predicate Valid()
      reads this
    {
      && (passed <==> !Has(errors, Reject))
      && (severity == Reject <==> Has(errors, Reject))
      && (severity == Pass <==> errors == [])
      && !Has(errors, Pass)
    }

    constructor ()
      ensures Valid() && errors == [] && contentLength == None && !isChunked && headersCount == 0
    {
      passed, severity, errors := true, Pass, [];
      contentLength, isChunked, headersCount := None, false, 0;
    }

    method AddError(kind: Kind, severity: Severity)
      requires Valid() && severity != Pass
      modifies this`passed, this`severity, this`errors
      ensures Valid() && errors == old(errors) + [Entry(kind, severity)]
    {
      if severity == Reject {
        passed := false;
      }
      if this.severity != Reject {
        this.severity := severity;
      }
      errors := errors + [Entry(kind, severity)];
      assert errors[|errors| - 1].severity == severity;
      assert forall i :: 0 <= i < |old(errors)| ==> errors[i] == old(errors)[i];
    }
  }

  class Validator {
    const lib: Library

    constructor (lib: Library)
      ensures this.lib == lib
    {
      this.lib := lib;
    }

    method CollectValues(hs: seq<Header>, name: string) returns (values: seq<seq<Byte>>)
      ensures values == ValuesOf(hs, name)
    {
      values := [];
      var i := 0;
      while i < |hs|
        invariant 0 <= i <= |hs|
        invariant values == ValuesOf(hs[..i], name)
      {
        assert hs[..i + 1][..i] == hs[..i];
        if SameName(hs[i].name, name) {
          values := values + [hs[i].value];
        }
        i := i + 1;
      }
      assert hs[..|hs|] == hs;
    }

    method ValidateEachHeader(hs: seq<Header>, result: ValidResult)
      requires result.Valid()
      modifies result`passed, result`severity, result`errors
      ensures result.Valid() && result.errors == HeadersChecked(old(result.errors), hs)
    {
      hide ValidHeaderName, ValidHeaderValue, Has;
      var i := 0;
      while i < |hs|
        invariant 0 <= i <= |hs|
        invariant result.Valid() && result.errors == HeadersChecked(old(result.errors), hs[..i])
      {
        assert hs[..i + 1][..i] == hs[..i];
        if !ValidHeaderName(hs[i].name) {
          result.AddError(InvalidHeaderName, Reject);
        }
        if !ValidHeaderValue(hs[i].value) {
          result.AddError(InvalidHeaderValue, Reject);
        }
        i := i + 1;
      }
      assert hs[..|hs|] == hs;
    }

    method ValidateContentLength(hs: seq<Header>, result: ValidResult)
      requires result.Valid() && ValuesOf(hs, "content-length") != []
      modifies result`passed, result`severity, result`errors, result`contentLength, result`isChunked
      ensures result.Valid() && result.isChunked == old(result.isChunked)
      ensures var (es, n) := LengthChecked(lib, old(result.errors), ValuesOf(hs, "content-length"));
              result.errors == es && result.contentLength == if n.Some? then n else old(result.contentLength)
    {
      hide ParseU64, Trim, Has;
      var values := CollectValues(hs, "content-length");
      if |values| > 1 {
        var first := TextOrEmpty(lib, values[0]);
        if forall v :: v in values ==> TextOrEmpty(lib, v) == first {
          result.AddError(DoubleContentLength, Warn);
        } else {
          result.AddError(ConflictingContentLength, Reject);
          return;
        }
      }
      var text := lib.fromUtf8(values[0]);
      if text.None? {
        result.AddError(ContentLengthMismatch, Reject);
        return;
      }
      var trimmed := Trim(text.value);
      var n := ParseU64(trimmed);
      if n.Some? {
        result.contentLength := n;
      } else if trimmed != "" && (trimmed[0] == '-' || trimmed[0] == '+') {
        result.AddError(ContentLengthMismatch, Reject);
      } else {
        result.AddError(ContentLengthMismatch, Warn);
      }
    }

    /** The loop of `ValidateTransferEncoding` over the listed codings. */
    method ValidateTokens(tokens: seq<string>, result: ValidResult)
      requires result.Valid()
      modifies result`passed, result`severity, result`errors, result`isChunked
      ensures result.Valid() && result.errors == TokensChecked(lib, old(result.errors), tokens)
      ensures result.isChunked == (old(result.isChunked) || NamesChunked(lib, tokens))
    {
      hide Has;
      var i := 0;
      while i < |tokens|
        invariant 0 <= i <= |tokens|
        invariant result.Valid() && result.errors == TokensChecked(lib, old(result.errors), tokens[..i])
        invariant result.isChunked == (old(result.isChunked) || NamesChunked(lib, tokens[..i]))
      {
        assert tokens[..i + 1][..i] == tokens[..i];
        assert NamesChunked(lib, tokens[..i + 1])
          <==> NamesChunked(lib, tokens[..i]) || lib.toLowercase(tokens[i]) == "chunked" by {
          assert tokens[..i + 1][i] == tokens[i];
          assert forall j :: 0 <= j < i ==> tokens[..i + 1][j] == tokens[..i][j];
        }
        var lower := lib.toLowercase(tokens[i]);
        if lower == "chunked" {
          result.isChunked := true;
        } else if lower in KNOWN_ENCODINGS {
        } else if lower == "" {
          result.AddError(TransferEncodingInvalid, Reject);
        } else {
          result.AddError(NonStandardEncoding, Warn);
        }
        i := i + 1;
      }
      assert tokens[..|tokens|] == tokens;
    }

    method ValidateTransferEncoding(te: seq<Byte>, hs: seq<Header>, result: ValidResult)
      requires result.Valid()
      modifies result`passed, result`severity, result`errors, result`contentLength, result`isChunked
      ensures result.Valid() && result.contentLength == old(result.contentLength)
      ensures var (es, chunked) := EncodingChecked(lib, old(result.errors), te, ValuesOf(hs, "content-length") != []);
              result.errors == es && result.isChunked == (old(result.isChunked) || chunked)
    {
      hide Has, TokensChecked, NamesChunked, ChunkedNotLast, Tokens, Trim;
      var text := lib.fromUtf8(te);
      if text.None? {
        result.AddError(TransferEncodingInvalid, Reject);
        return;
      }
      var lengths := CollectValues(hs, "content-length");
      if lengths != [] {
        result.AddError(TransferEncodingWithContentLength, Reject);
      }
      var tokens := Tokens(Trim(text.value));
      ValidateTokens(tokens, result);
      if ChunkedNotLast(tokens) {
        result.AddError(InvalidChunkSize, Warn);
      }
    }

    /** The header half of `validate_parsed_request`; the result already holds the start line's entries. */
    method ValidateParsedHeaders(hs: seq<Header>, result: ValidResult)
      requires result.Valid()
      modifies result
      ensures result.Valid() && result.headersCount == |hs|
      ensures var (es, n, chunked) := RequestChecked(lib, old(result.errors), hs);
              && result.errors == es
              && result.contentLength == (if n.Some? then n else old(result.contentLength))
              && result.isChunked == (old(result.isChunked) || chunked)
    {
      hide Has, HeadersChecked, LengthChecked, EncodingChecked;
      result.headersCount := |hs|;
      if |hs| > MAX_HEADERS_COUNT {
        result.AddError(TooManyHeaders, Reject);
      }
      ValidateEachHeader(hs, result);
      var lengths := CollectValues(hs, "content-length");
      if lengths != [] {
        ValidateContentLength(hs, result);
      }
      var encodings := CollectValues(hs, "transfer-encoding");
      if encodings != [] {
        ValidateTransferEncoding(encodings[0], hs, result);
      }
    }

    /** The loop body of `ValidateHeaders`. */
    method ValidateListed(h: Header, repeated: bool, result: ValidResult)
      requires result.Valid()
      modifies result`passed, result`severity, result`errors, result`contentLength
      ensures result.Valid()
      ensures (result.errors, result.contentLength)
           == ListedChecked(lib, old(result.errors), old(result.contentLength), h, repeated)
    {
      hide Has, ParseU64, Trim, ValidHeaderName, ValidHeaderValue, SameName;
      if !ValidHeaderName(h.name) {
        result.AddError(InvalidHeaderName, Reject);
      }
      if !ValidHeaderValue(h.value) {
        result.AddError(InvalidHeaderValue, Reject);
      }
      if SameName(h.name, "content-length") {
        if repeated {
          result.AddError(DoubleContentLength, Reject);
        }
        var text := lib.fromUtf8(h.value);
        if text.Some? {
          if ParseU64(Trim(text.value)).None? {
            result.AddError(ContentLengthMismatch, Reject);
          } else {
            result.contentLength := ParseU64(Trim(text.value));
          }
        }
      }
    }

    method ValidateHeaders(hs: seq<Header>) returns (result: ValidResult)
      ensures fresh(result) && result.Valid() && result.headersCount == |hs|
      ensures (result.errors, result.contentLength) == HeaderListChecked(lib, hs)
    {
      hide Has, ListedChecked, SameName;
      result := new ValidResult();
      result.headersCount := |hs|;
      if |hs| > MAX_HEADERS_COUNT {
        result.AddError(TooManyHeaders, Reject);
      }
      ghost var counted := result.errors;
      var hasLength, hasEncoding := false, false;
      var i := 0;
      while i < |hs|
        invariant 0 <= i <= |hs|
        invariant result.Valid() && fresh(result) && result.headersCount == |hs|
        invariant (result.errors, result.contentLength) == ListChecked(lib, counted, hs[..i])
        invariant hasLength <==> ValuesOf(hs[..i], "content-length") != []
        invariant hasEncoding <==> ValuesOf(hs[..i], "transfer-encoding") != []
      {
        assert hs[..i + 1][..i] == hs[..i];
        ValidateListed(hs[i], hasLength, result);
        if SameName(hs[i].name, "content-length") {
          hasLength := true;
        }
        if SameName(hs[i].name, "transfer-encoding") {
          hasEncoding := true;
        }
        i := i + 1;
      }
      assert hs[..|hs|] == hs;
      if hasLength && hasEncoding {
        result.AddError(TransferEncodingWithContentLength, Reject);
      }
    }
  }
}
